/** Planning a resource before it is written: annotations and envelope entries
    resolved in sorted order (internal/emit/annotations.go,
    internal/emit/envelope.go). */
module Plans {
  import opened Seqs
  import opened Template
  import opened Text
  import opened Refs
  import opened Params
  import opened Paths
  import opened Blueprint
  import opened Wires
  import E = Envelope
  import EnvelopeEmit
  import EnvelopeMeaning
  import EnvelopeOrder
  import M = MapField

  /** What the plan takes from outside the model: how a decimal default reads
      as a number, the literal text an entry that is no wire becomes, what the
      schema says of an envelope path, and which texts are flow maps of scalars,
      which are never empty (ParseFlowStyleMap). */
  type FlowMap = m: map<string, string> | m.Keys != {} witness var m := map["" := ""]; assert "" in m.Keys; m

  datatype Surface = Surface(
    number: string -> real,
    text: Field -> string,
    quoted: string -> bool,
    branch: string -> bool,
    flow: string -> Option<FlowMap>)

  // ----- annotations -----

  function Annotation(d: Document, k: string, f: Field, out: Surface): M.Field {
    if f.value != "" || f.raw != "" || f.template != "" then M.Field(k, Literal(out.text(f)), None, false, false, [])
    else
      var p := WirePlan(d, f.from, out.number);
      var r := ParseFrom(f.from);
      if p.Some? then M.Field(k, Wire(p.value.expr, true), p.value.guard, p.value.status, false, [])
      else if r.Some? && r.value.NameOf? then M.Field(k, Composed(r.value.resource), None, false, false, [])
      else M.Field(k, Literal(""), None, false, false, [])
  }

  /** In key order, every annotation once. */
  predicate AnnotationPlan(d: Document, r: Resource, out: Surface, plan: M.Fields) {
    && (forall i, j :: 0 <= i < j < |plan| ==> Less(plan[i].path, plan[j].path))
    && (forall f :: f in plan ==> f.path in r.annotations && f == Annotation(d, f.path, r.annotations[f.path], out))
    && (forall k :: k in r.annotations ==> Annotation(d, k, r.annotations[k], out) in plan)
  }

  function AnnotationsAt(d: Document, r: Resource, out: Surface, ks: seq<string>): (plan: M.Fields)
    requires forall k :: k in ks ==> k in r.annotations
    ensures |plan| == |ks|
    ensures forall i :: 0 <= i < |ks| ==>
            plan[i] == Annotation(d, ks[i], r.annotations[ks[i]], out)
            && plan[i].path == ks[i]
  {
    seq(|ks|, i requires 0 <= i < |ks| => Annotation(d, ks[i], r.annotations[ks[i]], out))
  }

  lemma AnnotationsPlanned(d: Document, r: Resource, out: Surface, ks: seq<string>)
    requires StrictlySorted(ks) && forall k :: k in ks <==> k in r.annotations
    ensures AnnotationPlan(d, r, out, AnnotationsAt(d, r, out, ks))
  {
    var plan := AnnotationsAt(d, r, out, ks);
    forall k | k in r.annotations ensures Annotation(d, k, r.annotations[k], out) in plan {
      var j :| 0 <= j < |ks| && ks[j] == k;
      assert plan[j] == Annotation(d, k, r.annotations[k], out);
    }
    forall f | f in plan ensures f.path in r.annotations && f == Annotation(d, f.path, r.annotations[f.path], out) {
      var j :| 0 <= j < |plan| && plan[j] == f;
      assert ks[j] in ks;
    }
  }

  method PlanAnnotations(d: Document, r: Resource, out: Surface) returns (plan: M.Fields)
    requires forall k :: k in r.annotations ==> AnnotationOk(d, r, r.annotations[k])
    ensures AnnotationPlan(d, r, out, plan)
  {
    var keys := SortedKeys(r.annotations.Keys);
    assert forall k :: k in keys <==> k in r.annotations;
    ghost var all := AnnotationsAt(d, r, out, keys);
    plan := [];
    for i := 0 to |keys|
      invariant plan == all[..i]
    {
      assert keys[i] in keys;
      var a := PlanAnnotation(d, keys[i], r.annotations[keys[i]], out);
      Grown(all, i);
      plan := plan + [a];
    }
    AnnotationsPlanned(d, r, out, keys);
  }

  method PlanAnnotation(d: Document, k: string, f: Field, out: Surface) returns (a: M.Field)
    ensures a == Annotation(d, k, f, out)
  {
    if f.value != "" || f.raw != "" || f.template != "" {
      return M.Field(k, Literal(out.text(f)), None, false, false, []);
    }
    var ref := ParseFrom(f.from);
    if ref.Some? && ref.value.NameOf? {
      return M.Field(k, Composed(ref.value.resource), None, false, false, []);
    }
    var p := WirePlan(d, f.from, out.number);
    if p.Some? {
      return M.Field(k, Wire(p.value.expr, true), p.value.guard, p.value.status, false, []);
    }
    return M.Field(k, Literal(""), None, false, false, []);
  }

  // ----- the envelope -----

  function EnvelopeEntry(d: Document, p: string, f: Field, out: Surface): E.EnvField {
    if f.raw != "" || f.value != "" then E.EnvField(Split(p, '.'), Literal(out.text(f)), None)
    else
      var w := WirePlan(d, f.from, out.number);
      if w.Some? then E.EnvField(Split(p, '.'), Wire(w.value.expr, out.quoted(p)), w.value.guard)
      else E.EnvField(Split(p, '.'), Literal(""), None)
  }

  /** A raw flow map on an object is spread into one entry for each of its keys. */
  predicate Spread(p: string, f: Field, out: Surface) {
    f.raw != "" && out.branch(p) && out.flow(f.raw).Some?
  }

  /** quoteYAML. */
  function QuoteYaml(s: string): string {
    "'" + Doubled(s) + "'"
  }

  function Doubled(s: string): string {
    if s == "" then "" else (if s[0] == '\'' then "''" else [s[0]]) + Doubled(s[1..])
  }

  /** A single-quoted scalar as YAML reads it on one line (section 7.3.2 of YAML
      1.2): up to the closing quote, a doubled quote standing for one. */
  function ReadQuoted(t: string): Option<string> {
    if t == "" || t[0] != '\'' then None else ReadInner(t[1..])
  }

  function ReadInner(t: string): Option<string> {
    if t == "" || t == "'" then (if t == "" then None else Some(""))
    else if t[0] == '\'' then
      if t[1] != '\'' || ReadInner(t[2..]).None? then None else Some("'" + ReadInner(t[2..]).value)
    else if ReadInner(t[1..]).None? then None else Some([t[0]] + ReadInner(t[1..]).value)
  }

  /** Quoting loses nothing, whatever quotes the text contains. */
  lemma {:induction false} QuoteReadsBack(s: string)
    ensures ReadQuoted(QuoteYaml(s)) == Some(s)
  {
    assert QuoteYaml(s)[1..] == Doubled(s) + "'";
    DoubledReadsBack(s);
  }

  lemma {:induction false} DoubledReadsBack(s: string)
    ensures ReadInner(Doubled(s) + "'") == Some(s)
  {
    var t := Doubled(s) + "'";
    if s == "" {
      assert t == "'";
    } else {
      DoubledReadsBack(s[1..]);
      var n := if s[0] == '\'' then 2 else 1;
      assert t[n..] == Doubled(s[1..]) + "'";
      assert s == [s[0]] + s[1..];
    }
  }

  function SpreadEntry(p: string, key: string, value: string): E.EnvField {
    E.EnvField(Split(p, '.') + [key], Literal(QuoteYaml(value)), None)
  }

  ghost function SpreadEntries(p: string, m: FlowMap): (es: E.Plan)
    ensures |es| == |KeysOf(m.Keys)|
    ensures forall i :: 0 <= i < |es| ==>
            KeysOf(m.Keys)[i] in m
            && es[i] == SpreadEntry(p, KeysOf(m.Keys)[i], m[KeysOf(m.Keys)[i]])
  {
    var ks := KeysOf(m.Keys);
    assert forall i :: 0 <= i < |ks| ==> ks[i] in ks;
    seq(|ks|, i requires 0 <= i < |ks| => SpreadEntry(p, ks[i], m[ks[i]]))
  }

  ghost function EntriesOf(d: Document, p: string, f: Field, out: Surface): E.Plan {
    if Spread(p, f, out) then SpreadEntries(p, out.flow(f.raw).value) else [EnvelopeEntry(d, p, f, out)]
  }

  ghost function EntriesAt(d: Document, envelope: FieldMap, out: Surface, ks: seq<string>): E.Plan
    requires forall k :: k in ks ==> k in envelope
  {
    if ks == [] then []
    else
      var k := ks[|ks| - 1];
      EntriesAt(d, envelope, out, ks[..|ks| - 1]) + EntriesOf(d, k, envelope[k], out)
  }

  /** The blueprint's own entries, in path order. */
  ghost function EnvelopeEntries(d: Document, r: Resource, out: Surface): E.Plan {
    EntriesAt(d, r.envelope, out, KeysOf(r.envelope.Keys))
  }

  /** The entries together with what planEnvelope adds to providerConfigRef. */
  ghost function EnvelopePlan(d: Document, r: Resource, out: Surface): E.Plan {
    var base := EnvelopeEntries(d, r, out);
    EnvelopeEmit.SortPlan(base + EnvelopeEmit.Missing(base))
  }

  method SpreadMap(p: string, m: FlowMap) returns (es: E.Plan)
    ensures es == SpreadEntries(p, m)
  {
    var keys := SortedKeys(m.Keys);
    ghost var all := SpreadEntries(p, m);
    es := [];
    for i := 0 to |keys|
      invariant es == all[..i]
    {
      assert keys[i] in keys;
      Grown(all, i);
      es := es + [SpreadEntry(p, keys[i], m[keys[i]])];
    }
  }

  method PlanEntry(d: Document, p: string, f: Field, out: Surface) returns (es: E.Plan)
    ensures es == EntriesOf(d, p, f, out)
  {
    if f.raw != "" && out.branch(p) && out.flow(f.raw).Some? {
      es := SpreadMap(p, out.flow(f.raw).value);
    } else {
      es := [EnvelopeEntry(d, p, f, out)];
    }
  }

  lemma EntriesNext(d: Document, envelope: FieldMap, out: Surface, ks: seq<string>, i: nat)
    requires i < |ks| && forall k :: k in ks ==> k in envelope
    ensures forall k :: k in ks[..i] ==> k in envelope
    ensures forall k :: k in ks[..i + 1] ==> k in envelope
    ensures EntriesAt(d, envelope, out, ks[..i + 1]) ==
            EntriesAt(d, envelope, out, ks[..i]) + EntriesOf(d, ks[i], envelope[ks[i]], out)
  {
    assert ks[..i + 1][..i] == ks[..i];
  }

  method PlanEnvelope(d: Document, r: Resource, out: Surface) returns (plan: E.Plan)
    ensures plan == EnvelopePlan(d, r, out)
  {
    var paths := SortedKeys(r.envelope.Keys);
    var entries := PlanEntries(d, r.envelope, out, paths);
    plan := EnvelopeEmit.CompletePlan(entries);
  }

  method PlanEntries(d: Document, envelope: FieldMap, out: Surface, paths: seq<string>) returns (entries: E.Plan)
    requires forall k :: k in paths ==> k in envelope
    ensures entries == EntriesAt(d, envelope, out, paths)
  {
    entries := [];
    for i := 0 to |paths|
      invariant entries == EntriesAt(d, envelope, out, paths[..i])
    {
      EntriesNext(d, envelope, out, paths, i);
      assert paths[i] in paths;
      var es := PlanEntry(d, paths[i], envelope[paths[i]], out);
      entries := entries + es;
    }
    assert paths[..|paths|] == paths;
  }

  // ----- planned entries are safe to render -----

  lemma AnnotationSafe(d: Document, r: Resource, k: string, out: Surface, ctx: Context)
    requires EnvironmentOk(d) && DefaultsPrint(d) && Admitted(d, ctx)
    requires k in r.annotations && AnnotationOk(d, r, r.annotations[k]) && Observes(ctx, r.annotations[k].from)
    ensures var f := r.annotations[k];
            var a := Annotation(d, k, f, out);
            && M.Safe(a, ctx)
            && (M.Fires(a, ctx) <==>
                f.from == "" || WirePlan(d, f.from, out.number).None?
                || WireValue(d, f.from, ctx, out.number).Some?)
  {
    var f := r.annotations[k];
    CountParts(f.from, f.value, f.raw, f.template);
    if f.from != "" && WirePlan(d, f.from, out.number).Some? {
      WireExact(d, f.from, ctx, out.number);
      WiredSafe(k, WirePlan(d, f.from, out.number).value, WireValue(d, f.from, ctx, out.number), ctx);
    } else {
      PlainSafe(Annotation(d, k, f, out), ctx);
    }
  }

  lemma WiredSafe(k: string, p: Planned, v: Option<Value>, ctx: Context)
    requires p.guard.None? ==> v.Some?
    requires p.guard.Some? ==> Decides(p.guard.value, ctx) && (Holds(p.guard.value, ctx) <==> v.Some?)
    requires v.Some? ==> Eval(p.expr, ctx) == Ok(v.value)
    ensures var a := M.Field(k, Wire(p.expr, true), p.guard, p.status, false, []);
            M.Safe(a, ctx) && (M.Fires(a, ctx) <==> v.Some?)
  {
  }

  lemma PlainSafe(a: M.Field, ctx: Context)
    requires !a.isMap && a.guard.None? && (a.rhs.Literal? || a.rhs.Composed?)
    ensures M.Safe(a, ctx) && M.Fires(a, ctx)
  {
  }

  lemma AnnotationsSafe(d: Document, r: Resource, out: Surface, plan: M.Fields, ctx: Context)
    requires EnvironmentOk(d) && DefaultsPrint(d) && Admitted(d, ctx) && ResourceOk(d, r)
    requires AnnotationPlan(d, r, out, plan)
    requires forall k :: k in r.annotations ==> Observes(ctx, r.annotations[k].from)
    ensures M.AllSafe(plan, ctx)
  {
    forall f | f in plan ensures M.Safe(f, ctx) {
      AnnotationSafe(d, r, f.path, out, ctx);
    }
  }

  /** An envelope wire is a parameter or an environment key, never a status. */
  lemma EnvelopeWire(d: Document, p: string, f: Field, out: Surface, ctx: Context)
    requires EnvironmentOk(d) && EnvelopeOk(d, p, f) && f.from != ""
    ensures WirePlan(d, f.from, out.number).Some? && Observes(ctx, f.from)
  {
    Families(f.from);
    if ENV <= f.from {
      assert ParamName(f.from[|ENV|..]);
    }
  }

  predicate EntrySafe(e: E.EnvField, ctx: Context) {
    && (e.guard.Some? ==> Decides(e.guard.value, ctx))
    && (EnvelopeMeaning.Fires(e, ctx) ==> EvalRhs(e.rhs, ctx).Ok?)
  }

  lemma EntryFires(d: Document, p: string, f: Field, out: Surface, ctx: Context)
    requires EnvironmentOk(d) && DefaultsPrint(d) && Admitted(d, ctx) && EnvelopeOk(d, p, f)
    ensures EntrySafe(EnvelopeEntry(d, p, f, out), ctx)
    ensures f.from != "" && f.raw == "" && f.value == "" ==>
              (EnvelopeMeaning.Fires(EnvelopeEntry(d, p, f, out), ctx) <==> WireValue(d, f.from, ctx, out.number).Some?)
  {
    if f.from != "" {
      EnvelopeWire(d, p, f, out, ctx);
      WireExact(d, f.from, ctx, out.number);
    }
  }

  lemma {:induction false} EntriesMembers(d: Document, envelope: FieldMap, out: Surface, ks: seq<string>, e: E.EnvField)
    requires forall k :: k in ks ==> k in envelope
    ensures e in EntriesAt(d, envelope, out, ks) <==> exists k :: k in ks && e in EntriesOf(d, k, envelope[k], out)
  {
    if ks != [] {
      var front, last := ks[..|ks| - 1], ks[|ks| - 1];
      assert ks == front + [last];
      EntriesMembers(d, envelope, out, front, e);
      assert e in EntriesAt(d, envelope, out, ks) <==>
          e in EntriesAt(d, envelope, out, front)
          || e in EntriesOf(d, last, envelope[last], out);
    }
  }

  /** One entry for each key of the flow map, and nothing else. */
  lemma SpreadMembers(p: string, m: FlowMap, e: E.EnvField)
    ensures e in SpreadEntries(p, m) <==> exists k :: k in m && e == SpreadEntry(p, k, m[k])
  {
    var ks, es := KeysOf(m.Keys), SpreadEntries(p, m);
    if e in es {
      var i :| 0 <= i < |es| && es[i] == e;
      assert ks[i] in m && e == SpreadEntry(p, ks[i], m[ks[i]]);
    }
    if k :| k in m && e == SpreadEntry(p, k, m[k]) {
      assert k in ks;
      var i :| 0 <= i < |ks| && ks[i] == k;
      assert es[i] == e;
    }
  }

  /** Every entry stands at its path or one key below it. */
  lemma EntryPath(d: Document, p: string, f: Field, out: Surface, e: E.EnvField)
    requires e in EntriesOf(d, p, f, out)
    ensures exists x :: |x| <= 1 && (x != [] <==> Spread(p, f, out)) && e.path == Split(p, '.') + x
  {
    if Spread(p, f, out) {
      var m := out.flow(f.raw).value;
      var i :| 0 <= i < |SpreadEntries(p, m)| && SpreadEntries(p, m)[i] == e;
      assert e.path == Split(p, '.') + [KeysOf(m.Keys)[i]];
    } else {
      assert e.path == Split(p, '.') + [];
    }
  }

  /** Two keys of a validated envelope, and whatever their entries add below. */
  lemma PartsApart(p: string, x: seq<string>, q: string, y: seq<string>)
    requires p != q && !Covers(p, q) && !Covers(q, p) && CamelPath(Split(p, '.')) && CamelPath(Split(q, '.'))
    ensures Aligned(Split(p, '.') + x, Split(q, '.') + y) && !(Split(p, '.') + x <= Split(q, '.') + y)
  {
    JoinSplit(p, '.');
    JoinSplit(q, '.');
    CoversIsPrefix(Split(p, '.'), Split(q, '.'));
    CoversIsPrefix(Split(q, '.'), Split(p, '.'));
    assert Split(p, '.') != Split(q, '.');
    AlignedApart(Split(p, '.'), x, Split(q, '.'), y);
  }

  lemma KeyFits(d: Document, r: Resource, k: string)
    requires ResourceOk(d, r) && k in r.envelope
    ensures CamelPath(Split(k, '.'))
  {
    assert EnvelopeOk(d, k, r.envelope[k]);
  }

  lemma KeysApart(d: Document, r: Resource, k: string, l: string)
    requires ResourceOk(d, r) && k in r.envelope && l in r.envelope && k != l
    ensures !Covers(k, l) && !Covers(l, k)
  {
  }

  lemma SiblingsAligned(p: seq<string>, x: seq<string>, y: seq<string>)
    requires CamelPath(p) && |x| == |y| <= 1
    ensures Aligned(p + x, p + y)
  {
    if x == [] {
      var front, last := p[..|p| - 1], p[|p| - 1];
      assert p + x == front + [last] && p + y == front + [last];
      AlignedSiblings(front, last, last);
    } else {
      assert x == [x[0]] && y == [y[0]];
      AlignedSiblings(p, x[0], y[0]);
    }
  }

  lemma EntriesSound(d: Document, r: Resource, out: Surface)
    requires ResourceOk(d, r)
    ensures EnvelopeEmit.SoundPlan(EnvelopeEntries(d, r, out))
  {
    var base := EnvelopeEntries(d, r, out);
    forall e | e in base ensures LeafPath(e.path) {
      var k, x := EntrySource(d, r, out, e);
      KeyFits(d, r, k);
      assert forall i :: 0 <= i < |Split(k, '.')| ==> Split(k, '.')[i] in Split(k, '.');
    }
    forall a, b | a in base && b in base ensures Aligned(a.path, b.path) {
      var k, x := EntrySource(d, r, out, a);
      var l, y := EntrySource(d, r, out, b);
      KeyFits(d, r, k);
      KeyFits(d, r, l);
      if k == l {
        SiblingsAligned(Split(k, '.'), x, y);
      } else {
        KeysApart(d, r, k, l);
        PartsApart(k, x, l, y);
      }
    }
  }

  /** Where an entry of the plan comes from. */
  lemma EntrySource(d: Document, r: Resource, out: Surface, e: E.EnvField) returns (k: string, x: seq<string>)
    requires e in EnvelopeEntries(d, r, out)
    ensures k in r.envelope && e in EntriesOf(d, k, r.envelope[k], out)
    ensures |x| <= 1 && (x != [] <==> Spread(k, r.envelope[k], out)) && e.path == Split(k, '.') + x
  {
    var ks := KeysOf(r.envelope.Keys);
    EntriesMembers(d, r.envelope, out, ks, e);
    k :| k in ks && e in EntriesOf(d, k, r.envelope[k], out);
    EntryPath(d, k, r.envelope[k], out, e);
    x :| |x| <= 1 && (x != [] <==> Spread(k, r.envelope[k], out)) && e.path == Split(k, '.') + x;
  }

  lemma ClashAppend(a: E.Plan, b: E.Plan)
    requires !EnvelopeOrder.Clash(a) && !EnvelopeOrder.Clash(b)
    requires forall x, y :: x in a && y in b ==> !(x.path <= y.path) && !(y.path <= x.path)
    ensures !EnvelopeOrder.Clash(a + b)
  {
    var all := a + b;
    forall i, j | 0 <= i < |all| && 0 <= j < |all| && i != j ensures !(all[i].path <= all[j].path) {
      if i < |a| && j < |a| {
        assert all[i] == a[i] && all[j] == a[j];
      } else if i >= |a| && j >= |a| {
        assert all[i] == b[i - |a|] && all[j] == b[j - |a|];
      } else {
        assert all[i] in (if i < |a| then a else b) && all[j] in (if j < |a| then a else b);
      }
    }
  }

  /** The entries of one key do not clash. */
  lemma SpreadApart(d: Document, p: string, f: Field, out: Surface)
    ensures !EnvelopeOrder.Clash(EntriesOf(d, p, f, out))
  {
    var es := EntriesOf(d, p, f, out);
    if Spread(p, f, out) {
      var ks := KeysOf(out.flow(f.raw).value.Keys);
      forall i, j | 0 <= i < |es| && 0 <= j < |es| && i != j ensures !(es[i].path <= es[j].path) {
        DifferentKeys(ks, i, j);
        assert es[i].path[|Split(p, '.')|] == ks[i] && es[j].path[|Split(p, '.')|] == ks[j];
      }
    }
  }

  lemma {:induction false} EntriesApart(d: Document, r: Resource, out: Surface, ks: seq<string>)
    requires ResourceOk(d, r) && StrictlySorted(ks) && forall k :: k in ks ==> k in r.envelope
    ensures !EnvelopeOrder.Clash(EntriesAt(d, r.envelope, out, ks))
  {
    if ks != [] {
      var front, last := ks[..|ks| - 1], ks[|ks| - 1];
      assert ks == front + [last];
      EntriesApart(d, r, out, front);
      SpreadApart(d, last, r.envelope[last], out);
      forall a, b | a in EntriesAt(d, r.envelope, out, front) && b in EntriesOf(d, last, r.envelope[last], out)
        ensures !(a.path <= b.path) && !(b.path <= a.path)
      {
        EntriesMembers(d, r.envelope, out, front, a);
        var k :| k in front && a in EntriesOf(d, k, r.envelope[k], out);
        var i :| 0 <= i < |front| && front[i] == k;
        DifferentKeys(ks, i, |front|);
        EntryPairApart(d, r, out, k, last, a, b);
      }
      ClashAppend(EntriesAt(d, r.envelope, out, front), EntriesOf(d, last, r.envelope[last], out));
    }
  }

  lemma EntryPairApart(d: Document, r: Resource, out: Surface, k: string, l: string, a: E.EnvField, b: E.EnvField)
    requires ResourceOk(d, r) && k in r.envelope && l in r.envelope && k != l
    requires a in EntriesOf(d, k, r.envelope[k], out) && b in EntriesOf(d, l, r.envelope[l], out)
    ensures !(a.path <= b.path) && !(b.path <= a.path)
  {
    EntryPath(d, k, r.envelope[k], out, a);
    EntryPath(d, l, r.envelope[l], out, b);
    var x :| |x| <= 1 && a.path == Split(k, '.') + x;
    var y :| |y| <= 1 && b.path == Split(l, '.') + y;
    KeyFits(d, r, k);
    KeyFits(d, r, l);
    KeysApart(d, r, k, l);
    PartsApart(k, x, l, y);
    PartsApart(l, y, k, x);
  }

  lemma DifferentKeys(ks: seq<string>, i: nat, j: nat)
    requires StrictlySorted(ks) && i < |ks| && j < |ks| && i != j
    ensures ks[i] != ks[j]
  {
    LessTrichotomy(ks[i], ks[i]);
  }

  // ----- when the completed plan crashes, said of the blueprint -----

  const KIND_PATH: string := E.PCR + "." + "kind"
  const NAME_PATH: string := E.PCR + "." + "name"

  /** Something is set below the node: a child, or keys of a flow map. */
  predicate Beneath(r: Resource, node: string, out: Surface) {
    (exists p :: p in r.envelope && Covers(node, p)) || (node in r.envelope && Spread(node, r.envelope[node], out))
  }

  predicate Leaf(r: Resource, node: string, out: Surface) {
    node in r.envelope && !Spread(node, r.envelope[node], out)
  }

  /** providerConfigRef is set whole by what is no flow map, or something is set
      below a leaf that the completion adds. */
  predicate RefOverlaps(r: Resource, out: Surface) {
    || Leaf(r, E.PCR, out)
    || Beneath(r, KIND_PATH, out)
    || (Leaf(r, KIND_PATH, out) && Beneath(r, NAME_PATH, out))
  }

  ghost predicate SetBelow(es: E.Plan, path: seq<string>) {
    exists e :: e in es && path < e.path
  }

  lemma OverlapsNodes(es: E.Plan)
    ensures EnvelopeEmit.Overlaps(es) <==>
            || EnvelopeEmit.SetAt(es, [E.PCR])
            || SetBelow(es, [E.PCR, "kind"])
            || (EnvelopeEmit.SetAt(es, [E.PCR, "kind"]) && SetBelow(es, [E.PCR, "name"]))
  {
    EnvelopeEmit.AnyMember(es, EnvelopeEmit.IsWhole);
    EnvelopeEmit.AnyMember(es, EnvelopeEmit.BelowKind);
    EnvelopeEmit.AnyMember(es, EnvelopeEmit.IsKind);
    EnvelopeEmit.AnyMember(es, EnvelopeEmit.BelowName);
  }

  lemma SomeEntry(d: Document, r: Resource, out: Surface, k: string) returns (e: E.EnvField, x: seq<string>)
    requires k in r.envelope
    ensures e in EnvelopeEntries(d, r, out) && |x| <= 1 && (x != [] <==> Spread(k, r.envelope[k], out))
    ensures e.path == Split(k, '.') + x
  {
    var f := r.envelope[k];
    var es := EntriesOf(d, k, f, out);
    if Spread(k, f, out) {
      var m := out.flow(f.raw).value;
      var key :| key in m;
      assert key in KeysOf(m.Keys);
    }
    e := es[0];
    assert e in es;
    EntryPath(d, k, f, out, e);
    x :| |x| <= 1 && (x != [] <==> Spread(k, f, out)) && e.path == Split(k, '.') + x;
    EntriesMembers(d, r.envelope, out, KeysOf(r.envelope.Keys), e);
  }

  lemma CoveredPath(d: Document, r: Resource, node: string, k: string)
    requires ResourceOk(d, r) && k in r.envelope && CamelPath(Split(node, '.'))
    ensures Covers(node, k) <==> Split(node, '.') < Split(k, '.')
  {
    KeyFits(d, r, k);
    JoinSplit(node, '.');
    JoinSplit(k, '.');
    CoversIsPrefix(Split(node, '.'), Split(k, '.'));
  }

  lemma BeneathIff(d: Document, r: Resource, out: Surface, node: string)
    requires ResourceOk(d, r) && CamelPath(Split(node, '.'))
    ensures SetBelow(EnvelopeEntries(d, r, out), Split(node, '.')) <==> Beneath(r, node, out)
  {
    var base, path := EnvelopeEntries(d, r, out), Split(node, '.');
    if SetBelow(base, path) {
      var e :| e in base && path < e.path;
      var k, x := EntrySource(d, r, out, e);
      CoveredPath(d, r, node, k);
      PrefixOfAppend(path, Split(k, '.'), x);
      JoinSplit(node, '.');
      JoinSplit(k, '.');
    }
    if Beneath(r, node, out) {
      var k :| k in r.envelope && (Covers(node, k) || (k == node && Spread(node, r.envelope[node], out)));
      var e, x := SomeEntry(d, r, out, k);
      CoveredPath(d, r, node, k);
      PrefixOfAppend(path, Split(k, '.'), x);
    }
  }

  lemma PrefixOfAppend(p: seq<string>, q: seq<string>, x: seq<string>)
    requires |x| <= 1
    ensures p < q + x <==> p < q || (p == q && x != [])
  {
    if p < q + x {
      assert p == (q + x)[..|p|];
      if |p| <= |q| {
        assert (q + x)[..|p|] == q[..|p|];
      }
    }
  }

  /** A node is set when it is an entry of its own or a key of a flow map. */
  lemma LeafIff(d: Document, r: Resource, out: Surface, node: string)
    requires ResourceOk(d, r)
    ensures Leaf(r, node, out) ==> EnvelopeEmit.SetAt(EnvelopeEntries(d, r, out), Split(node, '.'))
    ensures EnvelopeEmit.SetAt(EnvelopeEntries(d, r, out), Split(node, '.')) ==>
              Leaf(r, node, out) || exists k ::
                  k in r.envelope && Spread(k, r.envelope[k], out)
                  && Split(k, '.') < Split(node, '.')
  {
    var base := EnvelopeEntries(d, r, out);
    if Leaf(r, node, out) {
      var e, x := SomeEntry(d, r, out, node);
      assert e.path == Split(node, '.');
    }
    if EnvelopeEmit.SetAt(base, Split(node, '.')) {
      var e :| e in base && e.path == Split(node, '.');
      var k, x := EntrySource(d, r, out, e);
      if x == [] {
        assert e.path == Split(k, '.');
        JoinSplit(node, '.');
        JoinSplit(k, '.');
      } else {
        PrefixOfAppend(Split(k, '.'), Split(k, '.'), x);
      }
    }
  }

  lemma RefPaths()
    ensures Split(E.PCR, '.') == [E.PCR] && CamelPath([E.PCR])
    ensures Split(KIND_PATH, '.') == [E.PCR, "kind"] && CamelPath([E.PCR, "kind"])
    ensures Split(NAME_PATH, '.') == [E.PCR, "name"] && CamelPath([E.PCR, "name"])
  {
    RefSegments();
    PlainSegment(E.PCR);
    ChildPath(E.PCR, "kind");
    ChildPath(E.PCR, "name");
  }

  lemma RefSegments()
    ensures Camel(E.PCR) && Camel("kind") && Camel("name")
  {
  }

  lemma PlainSegment(s: string)
    requires Camel(s)
    ensures '.' !in s && Split(s, '.') == [s] && CamelPath([s])
  {
    SplitPlain(s, '.');
  }

  lemma ChildPath(a: string, b: string)
    requires Camel(a) && Camel(b)
    ensures Split(a + "." + b, '.') == [a, b] && CamelPath([a, b])
  {
    PlainSegment(a);
    PlainSegment(b);
    SplitHead(a, b, '.');
    assert a + "." + b == a + ['.'] + b;
  }

  /** Where a flow map sets providerConfigRef nothing else does. */
  lemma SpreadAlone(d: Document, r: Resource, out: Surface, k: string)
    requires ResourceOk(d, r) && k in r.envelope && Split(k, '.') < [E.PCR, "kind"]
    ensures !Beneath(r, NAME_PATH, out)
  {
    RefPaths();
    JoinSplit(k, '.');
    assert Split(k, '.') == [E.PCR] && k == E.PCR;
    forall p | p in r.envelope ensures !Covers(NAME_PATH, p) && p != NAME_PATH {
      BelowName(d, r, p);
      if p != k {
        KeysApart(d, r, k, p);
      }
    }
  }

  lemma BelowName(d: Document, r: Resource, p: string)
    requires ResourceOk(d, r) && p in r.envelope
    ensures Covers(NAME_PATH, p) || p == NAME_PATH ==> Covers(E.PCR, p) && p != E.PCR
  {
    RefPaths();
    CoveredPath(d, r, NAME_PATH, p);
    CoveredPath(d, r, E.PCR, p);
    HeadOfPair(E.PCR, "name", Split(p, '.'));
  }

  lemma HeadOfPair(a: string, b: string, q: seq<string>)
    ensures [a, b] <= q ==> [a] < q
  {
    if [a, b] <= q {
      assert q[0] == [a, b][0];
    }
  }

  lemma OverlapsIff(d: Document, r: Resource, out: Surface)
    requires ResourceOk(d, r)
    ensures EnvelopeEmit.Overlaps(EnvelopeEntries(d, r, out)) <==> RefOverlaps(r, out)
  {
    RefPaths();
    OverlapsNodes(EnvelopeEntries(d, r, out));
    LeafIff(d, r, out, E.PCR);
    LeafIff(d, r, out, KIND_PATH);
    BeneathIff(d, r, out, KIND_PATH);
    BeneathIff(d, r, out, NAME_PATH);
    forall k | k in r.envelope && Split(k, '.') < [E.PCR, "kind"] ensures !Beneath(r, NAME_PATH, out) {
      SpreadAlone(d, r, out, k);
    }
    forall k | k in r.envelope ensures !(Split(k, '.') < [E.PCR]) {
      assert Split(k, '.') != [];
    }
  }

  /** Writing the completed plan of a validated resource crashes exactly when it
      overlaps with what is added to providerConfigRef. */
  lemma PlanCrashes(d: Document, r: Resource, out: Surface)
    requires ResourceOk(d, r)
    ensures var plan := EnvelopePlan(d, r, out);
            && E.Rooted(plan) && EnvelopeOrder.Sorted(plan)
            && (E.GroupsCrash(plan) <==> RefOverlaps(r, out))
            && (EnvelopeOrder.Clash(plan) <==> RefOverlaps(r, out))
  {
    EntriesSound(d, r, out);
    EntriesApart(d, r, out, KeysOf(r.envelope.Keys));
    EnvelopeEmit.CompletionConflicts(EnvelopeEntries(d, r, out));
    OverlapsIff(d, r, out);
  }

  /** The completed plan of a validated resource can be written exactly when it
      does not overlap with the providerConfigRef entries added to it, and then
      every entry is safe to render. */
  lemma EnvelopePlanned(d: Document, r: Resource, out: Surface, ctx: Context)
    requires EnvironmentOk(d) && DefaultsPrint(d) && Admitted(d, ctx) && ResourceOk(d, r)
    requires "providerName" in ctx.spec
    ensures var plan := EnvelopePlan(d, r, out);
            && E.Rooted(plan) && EnvelopeOrder.Sorted(plan)
            && (E.GroupsCrash(plan) <==> RefOverlaps(r, out))
            && (EnvelopeOrder.Clash(plan) <==> RefOverlaps(r, out))
            && EnvelopeMeaning.Safe(plan, ctx)
  {
    var base := EnvelopeEntries(d, r, out);
    PlanCrashes(d, r, out);
    var plan := EnvelopePlan(d, r, out);
    forall i | 0 <= i < |plan| ensures EntrySafe(plan[i], ctx) {
      assert plan[i] in base + EnvelopeEmit.Missing(base);
      if plan[i] in base {
        var k, x := EntrySource(d, r, out, plan[i]);
        EntryFires(d, k, r.envelope[k], out, ctx);
        SpreadSafe(d, k, r.envelope[k], out, plan[i], ctx);
      } else {
        AddedSafe(plan[i], base, ctx);
      }
    }
  }

  lemma SpreadSafe(d: Document, p: string, f: Field, out: Surface, e: E.EnvField, ctx: Context)
    requires e in EntriesOf(d, p, f, out) && EntrySafe(EnvelopeEntry(d, p, f, out), ctx)
    ensures EntrySafe(e, ctx)
  {
    if Spread(p, f, out) {
      var m := out.flow(f.raw).value;
      var i :| 0 <= i < |SpreadEntries(p, m)| && SpreadEntries(p, m)[i] == e;
    }
  }

  lemma AddedSafe(e: E.EnvField, base: E.Plan, ctx: Context)
    requires e in EnvelopeEmit.Missing(base) && "providerName" in ctx.spec
    ensures EntrySafe(e, ctx)
  {
    assert e == EnvelopeEmit.KIND_ENTRY || e == EnvelopeEmit.NAME_ENTRY;
    assert Eval(Ref(SpecVar), ctx) == Ok(Dict(ctx.spec));
  }
}
