/** What stands where in a composed document, said of the blueprint and the
    composite alone (internal/emit/composition.go:330-447,
    internal/emit/annotations.go, internal/emit/envelope.go). */
module Contents {
  import opened Template
  import opened Text
  import opened Refs
  import opened Params
  import opened Paths
  import opened Yaml
  import opened Lookup
  import opened Blueprint
  import opened Wires
  import opened Plans
  import opened ResourceTemplate
  import opened Rendering
  import E = Envelope
  import EnvelopeEmit
  import EnvelopeFound
  import EnvelopeMeaning
  import EnvelopeOrder
  import EnvelopeTheorem
  import M = MapField

  // ----- annotations -----

  /** What an annotation or an envelope entry that is no flow map says: its
      text, the value of its reference, or the name of a composed resource. */
  ghost predicate Shows(d: Document, f: Field, out: Surface, quoted: bool, ctx: Context, s: Scalar) {
    if f.from == "" then s == Text(out.text(f))
    else if ParseFrom(f.from).Some? && ParseFrom(f.from).value.NameOf? then
      s == Suffixed(ParseFrom(f.from).value.resource)
    else exists v :: WireValue(d, f.from, ctx, out.number) == Some(v) && s == Rendered(v, quoted)
  }

  lemma AnnotationShows(d: Document, r: Resource, k: string, out: Surface, ctx: Context, s: Scalar)
    requires EnvironmentOk(d) && DefaultsPrint(d) && Admitted(d, ctx)
    requires k in r.annotations && AnnotationOk(d, r, r.annotations[k]) && Observes(ctx, r.annotations[k].from)
    ensures var a := Annotation(d, k, r.annotations[k], out);
            && !a.isMap && a.path == k
            && (M.Fires(a, ctx) && EvalRhs(a.rhs, ctx) == Ok(s) <==> Shows(d, r.annotations[k], out, true, ctx, s))
  {
    var f := r.annotations[k];
    CountParts(f.from, f.value, f.raw, f.template);
    if f.from != "" {
      if WirePlan(d, f.from, out.number).Some? {
        WireExact(d, f.from, ctx, out.number);
        WireShows(k, WirePlan(d, f.from, out.number).value, WireValue(d, f.from, ctx, out.number), ctx, s);
        PlanNoName(d, f.from, out.number);
      } else {
        assert FromOk(d, r.name, f.from, ScalarDecl);
        NoPlan(d, r, f.from, out.number);
      }
    }
  }

  lemma WireShows(k: string, p: Planned, v: Option<Value>, ctx: Context, s: Scalar)
    requires p.guard.None? ==> v.Some?
    requires p.guard.Some? ==> Decides(p.guard.value, ctx) && (Holds(p.guard.value, ctx) <==> v.Some?)
    requires v.Some? ==> Eval(p.expr, ctx) == Ok(v.value)
    ensures var a := M.Field(k, Wire(p.expr, true), p.guard, p.status, false, []);
            M.Fires(a, ctx) && EvalRhs(a.rhs, ctx) == Ok(s) <==> v.Some? && s == Rendered(v.value, true)
  {
  }

  lemma PlanNoName(d: Document, s: string, number: string -> real)
    requires WirePlan(d, s, number).Some?
    ensures ParseFrom(s).Some? && !ParseFrom(s).value.NameOf?
  {
  }

  /** Of the references validation admits only a name has no plan. */
  lemma NoPlan(d: Document, r: Resource, s: string, number: string -> real)
    requires FromOk(d, r.name, s, ScalarDecl) && WirePlan(d, s, number).None?
    ensures ParseFrom(s).value.NameOf?
  {
    ParsedWrites(s);
  }

  /** A key is found among fields with distinct keys exactly when its field
      fires, with what the field says. */
  lemma {:induction false} FieldFound(fs: M.Fields, ctx: Context, key: string, s: Scalar)
    requires M.AllSafe(fs, ctx) && (forall f :: f in fs ==> !f.isMap)
    requires forall i, j :: 0 <= i < j < |fs| ==> fs[i].path != fs[j].path
    ensures Child(M.FieldsTree(fs, ctx), key) == Some(Leaf(s)) <==>
            exists f :: f in fs && f.path == key && M.Fires(f, ctx) && EvalRhs(f.rhs, ctx) == Ok(s)
  {
    if fs != [] {
      assert fs == [fs[0]] + fs[1..] && forall f :: f in fs <==> f == fs[0] || f in fs[1..];
      FieldFound(fs[1..], ctx, key, s);
      var head := M.FieldTree(fs[0], ctx);
      ChildAppend(head, M.FieldsTree(fs[1..], ctx), key);
      if head != [] {
        ChildOne(head[0], key);
      }
      if fs[0].path == key {
        KeyAbsent(fs[1..], ctx, key);
      }
    }
  }

  lemma {:induction false} KeyAbsent(fs: M.Fields, ctx: Context, key: string)
    requires M.AllSafe(fs, ctx) && forall f :: f in fs ==> f.path != key
    ensures Child(M.FieldsTree(fs, ctx), key).None?
  {
    if fs != [] {
      assert fs[0] in fs;
      KeyAbsent(fs[1..], ctx, key);
      ChildAppend(M.FieldTree(fs[0], ctx), M.FieldsTree(fs[1..], ctx), key);
      if M.FieldTree(fs[0], ctx) != [] {
        ChildOne(M.FieldTree(fs[0], ctx)[0], key);
      }
    }
  }

  lemma PlanFound(d: Document, r: Resource, out: Surface, plan: M.Fields, ctx: Context, k: string, s: Scalar)
    requires EnvironmentOk(d) && DefaultsPrint(d) && Admitted(d, ctx) && ResourceOk(d, r)
             && AnnotationPlan(d, r, out, plan)
    requires forall k :: k in r.annotations ==> Observes(ctx, r.annotations[k].from)
    ensures M.AllSafe(plan, ctx)
    ensures Child(M.FieldsTree(plan, ctx), k) == Some(Leaf(s)) <==>
            k in r.annotations && Shows(d, r.annotations[k], out, true, ctx, s)
  {
    AnnotationsSafe(d, r, out, plan, ctx);
    forall f | f in plan ensures !f.isMap {
      assert AnnotationOk(d, r, r.annotations[f.path]);
      AnnotationShows(d, r, f.path, out, ctx, s);
    }
    forall i, j | 0 <= i < j < |plan| ensures plan[i].path != plan[j].path {
      LessTrichotomy(plan[i].path, plan[j].path);
    }
    FieldFound(plan, ctx, k, s);
    if k in r.annotations {
      assert AnnotationOk(d, r, r.annotations[k]);
      AnnotationShows(d, r, k, out, ctx, s);
      assert Annotation(d, k, r.annotations[k], out) in plan;
    }
  }

  // ----- the envelope -----

  /** The paths an envelope key sets: its own, or one for each key of a flow map. */
  ghost predicate Assigns(k: string, f: Field, out: Surface, path: seq<string>) {
    if Spread(k, f, out) then exists x :: x in out.flow(f.raw).value && path == Split(k, '.') + [x]
    else path == Split(k, '.')
  }

  /** What an envelope key puts at a path. */
  ghost predicate Puts(d: Document, k: string, f: Field, out: Surface, ctx: Context, path: seq<string>, s: Scalar) {
    if Spread(k, f, out) then
      exists x :: x in out.flow(f.raw).value && path == Split(k, '.') + [x]
          && s == Text(QuoteYaml(out.flow(f.raw).value[x]))
    else path == Split(k, '.') && Shows(d, f, out, out.quoted(k), ctx, s)
  }

  ghost predicate AssignedAt(r: Resource, out: Surface, path: seq<string>) {
    exists k :: k in r.envelope && Assigns(k, r.envelope[k], out, path)
  }

  ghost predicate PutAt(d: Document, r: Resource, out: Surface, ctx: Context, path: seq<string>, s: Scalar) {
    exists k :: k in r.envelope && Puts(d, k, r.envelope[k], out, ctx, path, s)
  }

  ghost predicate RefTouched(r: Resource, out: Surface) {
    exists path :: AssignedAt(r, out, path) && path != [] && path[0] == "providerConfigRef"
  }

  lemma EntryShows(d: Document, k: string, f: Field, out: Surface, ctx: Context, path: seq<string>, s: Scalar)
    requires EnvironmentOk(d) && DefaultsPrint(d) && Admitted(d, ctx) && EnvelopeOk(d, k, f) && !Spread(k, f, out)
    ensures EnvelopeFound.Says(EnvelopeEntry(d, k, f, out), path, s, ctx) <==> Puts(d, k, f, out, ctx, path, s)
  {
    CountParts(f.from, f.value, f.raw, "");
    if f.from != "" {
      EnvelopeWire(d, k, f, out, ctx);
      WireExact(d, f.from, ctx, out.number);
      assert !ParseFrom(f.from).value.NameOf?;
    }
  }

  lemma SpreadShows(d: Document, k: string, f: Field, out: Surface, ctx: Context, path: seq<string>, s: Scalar)
    requires Spread(k, f, out)
    ensures EnvelopeFound.Said(EntriesOf(d, k, f, out), path, s, ctx) <==> Puts(d, k, f, out, ctx, path, s)
  {
    var m := out.flow(f.raw).value;
    forall e ensures e in SpreadEntries(k, m) <==> exists x :: x in m && e == SpreadEntry(k, x, m[x]) {
      SpreadMembers(k, m, e);
    }
    if Puts(d, k, f, out, ctx, path, s) {
      var x :| x in m && path == Split(k, '.') + [x] && s == Text(QuoteYaml(m[x]));
      assert EnvelopeFound.Says(SpreadEntry(k, x, m[x]), path, s, ctx);
    }
  }

  lemma KeyShows(d: Document, k: string, f: Field, out: Surface, ctx: Context, path: seq<string>, s: Scalar)
    requires EnvironmentOk(d) && DefaultsPrint(d) && Admitted(d, ctx) && EnvelopeOk(d, k, f)
    ensures EnvelopeFound.Said(EntriesOf(d, k, f, out), path, s, ctx) <==> Puts(d, k, f, out, ctx, path, s)
  {
    if Spread(k, f, out) {
      SpreadShows(d, k, f, out, ctx, path, s);
    } else {
      EntryShows(d, k, f, out, ctx, path, s);
      var e := EnvelopeEntry(d, k, f, out);
      assert e in [e];
    }
  }

  lemma EntriesShow(d: Document, r: Resource, out: Surface, ctx: Context, path: seq<string>, s: Scalar)
    requires EnvironmentOk(d) && DefaultsPrint(d) && Admitted(d, ctx) && ResourceOk(d, r)
    ensures EnvelopeFound.Said(EnvelopeEntries(d, r, out), path, s, ctx) <==> PutAt(d, r, out, ctx, path, s)
  {
    var es := EnvelopeEntries(d, r, out);
    if e :| e in es && EnvelopeFound.Says(e, path, s, ctx) {
      var k, x := EntrySource(d, r, out, e);
      assert EnvelopeFound.Said(EntriesOf(d, k, r.envelope[k], out), path, s, ctx);
      KeyShows(d, k, r.envelope[k], out, ctx, path, s);
    }
    if k :| k in r.envelope && Puts(d, k, r.envelope[k], out, ctx, path, s) {
      KeyShows(d, k, r.envelope[k], out, ctx, path, s);
      var e :| e in EntriesOf(d, k, r.envelope[k], out) && EnvelopeFound.Says(e, path, s, ctx);
      EntriesMembers(d, r.envelope, out, KeysOf(r.envelope.Keys), e);
    }
  }

  lemma KeyAssigns(d: Document, k: string, f: Field, out: Surface, path: seq<string>)
    ensures Assigns(k, f, out, path) <==> EnvelopeEmit.SetAt(EntriesOf(d, k, f, out), path)
  {
    if Spread(k, f, out) {
      var m := out.flow(f.raw).value;
      forall e ensures e in SpreadEntries(k, m) <==> exists x :: x in m && e == SpreadEntry(k, x, m[x]) {
        SpreadMembers(k, m, e);
      }
      if x :| x in m && path == Split(k, '.') + [x] {
        assert SpreadEntry(k, x, m[x]) in SpreadEntries(k, m);
      }
    } else {
      var e := EnvelopeEntry(d, k, f, out);
      assert e in [e];
    }
  }

  lemma EntriesAssign(d: Document, r: Resource, out: Surface, path: seq<string>)
    ensures EnvelopeEmit.SetAt(EnvelopeEntries(d, r, out), path) <==> AssignedAt(r, out, path)
  {
    if e :| e in EnvelopeEntries(d, r, out) && e.path == path {
      var k, x := EntrySource(d, r, out, e);
      KeyAssigns(d, k, r.envelope[k], out, path);
    }
    if k :| k in r.envelope && Assigns(k, r.envelope[k], out, path) {
      KeyAssigns(d, k, r.envelope[k], out, path);
      var e :| e in EntriesOf(d, k, r.envelope[k], out) && e.path == path;
      EntriesMembers(d, r.envelope, out, KeysOf(r.envelope.Keys), e);
    }
  }

  lemma EntriesTouch(d: Document, r: Resource, out: Surface)
    ensures EnvelopeFound.Touched(EnvelopeEntries(d, r, out)) <==> RefTouched(r, out)
  {
    var es := EnvelopeEntries(d, r, out);
    if e :| e in es && e.path != [] && e.path[0] == "providerConfigRef" {
      EntriesAssign(d, r, out, e.path);
    }
    if path :| AssignedAt(r, out, path) && path != [] && path[0] == "providerConfigRef" {
      EntriesAssign(d, r, out, path);
    }
  }

  /** A kind is filled in when the blueprint sets none and the reference is
      wanted or begun. */
  ghost predicate KindDue(r: Resource, out: Surface, wantNamespaced: bool) {
    !AssignedAt(r, out, ["providerConfigRef", "kind"]) && (RefTouched(r, out) || wantNamespaced)
  }

  /** A name is filled in beside a kind the blueprint sets, and where it leaves
      the whole reference to the default. */
  ghost predicate NameDue(r: Resource, out: Surface, wantNamespaced: bool) {
    && !AssignedAt(r, out, ["providerConfigRef", "name"])
    && (AssignedAt(r, out, ["providerConfigRef", "kind"]) || (wantNamespaced && !RefTouched(r, out)))
  }

  lemma DueIsAdded(d: Document, r: Resource, out: Surface, wantNamespaced: bool)
    ensures EnvelopeFound.KindAdded(EnvelopeEntries(d, r, out), wantNamespaced) <==> KindDue(r, out, wantNamespaced)
    ensures EnvelopeFound.NameAdded(EnvelopeEntries(d, r, out), wantNamespaced) <==> NameDue(r, out, wantNamespaced)
  {
    EntriesTouch(d, r, out);
    EntriesAssign(d, r, out, ["providerConfigRef", "kind"]);
    EntriesAssign(d, r, out, ["providerConfigRef", "name"]);
  }

  // ----- in the document -----

  lemma {:induction false} DocumentKeys(r: Resource, p: Draft, wantNamespaced: bool, ctx: Context)
    requires Fits(r, p, wantNamespaced, ctx)
    ensures var es := DocumentTree(r, p, wantNamespaced, ctx);
            && Child(es, "apiVersion") == Some(Leaf(Text(p.apiVersion)))
            && Child(es, "kind") == Some(Leaf(Text(r.kind)))
            && Child(es, "metadata") == Some(MetadataEntry(r, p, ctx).node)
            && Child(es, "spec") == Some(Mapping(SpecTree(p, r, wantNamespaced, ctx)))
  {
    var es, head := DocumentTree(r, p, wantNamespaced, ctx), HeadEntries(r, p, ctx);
    assert es[0] == head[0] && es[1..][0] == head[1] && es[2..][0] == head[2] && es[1..][1..] == es[2..];
    assert es[2..][1..] == es[3..] && es[3..][0].key == "spec";
    assert Child(es[3..], "spec") == Some(es[3..][0].node);
    assert forall key :: key != "metadata" ==> Child(es[2..], key) == Child(es[3..], key);
    assert forall key :: key != "kind" ==> Child(es[1..], key) == Child(es[2..], key);
  }

  lemma AnnotationAt(r: Resource, p: Draft, wantNamespaced: bool, ctx: Context, k: string)
    requires Fits(r, p, wantNamespaced, ctx)
    ensures NodeAt(DocumentTree(r, p, wantNamespaced, ctx), ["metadata", "annotations", k]) ==
            if k == NAME_ANNOTATION then Some(Leaf(NameScalar(r, ctx))) else Child(M.FieldsTree(p.ann, ctx), k)
  {
    var es := DocumentTree(r, p, wantNamespaced, ctx);
    DocumentKeys(r, p, wantNamespaced, ctx);
    var meta := MetadataEntry(r, p, ctx).node;
    Below(es, "metadata", meta.entries, ["annotations", k]);
    assert ["metadata"] + ["annotations", k] == ["metadata", "annotations", k];
    var notes := meta.entries[0].node.entries;
    ChildOne(meta.entries[0], "annotations");
    assert meta.entries == [meta.entries[0]];
    Below(meta.entries, "annotations", notes, [k]);
    assert ["annotations"] + [k] == ["annotations", k];
    ChildAppend([notes[0]], M.FieldsTree(p.ann, ctx), k);
    ChildOne(notes[0], k);
  }

  /** Every document says what it is and which composed resource it is: by name,
      in a loop by name and index. */
  lemma IdentityShown(r: Resource, p: Draft, wantNamespaced: bool, ctx: Context)
    requires Fits(r, p, wantNamespaced, ctx)
    ensures var es := DocumentTree(r, p, wantNamespaced, ctx);
            && NodeAt(es, ["apiVersion"]) == Some(Leaf(Text(p.apiVersion)))
            && NodeAt(es, ["kind"]) == Some(Leaf(Text(r.kind)))
            && NodeAt(es, ["metadata", "annotations", "gotemplating.fn.crossplane.io/composition-resource-name"]) ==
               Some(Leaf(if r.forEach == "" then Text(r.name) else Indexed(r.name, ctx.index.value)))
  {
    DocumentKeys(r, p, wantNamespaced, ctx);
    AnnotationAt(r, p, wantNamespaced, ctx, NAME_ANNOTATION);
  }

  /** Beside that name, exactly the annotations of the blueprint stand in the
      document: a text as it is, a wire as the quoted value it refers to while
      that is there, a name reference as the name of that composed resource. */
  lemma AnnotationsShown(d: Document, r: Resource, surface: Surface, printed: Expr -> string, p: Draft,
      wantNamespaced: bool, ctx: Context, k: string, s: Scalar)
    requires Valid(d) && r in d.resources && Managed(d, r) && Drafted(d, r, surface, printed, p)
             && Emittable(d, r, surface)
    requires Served(d, r, p.body, ctx, surface.number) && (r.forEach != "" ==> ctx.index.Some?)
    requires k != "gotemplating.fn.crossplane.io/composition-resource-name"
    ensures Fits(r, p, wantNamespaced, ctx)
    ensures NodeAt(DocumentTree(r, p, wantNamespaced, ctx), ["metadata", "annotations", k]) == Some(Leaf(s)) <==>
            k in r.annotations && Shows(d, r.annotations[k], surface, true, ctx, s)
  {
    assert ResourceOk(d, r);
    DraftFits(d, r, surface, printed, p, wantNamespaced, ctx);
    AnnotationAt(r, p, wantNamespaced, ctx, k);
    PlanFound(d, r, surface, p.ann, ctx, k, s);
  }

  lemma SpecAt(r: Resource, p: Draft, wantNamespaced: bool, ctx: Context, path: seq<string>)
    requires Fits(r, p, wantNamespaced, ctx) && path != [] && path[0] != "forProvider"
    ensures var all := EnvelopeTheorem.Effective(p.env, wantNamespaced);
            && E.Rooted(all) && !E.GroupsCrash(all) && EnvelopeMeaning.Safe(all, ctx)
            && NodeAt(DocumentTree(r, p, wantNamespaced, ctx), ["spec"] + path)
               == NodeAt(EnvelopeMeaning.Tree(all, ctx), path)
  {
    EnvelopeTheorem.EffectiveFits(0, p.env, wantNamespaced, ctx);
    var es, rest := DocumentTree(r, p, wantNamespaced, ctx),
        EnvelopeMeaning.Tree(EnvelopeTheorem.Effective(p.env, wantNamespaced), ctx);
    DocumentKeys(r, p, wantNamespaced, ctx);
    Below(es, "spec", SpecTree(p, r, wantNamespaced, ctx), path);
    ChildAppend([ForProvider(p, ctx)], rest, path[0]);
    ChildOne(ForProvider(p, ctx), path[0]);
  }

  /** Beside forProvider, at every path of the spec stands exactly what the
      blueprint's envelope puts there, and of providerConfigRef the fixed kind
      and the composite's providerName where they are due. */
  lemma EnvelopeShown(d: Document, r: Resource, surface: Surface, printed: Expr -> string, p: Draft,
      wantNamespaced: bool, ctx: Context, path: seq<string>, s: Scalar)
    requires Valid(d) && r in d.resources && Managed(d, r) && Drafted(d, r, surface, printed, p)
             && Emittable(d, r, surface)
    requires Served(d, r, p.body, ctx, surface.number) && (r.forEach != "" ==> ctx.index.Some?)
    requires path != [] && path[0] != "forProvider"
    ensures Fits(r, p, wantNamespaced, ctx) && "providerName" in ctx.spec
    ensures NodeAt(DocumentTree(r, p, wantNamespaced, ctx), ["spec"] + path) == Some(Leaf(s)) <==>
            || PutAt(d, r, surface, ctx, path, s)
            || (KindDue(r, surface, wantNamespaced) && path == ["providerConfigRef", "kind"]
                && s == Text("ClusterProviderConfig"))
            || (NameDue(r, surface, wantNamespaced) && path == ["providerConfigRef", "name"]
                && s == Rendered(ctx.spec["providerName"], false))
  {
    assert ResourceOk(d, r);
    DraftFits(d, r, surface, printed, p, wantNamespaced, ctx);
    SpecAt(r, p, wantNamespaced, ctx, path);
    EnvelopeFound.EnvelopeSays(EnvelopeEntries(d, r, surface), wantNamespaced, ctx, path, s);
    EntriesShow(d, r, surface, ctx, path, s);
    DueIsAdded(d, r, surface, wantNamespaced);
  }

  /** forProvider: the fields that fire, the empty mapping when none does. */
  lemma FieldsShown(r: Resource, p: Draft, wantNamespaced: bool, ctx: Context)
    requires Fits(r, p, wantNamespaced, ctx)
    ensures NodeAt(DocumentTree(r, p, wantNamespaced, ctx), ["spec", "forProvider"]) ==
            Some(Mapping(if M.AllSilent(p.body, ctx) then [] else M.FieldsTree(p.body, ctx)))
  {
    DocumentKeys(r, p, wantNamespaced, ctx);
    Below(DocumentTree(r, p, wantNamespaced, ctx), "spec", SpecTree(p, r, wantNamespaced, ctx), ["forProvider"]);
    assert ["spec"] + ["forProvider"] == ["spec", "forProvider"];
  }

  // ----- no key twice -----

  lemma {:induction false} FieldKeys(fs: M.Fields, ctx: Context)
    requires M.AllSafe(fs, ctx) && (forall f :: f in fs ==> !f.isMap)
    requires forall i, j :: 0 <= i < j < |fs| ==> fs[i].path != fs[j].path
    ensures KeysDistinct(M.FieldsTree(fs, ctx))
    ensures forall e :: e in M.FieldsTree(fs, ctx) ==> exists f :: f in fs && f.path == e.key
  {
    if fs != [] {
      FieldKeys(fs[1..], ctx);
      assert fs == [fs[0]] + fs[1..] && fs[0] in fs;
      var head, rest := M.FieldTree(fs[0], ctx), M.FieldsTree(fs[1..], ctx);
      forall e | e in rest ensures e.key != fs[0].path {
        var f :| f in fs[1..] && f.path == e.key;
        var i :| 0 <= i < |fs| - 1 && fs[1..][i] == f;
        assert fs[0].path != fs[i + 1].path;
      }
      DistinctCons(head, rest, fs[0].path);
    }
  }

  lemma DistinctCons(head: seq<Entry>, rest: seq<Entry>, key: string)
    requires |head| <= 1 && KeysDistinct(head) && KeysDistinct(rest)
    requires head != [] ==> head[0].key == key
    requires forall e :: e in rest ==> e.key != key
    ensures KeysDistinct(head + rest)
  {
    var all := head + rest;
    forall i, j | 0 <= i < j < |all| ensures all[i].key != all[j].key {
      assert j >= |head| ==> all[j] == rest[j - |head|] && rest[j - |head|] in rest;
      assert i >= |head| ==> all[i] == rest[i - |head|];
    }
  }

  lemma AnnotationKeys(d: Document, r: Resource, out: Surface, plan: M.Fields, ctx: Context)
    requires ResourceOk(d, r) && AnnotationPlan(d, r, out, plan) && M.AllSafe(plan, ctx)
    ensures KeysDistinct(M.FieldsTree(plan, ctx))
    ensures forall e :: e in M.FieldsTree(plan, ctx) ==> e.key != NAME_ANNOTATION
  {
    forall i, j | 0 <= i < j < |plan| ensures plan[i].path != plan[j].path {
      LessTrichotomy(plan[i].path, plan[j].path);
    }
    AnnotationsScalar(d, r, out, plan);
    FieldKeys(plan, ctx);
    forall f | f in plan ensures f.path != NAME_ANNOTATION {
      assert !ReservedKey(f.path);
    }
  }

  /** Where the envelope sets nothing in forProvider, which the schema refuses. */
  predicate Apart(r: Resource) {
    forall k :: k in r.envelope ==> Split(k, '.')[0] != "forProvider"
  }

  lemma EnvelopeKeys(d: Document, r: Resource, out: Surface, wantNamespaced: bool, ctx: Context)
    requires var plan := EnvelopePlan(d, r, out);
             E.Rooted(plan) && EnvelopeOrder.Sorted(plan) && !E.GroupsCrash(plan) && EnvelopeMeaning.Safe(plan, ctx)
    requires Apart(r) && "providerName" in ctx.spec
    ensures var all := EnvelopeTheorem.Effective(EnvelopePlan(d, r, out), wantNamespaced);
            && E.Rooted(all) && !E.GroupsCrash(all) && EnvelopeMeaning.Safe(all, ctx)
            && KeysDistinct(EnvelopeMeaning.Tree(all, ctx))
            && forall e :: e in EnvelopeMeaning.Tree(all, ctx) ==> e.key != "forProvider"
  {
    var base, plan := EnvelopeEntries(d, r, out), EnvelopePlan(d, r, out);
    EnvelopeTheorem.EffectiveFits(0, plan, wantNamespaced, ctx);
    var all := EnvelopeTheorem.Effective(plan, wantNamespaced);
    EnvelopeOrder.TreeKeys(all, ctx);
    IncreasingDistinct(EnvelopeMeaning.Tree(all, ctx));
    forall e | e in EnvelopeMeaning.Tree(all, ctx) ensures e.key != "forProvider" {
      EnvelopeOrder.TreeHeads(all, ctx, e);
      var i :| 0 <= i < |all| && all[i].path[0] == e.key;
      EnvelopeFound.Members(base, wantNamespaced, all[i]);
      if all[i] in base {
        var k, x := EntrySource(d, r, out, all[i]);
        assert all[i].path[0] == Split(k, '.')[0];
      }
    }
  }

  lemma DistinctFour(a: Entry, b: Entry, c: Entry, e: Entry)
    requires NodeKeysDistinct(a.node) && NodeKeysDistinct(b.node) && NodeKeysDistinct(c.node)
             && NodeKeysDistinct(e.node)
    requires a.key == "apiVersion" && b.key == "kind" && c.key == "metadata" && e.key == "spec"
    ensures KeysDistinct([a, b, c] + [e])
  {
    var es := [a, b, c] + [e];
    assert es == [a, b, c, e];
  }

  lemma MetadataKeys(r: Resource, p: Draft, ctx: Context)
    requires M.AllSafe(p.ann, ctx) && KeysDistinct(M.FieldsTree(p.ann, ctx))
    requires forall e :: e in M.FieldsTree(p.ann, ctx) ==> e.key != NAME_ANNOTATION
    ensures NodeKeysDistinct(MetadataEntry(r, p, ctx).node)
  {
    var name := Entry(NAME_ANNOTATION, Leaf(NameScalar(r, ctx)));
    DistinctCons([name], M.FieldsTree(p.ann, ctx), NAME_ANNOTATION);
    var notes := Entry("annotations", Mapping([name] + M.FieldsTree(p.ann, ctx)));
    assert KeysDistinct([notes]);
  }

  lemma SpecKeys(below: Entry, rest: seq<Entry>)
    requires below.key == "forProvider" && NodeKeysDistinct(below.node) && KeysDistinct(rest)
    requires forall e :: e in rest ==> e.key != "forProvider"
    ensures NodeKeysDistinct(Mapping([below] + rest))
  {
    DistinctCons([below], rest, "forProvider");
  }

  /** No document says a key twice in one mapping, as long as the fields below
      forProvider do not. */
  lemma DocumentKeysDistinct(d: Document, r: Resource, surface: Surface, printed: Expr -> string, p: Draft,
      wantNamespaced: bool, ctx: Context)
    requires Valid(d) && r in d.resources && Managed(d, r) && Drafted(d, r, surface, printed, p)
             && Emittable(d, r, surface)
    requires Served(d, r, p.body, ctx, surface.number) && (r.forEach != "" ==> ctx.index.Some?)
    requires Apart(r) && M.AllSafe(p.body, ctx) && KeysDistinct(M.FieldsTree(p.body, ctx))
    ensures Fits(r, p, wantNamespaced, ctx) && KeysDistinct(DocumentTree(r, p, wantNamespaced, ctx))
  {
    assert ResourceOk(d, r);
    DraftFits(d, r, surface, printed, p, wantNamespaced, ctx);
    MetadataApart(d, r, surface, p, ctx);
    SpecApart(d, r, surface, p, wantNamespaced, ctx);
    TreeKeysDistinct(r, p, wantNamespaced, ctx);
  }

  lemma MetadataApart(d: Document, r: Resource, surface: Surface, p: Draft, ctx: Context)
    requires ResourceOk(d, r) && AnnotationPlan(d, r, surface, p.ann) && M.AllSafe(p.ann, ctx)
    ensures NodeKeysDistinct(MetadataEntry(r, p, ctx).node)
  {
    AnnotationKeys(d, r, surface, p.ann, ctx);
    MetadataKeys(r, p, ctx);
  }

  lemma SpecApart(d: Document, r: Resource, surface: Surface, p: Draft, wantNamespaced: bool, ctx: Context)
    requires Fits(r, p, wantNamespaced, ctx) && p.env == EnvelopePlan(d, r, surface)
    requires Apart(r) && KeysDistinct(M.FieldsTree(p.body, ctx))
    ensures NodeKeysDistinct(Mapping(SpecTree(p, r, wantNamespaced, ctx)))
  {
    EnvelopeKeys(d, r, surface, wantNamespaced, ctx);
    SpecKeys(ForProvider(p, ctx), EnvelopeMeaning.Tree(EnvelopeTheorem.Effective(p.env, wantNamespaced), ctx));
  }

  lemma TreeKeysDistinct(r: Resource, p: Draft, wantNamespaced: bool, ctx: Context)
    requires Fits(r, p, wantNamespaced, ctx) && NodeKeysDistinct(MetadataEntry(r, p, ctx).node)
    requires NodeKeysDistinct(Mapping(SpecTree(p, r, wantNamespaced, ctx)))
    ensures KeysDistinct(DocumentTree(r, p, wantNamespaced, ctx))
  {
    DistinctFour(Entry("apiVersion", Leaf(Text(p.apiVersion))), Entry("kind", Leaf(Text(r.kind))),
        MetadataEntry(r, p, ctx), Entry("spec", Mapping(SpecTree(p, r, wantNamespaced, ctx))));
  }
}
