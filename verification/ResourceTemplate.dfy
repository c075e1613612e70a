/** writeResourceTemplate for a managed resource: condition, status guard, loop
    and the document inside (internal/emit/composition.go). */
module ResourceTemplate {
  import opened Seqs
  import opened Template
  import opened Text
  import opened Refs
  import opened Params
  import opened Blueprint
  import opened Wires
  import opened Plans
  import E = Envelope
  import EnvelopeEmit
  import M = MapField

  // ----- the status guards of a resource -----

  function OwnGuard(f: M.Field): set<Expr> {
    if f.status && f.guard.Some? then {f.guard.value} else {}
  }

  /** Every status guard met on a walk over the fields and the entries of maps. */
  function Collected(fs: M.Fields): set<Expr>
    decreases fs
  {
    if fs == [] then {}
    else OwnGuard(fs[0]) + (if fs[0].isMap then Collected(fs[0].entries) else {}) + Collected(fs[1..])
  }

  function Elements(gs: seq<Expr>): set<Expr> {
    set g | g in gs
  }

  method AddGuard(f: M.Field, seen: seq<Expr>) returns (guards: seq<Expr>)
    requires Distinct(seen)
    ensures Distinct(guards) && Elements(guards) == Elements(seen) + OwnGuard(f)
  {
    guards := seen;
    if f.status && f.guard.Some? && f.guard.value !in guards {
      guards := guards + [f.guard.value];
      assert Elements(guards) == Elements(seen) + {f.guard.value};
    }
  }

  method WalkGuards(fs: M.Fields, seen: seq<Expr>) returns (guards: seq<Expr>)
    requires Distinct(seen)
    ensures Distinct(guards) && Elements(guards) == Elements(seen) + Collected(fs)
    decreases fs
  {
    guards := seen;
    var i := 0;
    assert fs[0..] == fs;
    while i < |fs|
      invariant 0 <= i <= |fs| && Distinct(guards)
      invariant Elements(guards) + Collected(fs[i..]) == Elements(seen) + Collected(fs)
    {
      assert fs[i..][0] == fs[i] && fs[i..][1..] == fs[i + 1..];
      guards := AddGuard(fs[i], guards);
      if fs[i].isMap && |fs[i].entries| > 0 {
        guards := WalkGuards(fs[i].entries, guards);
      }
      i := i + 1;
    }
  }

  predicate Ordered(gs: seq<Expr>, printed: Expr -> string) {
    forall i, j :: 0 <= i < j < |gs| ==> !Less(printed(gs[j]), printed(gs[i]))
  }

  method InsertGuard(gs: seq<Expr>, g: Expr, printed: Expr -> string) returns (r: seq<Expr>)
    requires Distinct(gs) && Ordered(gs, printed) && g !in gs
    ensures Distinct(r) && Ordered(r, printed) && forall x :: x in r <==> x == g || x in gs
  {
    var i := 0;
    while i < |gs| && Less(printed(gs[i]), printed(g))
      invariant 0 <= i <= |gs|
      invariant forall j :: 0 <= j < i ==> Less(printed(gs[j]), printed(g))
    {
      i := i + 1;
    }
    r := gs[..i] + [g] + gs[i..];
    InsertedOrdered(gs, i, g, printed);
    forall x ensures x in r <==> x == g || x in gs {
      assert gs == gs[..i] + gs[i..];
    }
  }

  lemma InsertedOrdered(gs: seq<Expr>, i: nat, g: Expr, printed: Expr -> string)
    requires Distinct(gs) && Ordered(gs, printed) && g !in gs && i <= |gs|
    requires forall j :: 0 <= j < i ==> Less(printed(gs[j]), printed(g))
    requires i < |gs| ==> !Less(printed(gs[i]), printed(g))
    ensures Distinct(gs[..i] + [g] + gs[i..]) && Ordered(gs[..i] + [g] + gs[i..], printed)
  {
    var r := gs[..i] + [g] + gs[i..];
    forall j | 0 <= j < |gs| ensures j < i ==> !Less(printed(g), printed(gs[j])) ensures i <= j ==>
        !Less(printed(gs[j]), printed(g)) {
      LessTrichotomy(printed(g), printed(gs[j]));
      if i < j {
        EnvelopeEmit.NotLessTransitive(printed(g), printed(gs[i]), printed(gs[j]));
      }
    }
    forall a, b | 0 <= a < b < |r| ensures !Less(printed(r[b]), printed(r[a])) && r[a] != r[b] {
      assert r[a] == if a < i then gs[a] else if a == i then g else gs[a - 1];
      assert r[b] == if b < i then gs[b] else if b == i then g else gs[b - 1];
    }
  }

  /** Exactly the status guards of the resource, each once, in text order. */
  predicate StatusGuards(ann: M.Fields, body: M.Fields, printed: Expr -> string, gs: seq<Expr>) {
    Distinct(gs) && Ordered(gs, printed) && Elements(gs) == Collected(ann) + Collected(body)
  }

  method CollectStatusGuards(ann: M.Fields, body: M.Fields, printed: Expr -> string) returns (gs: seq<Expr>)
    ensures StatusGuards(ann, body, printed, gs)
  {
    var found := WalkGuards(ann, []);
    found := WalkGuards(body, found);
    gs := [];
    for i := 0 to |found|
      invariant Distinct(gs) && Ordered(gs, printed)
      invariant forall g :: g in gs <==> g in found[..i]
    {
      assert found[i] !in found[..i];
      assert found[..i + 1] == found[..i] + [found[i]];
      gs := InsertGuard(gs, found[i], printed);
    }
    assert found[..|found|] == found;
    assert Elements(gs) == Elements(found);
    assert Elements([]) == {};
  }

  function StatusCondition(gs: seq<Expr>): Option<Expr> {
    if gs == [] then None else if |gs| == 1 then Some(gs[0]) else Some(And(gs))
  }

  // ----- the blocks -----

  /** A resource with its plans: what writeResourceTemplate has in hand when it
      starts to write. */
  datatype Draft = Draft(apiVersion: string, ann: M.Fields, body: M.Fields, env: E.Plan, gs: seq<Expr>)

  function Plains(ls: seq<Line>): seq<Block> {
    seq(|ls|, i requires 0 <= i < |ls| => Plain(ls[i]))
  }

  lemma {:induction false} FlatPlains(ls: seq<Line>)
    ensures FlatAll(Plains(ls)) == ls
  {
    if ls != [] {
      FlatPlains(ls[1..]);
      assert Plains(ls)[1..] == Plains(ls[1..]);
      assert [ls[0]] + ls[1..] == ls;
    }
  }

  function NameRhs(r: Resource): Rhs {
    if r.forEach != "" then Named(r.name) else Literal(r.name)
  }

  function HeaderLines(c: nat, r: Resource, apiVersion: string): seq<Line> {
    [PairLine(c, "apiVersion", Literal(apiVersion)),
     PairLine(c, "kind", Literal(r.kind)),
     KeyLine(c, "metadata"),
     KeyLine(c + 2, "annotations"),
     PairLine(c + 4, NAME_ANNOTATION, NameRhs(r))]
  }

  predicate Pending(p: Draft, wantNamespaced: bool) {
    wantNamespaced && !EnvelopeEmit.Any(p.env, EnvelopeEmit.InRef)
  }

  function SpecBlocks(ti: nat, p: Draft, wantNamespaced: bool): seq<Block>
    requires E.Rooted(p.env) && !E.GroupsCrash(p.env)
  {
    M.MapFieldBlocks(2 * ti + 2, "forProvider", 2 * ti + 4, p.body)
    + EnvelopeEmit.TopBlocks(ti, p.env, Pending(p, wantNamespaced))
  }

  function DocumentBlocks(ti: nat, r: Resource, p: Draft, wantNamespaced: bool): seq<Block>
    requires E.Rooted(p.env) && !E.GroupsCrash(p.env)
  {
    HeadBlocks(2 * ti, r, p) + SpecSection(ti, p, wantNamespaced)
  }

  function HeadBlocks(c: nat, r: Resource, p: Draft): seq<Block> {
    Plains(HeaderLines(c, r, p.apiVersion)) + M.FieldsBlocks(c + 4, p.ann)
  }

  function SpecSection(ti: nat, p: Draft, wantNamespaced: bool): seq<Block>
    requires E.Rooted(p.env) && !E.GroupsCrash(p.env)
  {
    [Plain(KeyLine(2 * ti, "spec"))] + SpecBlocks(ti, p, wantNamespaced)
  }

  function Wrapped(g: Option<Expr>, bs: seq<Block>): seq<Block> {
    if g.None? then bs else [Branch(g.value, bs, [])]
  }

  function LoopBlocks(h: LoopHead, bs: seq<Block>): seq<Block> {
    Wrapped(h.guard, [Loop(h.bound, bs)])
  }

  function WhenOf(d: Document, r: Resource, number: string -> real): Option<Expr> {
    if r.when == "" || ParseWhen(r.when).None? then None else Some(WhenCondition(d, ParseWhen(r.when).value, number))
  }

  function LoopedBlocks(ti: nat, d: Document, r: Resource, p: Draft, number: string -> real,
      wantNamespaced: bool): seq<Block>
    requires E.Rooted(p.env) && !E.GroupsCrash(p.env)
  {
    var inner := [Plain(Separator)] + DocumentBlocks(ti, r, p, wantNamespaced);
    if r.forEach == "" then inner else LoopBlocks(HeadOf(d, r.forEach, number), inner)
  }

  function ResourceBlocks(ti: nat, d: Document, r: Resource, p: Draft, number: string -> real,
      wantNamespaced: bool): seq<Block>
    requires E.Rooted(p.env) && !E.GroupsCrash(p.env)
  {
    Wrapped(WhenOf(d, r, number), Wrapped(StatusCondition(p.gs), LoopedBlocks(ti, d, r, p, number, wantNamespaced)))
  }

  // ----- writing -----

  function Opens(g: Option<Expr>): seq<Line> {
    if g.Some? then [IfLine(g.value)] else []
  }

  function Ends(g: Option<Expr>): seq<Line> {
    if g.Some? then [EndLine] else []
  }

  lemma FlatWrapped(g: Option<Expr>, bs: seq<Block>)
    ensures FlatAll(Wrapped(g, bs)) == Opens(g) + FlatAll(bs) + Ends(g)
  {
    if g.Some? {
      M.FlatBranch(g.value, bs, []);
      assert [IfLine(g.value)] + FlatAll(bs) + [] + [EndLine] == [IfLine(g.value)] + FlatAll(bs) + [EndLine];
    } else {
      assert [] + FlatAll(bs) + [] == FlatAll(bs);
    }
  }

  lemma FlatLoop(bound: Expr, bs: seq<Block>)
    ensures FlatAll([Loop(bound, bs)]) == [RangeLine(bound)] + FlatAll(bs) + [EndLine]
  {
    var b := Loop(bound, bs);
    assert [b][1..] == [];
    assert Flat(b) + [] == Flat(b);
  }

  method WriteHeader(out: Doc, c: nat, r: Resource, apiVersion: string)
    modifies out
    ensures out.lines == old(out.lines) + HeaderLines(c, r, apiVersion)
  {
    out.Put(PairLine(c, "apiVersion", Literal(apiVersion)));
    out.Put(PairLine(c, "kind", Literal(r.kind)));
    out.Put(KeyLine(c, "metadata"));
    out.Put(KeyLine(c + 2, "annotations"));
    if r.forEach != "" {
      out.Put(PairLine(c + 4, NAME_ANNOTATION, Named(r.name)));
    } else {
      out.Put(PairLine(c + 4, NAME_ANNOTATION, Literal(r.name)));
    }
  }

  predicate Scalars(fs: M.Fields) {
    forall f :: f in fs ==> !f.isMap
  }

  method WriteScalar(out: Doc, c: nat, f: M.Field)
    requires !f.isMap
    modifies out
    ensures out.lines == old(out.lines) + FlatAll(M.FieldBlocks(c, f))
  {
    FlatScalar(c, f);
    if f.guard.Some? {
      out.Put(IfLine(f.guard.value));
    }
    out.Put(PairLine(c, f.path, f.rhs));
    if f.guard.Some? {
      out.Put(EndLine);
    }
  }

  lemma FlatScalar(c: nat, f: M.Field)
    requires !f.isMap
    ensures FlatAll(M.FieldBlocks(c, f)) == Opens(f.guard) + [PairLine(c, f.path, f.rhs)] + Ends(f.guard)
  {
    FlatWrapped(f.guard, [Plain(PairLine(c, f.path, f.rhs))]);
    M.FlatOne(PairLine(c, f.path, f.rhs));
  }

  method WriteAnnotations(out: Doc, c: nat, plan: M.Fields)
    requires Scalars(plan)
    modifies out
    ensures out.lines == old(out.lines) + FlatAll(M.FieldsBlocks(c, plan))
  {
    ghost var start := out.lines;
    assert plan[..0] == [];
    for i := 0 to |plan|
      invariant out.lines == start + FlatAll(M.FieldsBlocks(c, plan[..i]))
    {
      assert plan[i] in plan;
      WriteScalar(out, c, plan[i]);
      assert plan[..i + 1] == plan[..i] + [plan[i]];
      M.FieldsSnoc(c, plan[..i], plan[i]);
    }
    assert plan[..|plan|] == plan;
  }

  /** The spec of the document; crashed when the envelope's entries overlap. */
  method WriteSpec(out: Doc, ti: nat, p: Draft, wantNamespaced: bool) returns (crashed: bool)
    modifies out
    ensures crashed <==> !E.Rooted(p.env) || E.GroupsCrash(p.env)
    ensures !crashed ==> out.lines == old(out.lines) + FlatAll([Plain(KeyLine(2 * ti, "spec"))]
            + SpecBlocks(ti, p, wantNamespaced))
  {
    ghost var start := out.lines;
    out.Put(KeyLine(2 * ti, "spec"));
    M.WriteMapField(out, 2 * ti + 2, "forProvider", 2 * ti + 4, p.body);
    crashed := EnvelopeEmit.WriteEnvelope(out, ti, p.env, wantNamespaced);
    if !crashed {
      FlatSpec(ti, p, wantNamespaced, start);
    }
  }

  lemma FlatSpec(ti: nat, p: Draft, wantNamespaced: bool, start: seq<Line>)
    requires E.Rooted(p.env) && !E.GroupsCrash(p.env)
    ensures start + [KeyLine(2 * ti, "spec")]
            + FlatAll(M.MapFieldBlocks(2 * ti + 2, "forProvider", 2 * ti + 4, p.body))
            + FlatAll(EnvelopeEmit.TopBlocks(ti, p.env, Pending(p, wantNamespaced)))
            == start + FlatAll([Plain(KeyLine(2 * ti, "spec"))] + SpecBlocks(ti, p, wantNamespaced))
  {
    var m, t := M.MapFieldBlocks(2 * ti + 2, "forProvider", 2 * ti + 4, p.body),
        EnvelopeEmit.TopBlocks(ti, p.env, Pending(p, wantNamespaced));
    FlatAppend(m, t);
    M.FlatHead(KeyLine(2 * ti, "spec"), m + t);
    Four(start, [KeyLine(2 * ti, "spec")], FlatAll(m), FlatAll(t));
  }

  lemma Four(s: seq<Line>, a: seq<Line>, b: seq<Line>, c: seq<Line>)
    ensures s + a + b + c == s + (a + (b + c))
    ensures s + a + b + c == s + (a + b + c)
  {
  }

  /** The document after its separator. */
  method WriteDocument(out: Doc, ti: nat, r: Resource, p: Draft, wantNamespaced: bool) returns (crashed: bool)
    requires Scalars(p.ann)
    modifies out
    ensures crashed <==> !E.Rooted(p.env) || E.GroupsCrash(p.env)
    ensures !crashed ==> out.lines == old(out.lines) + FlatAll(DocumentBlocks(ti, r, p, wantNamespaced))
  {
    ghost var start := out.lines;
    WriteHeader(out, 2 * ti, r, p.apiVersion);
    WriteAnnotations(out, 2 * ti + 4, p.ann);
    crashed := WriteSpec(out, ti, p, wantNamespaced);
    if !crashed {
      FlatDocument(ti, r, p, wantNamespaced, start);
    }
  }

  lemma FlatDocument(ti: nat, r: Resource, p: Draft, wantNamespaced: bool, start: seq<Line>)
    requires E.Rooted(p.env) && !E.GroupsCrash(p.env)
    ensures start + HeaderLines(2 * ti, r, p.apiVersion) + FlatAll(M.FieldsBlocks(2 * ti + 4, p.ann))
            + FlatAll([Plain(KeyLine(2 * ti, "spec"))] + SpecBlocks(ti, p, wantNamespaced))
            == start + FlatAll(DocumentBlocks(ti, r, p, wantNamespaced))
  {
    var h, a := HeaderLines(2 * ti, r, p.apiVersion), M.FieldsBlocks(2 * ti + 4, p.ann);
    var sp := [Plain(KeyLine(2 * ti, "spec"))] + SpecBlocks(ti, p, wantNamespaced);
    FlatPlains(h);
    FlatAppend(Plains(h), a);
    FlatAppend(Plains(h) + a, sp);
    Four(start, h, FlatAll(a), FlatAll(sp));
  }

  /** The document with its separator, inside its range when it is looped. */
  method WriteLooped(out: Doc, ti: nat, d: Document, r: Resource, p: Draft, number: string -> real,
      wantNamespaced: bool) returns (crashed: bool)
    requires Scalars(p.ann)
    modifies out
    ensures crashed <==> !E.Rooted(p.env) || E.GroupsCrash(p.env)
    ensures !crashed ==> out.lines == old(out.lines) + FlatAll(LoopedBlocks(ti, d, r, p, number, wantNamespaced))
  {
    ghost var start := out.lines;
    var h := HeadOf(d, r.forEach, number);
    if r.forEach != "" {
      if h.guard.Some? {
        out.Put(IfLine(h.guard.value));
      }
      out.Put(RangeLine(h.bound));
    }
    out.Put(Separator);
    crashed := WriteDocument(out, ti, r, p, wantNamespaced);
    if r.forEach != "" {
      out.Put(EndLine);
      if h.guard.Some? {
        out.Put(EndLine);
      }
    }
    if !crashed {
      FlatLooped(ti, d, r, p, number, wantNamespaced, start);
    }
  }

  lemma FlatLooped(ti: nat, d: Document, r: Resource, p: Draft, number: string -> real, wantNamespaced: bool,
      start: seq<Line>)
    requires E.Rooted(p.env) && !E.GroupsCrash(p.env)
    ensures var h, doc := HeadOf(d, r.forEach, number), FlatAll(DocumentBlocks(ti, r, p, wantNamespaced));
            start + FlatAll(LoopedBlocks(ti, d, r, p, number, wantNamespaced)) ==
            if r.forEach == "" then start + [Separator] + doc
            else if h.guard.None? then start + [RangeLine(h.bound)] + [Separator] + doc + [EndLine]
            else start + [IfLine(h.guard.value)] + [RangeLine(h.bound)] + [Separator] + doc + [EndLine] + [EndLine]
  {
    var h, doc := HeadOf(d, r.forEach, number), DocumentBlocks(ti, r, p, wantNamespaced);
    var inner := [Plain(Separator)] + doc;
    M.FlatHead(Separator, doc);
    FlatLoop(h.bound, inner);
    FlatWrapped(h.guard, [Loop(h.bound, inner)]);
    LoopParts(start, Opens(h.guard), h.bound, FlatAll(doc));
  }

  lemma LoopParts(start: seq<Line>, open: seq<Line>, bound: Expr, doc: seq<Line>)
    ensures start + ([Separator] + doc) == start + [Separator] + doc
    ensures start + ([RangeLine(bound)] + ([Separator] + doc) + [EndLine]) == start + [RangeLine(bound)]
            + [Separator] + doc + [EndLine]
    ensures start + (open + ([RangeLine(bound)] + ([Separator] + doc) + [EndLine]) + [EndLine])
            == start + open + [RangeLine(bound)] + [Separator] + doc + [EndLine] + [EndLine]
    ensures start + ([] + ([RangeLine(bound)] + ([Separator] + doc) + [EndLine]) + [])
            == start + ([RangeLine(bound)] + ([Separator] + doc) + [EndLine])
  {
  }

  lemma WrapParts(start: seq<Line>, g: Expr, body: seq<Line>)
    ensures start + ([IfLine(g)] + body + [EndLine]) == start + [IfLine(g)] + body + [EndLine]
    ensures start + ([] + body + []) == start + body
  {
  }

  method WriteGuarded(out: Doc, ti: nat, d: Document, r: Resource, p: Draft, number: string -> real,
      wantNamespaced: bool) returns (crashed: bool)
    requires Scalars(p.ann)
    modifies out
    ensures crashed <==> !E.Rooted(p.env) || E.GroupsCrash(p.env)
    ensures !crashed ==> out.lines == old(out.lines) + FlatAll(Wrapped(StatusCondition(p.gs),
            LoopedBlocks(ti, d, r, p, number, wantNamespaced)))
  {
    var s := StatusCondition(p.gs);
    if s.Some? {
      out.Put(IfLine(s.value));
    }
    crashed := WriteLooped(out, ti, d, r, p, number, wantNamespaced);
    if s.Some? {
      out.Put(EndLine);
    }
    if !crashed {
      FlatWrapped(s, LoopedBlocks(ti, d, r, p, number, wantNamespaced));
      WrapParts(old(out.lines), if s.Some? then s.value else Word(""),
          FlatAll(LoopedBlocks(ti, d, r, p, number, wantNamespaced)));
    }
  }

  method WriteConditional(out: Doc, ti: nat, d: Document, r: Resource, p: Draft, number: string -> real,
      wantNamespaced: bool) returns (crashed: bool)
    requires Scalars(p.ann)
    modifies out
    ensures crashed <==> !E.Rooted(p.env) || E.GroupsCrash(p.env)
    ensures !crashed ==> out.lines == old(out.lines) + FlatAll(ResourceBlocks(ti, d, r, p, number, wantNamespaced))
  {
    var w := WhenOf(d, r, number);
    if w.Some? {
      out.Put(IfLine(w.value));
    }
    crashed := WriteGuarded(out, ti, d, r, p, number, wantNamespaced);
    if w.Some? {
      out.Put(EndLine);
    }
    if !crashed {
      var body := Wrapped(StatusCondition(p.gs), LoopedBlocks(ti, d, r, p, number, wantNamespaced));
      FlatWrapped(w, body);
      WrapParts(old(out.lines), if w.Some? then w.value else Word(""), FlatAll(body));
    }
  }

  /** Planning, then writing: condition outside status guard outside loop guard
      outside range. */
  method WriteResourceTemplate(out: Doc, ti: nat, d: Document, r: Resource, apiVersion: string, body: M.Fields,
                               surface: Surface, printed: Expr -> string, wantNamespaced: bool)
      returns (p: Draft, crashed: bool)
    requires ResourceOk(d, r)
    modifies out
    ensures p.apiVersion == apiVersion && p.body == body
    ensures AnnotationPlan(d, r, surface, p.ann) && StatusGuards(p.ann, p.body, printed, p.gs)
    ensures p.env == EnvelopePlan(d, r, surface)
    ensures crashed <==> !E.Rooted(p.env) || E.GroupsCrash(p.env)
    ensures !crashed ==> out.lines == old(out.lines) + FlatAll(ResourceBlocks(ti, d, r, p, surface.number,
            wantNamespaced))
  {
    ghost var start := out.lines;
    var ann := PlanAnnotations(d, r, surface);
    var env := PlanEnvelope(d, r, surface);
    var gs := CollectStatusGuards(ann, body, printed);
    p := Draft(apiVersion, ann, body, env, gs);
    AnnotationsScalar(d, r, surface, ann);
    assert out.lines == start;
    crashed := WriteConditional(out, ti, d, r, p, surface.number, wantNamespaced);
  }

  lemma AnnotationsScalar(d: Document, r: Resource, surface: Surface, ann: M.Fields)
    requires AnnotationPlan(d, r, surface, ann)
    ensures Scalars(ann)
  {
    forall f | f in ann ensures !f.isMap {
      assert f == Annotation(d, f.path, r.annotations[f.path], surface);
    }
  }
}
