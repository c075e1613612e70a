/** The main result about a composed resource: its template renders on every
    composite the XRD admits, to exactly the documents the blueprint asks for. */
module Rendering {
  import opened Template
  import opened Text
  import opened Refs
  import opened Params
  import opened Yaml
  import opened Stream
  import opened Blueprint
  import opened Wires
  import opened Plans
  import opened ResourceTemplate
  import E = Envelope
  import EnvelopeEmit
  import EnvelopeMeaning
  import EnvelopeOrder
  import EnvelopeTheorem
  import M = MapField

  // ----- the fields below forProvider -----

  /** A field resolved from the blueprint: literal text, a name, the plan of some
      reference whose observed path, if it has one, runs through maps, or a map
      of such fields, which is planned from at least one. */
  ghost predicate Resolved(d: Document, f: M.Field, ctx: Context, number: string -> real)
    decreases f
  {
    if f.isMap then f.guard.None? && !f.status && f.entries != []
        && forall e :: e in f.entries ==> Resolved(d, e, ctx, number)
    else
      || (f.guard.None? && !f.status && (f.rhs.Literal? || f.rhs.Composed?))
      || (f.rhs.Wire? && exists s :: WireOf(d, s, f, ctx, number))
  }

  ghost predicate WireOf(d: Document, s: string, f: M.Field, ctx: Context, number: string -> real) {
    var p := WirePlan(d, s, number);
    p.Some? && Observes(ctx, s) && f.rhs.Wire? && f.rhs.expr == p.value.expr && f.guard == p.value.guard
        && f.status == p.value.status
  }

  ghost predicate AllResolved(d: Document, fs: M.Fields, ctx: Context, number: string -> real) {
    forall f :: f in fs ==> Resolved(d, f, ctx, number)
  }

  lemma {:induction false} ResolvedSafe(d: Document, f: M.Field, ctx: Context, number: string -> real)
    requires EnvironmentOk(d) && DefaultsPrint(d) && Admitted(d, ctx) && Resolved(d, f, ctx, number)
    ensures M.Safe(f, ctx)
    decreases f
  {
    if f.isMap {
      forall e | e in f.entries ensures M.Safe(e, ctx) {
        ResolvedSafe(d, e, ctx, number);
      }
    } else if s :| WireOf(d, s, f, ctx, number) {
      WireExact(d, s, ctx, number);
    }
  }

  /** Nothing a wire reads depends on the loop index. */
  lemma {:induction false} ResolvedAt(d: Document, f: M.Field, ctx: Context, number: string -> real, i: Option<int>)
    requires Resolved(d, f, ctx, number)
    ensures Resolved(d, f, ctx.(index := i), number)
    decreases f
  {
    if f.isMap {
      forall e | e in f.entries ensures Resolved(d, e, ctx.(index := i), number) {
        ResolvedAt(d, e, ctx, number, i);
      }
    } else if s :| WireOf(d, s, f, ctx, number) {
      assert WireOf(d, s, f, ctx.(index := i), number);
    }
  }

  // ----- one document -----

  /** Everything the document's lines need to render. */
  ghost predicate Fits(r: Resource, p: Draft, wantNamespaced: bool, ctx: Context) {
    && Scalars(p.ann) && M.AllSafe(p.ann, ctx) && M.AllSafe(p.body, ctx)
    && E.Rooted(p.env) && EnvelopeOrder.Sorted(p.env) && !EnvelopeOrder.Clash(p.env) && !E.GroupsCrash(p.env)
    && EnvelopeMeaning.Safe(p.env, ctx) && "providerName" in ctx.spec
    && (r.forEach != "" ==> ctx.index.Some?)
  }

  function NameScalar(r: Resource, ctx: Context): Scalar {
    if r.forEach != "" && ctx.index.Some? then Indexed(r.name, ctx.index.value) else Text(r.name)
  }

  /** `{}` when every field is optional and none is there. */
  ghost function ForProvider(p: Draft, ctx: Context): Entry
    requires M.AllSafe(p.body, ctx)
  {
    Entry("forProvider", Mapping(if M.AllSilent(p.body, ctx) then [] else M.FieldsTree(p.body, ctx)))
  }

  ghost function SpecTree(p: Draft, r: Resource, wantNamespaced: bool, ctx: Context): seq<Entry>
    requires Fits(r, p, wantNamespaced, ctx)
  {
    EnvelopeTheorem.EffectiveFits(0, p.env, wantNamespaced, ctx);
    [ForProvider(p, ctx)] + EnvelopeMeaning.Tree(EnvelopeTheorem.Effective(p.env, wantNamespaced), ctx)
  }

  /** The document: identity, annotations that fire, and the spec. */
  ghost function DocumentTree(r: Resource, p: Draft, wantNamespaced: bool, ctx: Context): seq<Entry>
    requires Fits(r, p, wantNamespaced, ctx)
  {
    HeadEntries(r, p, ctx) + [Entry("spec", Mapping(SpecTree(p, r, wantNamespaced, ctx)))]
  }

  ghost function HeadEntries(r: Resource, p: Draft, ctx: Context): seq<Entry>
    requires M.AllSafe(p.ann, ctx)
  {
    [Entry("apiVersion", Leaf(Text(p.apiVersion))), Entry("kind", Leaf(Text(r.kind))), MetadataEntry(r, p, ctx)]
  }

  ghost function MetadataEntry(r: Resource, p: Draft, ctx: Context): Entry
    requires M.AllSafe(p.ann, ctx)
  {
    var annotations := [Entry(NAME_ANNOTATION, Leaf(NameScalar(r, ctx)))] + M.FieldsTree(p.ann, ctx);
    Entry("metadata", Mapping([Entry("annotations", Mapping(annotations))]))
  }

  lemma MetadataDenotes(c: nat, r: Resource, p: Draft, wantNamespaced: bool, ctx: Context)
    requires Fits(r, p, wantNamespaced, ctx)
    ensures Denotes(MetadataBlocks(c, r, p), ctx, c,
                    [MetadataEntry(r, p, ctx)])
  {
    var name := [Entry(NAME_ANNOTATION, Leaf(NameScalar(r, ctx)))];
    var all := name + M.FieldsTree(p.ann, ctx);
    var pair := [Plain(PairLine(c + 4, NAME_ANNOTATION, NameRhs(r)))];
    DenotesPair(c + 4, NAME_ANNOTATION, NameRhs(r), ctx);
    M.FieldsDenote(c + 4, p.ann, ctx);
    DenotesAppend(pair, M.FieldsBlocks(c + 4, p.ann), ctx, c + 4, name, M.FieldsTree(p.ann, ctx));
    DenotesNested(pair + M.FieldsBlocks(c + 4, p.ann), ctx, c + 2, "annotations", c + 4, all);
    DenotesNested([Plain(KeyLine(c + 2, "annotations"))] + (pair + M.FieldsBlocks(c + 4, p.ann)), ctx, c, "metadata",
        c + 2,
                  [Entry("annotations", Mapping(all))]);
  }

  lemma SpecDenotes(ti: nat, r: Resource, p: Draft, wantNamespaced: bool, ctx: Context)
    requires Fits(r, p, wantNamespaced, ctx)
    ensures Denotes(SpecSection(ti, p, wantNamespaced), ctx, 2 * ti,
            [Entry("spec", Mapping(SpecTree(p, r, wantNamespaced, ctx)))])
  {
    var rest := EnvelopeDenotes(ti, r, p, wantNamespaced, ctx);
    M.MapFieldMeans(2 * ti + 2, "forProvider", 2 * ti + 4, p.body, ctx);
    DenotesAppend(M.MapFieldBlocks(2 * ti + 2, "forProvider", 2 * ti + 4, p.body),
                  EnvelopeEmit.TopBlocks(ti, p.env, Pending(p, wantNamespaced)), ctx, 2 * ti
                      + 2, [ForProvider(p, ctx)], rest);
    DenotesNested(SpecBlocks(ti, p, wantNamespaced), ctx, 2 * ti, "spec", 2 * ti + 2, [ForProvider(p, ctx)] + rest);
  }

  lemma EnvelopeDenotes(ti: nat, r: Resource, p: Draft, wantNamespaced: bool, ctx: Context) returns (es: seq<Entry>)
    requires Fits(r, p, wantNamespaced, ctx)
    ensures Denotes(EnvelopeEmit.TopBlocks(ti, p.env, Pending(p, wantNamespaced)), ctx, 2 * ti + 2, es)
    ensures SpecTree(p, r, wantNamespaced, ctx) == [ForProvider(p, ctx)] + es
  {
    EnvelopeTheorem.EffectiveFits(ti, p.env, wantNamespaced, ctx);
    EnvelopeTheorem.EffectiveDenotes(ti, EnvelopeTheorem.Effective(p.env, wantNamespaced),
        EnvelopeEmit.TopBlocks(ti, p.env, Pending(p, wantNamespaced)), ctx);
    es := EnvelopeMeaning.Tree(EnvelopeTheorem.Effective(p.env, wantNamespaced), ctx);
  }

  lemma ThreeDenote(b1: seq<Block>, b2: seq<Block>, b3: seq<Block>, ctx: Context, c: nat, e1: Entry, e2: Entry,
      e3: Entry)
    requires Denotes(b1, ctx, c, [e1]) && Denotes(b2, ctx, c, [e2]) && Denotes(b3, ctx, c, [e3])
    ensures Denotes(b1 + b2 + b3, ctx, c, [e1, e2, e3])
  {
    DenotesAppend(b1, b2, ctx, c, [e1], [e2]);
    DenotesAppend(b1 + b2, b3, ctx, c, [e1] + [e2], [e3]);
    assert [e1] + [e2] + [e3] == [e1, e2, e3];
  }

  function MetadataBlocks(c: nat, r: Resource, p: Draft): seq<Block> {
    [Plain(KeyLine(c, "metadata"))] + ([Plain(KeyLine(c + 2, "annotations"))]
      + ([Plain(PairLine(c + 4, NAME_ANNOTATION, NameRhs(r)))] + M.FieldsBlocks(c + 4, p.ann)))
  }

  lemma HeadDenotes(c: nat, r: Resource, p: Draft, wantNamespaced: bool, ctx: Context)
    requires Fits(r, p, wantNamespaced, ctx)
    ensures Denotes(HeadBlocks(c, r, p), ctx, c, HeadEntries(r, p, ctx))
  {
    DenotesPair(c, "apiVersion", Literal(p.apiVersion), ctx);
    DenotesPair(c, "kind", Literal(r.kind), ctx);
    MetadataDenotes(c, r, p, wantNamespaced, ctx);
    ThreeDenote([Plain(PairLine(c, "apiVersion", Literal(p.apiVersion)))],
        [Plain(PairLine(c, "kind", Literal(r.kind)))],
                MetadataBlocks(c, r, p), ctx, c,
                Entry("apiVersion", Leaf(Text(p.apiVersion))), Entry("kind", Leaf(Text(r.kind))),
                    MetadataEntry(r, p, ctx));
    Arranged(c, r, p);
  }

  lemma DocumentDenotes(ti: nat, r: Resource, p: Draft, wantNamespaced: bool, ctx: Context)
    requires Fits(r, p, wantNamespaced, ctx)
    ensures Denotes(DocumentBlocks(ti, r, p, wantNamespaced), ctx, 2 * ti, DocumentTree(r, p, wantNamespaced, ctx))
  {
    HeadDenotes(2 * ti, r, p, wantNamespaced, ctx);
    SpecDenotes(ti, r, p, wantNamespaced, ctx);
    DenotesAppend(HeadBlocks(2 * ti, r, p), SpecSection(ti, p, wantNamespaced), ctx, 2 * ti,
                  HeadEntries(r, p, ctx), [Entry("spec", Mapping(SpecTree(p, r, wantNamespaced, ctx)))]);
  }

  lemma Arranged(c: nat, r: Resource, p: Draft)
    ensures HeadBlocks(c, r, p) ==
            [Plain(PairLine(c, "apiVersion", Literal(p.apiVersion)))] + [Plain(PairLine(c, "kind", Literal(r.kind)))]
                + MetadataBlocks(c, r, p)
  {
    FiveLines(PairLine(c, "apiVersion", Literal(p.apiVersion)), PairLine(c, "kind", Literal(r.kind)),
        KeyLine(c, "metadata"),
              KeyLine(c + 2, "annotations"), PairLine(c + 4, NAME_ANNOTATION, NameRhs(r)),
                  M.FieldsBlocks(c + 4, p.ann));
  }

  lemma FiveLines(a: Line, b: Line, c: Line, d: Line, e: Line, rest: seq<Block>)
    ensures Plains([a, b, c, d, e]) + rest == [Plain(a)] + [Plain(b)]
            + ([Plain(c)] + ([Plain(d)] + ([Plain(e)] + rest)))
  {
    assert Plains([a, b, c, d, e]) == [Plain(a), Plain(b), Plain(c), Plain(d), Plain(e)];
  }

  // ----- when, status guards, loop -----

  /** Every status guard of the resource holds. */
  ghost predicate Ready(p: Draft, ctx: Context) {
    forall g :: g in Collected(p.ann) + Collected(p.body) ==> Holds(g, ctx)
  }

  predicate WhenPasses(d: Document, r: Resource, ctx: Context, number: string -> real) {
    r.when != "" && ParseWhen(r.when).Some? ==> Passes(ParseWhen(r.when).value,
        TestedValue(d, ParseWhen(r.when).value, ctx, number))
  }

  lemma {:induction false} CollectedDecide(fs: M.Fields, ctx: Context)
    requires M.AllSafe(fs, ctx)
    ensures forall g :: g in Collected(fs) ==> Decides(g, ctx)
    decreases fs
  {
    if fs != [] {
      assert fs[0] in fs;
      assert M.Safe(fs[0], ctx);
      CollectedDecide(fs[1..], ctx);
      if fs[0].isMap {
        CollectedDecide(fs[0].entries, ctx);
      }
    }
  }

  lemma {:induction false} AllHold(gs: seq<Expr>, ctx: Context)
    requires gs != [] && forall g :: g in gs ==> Decides(g, ctx)
    ensures Decides(And(gs), ctx)
    ensures Holds(And(gs), ctx) <==> forall g :: g in gs ==> Holds(g, ctx)
  {
    assert gs[0] in gs && gs == [gs[0]] + gs[1..];
    if |gs| > 1 {
      AllHold(gs[1..], ctx);
      assert Eval(And(gs), ctx) == EvalAll(gs, ctx) && Eval(And(gs[1..]), ctx) == EvalAll(gs[1..], ctx);
    } else {
      assert forall g :: g in gs ==> g == gs[0];
    }
  }

  lemma StatusDecides(p: Draft, printed: Expr -> string, ctx: Context)
    requires StatusGuards(p.ann, p.body, printed, p.gs) && M.AllSafe(p.ann, ctx) && M.AllSafe(p.body, ctx)
    ensures var s := StatusCondition(p.gs);
            && (s.None? ==> Ready(p, ctx))
            && (s.Some? ==> Decides(s.value, ctx) && (Holds(s.value, ctx) <==> Ready(p, ctx)))
  {
    CollectedDecide(p.ann, ctx);
    CollectedDecide(p.body, ctx);
    forall g ensures g in p.gs <==> g in Collected(p.ann) + Collected(p.body) {
      assert g in Elements(p.gs) <==> g in p.gs;
    }
    if p.gs != [] {
      AllHold(p.gs, ctx);
    }
    if |p.gs| == 1 {
      assert forall g :: g in p.gs ==> g == p.gs[0];
    }
  }

  lemma WrappedYields(g: Option<Expr>, bs: seq<Block>, ctx: Context, c: nat, passes: bool, docs: seq<seq<Entry>>)
    requires g.None? ==> passes
    requires g.Some? ==> Decides(g.value, ctx) && (Holds(g.value, ctx) <==> passes)
    requires Proper(bs) && (passes ==> Yields(bs, ctx, c, docs))
    ensures Yields(Wrapped(g, bs), ctx, c, if passes then docs else [])
  {
    if g.Some? {
      YieldsBranch(g.value, bs, ctx, c, if passes then docs else []);
    }
  }

  /** The drafts are fit to render at every index. */
  ghost predicate FitsAll(r: Resource, p: Draft, wantNamespaced: bool, ctx: Context) {
    if r.forEach == "" then Fits(r, p, wantNamespaced, ctx)
    else forall i: int {:trigger ctx.(index := Some(i))} :: Fits(r, p, wantNamespaced, ctx.(index := Some(i)))
  }

  /** The documents of the loop, or the one document. */
  ghost function LoopDocuments(d: Document, r: Resource, p: Draft, wantNamespaced: bool, ctx: Context,
      number: string -> real): seq<seq<Entry>>
    requires FitsAll(r, p, wantNamespaced, ctx)
  {
    if r.forEach == "" then [DocumentTree(r, p, wantNamespaced, ctx)]
    else
      var v := LoopValue(d, r.forEach, ctx, number);
      if v.None? || !v.value.Num? then []
      else
        assert forall i: int :: Fits(r, p, wantNamespaced, ctx.(index := Some(i)));
        seq(UntilCount(v.value.amount), i requires 0 <= i < UntilCount(v.value.amount) => DocumentTree(r, p,
            wantNamespaced, Iteration(ctx, v.value.amount, i)))
  }

  /** What the blueprint asks for: nothing while the condition fails or an
      observed status is missing, otherwise the document for each index. */
  ghost function Documents(d: Document, r: Resource, p: Draft, wantNamespaced: bool, ctx: Context,
      number: string -> real): seq<seq<Entry>>
    requires FitsAll(r, p, wantNamespaced, ctx)
  {
    if WhenPasses(d, r, ctx, number) && Ready(p, ctx) then LoopDocuments(d, r, p, wantNamespaced, ctx, number) else []
  }

  lemma DocumentProper(ti: nat, r: Resource, p: Draft, wantNamespaced: bool, ctx: Context)
    requires Fits(r, p, wantNamespaced, ctx)
    ensures Proper([Plain(Separator)] + DocumentBlocks(ti, r, p, wantNamespaced))
    ensures Yields([Plain(Separator)] + DocumentBlocks(ti, r, p, wantNamespaced), ctx, 2 * ti,
            [DocumentTree(r, p, wantNamespaced, ctx)])
  {
    DocumentDenotes(ti, r, p, wantNamespaced, ctx);
    YieldsDocument(DocumentBlocks(ti, r, p, wantNamespaced), ctx, 2 * ti, DocumentTree(r, p, wantNamespaced, ctx));
  }

  lemma LoopedYields(ti: nat, d: Document, r: Resource, p: Draft, wantNamespaced: bool, ctx: Context,
      number: string -> real)
    requires EnvironmentOk(d) && ResourcesOk(d) && ForEachOk(d, r) && DefaultsPrint(d) && Admitted(d, ctx)
    requires LoopReads(r.forEach) && Counts(ctx, r.forEach) && FitsAll(r, p, wantNamespaced, ctx)
    requires E.Rooted(p.env) && !E.GroupsCrash(p.env)
    ensures Yields(LoopedBlocks(ti, d, r, p, number, wantNamespaced), ctx, 2 * ti,
            LoopDocuments(d, r, p, wantNamespaced, ctx, number))
  {
    if r.forEach == "" {
      DocumentProper(ti, r, p, wantNamespaced, ctx);
    } else {
      LoopExact(d, r, ctx, number);
      RangeYields(ti, d, r, p, wantNamespaced, ctx, number);
    }
  }

  lemma RangeYields(ti: nat, d: Document, r: Resource, p: Draft, wantNamespaced: bool, ctx: Context,
      number: string -> real)
    requires r.forEach != "" && FitsAll(r, p, wantNamespaced, ctx) && E.Rooted(p.env) && !E.GroupsCrash(p.env)
    requires var h, v := HeadOf(d, r.forEach, number), LoopValue(d, r.forEach, ctx, number);
             && (h.guard.None? ==> v.Some?)
             && (h.guard.Some? ==> Decides(h.guard.value, ctx) && (Holds(h.guard.value, ctx) <==> v.Some?))
             && (v.Some? ==> Eval(h.bound, ctx) == Ok(v.value) && v.value.Num?)
    ensures Yields(LoopedBlocks(ti, d, r, p, number, wantNamespaced), ctx, 2 * ti,
            LoopDocuments(d, r, p, wantNamespaced, ctx, number))
  {
    var h, v := HeadOf(d, r.forEach, number), LoopValue(d, r.forEach, ctx, number);
    var inner := [Plain(Separator)] + DocumentBlocks(ti, r, p, wantNamespaced);
    DocumentProper(ti, r, p, wantNamespaced, ctx.(index := Some(0)));
    LoopProper(h.bound, inner);
    if v.Some? {
      IterationsYield(ti, d, r, p, wantNamespaced, ctx, number, v.value.amount);
      YieldsLoop(h.bound, inner, ctx, 2 * ti, LoopDocuments(d, r, p, wantNamespaced, ctx, number));
    }
    WrappedYields(h.guard, [Loop(h.bound, inner)], ctx, 2 * ti, v.Some?,
        LoopDocuments(d, r, p, wantNamespaced, ctx, number));
  }

  lemma LoopProper(bound: Expr, inner: seq<Block>)
    requires Proper(inner)
    ensures Proper([Loop(bound, inner)])
  {
  }

  lemma IterationsYield(ti: nat, d: Document, r: Resource, p: Draft, wantNamespaced: bool, ctx: Context,
      number: string -> real, n: real)
    requires r.forEach != "" && FitsAll(r, p, wantNamespaced, ctx) && E.Rooted(p.env) && !E.GroupsCrash(p.env)
    requires LoopValue(d, r.forEach, ctx, number) == Some(Num(n))
    ensures var docs := LoopDocuments(d, r, p, wantNamespaced, ctx, number);
            && |docs| == UntilCount(n)
            && forall i :: 0 <= i < |docs| ==> Yields([Plain(Separator)]
                + DocumentBlocks(ti, r, p, wantNamespaced), Iteration(ctx, n, i), 2 * ti, [docs[i]])
  {
    var docs := LoopDocuments(d, r, p, wantNamespaced, ctx, number);
    forall i | 0 <= i < |docs|
      ensures Yields([Plain(Separator)] + DocumentBlocks(ti, r, p, wantNamespaced), Iteration(ctx, n, i), 2 * ti,
              [docs[i]])
    {
      DocumentProper(ti, r, p, wantNamespaced, ctx.(index := Some(UntilItem(n, i))));
    }
  }

  // ----- the main result -----

  /** What the composite and the observed resources must bring for the references
      of the resource. */
  ghost predicate Served(d: Document, r: Resource, body: M.Fields, ctx: Context, number: string -> real) {
    && Admitted(d, ctx)
    && (forall k :: k in r.annotations ==> Observes(ctx, r.annotations[k].from))
    && AllResolved(d, body, ctx, number)
    && Counts(ctx, r.forEach)
  }

  /** The draft is what planning made of the resource. */
  ghost predicate Drafted(d: Document, r: Resource, surface: Surface, printed: Expr -> string, p: Draft) {
    && AnnotationPlan(d, r, surface, p.ann)
    && StatusGuards(p.ann, p.body, printed, p.gs)
    && p.env == EnvelopePlan(d, r, surface)
  }

  /** What a caller can check before: environment defaults are template constants,
      the observed loop bound does not end in metadata.name, and the envelope
      sets providerConfigRef child by child or as a flow map. */
  ghost predicate Emittable(d: Document, r: Resource, surface: Surface) {
    DefaultsPrint(d) && LoopReads(r.forEach) && !RefOverlaps(r, surface)
  }

  lemma ProviderNamed(d: Document, r: Resource, ctx: Context)
    requires Valid(d) && r in d.resources && Managed(d, r) && Admitted(d, ctx)
    ensures "providerName" in ctx.spec
  {
    assert HasManaged(d);
    assert AlwaysSet(d.parameters["providerName"]);
  }

  lemma DraftFits(d: Document, r: Resource, surface: Surface, printed: Expr -> string, p: Draft,
      wantNamespaced: bool, ctx: Context)
    requires Valid(d) && r in d.resources && Managed(d, r) && Drafted(d, r, surface, printed, p)
             && Emittable(d, r, surface)
    requires Served(d, r, p.body, ctx, surface.number) && (r.forEach != "" ==> ctx.index.Some?)
    ensures Fits(r, p, wantNamespaced, ctx)
  {
    assert ResourceOk(d, r);
    ProviderNamed(d, r, ctx);
    AnnotationsScalar(d, r, surface, p.ann);
    AnnotationsSafe(d, r, surface, p.ann, ctx);
    forall f | f in p.body ensures M.Safe(f, ctx) {
      ResolvedSafe(d, f, ctx, surface.number);
    }
    EnvelopePlanned(d, r, surface, ctx);
  }

  lemma ServedAt(d: Document, r: Resource, body: M.Fields, ctx: Context, number: string -> real, i: int)
    requires Served(d, r, body, ctx, number)
    ensures Served(d, r, body, ctx.(index := Some(i)), number)
  {
    forall f | f in body ensures Resolved(d, f, ctx.(index := Some(i)), number) {
      ResolvedAt(d, f, ctx, number, Some(i));
    }
  }

  lemma DraftFitsAll(d: Document, r: Resource, surface: Surface, printed: Expr -> string, p: Draft,
      wantNamespaced: bool, ctx: Context)
    requires Valid(d) && r in d.resources && Managed(d, r) && Drafted(d, r, surface, printed, p)
             && Emittable(d, r, surface)
    requires Served(d, r, p.body, ctx, surface.number)
    ensures FitsAll(r, p, wantNamespaced, ctx) && E.Rooted(p.env) && !E.GroupsCrash(p.env)
  {
    ServedAt(d, r, p.body, ctx, surface.number, 0);
    DraftFits(d, r, surface, printed, p, wantNamespaced, ctx.(index := Some(0)));
    if r.forEach == "" {
      DraftFits(d, r, surface, printed, p, wantNamespaced, ctx);
    } else {
      forall i: int ensures Fits(r, p, wantNamespaced, ctx.(index := Some(i))) {
        ServedAt(d, r, p.body, ctx, surface.number, i);
        DraftFits(d, r, surface, printed, p, wantNamespaced, ctx.(index := Some(i)));
      }
    }
  }

  lemma DraftYields(ti: nat, d: Document, r: Resource, surface: Surface, printed: Expr -> string, p: Draft,
      wantNamespaced: bool, ctx: Context)
    requires Valid(d) && r in d.resources && Managed(d, r) && Drafted(d, r, surface, printed, p)
             && Emittable(d, r, surface)
    requires Served(d, r, p.body, ctx, surface.number)
    ensures FitsAll(r, p, wantNamespaced, ctx) && E.Rooted(p.env) && !E.GroupsCrash(p.env)
    ensures Yields(ResourceBlocks(ti, d, r, p, surface.number, wantNamespaced), ctx, 2 * ti,
            Documents(d, r, p, wantNamespaced, ctx, surface.number))
  {
    assert ResourceOk(d, r);
    DraftFitsAll(d, r, surface, printed, p, wantNamespaced, ctx);
    LoopedYields(ti, d, r, p, wantNamespaced, ctx, surface.number);
    GuardsDecide(d, r, surface, printed, p, ctx);
    var inner, docs := LoopedBlocks(ti, d, r, p, surface.number, wantNamespaced),
        LoopDocuments(d, r, p, wantNamespaced, ctx, surface.number);
    BothWrapped(WhenOf(d, r, surface.number), StatusCondition(p.gs), inner, ctx, 2 * ti,
                WhenPasses(d, r, ctx, surface.number), Ready(p, ctx), docs);
  }

  lemma BothWrapped(w: Option<Expr>, s: Option<Expr>, bs: seq<Block>, ctx: Context, c: nat, passes: bool,
      ready: bool, docs: seq<seq<Entry>>)
    requires w.None? ==> passes
    requires w.Some? ==> Decides(w.value, ctx) && (Holds(w.value, ctx) <==> passes)
    requires s.None? ==> ready
    requires s.Some? ==> Decides(s.value, ctx) && (Holds(s.value, ctx) <==> ready)
    requires Yields(bs, ctx, c, docs)
    ensures Yields(Wrapped(w, Wrapped(s, bs)), ctx, c, if passes && ready then docs else [])
  {
    WrappedYields(s, bs, ctx, c, ready, docs);
    WrappedYields(w, Wrapped(s, bs), ctx, c, passes, if ready then docs else []);
  }

  lemma GuardsDecide(d: Document, r: Resource, surface: Surface, printed: Expr -> string, p: Draft, ctx: Context)
    requires Valid(d) && r in d.resources && Drafted(d, r, surface, printed, p) && DefaultsPrint(d)
    requires Served(d, r, p.body, ctx, surface.number)
    ensures var s, w := StatusCondition(p.gs), WhenOf(d, r, surface.number);
            && (s.None? ==> Ready(p, ctx))
            && (s.Some? ==> Decides(s.value, ctx) && (Holds(s.value, ctx) <==> Ready(p, ctx)))
            && (w.None? ==> WhenPasses(d, r, ctx, surface.number))
            && (w.Some? ==> Decides(w.value, ctx) && (Holds(w.value, ctx) <==> WhenPasses(d, r, ctx, surface.number)))
  {
    assert ResourceOk(d, r);
    AnnotationsSafe(d, r, surface, p.ann, ctx);
    forall f | f in p.body ensures M.Safe(f, ctx) {
      ResolvedSafe(d, f, ctx, surface.number);
    }
    StatusDecides(p, printed, ctx);
    WhenDecides(d, r, ctx, surface.number);
  }

  lemma WhenDecides(d: Document, r: Resource, ctx: Context, number: string -> real)
    requires EnvironmentOk(d) && WhenOk(d, r) && DefaultsPrint(d) && Admitted(d, ctx)
    ensures var w := WhenOf(d, r, number);
            && (w.None? ==> WhenPasses(d, r, ctx, number))
            && (w.Some? ==> Decides(w.value, ctx) && (Holds(w.value, ctx) <==> WhenPasses(d, r, ctx, number)))
  {
    if r.when != "" {
      WhenExact(d, r, ctx, number);
    }
  }

  /** For every validated managed resource and every composite its XRD admits:
      the emitted lines parse as balanced blocks, rendering them dereferences no
      missing key, and the result is exactly the stream of documents asked for. */
  lemma ResourceRenders(ti: nat, d: Document, r: Resource, surface: Surface, printed: Expr -> string, p: Draft,
      wantNamespaced: bool, ctx: Context)
    requires Valid(d) && r in d.resources && Managed(d, r) && Drafted(d, r, surface, printed, p)
             && Emittable(d, r, surface)
    requires Served(d, r, p.body, ctx, surface.number)
    ensures FitsAll(r, p, wantNamespaced, ctx) && E.Rooted(p.env) && !E.GroupsCrash(p.env)
    ensures var ls := FlatAll(ResourceBlocks(ti, d, r, p, surface.number, wantNamespaced));
            && Render(ls, ctx).Ok?
            && ReadStream(Render(ls, ctx).value, 2 * ti) == Some(Documents(d, r, p, wantNamespaced, ctx,
                surface.number))
  {
    DraftYields(ti, d, r, surface, printed, p, wantNamespaced, ctx);
    YieldsRenders(ResourceBlocks(ti, d, r, p, surface.number, wantNamespaced), ctx, 2 * ti,
        Documents(d, r, p, wantNamespaced, ctx, surface.number));
  }

  lemma {:induction false} FullNoNull(es: seq<Entry>)
    requires Full(es)
    ensures NoNull(es)
    decreases es
  {
    forall e | e in es ensures NodeNoNull(e.node) {
      if e.node.Mapping? {
        FullNoNull(e.node.entries);
      }
    }
  }

  /** No key of a document stands with nothing under it. */
  lemma DocumentWhole(r: Resource, p: Draft, wantNamespaced: bool, ctx: Context)
    requires Fits(r, p, wantNamespaced, ctx)
    ensures NoNull(DocumentTree(r, p, wantNamespaced, ctx))
  {
    M.TreeNoNull(p.ann, ctx);
    SpecWhole(r, p, wantNamespaced, ctx);
    var annotations := [Entry(NAME_ANNOTATION, Leaf(NameScalar(r, ctx)))] + M.FieldsTree(p.ann, ctx);
    assert NoNull(annotations);
    assert NoNull([Entry("annotations", Mapping(annotations))]);
    assert NoNull(HeadEntries(r, p, ctx));
  }

  lemma SpecWhole(r: Resource, p: Draft, wantNamespaced: bool, ctx: Context)
    requires Fits(r, p, wantNamespaced, ctx)
    ensures NoNull(SpecTree(p, r, wantNamespaced, ctx))
  {
    M.TreeNoNull(p.body, ctx);
    EnvelopeTheorem.EffectiveFits(0, p.env, wantNamespaced, ctx);
    EnvelopeMeaning.TreeFull(EnvelopeTheorem.Effective(p.env, wantNamespaced), ctx);
    FullNoNull(EnvelopeMeaning.Tree(EnvelopeTheorem.Effective(p.env, wantNamespaced), ctx));
    assert NodeNoNull(ForProvider(p, ctx).node);
  }

  /** The status guards of the annotations hold exactly when every observed
      value an annotation is wired from is there. */
  lemma AnnotationsReady(d: Document, r: Resource, surface: Surface, ann: M.Fields, ctx: Context)
    requires EnvironmentOk(d) && DefaultsPrint(d) && Admitted(d, ctx) && ResourceOk(d, r)
             && AnnotationPlan(d, r, surface, ann)
    requires forall k :: k in r.annotations ==> Observes(ctx, r.annotations[k].from)
    ensures (forall g :: g in Collected(ann) ==> Holds(g, ctx)) <==>
            forall k :: k in r.annotations && FromStatus(r.annotations[k].from) ==>
                WireValue(d, r.annotations[k].from, ctx, surface.number).Some?
  {
    AnnotationsScalar(d, r, surface, ann);
    forall k | k in r.annotations && FromStatus(r.annotations[k].from)
      ensures var a := Annotation(d, k, r.annotations[k], surface);
              a in ann && OwnGuard(a) != {} && (Holds(a.guard.value, ctx) <==>
                  WireValue(d, r.annotations[k].from, ctx, surface.number).Some?)
    {
      assert AnnotationOk(d, r, r.annotations[k]);
      StatusPlanned(d, r, k, surface);
      WireExact(d, r.annotations[k].from, ctx, surface.number);
    }
    forall f | f in ann && OwnGuard(f) != {} ensures FromStatus(r.annotations[f.path].from) {
      StatusAnnotation(d, r, f.path, surface);
    }
    ScalarGuards(ann);
  }

  predicate FromStatus(s: string) {
    ParseFrom(s).Some? && ParseFrom(s).value.StatusOf?
  }

  lemma StatusPlanned(d: Document, r: Resource, k: string, surface: Surface)
    requires k in r.annotations && AnnotationOk(d, r, r.annotations[k]) && FromStatus(r.annotations[k].from)
    ensures var s, a := r.annotations[k].from, Annotation(d, k, r.annotations[k], surface);
            var p := WirePlan(d, s, surface.number);
            p.Some? && p.value.status && p.value.guard.Some? && a.guard == p.value.guard && a.status && !a.isMap
  {
    ParsedWrites(r.annotations[k].from);
    CountParts(r.annotations[k].from, r.annotations[k].value, r.annotations[k].raw, r.annotations[k].template);
    Families(r.annotations[k].from);
  }

  lemma StatusAnnotation(d: Document, r: Resource, k: string, surface: Surface)
    requires k in r.annotations && Annotation(d, k, r.annotations[k], surface).status
    ensures FromStatus(r.annotations[k].from)
  {
  }

  lemma {:induction false} ScalarGuards(fs: M.Fields)
    requires Scalars(fs)
    ensures forall g :: g in Collected(fs) <==> exists f :: f in fs && g in OwnGuard(f)
  {
    if fs != [] {
      ScalarGuards(fs[1..]);
      assert fs == [fs[0]] + fs[1..] && fs[0] in fs;
    }
  }
}
