/** What stands where in a rendered envelope: its own entries, and exactly the
    kind and name of providerConfigRef that are filled in
    (internal/emit/envelope.go:318-359, 461-503). */
module EnvelopeFound {
  import opened Template
  import opened Text
  import opened Yaml
  import opened Envelope
  import opened EnvelopeMeaning
  import opened EnvelopeOrder
  import opened EnvelopeEmit
  import opened EnvelopeTheorem
  import opened Lookup

  /** The entry puts this scalar at this path. */
  predicate Says(e: EnvField, path: seq<string>, s: Scalar, ctx: Context) {
    e.path == path && Fires(e, ctx) && EvalRhs(e.rhs, ctx) == Ok(s)
  }

  ghost predicate Said(es: Plan, path: seq<string>, s: Scalar, ctx: Context) {
    exists e :: e in es && Says(e, path, s, ctx)
  }

  lemma {:induction false} FiredSays(es: Plan, ctx: Context, path: seq<string>, s: Scalar)
    requires Safe(es, ctx)
    ensures (path, s) in Fired(es, ctx) <==> Said(es, path, s, ctx)
  {
    if es != [] {
      FiredSays(es[1..], ctx, path, s);
      SaidCons(es, path, s, ctx);
      var head := if Fires(es[0], ctx) then [(es[0].path, EvalRhs(es[0].rhs, ctx).value)] else [];
      assert (path, s) in head <==> Says(es[0], path, s, ctx);
      assert Fired(es, ctx) == head + Fired(es[1..], ctx);
    }
  }

  lemma SaidCons(es: Plan, path: seq<string>, s: Scalar, ctx: Context)
    requires es != []
    ensures Said(es, path, s, ctx) <==> Says(es[0], path, s, ctx) || Said(es[1..], path, s, ctx)
  {
    assert es == [es[0]] + es[1..];
    assert es[0] in es && forall e :: e in es <==> e == es[0] || e in es[1..];
  }

  /** Looking a path up in the tree finds exactly what some entry puts there. */
  lemma TreeSays(full: Plan, ctx: Context, path: seq<string>, s: Scalar)
    requires Rooted(full) && Sorted(full) && !GroupsCrash(full) && Safe(full, ctx) && path != []
    ensures NodeAt(Tree(full, ctx), path) == Some(Leaf(s)) <==> Said(full, path, s, ctx)
  {
    TreeLeaves(full, ctx);
    TreeKeys(full, ctx);
    IncreasingDistinct(Tree(full, ctx));
    LeafFound(Tree(full, ctx), path, s);
    FiredSays(full, ctx, path, s);
  }

  ghost predicate Touched(es: Plan) {
    exists e :: e in es && e.path != [] && e.path[0] == "providerConfigRef"
  }

  /** A kind is filled in when none is set and the reference is wanted or begun. */
  ghost predicate KindAdded(base: Plan, wantNamespaced: bool) {
    !SetAt(base, ["providerConfigRef", "kind"]) && (Touched(base) || wantNamespaced)
  }

  /** A name is filled in beside a kind that was set, and by default. */
  ghost predicate NameAdded(base: Plan, wantNamespaced: bool) {
    && !SetAt(base, ["providerConfigRef", "name"])
    && (SetAt(base, ["providerConfigRef", "kind"]) || (wantNamespaced && !Touched(base)))
  }

  /** The two values that are filled in: the fixed kind, and the composite's
      providerName. */
  predicate Filled(path: seq<string>, s: Scalar, kind: bool, name: bool, ctx: Context)
    requires "providerName" in ctx.spec
  {
    || (kind && path == ["providerConfigRef", "kind"] && s == Text("ClusterProviderConfig"))
    || (name && path == ["providerConfigRef", "name"] && s == Rendered(ctx.spec["providerName"], false))
  }

  lemma KindSays(path: seq<string>, s: Scalar, ctx: Context)
    requires "providerName" in ctx.spec
    ensures Says(KIND_ENTRY, path, s, ctx) <==> Filled(path, s, true, false, ctx)
    ensures Says(NAME_ENTRY, path, s, ctx) <==> Filled(path, s, false, true, ctx)
  {
    assert Eval(Ref(SpecVar), ctx) == Ok(Dict(ctx.spec));
  }

  lemma AnySet(base: Plan)
    ensures Any(base, IsKind) <==> SetAt(base, ["providerConfigRef", "kind"])
    ensures Any(base, IsName) <==> SetAt(base, ["providerConfigRef", "name"])
    ensures Any(base, InRef) <==> Touched(base)
    ensures Any(base, InRef) <==> Any(base, IsName) || Any(base, IsKind) || Any(base, IsOther)
  {
    AnyMember(base, IsKind);
    AnyMember(base, IsName);
    AnyMember(base, InRef);
    AnyMember(base, IsOther);
    assert forall e :: IsName(e) || IsKind(e) ==> InRef(e);
    assert forall e :: InRef(e) <==> IsName(e) || IsKind(e) || IsOther(e);
  }

  lemma MissingSays(base: Plan, e: EnvField)
    ensures e in Missing(base) <==>
            || (KindAdded(base, false) && e == KIND_ENTRY)
            || (NameAdded(base, false) && e == NAME_ENTRY)
  {
    AnySet(base);
  }

  lemma TouchedBy(base: Plan)
    ensures Touched(SortPlan(base + Missing(base))) <==> Touched(base)
  {
    AnySet(base);
    var full := SortPlan(base + Missing(base));
    forall x ensures x in full <==> x in base || x in Missing(base) {
      assert x in full <==> x in base + Missing(base);
    }
    if Touched(base) {
      var x :| x in base && x.path != [] && x.path[0] == "providerConfigRef";
      assert x in full;
    }
  }

  /** Which entries an envelope is written from, over those it was given. */
  lemma Members(base: Plan, wantNamespaced: bool, e: EnvField)
    requires Rooted(SortPlan(base + Missing(base)))
    ensures e in Effective(SortPlan(base + Missing(base)), wantNamespaced) <==>
            || e in base
            || (KindAdded(base, wantNamespaced) && e == KIND_ENTRY)
            || (NameAdded(base, wantNamespaced) && e == NAME_ENTRY)
  {
    var full := SortPlan(base + Missing(base));
    assert e in full <==> e in base || e in Missing(base) by {
      assert e in full <==> e in base + Missing(base);
    }
    MissingSays(base, e);
    TouchedBy(base);
    EffectiveMembers(full, wantNamespaced, e);
    if !Touched(base) {
      Untouched(base);
    }
  }

  lemma EffectiveMembers(full: Plan, wantNamespaced: bool, e: EnvField)
    requires Rooted(full)
    ensures e in Effective(full, wantNamespaced) <==>
            e in full || (wantNamespaced && !Touched(full) && (e == KIND_ENTRY || e == NAME_ENTRY))
  {
    AnySet(full);
    WithDefaultMembers(full, e);
  }

  lemma Untouched(base: Plan)
    requires !Touched(base)
    ensures !SetAt(base, ["providerConfigRef", "kind"]) && !SetAt(base, ["providerConfigRef", "name"])
  {
    assert ["providerConfigRef", "kind"][0] == "providerConfigRef";
    assert ["providerConfigRef", "name"][0] == "providerConfigRef";
  }

  /** At every path of the rendered envelope stands exactly what an entry of its
      own puts there, or the kind and the name that are filled in. */
  lemma EnvelopeSays(base: Plan, wantNamespaced: bool, ctx: Context, path: seq<string>, s: Scalar)
    requires var full := SortPlan(base + Missing(base));
             Rooted(full) && Sorted(full) && !GroupsCrash(full) && Safe(full, ctx)
    requires "providerName" in ctx.spec && path != []
    ensures var all := Effective(SortPlan(base + Missing(base)), wantNamespaced);
            && Rooted(all) && !GroupsCrash(all) && Safe(all, ctx)
            && (NodeAt(Tree(all, ctx), path) == Some(Leaf(s)) <==>
                || Said(base, path, s, ctx)
                || Filled(path, s, KindAdded(base, wantNamespaced), NameAdded(base, wantNamespaced), ctx))
  {
    var full := SortPlan(base + Missing(base));
    EffectiveFits(0, full, wantNamespaced, ctx);
    var all := Effective(full, wantNamespaced);
    TreeSays(all, ctx, path, s);
    KindSays(path, s, ctx);
    forall e ensures e in all <==>
        || e in base
        || (KindAdded(base, wantNamespaced) && e == KIND_ENTRY)
        || (NameAdded(base, wantNamespaced) && e == NAME_ENTRY) {
      Members(base, wantNamespaced, e);
    }
  }
}
