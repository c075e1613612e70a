/** The main results about the envelope. */
module EnvelopeTheorem {
  import opened Template
  import opened Text
  import opened Paths
  import opened Yaml
  import opened Envelope
  import opened EnvelopeMeaning
  import opened EnvelopeOrder
  import opened EnvelopeEmit

  /** The plan with the default entries standing at their sorted place. */
  function WithDefault(es: Plan): Plan
    requires Rooted(es)
  {
    if es == [] || Less(PCR, es[0].path[0]) then [KIND_ENTRY, NAME_ENTRY] + es
    else [es[0]] + WithDefault(es[1..])
  }

  predicate NoRef(es: Plan) {
    forall i :: 0 <= i < |es| ==> !InRef(es[i])
  }

  lemma {:induction false} WithDefaultRooted(es: Plan)
    requires Rooted(es)
    ensures Rooted(WithDefault(es)) && WithDefault(es) != []
  {
    if es != [] && !Less(PCR, es[0].path[0]) {
      WithDefaultRooted(es[1..]);
    }
  }

  /** A run of entries below the default stays in front of it. */
  lemma {:induction false} WithDefaultSkips(run: Plan, rest: Plan)
    requires Rooted(run) && Rooted(run + rest)
    requires forall i :: 0 <= i < |run| ==> !Less(PCR, run[i].path[0])
    ensures Rooted(rest) && WithDefault(run + rest) == run + WithDefault(rest)
  {
    assert forall i :: 0 <= i < |rest| ==> rest[i] == (run + rest)[|run| + i];
    if run == [] {
      assert run + rest == rest;
    } else {
      assert (run + rest)[0] == run[0];
      assert (run + rest)[1..] == run[1..] + rest;
      assert forall i :: 0 <= i < |run| - 1 + |rest| ==> (run[1..] + rest)[i] == (run + rest)[i + 1];
      WithDefaultSkips(run[1..], rest);
      assert [run[0]] + (run[1..] + WithDefault(rest)) == run + WithDefault(rest);
    }
  }

  lemma SplitAt(es: Plan, n: nat)
    requires Rooted(es) && n <= |es|
    requires n > 0 && forall i :: 0 <= i < n ==> es[i].path[0] == es[0].path[0]
    requires n < |es| ==> es[n].path[0] != es[0].path[0]
    ensures Group(es) == Tails(es[..n]) && After(es) == es[n..]
  {
    GroupIs(es, 0, n, Tails(es[..n]));
    assert es[0..] == es;
  }

  lemma DefaultBehindSplit(es: Plan, n: nat)
    requires Rooted(es) && es != [] && NoRef(es) && !Less(PCR, es[0].path[0])
    requires n == Span(es, es[0].path[0])
    ensures var w := WithDefault(es);
            && Rooted(w) && n < |w| && w[..n] == es[..n] && w[n..] == WithDefault(es[n..])
            && w[n].path[0] != es[0].path[0]
  {
    GroupParts(es);
    var run, rest := es[..n], es[n..];
    assert es == run + rest;
    WithDefaultSkips(run, rest);
    WithDefaultRooted(es);
    WithDefaultRooted(rest);
    assert WithDefault(rest)[0] == KIND_ENTRY || WithDefault(rest)[0] == rest[0];
    assert !InRef(es[0]);
    assert rest != [] ==> rest[0] == es[n];
  }

  /** Behind a group that is not providerConfigRef the default goes further back. */
  lemma DefaultBehind(es: Plan)
    requires Rooted(es) && es != [] && NoRef(es) && !Less(PCR, es[0].path[0])
    ensures var w := WithDefault(es);
            && Rooted(w) && w != [] && w[0] == es[0]
            && Group(w) == Group(es) && After(w) == WithDefault(After(es))
  {
    GroupParts(es);
    var n := Span(es, es[0].path[0]);
    DefaultBehindSplit(es, n);
    var w := WithDefault(es);
    forall i | 0 <= i < n ensures w[i] == es[i] {
      assert w[i] == w[..n][i] == es[..n][i];
    }
    SplitAt(w, n);
  }

  lemma DefaultHere(es: Plan)
    requires Rooted(es) && NoRef(es)
    ensures var w := [KIND_ENTRY, NAME_ENTRY] + es;
            && Rooted(w) && After(w) == es
            && Group(w) == [KIND_ENTRY.(path := ["kind"]), NAME_ENTRY.(path := ["name"])]
  {
    var w := [KIND_ENTRY, NAME_ENTRY] + es;
    if es != [] {
      assert w[2] == es[0] && !InRef(es[0]);
    }
    SplitAt(w, 2);
    assert w[2..] == es;
    var run := w[..2];
    assert run == [KIND_ENTRY, NAME_ENTRY];
    assert Tails(run)[0] == KIND_ENTRY.(path := ["kind"]) && Tails(run)[1] == NAME_ENTRY.(path := ["name"]);
  }

  /** The literal block is what the general writer would emit for the two
      default entries. */
  lemma DefaultIsNode(ti: nat)
    ensures var g := [KIND_ENTRY.(path := ["kind"]), NAME_ENTRY.(path := ["name"])];
            !Crashes(g) && NodeBlocks(ti + 1, PCR, g, None) == DefaultBlocks(ti)
  {
    TwoLeaves(ti + 2, "kind", KIND_ENTRY.rhs, "name", NAME_ENTRY.rhs);
    var g := [EnvField(["kind"], KIND_ENTRY.rhs, None), EnvField(["name"], NAME_ENTRY.rhs, None)];
    assert g[0] in g && GroupGuard(g) == None && Rooted(g);
    assert KIND_ENTRY.(path := ["kind"]) == g[0] && NAME_ENTRY.(path := ["name"]) == g[1];
  }

  /** Two unguarded leaves side by side. */
  lemma TwoLeaves(level: nat, a: string, x: Rhs, b: string, y: Rhs)
    requires a != b
    ensures var g := [EnvField([a], x, None), EnvField([b], y, None)];
            && Rooted(g) && !GroupsCrash(g)
            && Children(level, g, None) == [Plain(PairLine(2 * level, a, x)), Plain(PairLine(2 * level, b, y))]
  {
    var k, n := EnvField([a], x, None), EnvField([b], y, None);
    var g := [k, n];
    SplitAt(g, 1);
    assert g[..1] == [k] && g[1..] == [n];
    assert Tails([k]) == [k.(path := [])];
    LeafNode(level, a, k.(path := []));
    OneLeaf(level, b, y);
    assert Children(level, g, None) == NodeBlocks(level, a, Group(g), None) + Children(level, [n], None);
  }

  lemma OneLeaf(level: nat, b: string, y: Rhs)
    ensures var g := [EnvField([b], y, None)];
            Rooted(g) && !GroupsCrash(g)
            && Children(level, g, None) == [Plain(PairLine(2 * level, b, y))]
  {
    var n := EnvField([b], y, None);
    SplitAt([n], 1);
    assert [n][..1] == [n] && [n][1..] == [];
    assert Tails([n]) == [n.(path := [])];
    LeafNode(level, b, n.(path := []));
    assert !GroupsCrash([]);
    assert Children(level, [n], None) == NodeBlocks(level, b, Group([n]), None) + Children(level, [], None);
  }

  lemma LeafNode(level: nat, key: string, e: EnvField)
    requires e.path == [] && e.guard.None?
    ensures !Crashes([e]) && NodeBlocks(level, key, [e], None) == [Plain(PairLine(2 * level, key, e.rhs))]
  {
    assert e in [e];
  }

  lemma {:induction false} NoRefParts(es: Plan)
    requires Rooted(es) && es != [] && NoRef(es)
    ensures NoRef(After(es))
  {
    GroupParts(es);
  }

  lemma TopHere(ti: nat, es: Plan)
    requires Rooted(es) && !GroupsCrash(es) && NoRef(es)
    requires es == [] || Less(PCR, es[0].path[0])
    requires TopBlocks(ti, es, false) == Children(ti + 1, es, None)
    ensures var w := WithDefault(es);
            Rooted(w) && !GroupsCrash(w) && TopBlocks(ti, es, true) == Children(ti + 1, w, None)
  {
    var w := [KIND_ENTRY, NAME_ENTRY] + es;
    assert WithDefault(es) == w;
    DefaultHere(es);
    DefaultIsNode(ti);
    assert TopBlocks(ti, es, true) == DefaultBlocks(ti) + TopBlocks(ti, es, false) by {
      if es != [] {
        var a, b, c := DefaultBlocks(ti), NodeBlocks(ti + 1, es[0].path[0], Group(es), None),
            TopBlocks(ti, After(es), false);
        assert a + b + c == a + ([] + b + c);
      }
    }
    assert w[0] == KIND_ENTRY;
    assert Children(ti + 1, w, None) == NodeBlocks(ti + 1, PCR, Group(w), None) + Children(ti + 1, After(w), None);
  }

  lemma TopBehind(ti: nat, es: Plan, pending: bool)
    requires Rooted(es) && !GroupsCrash(es) && es != [] && (pending ==> NoRef(es) && !Less(PCR, es[0].path[0]))
    requires var rest := if pending then WithDefault(After(es)) else After(es);
             Rooted(rest) && !GroupsCrash(rest) && TopBlocks(ti, After(es), pending) == Children(ti + 1, rest, None)
    ensures var w := if pending then WithDefault(es) else es;
            Rooted(w) && !GroupsCrash(w) && TopBlocks(ti, es, pending) == Children(ti + 1, w, None)
  {
    if pending {
      DefaultBehind(es);
    }
    var node := NodeBlocks(ti + 1, es[0].path[0], Group(es), None);
    assert [] + node == node;
  }

  /** Slipping the default block in while writing is writing the plan that has
      the default entries at their place. */
  lemma {:induction false} TopIsChildren(ti: nat, es: Plan, pending: bool)
    requires Rooted(es) && !GroupsCrash(es) && (pending ==> NoRef(es))
    ensures var w := if pending then WithDefault(es) else es;
            Rooted(w) && !GroupsCrash(w) && TopBlocks(ti, es, pending) == Children(ti + 1, w, None)
    decreases Size(es), pending
  {
    if pending && (es == [] || Less(PCR, es[0].path[0])) {
      TopIsChildren(ti, es, false);
      TopHere(ti, es);
    } else if es != [] {
      if pending {
        NoRefParts(es);
      }
      TopIsChildren(ti, After(es), pending);
      TopBehind(ti, es, pending);
    }
  }

  // ----- the default keeps the plan in order -----

  lemma {:induction false} WithDefaultMembers(es: Plan, e: EnvField)
    requires Rooted(es)
    ensures e in WithDefault(es) <==> e == KIND_ENTRY || e == NAME_ENTRY || e in es
  {
    if es != [] && !Less(PCR, es[0].path[0]) {
      WithDefaultMembers(es[1..], e);
      assert es == [es[0]] + es[1..];
    }
  }

  lemma {:induction false} WithDefaultSorted(es: Plan)
    requires Rooted(es) && Sorted(es) && NoRef(es)
    ensures Sorted(WithDefault(es))
  {
    WithDefaultRooted(es);
    if es == [] || Less(PCR, es[0].path[0]) {
      DefaultFirst(es);
    } else {
      assert forall i, j :: 0 <= i < j < |es[1..]| ==> !PathLess(es[1..][j].path, es[1..][i].path);
      WithDefaultSorted(es[1..]);
      var w := WithDefault(es[1..]);
      forall j | 0 <= j < |w| ensures !PathLess(w[j].path, es[0].path) {
        WithDefaultMembers(es[1..], w[j]);
        if w[j] in es[1..] {
          var k :| 0 <= k < |es| - 1 && es[1..][k] == w[j];
          assert !PathLess(es[k + 1].path, es[0].path);
        } else {
          assert !InRef(es[0]);
          LessTrichotomy(PCR, es[0].path[0]);
        }
      }
      SortedCons(es[0], w);
    }
  }

  lemma SortedCons(e: EnvField, w: Plan)
    requires Sorted(w) && forall j :: 0 <= j < |w| ==> !PathLess(w[j].path, e.path)
    ensures Sorted([e] + w)
  {
    var all := [e] + w;
    forall i, j | 0 <= i < j < |all| ensures !PathLess(all[j].path, all[i].path) {
      assert all[j] == w[j - 1];
      if i > 0 {
        assert all[i] == w[i - 1];
      }
    }
  }

  lemma DefaultFirst(es: Plan)
    requires Rooted(es) && Sorted(es) && (es == [] || Less(PCR, es[0].path[0]))
    ensures Sorted([KIND_ENTRY, NAME_ENTRY] + es)
  {
    forall j | 0 <= j < |es| ensures Less(PCR, es[j].path[0]) {
      if j > 0 {
        HeadOrder(es, 0, j);
        LessTrichotomy(es[0].path[0], es[j].path[0]);
        if es[0].path[0] != es[j].path[0] {
          LessTransitive(PCR, es[0].path[0], es[j].path[0]);
        }
      }
    }
    forall j | 0 <= j < |es| ensures !PathLess(es[j].path, NAME_ENTRY.path) && !PathLess(es[j].path, KIND_ENTRY.path) {
      LessTrichotomy(PCR, es[j].path[0]);
    }
    SortedCons(NAME_ENTRY, es);
    KindBeforeName();
    var w := [NAME_ENTRY] + es;
    forall j | 0 <= j < |w| ensures !PathLess(w[j].path, KIND_ENTRY.path) {
      if j > 0 {
        assert w[j] == es[j - 1];
      }
    }
    SortedCons(KIND_ENTRY, w);
    assert [KIND_ENTRY] + w == [KIND_ENTRY, NAME_ENTRY] + es;
  }

  lemma KindBeforeName()
    ensures !PathLess(NAME_ENTRY.path, KIND_ENTRY.path)
  {
    LessTrichotomy(PCR, PCR);
    assert NAME_ENTRY.path[1..] == ["name"] && KIND_ENTRY.path[1..] == ["kind"];
    assert !Less("name", "kind");
  }

  lemma {:induction false} WithDefaultSafe(es: Plan, ctx: Context)
    requires Rooted(es) && Safe(es, ctx) && "providerName" in ctx.spec
    ensures Safe(WithDefault(es), ctx)
  {
    var w := WithDefault(es);
    forall i | 0 <= i < |w|
      ensures (w[i].guard.Some? ==> Decides(w[i].guard.value, ctx)) && (Fires(w[i], ctx) ==> EvalRhs(w[i].rhs, ctx).Ok?)
    {
      WithDefaultMembers(es, w[i]);
      if w[i] in es {
        var k :| 0 <= k < |es| && es[k] == w[i];
      } else {
        assert Eval(Ref(SpecVar), ctx) == Ok(Dict(ctx.spec));
      }
    }
  }

  // ----- the main result -----

  /** What writeEnvelope stands for: the plan, or the plan with the default
      providerConfigRef at its sorted place. */
  function Effective(plan: Plan, wantNamespaced: bool): (full: Plan)
    requires Rooted(plan)
    ensures Rooted(full)
  {
    WithDefaultRooted(plan);
    if wantNamespaced && !Any(plan, InRef) then WithDefault(plan) else plan
  }

  lemma EffectiveFits(ti: nat, plan: Plan, wantNamespaced: bool, ctx: Context)
    requires Rooted(plan) && Sorted(plan) && !GroupsCrash(plan) && Safe(plan, ctx)
    requires wantNamespaced && !Any(plan, InRef) ==> "providerName" in ctx.spec
    ensures var full := Effective(plan, wantNamespaced);
            && Rooted(full) && Sorted(full) && !GroupsCrash(full) && Safe(full, ctx)
            && TopBlocks(ti, plan, wantNamespaced && !Any(plan, InRef)) == Children(ti + 1, full, None)
  {
    var pending := wantNamespaced && !Any(plan, InRef);
    if pending {
      assert NoRef(plan);
      WithDefaultSorted(plan);
      WithDefaultSafe(plan, ctx);
    }
    TopIsChildren(ti, plan, pending);
  }

  /** For every sorted plan without conflicting paths and every context in
      which its guards decide: the emitted lines parse, render without failing,
      and read back, at the envelope's column, as a mapping es whose scalars are
      exactly the entries that fire, in order, in which every key is written
      once and in sorted place and none stands empty. */
  lemma EnvelopeMeans(ti: nat, plan: Plan, wantNamespaced: bool, ctx: Context) returns (es: seq<Entry>)
    requires Rooted(plan) && Sorted(plan) && !Clash(plan) && Safe(plan, ctx)
    requires wantNamespaced && !Any(plan, InRef) ==> "providerName" in ctx.spec
    ensures !GroupsCrash(plan)
    ensures Denotes(TopBlocks(ti, plan, wantNamespaced && !Any(plan, InRef)), ctx, 2 * ti + 2, es)
    ensures Safe(Effective(plan, wantNamespaced), ctx) && Leaves(es) == Fired(Effective(plan, wantNamespaced), ctx)
    ensures KeysIncrease(es) && Full(es)
    ensures wantNamespaced ==> (HasKeyIn(es, PCR) <==> !Any(plan, InRef) || FiresUnder(plan, ctx, PCR))
  {
    GroupsCrashIffClash(plan);
    es := EnvelopeTree(ti, plan, wantNamespaced, ctx);
    if wantNamespaced {
      RefPresent(plan, ctx);
    }
  }

  lemma EnvelopeTree(ti: nat, plan: Plan, wantNamespaced: bool, ctx: Context) returns (es: seq<Entry>)
    requires Rooted(plan) && Sorted(plan) && !GroupsCrash(plan) && Safe(plan, ctx)
    requires wantNamespaced && !Any(plan, InRef) ==> "providerName" in ctx.spec
    ensures Denotes(TopBlocks(ti, plan, wantNamespaced && !Any(plan, InRef)), ctx, 2 * ti + 2, es)
    ensures Safe(Effective(plan, wantNamespaced), ctx) && Leaves(es) == Fired(Effective(plan, wantNamespaced), ctx)
    ensures KeysIncrease(es) && Full(es) && (HasKeyIn(es, PCR) <==>
            FiresUnder(Effective(plan, wantNamespaced), ctx, PCR))
  {
    EffectiveFits(ti, plan, wantNamespaced, ctx);
    es := Tree(Effective(plan, wantNamespaced), ctx);
    TreeFacts(Effective(plan, wantNamespaced), ctx);
    EffectiveDenotes(ti, Effective(plan, wantNamespaced), TopBlocks(ti, plan, wantNamespaced
        && !Any(plan, InRef)), ctx);
  }

  lemma EffectiveDenotes(ti: nat, full: Plan, blocks: seq<Block>, ctx: Context)
    requires Rooted(full) && !GroupsCrash(full) && Safe(full, ctx)
    requires blocks == Children(ti + 1, full, None)
    ensures Denotes(blocks, ctx, 2 * ti + 2, Tree(full, ctx))
  {
    ChildrenDenote(ti + 1, full, None, ctx);
    SameColumn(Children(ti + 1, full, None), ctx, 2 * (ti + 1), 2 * ti + 2, Tree(full, ctx));
  }

  lemma SameColumn(bs: seq<Block>, ctx: Context, a: nat, b: nat, es: seq<Entry>)
    requires a == b && Denotes(bs, ctx, a, es)
    ensures Denotes(bs, ctx, b, es)
  {
  }

  lemma TreeFacts(full: Plan, ctx: Context)
    requires Rooted(full) && Sorted(full) && !GroupsCrash(full) && Safe(full, ctx)
    ensures Leaves(Tree(full, ctx)) == Fired(full, ctx) && KeysIncrease(Tree(full, ctx)) && Full(Tree(full, ctx))
    ensures HasKeyIn(Tree(full, ctx), PCR) <==> FiresUnder(full, ctx, PCR)
  {
    TreeLeaves(full, ctx);
    TreeKeys(full, ctx);
    TreeFull(full, ctx);
    KeyIffFires(full, ctx, PCR);
  }

  ghost predicate HasKeyIn(es: seq<Entry>, key: string) {
    exists e :: e in es && e.key == key
  }

  ghost predicate FiresUnder(es: Plan, ctx: Context, key: string)
    requires Rooted(es)
  {
    exists i :: 0 <= i < |es| && es[i].path[0] == key && Fires(es[i], ctx)
  }

  /** A key is in the tree exactly when an entry under it fires. */
  lemma {:induction false} KeyIffFires(es: Plan, ctx: Context, key: string)
    requires Rooted(es) && !GroupsCrash(es) && Safe(es, ctx)
    ensures HasKeyIn(Tree(es, ctx), key) <==> FiresUnder(es, ctx, key)
    decreases Size(es)
  {
    if es != [] {
      SafeParts(es, ctx);
      KeyIffFires(After(es), ctx, key);
      FiresUnderParts(es, ctx, key);
      var a, b := NodeTree(es[0].path[0], Group(es), ctx), Tree(After(es), ctx);
      HasKeyAppend(a, b, key);
      if Alive(Group(es), ctx) {
        assert a[0] in a && a[0].key == es[0].path[0];
      }
    }
  }

  lemma HasKeyAppend(a: seq<Entry>, b: seq<Entry>, key: string)
    ensures HasKeyIn(a + b, key) <==> HasKeyIn(a, key) || HasKeyIn(b, key)
  {
    if HasKeyIn(a, key) {
      var e :| e in a && e.key == key;
      assert e in a + b;
    }
    if HasKeyIn(b, key) {
      var e :| e in b && e.key == key;
      assert e in a + b;
    }
  }

  lemma FiresUnderParts(es: Plan, ctx: Context, key: string)
    requires Rooted(es) && es != []
    ensures FiresUnder(es, ctx, key) <==>
            (es[0].path[0] == key && Alive(Group(es), ctx))
            || FiresUnder(After(es), ctx, key)
  {
    if i :| 0 <= i < |es| && es[i].path[0] == key && Fires(es[i], ctx) {
      FiresDown(es, ctx, key, i);
    }
    if es[0].path[0] == key && Alive(Group(es), ctx) {
      FiresGroup(es, ctx);
    }
    if i :| 0 <= i < |After(es)| && After(es)[i].path[0] == key && Fires(After(es)[i], ctx) {
      GroupParts(es);
      assert es[Span(es, es[0].path[0]) + i] == After(es)[i];
    }
  }

  lemma FiresDown(es: Plan, ctx: Context, key: string, i: nat)
    requires Rooted(es) && i < |es| && es[i].path[0] == key && Fires(es[i], ctx)
    ensures (es[0].path[0] == key && Alive(Group(es), ctx)) || FiresUnder(After(es), ctx, key)
  {
    GroupParts(es);
    var n := Span(es, es[0].path[0]);
    if i < n {
      assert Group(es)[i] == es[..n][i].(path := es[..n][i].path[1..]);
      assert Fires(Group(es)[i], ctx) && Group(es)[i] in Group(es);
    } else {
      assert After(es)[i - n] == es[i];
    }
  }

  lemma FiresGroup(es: Plan, ctx: Context)
    requires Rooted(es) && es != [] && Alive(Group(es), ctx)
    ensures FiresUnder(es, ctx, es[0].path[0])
  {
    GroupParts(es);
    var n := Span(es, es[0].path[0]);
    var f :| f in Group(es) && Fires(f, ctx);
    var i :| 0 <= i < |Group(es)| && Group(es)[i] == f;
    assert f == es[..n][i].(path := es[..n][i].path[1..]);
    assert es[i].path[0] == es[0].path[0] && Fires(es[i], ctx);
  }

  /** A namespaced document carries providerConfigRef exactly when the plan
      leaves it to the default or one of the plan's own entries for it fires. */
  lemma RefPresent(plan: Plan, ctx: Context)
    requires Rooted(plan)
    ensures FiresUnder(Effective(plan, true), ctx, PCR) <==> !Any(plan, InRef) || FiresUnder(plan, ctx, PCR)
  {
    var full := Effective(plan, true);
    if !Any(plan, InRef) {
      WithDefaultMembers(plan, KIND_ENTRY);
      var i :| 0 <= i < |full| && full[i] == KIND_ENTRY;
      assert full[i].path[0] == PCR && Fires(full[i], ctx);
    }
  }

  // ----- the tree is the only one with those scalars -----

  lemma {:induction false} LeavesNonempty(es: seq<Entry>)
    requires Full(es)
    ensures es != [] <==> Leaves(es) != []
    decreases es, 0
  {
    if es != [] {
      assert es[0] in es;
      match es[0].node
      case Mapping(sub) => LeavesNonempty(sub);
      case _ =>
    }
  }

  lemma {:induction false} LeafHeads(es: seq<Entry>, i: nat)
    requires i < |Leaves(es)|
    ensures Leaves(es)[i].0 != [] && exists e :: e in es && e.key == Leaves(es)[i].0[0]
    decreases es
  {
    var here := Under(es[0].key, NodeLeaves(es[0].node));
    if i < |here| {
      assert es[0] in es;
    } else {
      LeafHeads(es[1..], i - |here|);
    }
  }

  /** Trees with sorted keys and no empty mapping are determined by their
      scalars, so the envelope's tree is the only one that fits. */
  lemma {:induction false} TreeUnique(a: seq<Entry>, b: seq<Entry>)
    requires KeysIncrease(a) && Full(a) && KeysIncrease(b) && Full(b)
    requires Leaves(a) == Leaves(b)
    ensures a == b
    decreases a
  {
    LeavesNonempty(a);
    LeavesNonempty(b);
    if a != [] {
      HeadSplit(a);
      HeadSplit(b);
      LeafHeadIs(a);
      LeafHeadIs(b);
      assert a[0].key == b[0].key;
      HeadCount(a, Leaves(a));
      HeadCount(b, Leaves(b));
      var la, lb := NodeLeaves(a[0].node), NodeLeaves(b[0].node);
      UnderInjective(a[0].key, la, lb);
      assert Leaves(a[1..]) == Leaves(a)[|la|..];
      assert Leaves(b[1..]) == Leaves(b)[|lb|..];
      TreeUnique(a[1..], b[1..]);
      SameNode(a[0].node, b[0].node);
      assert a == [a[0]] + a[1..] && b == [b[0]] + b[1..];
    }
  }

  lemma UnderInjective(k: string, x: seq<(seq<string>, Scalar)>, y: seq<(seq<string>, Scalar)>)
    requires Under(k, x) == Under(k, y)
    ensures x == y
  {
    assert |x| == |Under(k, x)| == |y|;
    forall i | 0 <= i < |x| ensures x[i] == y[i] {
      assert Under(k, x)[i] == Under(k, y)[i];
      assert ([k] + x[i].0)[1..] == x[i].0 && ([k] + y[i].0)[1..] == y[i].0;
    }
  }

  lemma HeadSplit(a: seq<Entry>)
    requires a != [] && KeysIncrease(a) && Full(a)
    ensures KeysIncrease(a[1..]) && Full(a[1..]) && NodeFull(a[0].node) && NodeKeysIncrease(a[0].node)
    ensures NodeLeaves(a[0].node) != []
  {
    assert a[0] in a;
    assert forall e :: e in a[1..] ==> e in a;
    if a[0].node.Mapping? {
      LeavesNonempty(a[0].node.entries);
    }
  }

  lemma LeafHeadIs(a: seq<Entry>)
    requires a != [] && NodeLeaves(a[0].node) != []
    ensures Leaves(a) != [] && Leaves(a)[0].0 != [] && Leaves(a)[0].0[0] == a[0].key
  {
  }

  /** How many leading scalars stand under the given key. */
  function CountHead(ls: seq<(seq<string>, Scalar)>, key: string): nat {
    if ls == [] || ls[0].0 == [] || ls[0].0[0] != key then 0 else 1 + CountHead(ls[1..], key)
  }

  lemma {:induction false} CountUnder(x: seq<(seq<string>, Scalar)>, rest: seq<(seq<string>, Scalar)>, key: string)
    requires rest == [] || rest[0].0 == [] || rest[0].0[0] != key
    ensures CountHead(Under(key, x) + rest, key) == |x|
  {
    if x == [] {
      assert Under(key, x) + rest == rest;
    } else {
      assert (Under(key, x) + rest)[1..] == Under(key, x[1..]) + rest;
      CountUnder(x[1..], rest, key);
    }
  }

  lemma HeadCount(a: seq<Entry>, ls: seq<(seq<string>, Scalar)>)
    requires a != [] && KeysIncrease(a) && ls == Leaves(a)
    ensures |NodeLeaves(a[0].node)| == CountHead(ls, a[0].key)
    ensures ls[..|NodeLeaves(a[0].node)|] == Under(a[0].key, NodeLeaves(a[0].node))
  {
    var rest := Leaves(a[1..]);
    if rest != [] {
      LeafHeads(a[1..], 0);
      var e :| e in a[1..] && e.key == rest[0].0[0];
      var i :| 0 <= i < |a| - 1 && a[1..][i] == e;
      assert Less(a[0].key, a[i + 1].key);
      LessTrichotomy(a[0].key, a[0].key);
    }
    CountUnder(NodeLeaves(a[0].node), rest, a[0].key);
  }

  lemma {:induction false} SameNode(x: Node, y: Node)
    requires NodeFull(x) && NodeFull(y) && NodeKeysIncrease(x) && NodeKeysIncrease(y)
    requires NodeLeaves(x) == NodeLeaves(y)
    ensures x == y
    decreases x
  {
    if x.Mapping? && y.Mapping? {
      TreeUnique(x.entries, y.entries);
    } else if x.Mapping? {
      LeavesNonempty(x.entries);
      LeafHeads(x.entries, 0);
    } else if y.Mapping? {
      LeavesNonempty(y.entries);
      LeafHeads(y.entries, 0);
    }
  }
}
