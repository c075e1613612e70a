/** What the envelope text means: rendered and read back it is exactly the tree
    of the entries whose guard holds. */
module EnvelopeMeaning {
  import opened Template
  import opened Yaml
  import opened Envelope

  // ----- which entries are there -----

  predicate Fires(e: EnvField, ctx: Context) {
    e.guard.None? || Holds(e.guard.value, ctx)
  }

  /** Every guard decides, and an entry that fires can be rendered. */
  predicate Safe(es: Plan, ctx: Context) {
    forall i :: 0 <= i < |es| ==>
      && (es[i].guard.Some? ==> Decides(es[i].guard.value, ctx))
      && (Fires(es[i], ctx) ==> EvalRhs(es[i].rhs, ctx).Ok?)
  }

  predicate Alive(es: Plan, ctx: Context) {
    exists e :: e in es && Fires(e, ctx)
  }

  /** The entries that fire, with their rendered values, in plan order. */
  function Fired(es: Plan, ctx: Context): seq<(seq<string>, Scalar)>
    requires Safe(es, ctx)
  {
    if es == [] then []
    else (if Fires(es[0], ctx) then [(es[0].path, EvalRhs(es[0].rhs, ctx).value)] else []) + Fired(es[1..], ctx)
  }

  lemma {:induction false} FiredAppend(a: Plan, b: Plan, ctx: Context)
    requires Safe(a, ctx) && Safe(b, ctx)
    ensures Safe(a + b, ctx) && Fired(a + b, ctx) == Fired(a, ctx) + Fired(b, ctx)
  {
    if a == [] {
      assert a + b == b;
    } else {
      assert (a + b)[1..] == a[1..] + b;
      FiredAppend(a[1..], b, ctx);
    }
  }

  lemma {:induction false} FiredAlive(es: Plan, ctx: Context)
    requires Safe(es, ctx)
    ensures Fired(es, ctx) != [] <==> Alive(es, ctx)
  {
    if es != [] {
      FiredAlive(es[1..], ctx);
      assert es == [es[0]] + es[1..];
      if Fires(es[0], ctx) {
        assert es[0] in es;
      }
    }
  }

  lemma {:induction false} FiredTails(es: Plan, key: string, ctx: Context)
    requires Rooted(es) && Safe(es, ctx)
    requires forall i :: 0 <= i < |es| ==> es[i].path[0] == key
    ensures Safe(Tails(es), ctx) && Fired(es, ctx) == Under(key, Fired(Tails(es), ctx))
  {
    if es != [] {
      FiredTails(es[1..], key, ctx);
      assert Tails(es)[1..] == Tails(es[1..]);
      assert [key] + es[0].path[1..] == es[0].path;
    }
  }

  lemma SafeParts(es: Plan, ctx: Context)
    requires Rooted(es) && es != [] && Safe(es, ctx)
    ensures Safe(Group(es), ctx) && Safe(After(es), ctx)
    ensures Fired(es, ctx) == Under(es[0].path[0], Fired(Group(es), ctx)) + Fired(After(es), ctx)
  {
    GroupParts(es);
    var n := Span(es, es[0].path[0]);
    FiredTails(es[..n], es[0].path[0], ctx);
    FiredAppend(es[..n], es[n..], ctx);
    assert es == es[..n] + es[n..];
  }

  // ----- the tree of the entries that fire -----

  /** The node a group stands for: nothing when none of it fires. */
  function NodeTree(key: string, es: Plan, ctx: Context): seq<Entry>
    requires !Crashes(es) && Safe(es, ctx)
    decreases Size(es), 1
  {
    if !Alive(es, ctx) then []
    else if Single(es) then
      assert Fires(es[0], ctx);
      [Entry(key, Leaf(EvalRhs(es[0].rhs, ctx).value))]
    else [Entry(key, Mapping(Tree(es, ctx)))]
  }

  function Tree(es: Plan, ctx: Context): seq<Entry>
    requires Rooted(es) && !GroupsCrash(es) && Safe(es, ctx)
    decreases Size(es), 0
  {
    if es == [] then []
    else
      SafeParts(es, ctx);
      NodeTree(es[0].path[0], Group(es), ctx) + Tree(After(es), ctx)
  }

  lemma LeavesAppend(a: seq<Entry>, b: seq<Entry>)
    ensures Leaves(a + b) == Leaves(a) + Leaves(b)
  {
    if a == [] {
      assert a + b == b;
    } else {
      assert (a + b)[1..] == a[1..] + b;
      LeavesAppend(a[1..], b);
    }
  }

  lemma LeavesOne(e: Entry)
    ensures Leaves([e]) == Under(e.key, NodeLeaves(e.node))
  {
    assert [e][1..] == [];
  }

  /** The tree's scalars are exactly the entries that fire, in plan order. */
  lemma {:induction false} NodeTreeLeaves(key: string, es: Plan, ctx: Context)
    requires !Crashes(es) && Safe(es, ctx)
    ensures Leaves(NodeTree(key, es, ctx)) == Under(key, Fired(es, ctx))
    decreases Size(es), 1
  {
    FiredAlive(es, ctx);
    if Alive(es, ctx) {
      LeavesOne(NodeTree(key, es, ctx)[0]);
      if Single(es) {
        assert es[1..] == [];
      } else {
        TreeLeaves(es, ctx);
      }
    }
  }

  lemma {:induction false} TreeLeaves(es: Plan, ctx: Context)
    requires Rooted(es) && !GroupsCrash(es) && Safe(es, ctx)
    ensures Leaves(Tree(es, ctx)) == Fired(es, ctx)
    decreases Size(es), 0
  {
    if es != [] {
      SafeParts(es, ctx);
      NodeTreeLeaves(es[0].path[0], Group(es), ctx);
      TreeLeaves(After(es), ctx);
      LeavesAppend(NodeTree(es[0].path[0], Group(es), ctx), Tree(After(es), ctx));
    }
  }

  /** It has an entry exactly when something fires. */
  lemma TreeAlive(es: Plan, ctx: Context)
    requires Rooted(es) && !GroupsCrash(es) && Safe(es, ctx)
    ensures Tree(es, ctx) != [] <==> Alive(es, ctx)
    decreases Size(es)
  {
    TreeLeaves(es, ctx);
    FiredAlive(es, ctx);
    if es != [] && Fired(es, ctx) == [] {
      SafeParts(es, ctx);
      FiredAlive(Group(es), ctx);
      FiredAlive(After(es), ctx);
      TreeAlive(After(es), ctx);
    }
  }

  lemma FullAppend(a: seq<Entry>, b: seq<Entry>)
    requires Full(a) && Full(b)
    ensures Full(a + b)
  {
  }

  /** No key stands with nothing under it and no mapping is empty. */
  lemma {:induction false} NodeTreeFull(key: string, es: Plan, ctx: Context)
    requires !Crashes(es) && Safe(es, ctx)
    ensures Full(NodeTree(key, es, ctx))
    decreases Size(es), 1
  {
    if Alive(es, ctx) && !Single(es) {
      TreeFull(es, ctx);
      TreeAlive(es, ctx);
    }
  }

  lemma {:induction false} TreeFull(es: Plan, ctx: Context)
    requires Rooted(es) && !GroupsCrash(es) && Safe(es, ctx)
    ensures Full(Tree(es, ctx))
    decreases Size(es), 0
  {
    if es != [] {
      SafeParts(es, ctx);
      NodeTreeFull(es[0].path[0], Group(es), ctx);
      TreeFull(After(es), ctx);
      FullAppend(NodeTree(es[0].path[0], Group(es), ctx), Tree(After(es), ctx));
    }
  }

  // ----- the text denotes the tree -----

  /** Among entries that are all guarded, one fires when one guard holds. */
  lemma GuardsDecide(es: Plan, ctx: Context)
    requires es != [] && Safe(es, ctx)
    requires forall e :: e in es ==> e.guard.Some?
    ensures GuardsOf(es) != []
    ensures forall g :: g in GuardsOf(es) ==> Decides(g, ctx)
    ensures (exists g :: g in GuardsOf(es) && Holds(g, ctx)) <==> Alive(es, ctx)
  {
    assert es[0] in es;
    assert es[0].guard.value in GuardsOf(es);
    forall g | g in GuardsOf(es) ensures Decides(g, ctx) {
      var e :| e in es && e.guard == Some(g);
    }
    if Alive(es, ctx) {
      var e :| e in es && Fires(e, ctx);
      assert e.guard.value in GuardsOf(es);
    }
    if exists g :: g in GuardsOf(es) && Holds(g, ctx) {
      var g :| g in GuardsOf(es) && Holds(g, ctx);
      var e :| e in es && e.guard == Some(g);
      assert Fires(e, ctx);
    }
  }

  lemma OrHolds(gs: seq<Expr>, ctx: Context)
    requires gs != [] && forall g :: g in gs ==> Decides(g, ctx)
    ensures Decides(OrGuards(gs), ctx)
    ensures Holds(OrGuards(gs), ctx) <==> exists g :: g in gs && Holds(g, ctx)
  {
    AnyHolds(gs, ctx);
    if |gs| == 1 {
      assert gs[0] in gs && forall g :: g in gs ==> g == gs[0];
    }
  }

  lemma GroupGuardHolds(es: Plan, ctx: Context)
    requires es != [] && Safe(es, ctx)
    ensures GroupGuard(es).None? ==> Alive(es, ctx)
    ensures GroupGuard(es).Some? ==>
              Decides(GroupGuard(es).value, ctx) && (Holds(GroupGuard(es).value, ctx) <==> Alive(es, ctx))
  {
    if exists e :: e in es && e.guard.None? {
      var e :| e in es && e.guard.None?;
      assert Fires(e, ctx);
    } else {
      GuardsDecide(es, ctx);
      var gs := Distinct(GuardsOf(es));
      assert GuardsOf(es)[0] in GuardsOf(es);
      assert gs != [] by { assert GuardsOf(es)[0] in gs; }
      OrHolds(gs, ctx);
    }
  }

  lemma {:induction false} NodeDenotes(level: nat, key: string, es: Plan, inherited: Option<Expr>, ctx: Context)
    requires es != [] && !Crashes(es) && Safe(es, ctx)
    requires inherited.Some? ==> Holds(inherited.value, ctx)
    ensures Denotes(NodeBlocks(level, key, es, inherited), ctx, 2 * level, NodeTree(key, es, ctx))
    decreases Size(es), 2
  {
    GroupGuardHolds(es, ctx);
    var guard := GroupGuard(es);
    if guard.None? || guard == inherited {
      BodyDenotes(level, key, es, inherited, ctx);
    } else {
      var body :=
        if Single(es) then [Plain(PairLine(2 * level, key, es[0].rhs))]
        else [Plain(KeyLine(2 * level, key))] + Children(level + 1, es, guard);
      if !Single(es) {
        ChildrenProper(level + 1, es, guard);
      }
      assert Proper(body);
      if Alive(es, ctx) {
        BodyDenotes(level, key, es, guard, ctx);
      } else {
        DenotesNone(ctx, 2 * level);
      }
      DenotesBranch(guard.value, body, [], ctx, 2 * level, NodeTree(key, es, ctx));
    }
  }

  lemma {:induction false} BodyDenotes(level: nat, key: string, es: Plan, inner: Option<Expr>, ctx: Context)
    requires es != [] && !Crashes(es) && Safe(es, ctx) && Alive(es, ctx)
    requires inner.Some? ==> Holds(inner.value, ctx)
    ensures Denotes(
              if Single(es) then [Plain(PairLine(2 * level, key, es[0].rhs))]
              else [Plain(KeyLine(2 * level, key))] + Children(level + 1, es, inner),
              ctx, 2 * level, NodeTree(key, es, ctx))
    decreases Size(es), 1
  {
    if Single(es) {
      assert Fires(es[0], ctx);
      DenotesPair(2 * level, key, es[0].rhs, ctx);
    } else {
      ChildrenDenote(level + 1, es, inner, ctx);
      TreeAlive(es, ctx);
      DenotesNested(Children(level + 1, es, inner), ctx, 2 * level, key, 2 * (level + 1), Tree(es, ctx));
    }
  }

  lemma {:induction false} ChildrenDenote(level: nat, es: Plan, inherited: Option<Expr>, ctx: Context)
    requires Rooted(es) && !GroupsCrash(es) && Safe(es, ctx)
    requires inherited.Some? ==> Holds(inherited.value, ctx)
    ensures Denotes(Children(level, es, inherited), ctx, 2 * level, Tree(es, ctx))
    decreases Size(es), 0
  {
    if es == [] {
      DenotesNone(ctx, 2 * level);
    } else {
      SafeParts(es, ctx);
      NodeDenotes(level, es[0].path[0], Group(es), inherited, ctx);
      ChildrenDenote(level, After(es), inherited, ctx);
      DenotesAppend(NodeBlocks(level, es[0].path[0], Group(es), inherited), Children(level, After(es), inherited),
          ctx, 2 * level,
                    NodeTree(es[0].path[0], Group(es), ctx), Tree(After(es), ctx));
    }
  }

  lemma {:induction false} ChildrenProper(level: nat, es: Plan, inherited: Option<Expr>)
    requires Rooted(es) && !GroupsCrash(es)
    ensures Proper(Children(level, es, inherited))
    decreases Size(es), 0
  {
    if es != [] {
      NodeProper(level, es[0].path[0], Group(es), inherited);
      ChildrenProper(level, After(es), inherited);
    }
  }

  lemma {:induction false} NodeProper(level: nat, key: string, es: Plan, inherited: Option<Expr>)
    requires !Crashes(es)
    ensures Proper(NodeBlocks(level, key, es, inherited))
    decreases Size(es), 1
  {
    if !Single(es) {
      ChildrenProper(level + 1, es, if GroupGuard(es).Some?
          && GroupGuard(es) != inherited then GroupGuard(es) else inherited);
    }
  }
}
