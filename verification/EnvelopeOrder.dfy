/** What sorting the plan buys: groups that never reopen a key, and a grouping
    that crashes exactly on conflicting paths. */
module EnvelopeOrder {
  import opened Seqs
  import opened Template
  import opened Text
  import opened Paths
  import opened Yaml
  import opened Envelope
  import opened EnvelopeMeaning

  /** In segment order, ties allowed. */
  predicate Sorted(es: Plan) {
    forall i, j :: 0 <= i < j < |es| ==> !PathLess(es[j].path, es[i].path)
  }

  /** Two entries of which one sets the node the other one, or a child of it, sets. */
  ghost predicate Clash(es: Plan) {
    exists i, j :: 0 <= i < |es| && 0 <= j < |es| && i != j && es[i].path <= es[j].path
  }

  /** Once a run of equal first segments ends, its key never comes back. */
  lemma HeadsIncrease(es: Plan)
    requires Rooted(es) && es != [] && Sorted(es)
    ensures Sorted(After(es))
    ensures forall i :: 0 <= i < |After(es)| ==> Less(es[0].path[0], After(es)[i].path[0])
  {
    GroupParts(es);
    var key := es[0].path[0];
    var n := Span(es, key);
    forall i | n <= i < |es| ensures Less(key, es[i].path[0]) {
      HeadOrder(es, 0, n);
      LessTrichotomy(key, es[n].path[0]);
      if i > n {
        HeadOrder(es, n, i);
        LessTrichotomy(es[n].path[0], es[i].path[0]);
        if es[n].path[0] != es[i].path[0] {
          LessTransitive(key, es[n].path[0], es[i].path[0]);
        }
      }
    }
  }

  lemma HeadOrder(es: Plan, i: nat, j: nat)
    requires Rooted(es) && Sorted(es) && i < j < |es|
    ensures !Less(es[j].path[0], es[i].path[0])
  {
    assert !PathLess(es[j].path, es[i].path);
  }

  lemma GroupSorted(es: Plan)
    requires Rooted(es) && es != [] && Sorted(es)
    ensures Sorted(Group(es))
  {
    GroupParts(es);
    var n := Span(es, es[0].path[0]);
    forall i, j | 0 <= i < j < n ensures !PathLess(Group(es)[j].path, Group(es)[i].path) {
      assert Group(es)[i].path == es[i].path[1..] && Group(es)[j].path == es[j].path[1..];
      LessTrichotomy(es[0].path[0], es[0].path[0]);
    }
  }

  // ----- keys in order, each once -----

  /** In every mapping of the tree the keys increase, so none is written twice. */
  predicate KeysIncrease(es: seq<Entry>)
    decreases es, 0
  {
    && (forall i, j :: 0 <= i < j < |es| ==> Less(es[i].key, es[j].key))
    && forall e :: e in es ==> NodeKeysIncrease(e.node)
  }

  predicate NodeKeysIncrease(n: Node)
    decreases n, 1
  {
    n.Mapping? ==> KeysIncrease(n.entries)
  }

  /** Every key of the tree is the first segment of some entry. */
  lemma {:induction false} TreeHeads(es: Plan, ctx: Context, e: Entry)
    requires Rooted(es) && !GroupsCrash(es) && Safe(es, ctx) && e in Tree(es, ctx)
    ensures exists i :: 0 <= i < |es| && es[i].path[0] == e.key
    decreases Size(es)
  {
    SafeParts(es, ctx);
    GroupParts(es);
    if e in NodeTree(es[0].path[0], Group(es), ctx) {
      assert es[0].path[0] == e.key;
    } else {
      TreeHeads(After(es), ctx, e);
      var i :| 0 <= i < |After(es)| && After(es)[i].path[0] == e.key;
      assert es[Span(es, es[0].path[0]) + i] == After(es)[i];
    }
  }

  lemma {:induction false} TreeKeys(es: Plan, ctx: Context)
    requires Rooted(es) && !GroupsCrash(es) && Safe(es, ctx) && Sorted(es)
    ensures KeysIncrease(Tree(es, ctx))
    decreases Size(es), 0
  {
    if es != [] {
      SafeParts(es, ctx);
      GroupSorted(es);
      HeadsIncrease(es);
      NodeTreeKeys(es[0].path[0], Group(es), ctx);
      TreeKeys(After(es), ctx);
      forall e | e in Tree(After(es), ctx) ensures Less(es[0].path[0], e.key) {
        TreeHeads(After(es), ctx, e);
      }
      KeysCons(NodeTree(es[0].path[0], Group(es), ctx), Tree(After(es), ctx));
    }
  }

  lemma KeysCons(head: seq<Entry>, tail: seq<Entry>)
    requires |head| <= 1 && KeysIncrease(head) && KeysIncrease(tail)
    requires head != [] ==> forall e :: e in tail ==> Less(head[0].key, e.key)
    ensures KeysIncrease(head + tail)
  {
    var all := head + tail;
    forall i, j | 0 <= i < j < |all| ensures Less(all[i].key, all[j].key) {
      if i < |head| {
        assert all[j] == tail[j - |head|] && tail[j - |head|] in tail;
      } else {
        assert all[i] == tail[i - |head|] && all[j] == tail[j - |head|];
      }
    }
  }

  lemma {:induction false} NodeTreeKeys(key: string, es: Plan, ctx: Context)
    requires !Crashes(es) && Safe(es, ctx) && Sorted(es)
    ensures KeysIncrease(NodeTree(key, es, ctx))
    decreases Size(es), 1
  {
    if Alive(es, ctx) && !Single(es) {
      TreeKeys(es, ctx);
    }
  }

  // ----- exactly when the grouping crashes -----

  lemma {:induction false} CrashIffClash(es: Plan)
    requires Sorted(es) && es != []
    ensures Crashes(es) <==> Clash(es)
    decreases Size(es), 1
  {
    if !Rooted(es) {
      var i :| 0 <= i < |es| && es[i].path == [];
      if |es| > 1 {
        var j := if i == 0 then 1 else 0;
        assert es[i].path <= es[j].path;
      }
    } else if !Single(es) {
      GroupsCrashIffClash(es);
    }
  }

  lemma {:induction false} GroupsCrashIffClash(es: Plan)
    requires Sorted(es) && Rooted(es)
    ensures GroupsCrash(es) <==> Clash(es)
    decreases Size(es), 0
  {
    if es != [] {
      GroupSorted(es);
      HeadsIncrease(es);
      CrashIffClash(Group(es));
      GroupsCrashIffClash(After(es));
      ClashParts(es);
    }
  }

  lemma ClashParts(es: Plan)
    requires Rooted(es) && es != [] && Sorted(es)
    ensures Clash(es) <==> Clash(Group(es)) || Clash(After(es))
  {
    if Clash(Group(es)) {
      GroupClash(es);
    }
    if Clash(After(es)) {
      AfterClash(es);
    }
    if Clash(es) {
      ClashWithin(es);
    }
  }

  lemma GroupClash(es: Plan)
    requires Rooted(es) && es != [] && Clash(Group(es))
    ensures Clash(es)
  {
    GroupParts(es);
    var g, n := Group(es), Span(es, es[0].path[0]);
    var i, j :| 0 <= i < n && 0 <= j < n && i != j && g[i].path <= g[j].path;
    GroupPair(es, i, j);
    PairClashes(es, i, j, es[i], es[j]);
  }

  lemma GroupPair(es: Plan, i: nat, j: nat)
    requires Rooted(es) && es != [] && i < |Group(es)| && j < |Group(es)|
    ensures Group(es)[i].path <= Group(es)[j].path <==> es[i].path <= es[j].path
  {
    GroupParts(es);
    assert es[..Span(es, es[0].path[0])][i] == es[i] && es[..Span(es, es[0].path[0])][j] == es[j];
    PrefixCons(es[i].path, es[j].path);
  }

  lemma AfterClash(es: Plan)
    requires Rooted(es) && es != [] && Clash(After(es))
    ensures Clash(es)
  {
    GroupParts(es);
    var after, n := After(es), Span(es, es[0].path[0]);
    var i, j :| 0 <= i < |after| && 0 <= j < |after| && i != j && after[i].path <= after[j].path;
    assert es[n + i] == after[i] && es[n + j] == after[j];
  }

  lemma ClashWithin(es: Plan)
    requires Rooted(es) && es != [] && Sorted(es) && Clash(es)
    ensures Clash(Group(es)) || Clash(After(es))
  {
    var i, j :| 0 <= i < |es| && 0 <= j < |es| && i != j && es[i].path <= es[j].path;
    PrefixCons(es[i].path, es[j].path);
    SameRun(es, i, j);
    if i < Span(es, es[0].path[0]) {
      ClashInGroup(es, i, j);
    } else {
      ClashInAfter(es, i, j);
    }
  }

  lemma ClashInGroup(es: Plan, i: nat, j: nat)
    requires Rooted(es) && es != []
    requires i < Span(es, es[0].path[0]) && j < Span(es, es[0].path[0]) && i != j
    requires es[i].path[1..] <= es[j].path[1..]
    ensures Clash(Group(es))
  {
    GroupParts(es);
    var g := Group(es);
    assert g[i].path == es[i].path[1..] && g[j].path == es[j].path[1..];
    assert g[i].path <= g[j].path;
  }

  lemma ClashInAfter(es: Plan, i: nat, j: nat)
    requires Rooted(es) && es != [] && i < |es| && j < |es| && i != j
    requires i >= Span(es, es[0].path[0]) && j >= Span(es, es[0].path[0])
    requires es[i].path <= es[j].path
    ensures Clash(After(es))
  {
    GroupParts(es);
    ClashInTail(es, Span(es, es[0].path[0]), i, j);
  }

  lemma ClashInTail(es: Plan, n: nat, i: nat, j: nat)
    requires n <= i < |es| && n <= j < |es| && i != j && es[i].path <= es[j].path
    ensures Clash(es[n..])
  {
    PairClashes(es[n..], i - n, j - n, es[i], es[j]);
  }

  lemma PairClashes(es: Plan, i: nat, j: nat, a: EnvField, b: EnvField)
    requires i < |es| && j < |es| && i != j && es[i] == a && es[j] == b && a.path <= b.path
    ensures Clash(es)
  {
    assert es[i].path <= es[j].path;
  }

  lemma SameRun(es: Plan, i: nat, j: nat)
    requires Rooted(es) && es != [] && Sorted(es)
    requires i < |es| && j < |es| && es[i].path[0] == es[j].path[0]
    ensures i < Span(es, es[0].path[0]) <==> j < Span(es, es[0].path[0])
  {
    GroupParts(es);
    HeadsIncrease(es);
    var n := Span(es, es[0].path[0]);
    LessTrichotomy(es[0].path[0], es[0].path[0]);
    forall k | n <= k < |es| ensures es[k].path[0] != es[0].path[0] {
      assert es[k] == After(es)[k - n];
    }
  }
}
