/** The spec envelope: sorted dotted entries grouped into nested, guarded YAML
    (internal/emit/envelope.go). */
module Envelope {
  import opened Seqs
  import opened Template
  import opened Yaml

  /** One planned entry: where it goes, what it says, and the guard it needs
      when it is wired from something that can be absent. */
  datatype EnvField = EnvField(path: seq<string>, rhs: Rhs, guard: Option<Expr>)

  type Plan = seq<EnvField>

  const PCR: string := "providerConfigRef"

  // ----- grouping -----

  predicate Rooted(es: Plan) {
    forall i :: 0 <= i < |es| ==> es[i].path != []
  }

  function Size(es: Plan): nat {
    if es == [] then 0 else |es[0].path| + Size(es[1..])
  }

  lemma {:induction false} SizeAppend(a: Plan, b: Plan)
    ensures Size(a + b) == Size(a) + Size(b)
  {
    if a == [] {
      assert a + b == b;
    } else {
      assert (a + b)[1..] == a[1..] + b;
      SizeAppend(a[1..], b);
    }
  }

  /** The number of leading entries that start with key. */
  function Span(es: Plan, key: string): (n: nat)
    requires Rooted(es)
    ensures n <= |es|
    ensures forall i :: 0 <= i < n ==> es[i].path[0] == key
    ensures n < |es| ==> es[n].path[0] != key
  {
    if es == [] || es[0].path[0] != key then 0
    else
      1 + Span(es[1..], key)
  }

  function Tails(es: Plan): (r: Plan)
    requires Rooted(es)
    ensures |r| == |es|
    ensures forall i :: 0 <= i < |es| ==> r[i] == es[i].(path := es[i].path[1..])
  {
    if es == [] then []
    else
      [es[0].(path := es[0].path[1..])] + Tails(es[1..])
  }

  lemma {:induction false} TailsSize(es: Plan)
    requires Rooted(es)
    ensures Size(Tails(es)) + |es| == Size(es)
  {
    if es != [] {
      TailsSize(es[1..]);
      assert Tails(es)[1..] == Tails(es[1..]);
    }
  }

  /** The first group of entries, cut loose from its key, and the entries after it. */
  function Group(es: Plan): (g: Plan)
    requires Rooted(es) && es != []
    ensures g != [] && Size(g) < Size(es)
  {
    var n := Span(es, es[0].path[0]);
    assert es == es[..n] + es[n..];
    SizeAppend(es[..n], es[n..]);
    TailsSize(es[..n]);
    Tails(es[..n])
  }

  function After(es: Plan): (r: Plan)
    requires Rooted(es) && es != []
    ensures Rooted(r) && Size(r) < Size(es) && |r| < |es|
  {
    var n := Span(es, es[0].path[0]);
    assert es == es[..n] + es[n..];
    SizeAppend(es[..n], es[n..]);
    TailsSize(es[..n]);
    es[n..]
  }

  lemma GroupParts(es: Plan)
    requires Rooted(es) && es != []
    ensures var n := Span(es, es[0].path[0]);
            0 < n <= |es| && Group(es) == Tails(es[..n]) && After(es) == es[n..]
  {
  }

  /** An entry that is the key itself and has no companions. */
  predicate Single(es: Plan) {
    |es| == 1 && es[0].path == []
  }

  /** The grouping indexes the first segment of an entry that has none left. */
  predicate Crashes(es: Plan)
    decreases Size(es), 1
  {
    !Single(es) && (!Rooted(es) || GroupsCrash(es))
  }

  predicate GroupsCrash(es: Plan)
    requires Rooted(es)
    decreases Size(es), 0
  {
    es != [] && (Crashes(Group(es)) || GroupsCrash(After(es)))
  }

  // ----- guards -----

  /** The guards of a group, each once, in order of first use. */
  function Distinct(gs: seq<Expr>): (r: seq<Expr>)
    ensures forall g :: g in r <==> g in gs
    ensures |r| <= |gs|
  {
    if gs == [] then []
    else
      var r := Distinct(gs[..|gs| - 1]);
      assert gs == gs[..|gs| - 1] + [gs[|gs| - 1]];
      if gs[|gs| - 1] in r then r else r + [gs[|gs| - 1]]
  }

  function GuardsOf(es: Plan): (gs: seq<Expr>)
    ensures forall g :: g in gs <==> exists e :: e in es && e.guard == Some(g)
  {
    if es == [] then []
    else
      var e := es[|es| - 1];
      assert es == es[..|es| - 1] + [e];
      GuardsOf(es[..|es| - 1]) + (if e.guard.Some? then [e.guard.value] else [])
  }

  function OrGuards(gs: seq<Expr>): Expr {
    if |gs| == 1 then gs[0] else Or(gs)
  }

  /** The condition under which a group has anything to say; None when it
      always has. */
  function GroupGuard(es: Plan): Option<Expr> {
    if exists e :: e in es && e.guard.None? then None else Some(OrGuards(Distinct(GuardsOf(es))))
  }

  // ----- the template text -----

  function NodeBlocks(level: nat, key: string, es: Plan, inherited: Option<Expr>): seq<Block>
    requires !Crashes(es)
    decreases Size(es), 1
  {
    var guard := GroupGuard(es);
    var wrap := guard.Some? && guard != inherited;
    var body :=
      if Single(es) then [Plain(PairLine(2 * level, key, es[0].rhs))]
      else [Plain(KeyLine(2 * level, key))] + Children(level + 1, es, if wrap then guard else inherited);
    if wrap then [Branch(guard.value, body, [])] else body
  }

  function Children(level: nat, es: Plan, inherited: Option<Expr>): seq<Block>
    requires Rooted(es) && !GroupsCrash(es)
    decreases Size(es), 0
  {
    if es == [] then []
    else NodeBlocks(level, es[0].path[0], Group(es), inherited) + Children(level, After(es), inherited)
  }

  /** The guard a group is wrapped in, from one pass over its entries. */
  method CollectGuards(entries: Plan) returns (guard: Option<Expr>)
    ensures guard == GroupGuard(entries)
  {
    var allOptional := true;
    var guards: seq<Expr> := [];
    for i := 0 to |entries|
      invariant allOptional <==> forall e :: e in entries[..i] ==> e.guard.Some?
      invariant guards == Distinct(GuardsOf(entries[..i]))
    {
      assert entries[..i + 1] == entries[..i] + [entries[i]];
      assert entries[..i + 1][..i] == entries[..i];
      if entries[i].guard.None? {
        allOptional := false;
        assert GuardsOf(entries[..i + 1]) == GuardsOf(entries[..i]);
      } else {
        ghost var gs := GuardsOf(entries[..i]) + [entries[i].guard.value];
        assert GuardsOf(entries[..i + 1]) == gs && gs[..|gs| - 1] == GuardsOf(entries[..i]);
        if entries[i].guard.value !in guards {
          guards := guards + [entries[i].guard.value];
        }
      }
    }
    assert entries[..|entries|] == entries;
    guard := if allOptional then Some(OrGuards(guards)) else None;
  }

  /** The lines of one node: its wrapper, if it needs one, around its body. */
  function NodeBody(level: nat, key: string, es: Plan, inner: Option<Expr>): seq<Line>
    requires !Crashes(es)
  {
    if Single(es) then [PairLine(2 * level, key, es[0].rhs)]
    else [KeyLine(2 * level, key)] + FlatAll(Children(level + 1, es, inner))
  }

  lemma FlatNode(level: nat, key: string, es: Plan, inherited: Option<Expr>)
    requires !Crashes(es)
    ensures var guard := GroupGuard(es);
            FlatAll(NodeBlocks(level, key, es, inherited)) ==
            if guard.Some? && guard != inherited then [IfLine(guard.value)] + NodeBody(level, key, es, guard)
                + [EndLine]
            else NodeBody(level, key, es, inherited)
  {
    var guard := GroupGuard(es);
    var wrap := guard.Some? && guard != inherited;
    var inner := if wrap then guard else inherited;
    var body :=
      if Single(es) then [Plain(PairLine(2 * level, key, es[0].rhs))]
      else [Plain(KeyLine(2 * level, key))] + Children(level + 1, es, inner);
    assert FlatAll(body) == NodeBody(level, key, es, inner) by {
      if Single(es) {
        assert FlatAll(body[1..]) == [];
      } else {
        assert body[1..] == Children(level + 1, es, inner);
      }
    }
    if wrap {
      var b := Branch(guard.value, body, []);
      assert [b][1..] == [];
      assert FlatAll([b]) == Flat(b) + [];
    }
  }

  /** The writer. It reports the crash of indexing an exhausted path. */
  method WriteEnvelopeNode(d: Doc, level: nat, key: string, entries: Plan, inherited: Option<Expr>)
      returns (crashed: bool)
    requires entries != []
    modifies d
    ensures crashed <==> Crashes(entries)
    ensures !crashed ==> d.lines == old(d.lines) + FlatAll(NodeBlocks(level, key, entries, inherited))
    decreases Size(entries), |entries| + 1, 1
  {
    var guard := CollectGuards(entries);
    var wrap := guard.Some? && guard != inherited;
    var inner := inherited;
    ghost var start := d.lines;
    if wrap {
      d.Put(IfLine(guard.value));
      inner := guard;
    }
    crashed := WriteNodeBody(d, level, key, entries, inner);
    if crashed {
      return;
    }
    FlatNode(level, key, entries, inherited);
    ghost var body := NodeBody(level, key, entries, inner);
    if wrap {
      d.Put(EndLine);
      Wrapped(start, IfLine(guard.value), body, EndLine);
    }
  }

  lemma Wrapped(start: seq<Line>, open: Line, body: seq<Line>, close: Line)
    ensures start + [open] + body + [close] == start + ([open] + body + [close])
  {
  }

  /** The key line and everything under it. */
  method WriteNodeBody(d: Doc, level: nat, key: string, entries: Plan, inner: Option<Expr>) returns (crashed: bool)
    requires entries != []
    modifies d
    ensures crashed <==> Crashes(entries)
    ensures !crashed ==> d.lines == old(d.lines) + NodeBody(level, key, entries, inner)
    decreases Size(entries), |entries| + 1, 0
  {
    if |entries| == 1 && entries[0].path == [] {
      d.Put(PairLine(2 * level, key, entries[0].rhs));
      crashed := false;
    } else {
      ghost var start := d.lines;
      d.Put(KeyLine(2 * level, key));
      crashed := WriteChildren(d, level + 1, entries, inner);
      if !crashed {
        ghost var sub := FlatAll(Children(level + 1, entries, inner));
        assert d.lines == start + ([KeyLine(2 * level, key)] + sub);
      }
    }
  }

  /** The inner loop: the run of entries from i on that share a first segment,
      cut loose from it. Indexing a path that has none left is the crash. */
  method TakeRun(entries: Plan, i: nat) returns (crashed: bool, j: nat, sub: Plan)
    requires i < |entries|
    ensures crashed ==> !Rooted(entries)
    ensures !crashed ==>
              && i < j <= |entries|
              && |sub| == j - i
              && Size(sub) < Size(entries)
              && (forall k :: i <= k < j ==> entries[k].path != [])
              && entries[i].path != []
              && (Rooted(entries) ==>
                  Rooted(entries[i..]) && Group(entries[i..]) == sub
                  && After(entries[i..]) == entries[j..])
  {
    if entries[i].path == [] {
      return true, i, [];
    }
    var childKey := entries[i].path[0];
    sub := [];
    j := i;
    while j < |entries|
      invariant i <= j <= |entries|
      invariant forall k :: i <= k < j ==> entries[k].path != [] && entries[k].path[0] == childKey
      invariant |sub| == j - i
      invariant forall k :: 0 <= k < j - i ==> sub[k] == entries[i + k].(path := entries[i + k].path[1..])
    {
      if entries[j].path == [] {
        return true, i, [];
      }
      if entries[j].path[0] != childKey {
        break;
      }
      sub := sub + [entries[j].(path := entries[j].path[1..])];
      j := j + 1;
    }
    RunSmaller(entries, i, j, sub);
    if Rooted(entries) {
      GroupIs(entries, i, j, sub);
    }
    crashed := false;
  }

  /** The loop over the runs of equal first segments. */
  method WriteChildren(d: Doc, level: nat, entries: Plan, inherited: Option<Expr>) returns (crashed: bool)
    modifies d
    ensures crashed <==> !Rooted(entries) || GroupsCrash(entries)
    ensures !crashed ==> d.lines == old(d.lines) + FlatAll(Children(level, entries, inherited))
    decreases Size(entries), |entries|
  {
    ghost var start := d.lines;
    ghost var fine := Rooted(entries) && !GroupsCrash(entries);
    ghost var all := if fine then FlatAll(Children(level, entries, inherited)) else [];
    var i := 0;
    assert entries[0..] == entries;
    while i < |entries|
      invariant 0 <= i <= |entries|
      invariant Rooted(entries) ==> Rooted(entries[i..]) && (GroupsCrash(entries) <==> GroupsCrash(entries[i..]))
      invariant forall k :: 0 <= k < i ==> entries[k].path != []
      invariant fine ==> d.lines + FlatAll(Children(level, entries[i..], inherited)) == start + all
    {
      var j, sub;
      crashed, j, sub := TakeRun(entries, i);
      if crashed {
        return;
      }
      ghost var before := d.lines;
      crashed := WriteEnvelopeNode(d, level, entries[i].path[0], sub, inherited);
      if crashed {
        return;
      }
      if fine {
        FlatAppend(NodeBlocks(level, entries[i].path[0], sub, inherited), Children(level, entries[j..], inherited));
        Assoc(before, FlatAll(NodeBlocks(level, entries[i].path[0], sub, inherited)),
            FlatAll(Children(level, entries[j..], inherited)));
      }
      i := j;
    }
    assert entries[i..] == [];
    assert d.lines + [] == d.lines;
    crashed := false;
  }

  lemma RunSmaller(es: Plan, i: nat, j: nat, sub: Plan)
    requires i < j <= |es|
    requires forall k :: i <= k < j ==> es[k].path != []
    requires |sub| == j - i && forall k :: 0 <= k < j - i ==> sub[k] == es[i + k].(path := es[i + k].path[1..])
    ensures Size(sub) < Size(es)
  {
    var run := es[i..j];
    assert Tails(run) == sub;
    TailsSize(run);
    assert es == es[..i] + (run + es[j..]);
    SizeAppend(es[..i], run + es[j..]);
    SizeAppend(run, es[j..]);
  }

  /** What the inner loop collected is the next group. */
  lemma GroupIs(es: Plan, i: nat, j: nat, sub: Plan)
    requires Rooted(es)
    requires i < j <= |es|
    requires forall k :: i <= k < j ==> es[k].path[0] == es[i].path[0]
    requires j < |es| ==> es[j].path[0] != es[i].path[0]
    requires |sub| == j - i && forall k :: 0 <= k < j - i ==> sub[k] == es[i + k].(path := es[i + k].path[1..])
    ensures Rooted(es[i..]) && Group(es[i..]) == sub && After(es[i..]) == es[j..]
  {
    var rest := es[i..];
    assert rest[0] == es[i];
    var n := Span(rest, rest[0].path[0]);
    assert n >= j - i by {
      assert forall k :: 0 <= k < j - i ==> rest[k] == es[i + k];
    }
    assert n == j - i;
    GroupParts(rest);
    assert rest[n..] == es[j..];
    assert Tails(rest[..n]) == sub;
  }
}
