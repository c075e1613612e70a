/** Reading a rendered document back as block YAML, and the compositional
    meaning of template blocks: which mapping entries a run of blocks denotes. */
module Yaml {
  import opened Seqs
  import opened Template

  datatype Node = Null | Leaf(scalar: Scalar) | Mapping(entries: seq<Entry>)
  datatype Entry = Entry(key: string, node: Node)

  predicate Deeper(o: Out, c: int) {
    !o.OutSeparator? && o.col > c
  }

  /** How many leading lines are indented more than column c. */
  function Indented(ls: seq<Out>, c: int): (n: nat)
    ensures n <= |ls|
    ensures forall i :: 0 <= i < n ==> Deeper(ls[i], c)
    ensures n < |ls| ==> !Deeper(ls[n], c)
  {
    if ls == [] || !Deeper(ls[0], c) then 0 else 1 + Indented(ls[1..], c)
  }

  /** The mapping written at column c. A key with nothing under it is null,
      `{}` is the empty mapping; a line that is neither a key at column c nor
      indented under one is not block YAML. */
  function Read(ls: seq<Out>, c: nat): Option<seq<Entry>>
    decreases |ls|, 0
  {
    if ls == [] then Some([])
    else if ls[0].OutSeparator? || ls[0].OutBrace? || ls[0].col != c then None
    else
      var k := Indented(ls[1..], c);
      var node := NodeUnder(ls[0], ls[1..][..k]);
      var rest := Read(ls[1..][k..], c);
      if node.None? || rest.None? then None else Some([Entry(ls[0].key, node.value)] + rest.value)
  }

  function NodeUnder(head: Out, sub: seq<Out>): Option<Node>
    decreases |sub|, 1
  {
    match head
    case OutPair(_, _, s) => if sub == [] then Some(Leaf(s)) else None
    case OutEmpty(_, _) => if sub == [] then Some(Mapping([])) else None
    case OutKey(_, _) =>
      if sub == [] then Some(Null)
      else if |sub| == 1 && sub[0].OutBrace? then Some(Mapping([]))
      else if sub[0].OutSeparator? then None
      else
        var es := Read(sub, sub[0].col);
        if es.None? then None else Some(Mapping(es.value))
    case _ => None
  }

  predicate AtLeast(ls: seq<Out>, c: nat) {
    forall o :: o in ls ==> !o.OutSeparator? && o.col >= c
  }

  lemma {:induction false} IndentedAll(a: seq<Out>, b: seq<Out>, c: nat)
    requires forall o :: o in a ==> Deeper(o, c)
    requires b == [] || !Deeper(b[0], c)
    ensures Indented(a + b, c) == |a|
  {
    if a == [] {
      assert a + b == b;
    } else {
      assert a[0] in a && (a + b)[1..] == a[1..] + b;
      IndentedAll(a[1..], b, c);
    }
  }

  /** One entry: its key line, everything indented under it, and the rest. */
  lemma {:induction false} ReadCons(head: Out, sub: seq<Out>, rest: seq<Out>, c: nat)
    requires !head.OutSeparator? && !head.OutBrace? && head.col == c
    requires forall o :: o in sub ==> Deeper(o, c)
    requires NodeUnder(head, sub).Some? && Read(rest, c).Some?
    ensures Read([head] + (sub + rest), c) == Some([Entry(head.key, NodeUnder(head, sub).value)] + Read(rest, c).value)
  {
    var ls := [head] + (sub + rest);
    assert ls[1..] == sub + rest;
    IndentedAll(sub, rest, c);
    assert (sub + rest)[..|sub|] == sub && (sub + rest)[|sub|..] == rest;
  }

  lemma {:induction false} ReadOne(head: Out, sub: seq<Out>, c: nat)
    requires !head.OutSeparator? && !head.OutBrace? && head.col == c
    requires forall o :: o in sub ==> Deeper(o, c)
    requires NodeUnder(head, sub).Some?
    ensures Read([head] + sub, c) == Some([Entry(head.key, NodeUnder(head, sub).value)])
  {
    ReadCons(head, sub, [], c);
    assert sub + [] == sub;
    var e := [Entry(head.key, NodeUnder(head, sub).value)];
    assert Read([], c) == Some([]) && e + [] == e;
  }

  /** Two readable runs at one column read as their entries in order. */
  lemma {:induction false} ReadAppend(a: seq<Out>, b: seq<Out>, c: nat)
    requires Read(a, c).Some? && Read(b, c).Some?
    ensures Read(a + b, c) == Some(Read(a, c).value + Read(b, c).value)
    decreases |a|
  {
    if a == [] {
      assert a + b == b;
      assert Read(a, c).value + Read(b, c).value == Read(b, c).value;
    } else {
      var k := Indented(a[1..], c);
      ReadParts(a, c);
      ReadAppend(a[1..][k..], b, c);
      ReadCons(a[0], a[1..][..k], a[1..][k..] + b, c);
      Regroup(a, b, k);
      Assoc([Entry(a[0].key, NodeUnder(a[0], a[1..][..k]).value)], Read(a[1..][k..], c).value, Read(b, c).value);
    }
  }

  lemma Regroup(a: seq<Out>, b: seq<Out>, k: nat)
    requires k < |a|
    ensures a + b == [a[0]] + (a[1..][..k] + (a[1..][k..] + b))
  {
  }

  lemma {:induction false} ReadParts(a: seq<Out>, c: nat)
    requires a != [] && Read(a, c).Some?
    ensures !a[0].OutSeparator? && !a[0].OutBrace? && a[0].col == c
    ensures var k := Indented(a[1..], c);
            && NodeUnder(a[0], a[1..][..k]).Some?
            && Read(a[1..][k..], c).Some?
            && Read(a, c).value == [Entry(a[0].key, NodeUnder(a[0], a[1..][..k]).value)] + Read(a[1..][k..], c).value
  {
  }

  // ----- what blocks denote -----

  /** Under ctx the blocks render without failing, and what they render reads,
      at column c, as exactly these entries. */
  ghost predicate Denotes(bs: seq<Block>, ctx: Context, c: nat, es: seq<Entry>) {
    && Proper(bs)
    && RunAll(bs, ctx).Ok?
    && AtLeast(RunAll(bs, ctx).value, c)
    && Read(RunAll(bs, ctx).value, c) == Some(es)
  }

  lemma DenotesNone(ctx: Context, c: nat)
    ensures Denotes([], ctx, c, [])
  {
  }

  lemma DenotesAppend(a: seq<Block>, b: seq<Block>, ctx: Context, c: nat, es: seq<Entry>, fs: seq<Entry>)
    requires Denotes(a, ctx, c, es) && Denotes(b, ctx, c, fs)
    ensures Denotes(a + b, ctx, c, es + fs)
  {
    RunAppend(a, b, ctx);
    ReadAppend(RunAll(a, ctx).value, RunAll(b, ctx).value, c);
  }

  lemma RunSingle(b: Block, ctx: Context)
    ensures RunAll([b], ctx) == Run(b, ctx)
  {
    if Run(b, ctx).Ok? {
      var h := Run(b, ctx).value;
      assert h + [] == h;
      assert [b][1..] == [];
    }
  }

  lemma DenotesPair(c: nat, key: string, rhs: Rhs, ctx: Context)
    requires EvalRhs(rhs, ctx).Ok?
    ensures Denotes([Plain(PairLine(c, key, rhs))], ctx, c, [Entry(key, Leaf(EvalRhs(rhs, ctx).value))])
  {
    RunSingle(Plain(PairLine(c, key, rhs)), ctx);
    ReadSingle(OutPair(c, key, EvalRhs(rhs, ctx).value), c);
  }

  lemma DenotesEmpty(c: nat, key: string, ctx: Context)
    ensures Denotes([Plain(EmptyLine(c, key))], ctx, c, [Entry(key, Mapping([]))])
  {
    RunSingle(Plain(EmptyLine(c, key)), ctx);
    ReadSingle(OutEmpty(c, key), c);
  }

  lemma {:induction false} ReadSingle(o: Out, c: nat)
    requires o.OutPair? || o.OutEmpty?
    requires o.col == c
    ensures Read([o], c) == Some([Entry(o.key, if o.OutPair? then Leaf(o.scalar) else Mapping([]))])
  {
    ReadOne(o, [], c);
    assert [o] + [] == [o];
  }

  /** `key:` over children that denote something denotes the mapping of it. */
  lemma {:induction false} DenotesNested(bs: seq<Block>, ctx: Context, c: nat, key: string, d: nat, es: seq<Entry>)
    requires Denotes(bs, ctx, d, es) && es != [] && d > c
    ensures Denotes([Plain(KeyLine(c, key))] + bs, ctx, c, [Entry(key, Mapping(es))])
  {
    RunAppend([Plain(KeyLine(c, key))], bs, ctx);
    RunSingle(Plain(KeyLine(c, key)), ctx);
    var sub := RunAll(bs, ctx).value;
    assert sub != [];
    ReadParts(sub, d);
    assert NodeUnder(OutKey(c, key), sub) == Some(Mapping(es));
    ReadOne(OutKey(c, key), sub, c);
  }

  /** `key:` over a lone `{}` denotes the empty mapping. */
  lemma {:induction false} DenotesBraced(bs: seq<Block>, ctx: Context, c: nat, key: string, d: nat)
    requires Proper(bs) && RunAll(bs, ctx) == Ok([OutBrace(d)]) && d > c
    ensures Denotes([Plain(KeyLine(c, key))] + bs, ctx, c, [Entry(key, Mapping([]))])
  {
    RunAppend([Plain(KeyLine(c, key))], bs, ctx);
    RunSingle(Plain(KeyLine(c, key)), ctx);
    BraceReads(c, key, d);
  }

  lemma {:induction false} BraceReads(c: nat, key: string, d: nat)
    requires d > c
    ensures Read([OutKey(c, key)] + [OutBrace(d)], c) == Some([Entry(key, Mapping([]))])
  {
    ReadOne(OutKey(c, key), [OutBrace(d)], c);
  }

  lemma DenotesBranch(g: Expr, yes: seq<Block>, no: seq<Block>, ctx: Context, c: nat, es: seq<Entry>)
    requires Decides(g, ctx) && Proper(yes) && Proper(no)
    requires Denotes(if Holds(g, ctx) then yes else no, ctx, c, es)
    ensures Denotes([Branch(g, yes, no)], ctx, c, es)
  {
    RunSingle(Branch(g, yes, no), ctx);
  }

  // ----- trees -----

  /** The scalars of a tree with their key paths, in document order. */
  function Leaves(es: seq<Entry>): seq<(seq<string>, Scalar)>
    decreases es, 0
  {
    if es == [] then []
    else Under(es[0].key, NodeLeaves(es[0].node)) + Leaves(es[1..])
  }

  function NodeLeaves(n: Node): seq<(seq<string>, Scalar)>
    decreases n, 1
  {
    match n
    case Null => []
    case Leaf(s) => [([], s)]
    case Mapping(es) => Leaves(es)
  }

  function Under(key: string, ls: seq<(seq<string>, Scalar)>): (r: seq<(seq<string>, Scalar)>)
    ensures |r| == |ls|
    ensures forall i :: 0 <= i < |ls| ==> r[i] == ([key] + ls[i].0, ls[i].1)
  {
    seq(|ls|, i requires 0 <= i < |ls| => ([key] + ls[i].0, ls[i].1))
  }

  /** No key is written twice in one mapping, anywhere in the tree. */
  predicate KeysDistinct(es: seq<Entry>)
    decreases es, 0
  {
    && (forall i, j :: 0 <= i < j < |es| ==> es[i].key != es[j].key)
    && forall e :: e in es ==> NodeKeysDistinct(e.node)
  }

  predicate NodeKeysDistinct(n: Node)
    decreases n, 1
  {
    n.Mapping? ==> KeysDistinct(n.entries)
  }

  /** No key stands with nothing under it. */
  predicate NoNull(es: seq<Entry>)
    decreases es, 0
  {
    forall e :: e in es ==> NodeNoNull(e.node)
  }

  predicate NodeNoNull(n: Node)
    decreases n, 1
  {
    !n.Null? && (n.Mapping? ==> NoNull(n.entries))
  }

  /** Additionally no mapping is empty. */
  predicate Full(es: seq<Entry>)
    decreases es, 0
  {
    forall e :: e in es ==> NodeFull(e.node)
  }

  predicate NodeFull(n: Node)
    decreases n, 1
  {
    !n.Null? && (n.Mapping? ==> n.entries != [] && Full(n.entries))
  }
}
