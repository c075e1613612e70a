/** A rendered template is a stream of documents, each opened by `---`. */
module Stream {
  import opened Seqs
  import opened Template
  import opened Yaml

  /** The lines up to the next separator. */
  function Upto(ls: seq<Out>): (n: nat)
    ensures n <= |ls|
    ensures forall i :: 0 <= i < n ==> !ls[i].OutSeparator?
    ensures n < |ls| ==> ls[n].OutSeparator?
  {
    if ls == [] || ls[0].OutSeparator? then 0 else 1 + Upto(ls[1..])
  }

  function ReadStream(ls: seq<Out>, c: nat): Option<seq<seq<Entry>>>
    decreases |ls|
  {
    if ls == [] then Some([])
    else if !ls[0].OutSeparator? then None
    else
      var k := Upto(ls[1..]);
      var doc, rest := Read(ls[1..][..k], c), ReadStream(ls[1..][k..], c);
      if doc.None? || rest.None? then None else Some([doc.value] + rest.value)
  }

  lemma {:induction false} UptoStops(a: seq<Out>, b: seq<Out>)
    requires b == [] || b[0].OutSeparator?
    ensures Upto(a + b) == Upto(a)
  {
    if a == [] {
      assert a + b == b;
    } else {
      assert (a + b)[1..] == a[1..] + b && (a + b)[0] == a[0];
      UptoStops(a[1..], b);
    }
  }

  lemma StreamHead(ls: seq<Out>, c: nat)
    requires ReadStream(ls, c).Some?
    ensures ls == [] || ls[0].OutSeparator?
  {
  }

  lemma StreamCons(sub: seq<Out>, rest: seq<Out>, c: nat)
    requires forall o :: o in sub ==> !o.OutSeparator?
    requires Read(sub, c).Some? && ReadStream(rest, c).Some?
    ensures ReadStream([OutSeparator] + (sub + rest), c) == Some([Read(sub, c).value] + ReadStream(rest, c).value)
  {
    var ls := [OutSeparator] + (sub + rest);
    assert ls[1..] == sub + rest;
    StreamHead(rest, c);
    UptoStops(sub, rest);
    UptoAll(sub);
    assert (sub + rest)[..|sub|] == sub && (sub + rest)[|sub|..] == rest;
  }

  lemma StreamParts(ls: seq<Out>, c: nat)
    requires ls != [] && ReadStream(ls, c).Some?
    ensures ls[0] == OutSeparator
    ensures var k := Upto(ls[1..]);
            && Read(ls[1..][..k], c).Some? && ReadStream(ls[1..][k..], c).Some?
            && ReadStream(ls, c).value == [Read(ls[1..][..k], c).value] + ReadStream(ls[1..][k..], c).value
  {
  }

  lemma {:induction false} StreamAppend(a: seq<Out>, b: seq<Out>, c: nat)
    requires ReadStream(a, c).Some? && ReadStream(b, c).Some?
    ensures ReadStream(a + b, c) == Some(ReadStream(a, c).value + ReadStream(b, c).value)
    decreases |a|
  {
    if a == [] {
      assert a + b == b;
      assert ReadStream(a, c).value + ReadStream(b, c).value == ReadStream(b, c).value;
    } else {
      var k := Upto(a[1..]);
      StreamParts(a, c);
      StreamAppend(a[1..][k..], b, c);
      StreamCons(a[1..][..k], a[1..][k..] + b, c);
      StreamCut(a, b, k);
      Assoc([Read(a[1..][..k], c).value], ReadStream(a[1..][k..], c).value, ReadStream(b, c).value);
    }
  }

  lemma StreamCut(a: seq<Out>, b: seq<Out>, k: nat)
    requires k < |a|
    ensures a + b == [a[0]] + (a[1..][..k] + (a[1..][k..] + b))
  {
  }

  /** Under ctx the blocks render without failing, to exactly these documents. */
  ghost predicate Yields(bs: seq<Block>, ctx: Context, c: nat, docs: seq<seq<Entry>>) {
    && Proper(bs)
    && RunAll(bs, ctx).Ok?
    && ReadStream(RunAll(bs, ctx).value, c) == Some(docs)
  }

  lemma YieldsNone(ctx: Context, c: nat)
    ensures Yields([], ctx, c, [])
  {
  }

  /** The emitted lines themselves, parsed and rendered, read as the documents. */
  lemma YieldsRenders(bs: seq<Block>, ctx: Context, c: nat, docs: seq<seq<Entry>>)
    requires Yields(bs, ctx, c, docs)
    ensures Render(FlatAll(bs), ctx).Ok? && ReadStream(Render(FlatAll(bs), ctx).value, c) == Some(docs)
  {
    RenderFlat(bs, ctx);
  }

  lemma {:induction false} UptoAll(ls: seq<Out>)
    requires forall o :: o in ls ==> !o.OutSeparator?
    ensures Upto(ls) == |ls|
  {
    if ls != [] {
      assert ls[0] in ls;
      UptoAll(ls[1..]);
    }
  }

  lemma YieldsDocument(body: seq<Block>, ctx: Context, c: nat, es: seq<Entry>)
    requires Denotes(body, ctx, c, es)
    ensures Yields([Plain(Separator)] + body, ctx, c, [es])
  {
    RunAppend([Plain(Separator)], body, ctx);
    RunSingle(Plain(Separator), ctx);
    var out := RunAll(body, ctx).value;
    UptoAll(out);
    var ls := [OutSeparator] + out;
    assert ls[1..] == out && out[..|out|] == out && out[|out|..] == [];
    assert ReadStream([], c) == Some([]);
    assert [es] + [] == [es];
  }

  lemma YieldsAppend(a: seq<Block>, b: seq<Block>, ctx: Context, c: nat, xs: seq<seq<Entry>>, ys: seq<seq<Entry>>)
    requires Yields(a, ctx, c, xs) && Yields(b, ctx, c, ys)
    ensures Yields(a + b, ctx, c, xs + ys)
  {
    RunAppend(a, b, ctx);
    StreamAppend(RunAll(a, ctx).value, RunAll(b, ctx).value, c);
  }

  lemma YieldsBranch(g: Expr, yes: seq<Block>, ctx: Context, c: nat, docs: seq<seq<Entry>>)
    requires Decides(g, ctx) && Proper(yes)
    requires if Holds(g, ctx) then Yields(yes, ctx, c, docs) else docs == []
    ensures Yields([Branch(g, yes, [])], ctx, c, docs)
  {
    RunSingle(Branch(g, yes, []), ctx);
  }

  function Iteration(ctx: Context, n: real, i: nat): Context {
    ctx.(index := Some(UntilItem(n, i)))
  }

  lemma {:induction false} TimesYields(body: seq<Block>, ctx: Context, c: nat, n: real, k: nat, docs: seq<seq<Entry>>)
    requires k <= |docs|
    requires forall i :: 0 <= i < k ==> Yields(body, Iteration(ctx, n, i), c, [docs[i]])
    ensures RunTimes(body, ctx, n, k).Ok? && ReadStream(RunTimes(body, ctx, n, k).value, c) == Some(docs[..k])
    decreases k
  {
    if k > 0 {
      TimesYields(body, ctx, c, n, k - 1, docs);
      OneMore(body, ctx, c, n, k, docs[..k - 1], docs[k - 1]);
      Longer(docs, k);
    }
  }

  lemma Longer(docs: seq<seq<Entry>>, k: nat)
    requires 0 < k <= |docs|
    ensures docs[..k] == docs[..k - 1] + [docs[k - 1]]
  {
  }

  lemma OneMore(body: seq<Block>, ctx: Context, c: nat, n: real, k: nat, before: seq<seq<Entry>>, doc: seq<Entry>)
    requires k > 0 && RunTimes(body, ctx, n, k - 1).Ok? && ReadStream(RunTimes(body, ctx, n, k - 1).value, c)
             == Some(before)
    requires Yields(body, Iteration(ctx, n, k - 1), c, [doc])
    ensures RunTimes(body, ctx, n, k).Ok? && ReadStream(RunTimes(body, ctx, n, k).value, c) == Some(before + [doc])
  {
    StreamAppend(RunTimes(body, ctx, n, k - 1).value, RunAll(body, Iteration(ctx, n, k - 1)).value, c);
  }

  /** A range yields one document for each index. */
  lemma YieldsLoop(bound: Expr, body: seq<Block>, ctx: Context, c: nat, docs: seq<seq<Entry>>)
    requires Eval(bound, ctx).Ok? && Eval(bound, ctx).value.Num? && Proper(body)
    requires var n := Eval(bound, ctx).value.amount;
             |docs| == UntilCount(n) && forall i :: 0 <= i < |docs| ==> Yields(body, Iteration(ctx, n, i), c, [docs[i]])
    ensures Yields([Loop(bound, body)], ctx, c, docs)
  {
    TimesYields(body, ctx, c, Eval(bound, ctx).value.amount, |docs|, docs);
    assert docs[..|docs|] == docs;
    RunSingle(Loop(bound, body), ctx);
  }
}
