/** The Go-template language the emitter writes, as far as the emitter uses it:
    expressions under `missingkey=error`, a line-oriented syntax with
    `if` / `else` / `end` / `range`, and the evaluation of a parsed template. */
module Template {

  datatype Option<+T> = None | Some(value: T)

  datatype Failure = MissingKey | BadType | Syntax

  datatype Outcome<+T> = Ok(value: T) | Fail(why: Failure) {
    predicate IsFailure() { Fail? }
    function PropagateFailure<U>(): Outcome<U>
      requires Fail?
    {
      Fail(why)
    }
    function Extract(): T
      requires Ok?
    {
      value
    }
  }

  /** Values a template sees. Numbers are reals because every number crosses
      the function protocol as a float64. */
  datatype Value = Nil | Str(text: string) | Bool(flag: bool) | Num(amount: real) | Dict(fields: map<string, Value>)

  datatype Var = SpecVar | EnvVar | ObservedVar

  datatype Expr =
    | Ref(v: Var)
    | Member(base: Expr, key: string)
    | Lookup(base: Expr, key: string)
    | HasKey(base: Expr, key: string)
    | Dig(path: seq<string>, base: Expr)
    | And(args: seq<Expr>)
    | Or(args: seq<Expr>)
    | Not(arg: Expr)
    | Equals(arg: Expr, literal: string)
    | Differs(arg: Expr, literal: string)
    | OrElse(arg: Expr, fallback: Value)
    | Const(constant: Value)
    | Word(text: string)
    | Ternary(arg: Expr, other: Expr, test: Expr)

  datatype Context = Context(spec: map<string, Value>, env: map<string, Value>, observed: map<string, Value>,
      index: Option<int>)

  /** text/template's notion of truth: anything but the zero value. */
  predicate Truth(v: Value) {
    match v
    case Nil => false
    case Str(s) => s != ""
    case Bool(b) => b
    case Num(r) => r != 0.0
    case Dict(m) => m != map[]
  }

  /** sprig's `dig k1 ... kn dict m`: an absent key anywhere gives the empty
      dict, a step through something that is not a map fails. */
  function DigIn(v: Value, path: seq<string>): Outcome<Value> {
    if path == [] then Ok(v)
    else if !v.Dict? then Fail(BadType)
    else if path[0] !in v.fields then Ok(Dict(map[]))
    else DigIn(v.fields[path[0]], path[1..])
  }

  function Eval(e: Expr, ctx: Context): Outcome<Value>
    decreases e, 0
  {
    match e
    case Ref(v) => Ok(Dict(match v case SpecVar => ctx.spec case EnvVar => ctx.env case ObservedVar => ctx.observed))
    case Member(base, key) =>
      var b :- Eval(base, ctx);
      if b.Nil? then Fail(MissingKey)
      else if !b.Dict? then Fail(BadType)
      else if key in b.fields then Ok(b.fields[key])
      else Fail(MissingKey)
    case Lookup(base, key) =>
      var b :- Eval(base, ctx);
      if !b.Dict? then Fail(BadType)
      else if key in b.fields then Ok(b.fields[key])
      else Ok(Nil)
    case HasKey(base, key) =>
      var b :- Eval(base, ctx);
      if !b.Dict? then Fail(BadType) else Ok(Bool(key in b.fields))
    case Dig(path, base) =>
      var b :- Eval(base, ctx);
      DigIn(b, path)
    case And(args) => EvalAll(args, ctx)
    case Or(args) => EvalAny(args, ctx)
    case Not(arg) =>
      var v :- Eval(arg, ctx);
      Ok(Bool(!Truth(v)))
    case Equals(arg, literal) =>
      var v :- Eval(arg, ctx);
      if v.Str? then Ok(Bool(v.text == literal)) else Fail(BadType)
    case Differs(arg, literal) =>
      var v :- Eval(arg, ctx);
      if v.Str? then Ok(Bool(v.text != literal)) else Fail(BadType)
    case OrElse(arg, fallback) =>
      var v :- Eval(arg, ctx);
      Ok(if Truth(v) then v else fallback)
    case Const(v) => Ok(v)
    case Word(text) =>
      // a bare word is a constant or the name of a function
      if text == "true" then Ok(Bool(true)) else if text == "false" then Ok(Bool(false)) else Fail(Syntax)
    case Ternary(arg, other, test) =>
      var v :- Eval(arg, ctx);
      var o :- Eval(other, ctx);
      var t :- Eval(test, ctx);
      Ok(if Truth(t) then v else o)
  }

  /** `and a b c`: the first false argument, else the last; later arguments
      are not evaluated once one is false. */
  function EvalAll(args: seq<Expr>, ctx: Context): Outcome<Value>
    decreases args, 1
  {
    if args == [] then Fail(Syntax)
    else
      var v :- Eval(args[0], ctx);
      if |args| == 1 || !Truth(v) then Ok(v) else EvalAll(args[1..], ctx)
  }

  /** `or a b c`: the first true argument, else the last. */
  function EvalAny(args: seq<Expr>, ctx: Context): Outcome<Value>
    decreases args, 1
  {
    if args == [] then Fail(Syntax)
    else
      var v :- Eval(args[0], ctx);
      if |args| == 1 || Truth(v) then Ok(v) else EvalAny(args[1..], ctx)
  }

  /** A guard holds, or does not hold, without failing. */
  predicate Decides(e: Expr, ctx: Context) {
    Eval(e, ctx).Ok?
  }

  predicate Holds(e: Expr, ctx: Context) {
    Eval(e, ctx).Ok? && Truth(Eval(e, ctx).value)
  }

  lemma {:induction false} AnyHolds(args: seq<Expr>, ctx: Context)
    requires args != []
    requires forall e :: e in args ==> Decides(e, ctx)
    ensures Decides(Or(args), ctx)
    ensures Holds(Or(args), ctx) <==> exists e :: e in args && Holds(e, ctx)
  {
    assert args[0] in args && Decides(args[0], ctx);
    if |args| > 1 && !Holds(args[0], ctx) {
      AnyHolds(args[1..], ctx);
      assert Eval(Or(args), ctx) == Eval(Or(args[1..]), ctx);
      assert args == [args[0]] + args[1..];
    } else if |args| == 1 {
      assert forall e :: e in args ==> e == args[0];
    }
  }

  // ----- what a template is made of -----

  /** What stands to the right of `key: `. `Named` carries the loop index and
      makes sense only inside a range; `Composed` puts the composite's name in
      front. */
  datatype Rhs = Literal(text: string) | Wire(expr: Expr,
      quoted: bool) | Named(prefix: string) | Composed(suffix: string)

  datatype Scalar = Text(text: string) | Rendered(v: Value, quoted: bool) | Indexed(prefix: string,
      i: int) | Suffixed(suffix: string)

  function EvalRhs(r: Rhs, ctx: Context): Outcome<Scalar> {
    match r
    case Literal(t) => Ok(Text(t))
    case Wire(e, q) => var v :- Eval(e, ctx); Ok(Rendered(v, q))
    case Named(p) => if ctx.index.Some? then Ok(Indexed(p, ctx.index.value)) else Fail(Syntax)
    case Composed(x) => Ok(Suffixed(x))
  }

  datatype Line =
    | Separator
    | KeyLine(col: nat, key: string)
    | PairLine(col: nat, key: string, rhs: Rhs)
    | EmptyLine(col: nat, key: string)
    | BraceLine(col: nat)
    | IfLine(cond: Expr)
    | ElseLine
    | EndLine
    | RangeLine(bound: Expr)
  {
    predicate Plain() {
      Separator? || KeyLine? || PairLine? || EmptyLine? || BraceLine?
    }
    predicate Closes() {
      ElseLine? || EndLine?
    }
  }

  datatype Block =
    | Plain(line: Line)
    | Branch(cond: Expr, yes: seq<Block>, no: seq<Block>)
    | Loop(bound: Expr, body: seq<Block>)

  function Flat(b: Block): seq<Line>
    decreases b, 0
  {
    match b
    case Plain(l) => [l]
    case Branch(c, yes, no) =>
      [IfLine(c)] + FlatAll(yes) + (if no == [] then [] else [ElseLine] + FlatAll(no)) + [EndLine]
    case Loop(e, body) => [RangeLine(e)] + FlatAll(body) + [EndLine]
  }

  function FlatAll(bs: seq<Block>): seq<Line>
    decreases bs, 1
  {
    if bs == [] then [] else Flat(bs[0]) + FlatAll(bs[1..])
  }

  /** Only lines that are not block structure stand in Plain blocks. */
  predicate Proper(bs: seq<Block>) {
    forall b :: b in bs ==> ProperBlock(b)
  }

  predicate ProperBlock(b: Block) {
    match b
    case Plain(l) => l.Plain()
    case Branch(_, yes, no) => (forall x :: x in yes ==> ProperBlock(x)) && (forall x :: x in no ==> ProperBlock(x))
    case Loop(_, body) => forall x :: x in body ==> ProperBlock(x)
  }

  /** The parser: as many blocks as stand before a closing line or the end. */
  function Parse(ls: seq<Line>): (r: Option<(seq<Block>, seq<Line>)>)
    ensures r.Some? ==> |r.value.1| <= |ls|
    decreases |ls|
  {
    if ls == [] || ls[0].Closes() then Some(([], ls))
    else if ls[0].Plain() then
      var r := Parse(ls[1..]);
      if r.None? then None else Some(([Plain(ls[0])] + r.value.0, r.value.1))
    else
      var inner := Parse(ls[1..]);
      if inner.None? || inner.value.1 == [] then None
      else
        var body, after := inner.value.0, inner.value.1;
        if after[0].EndLine? then
          var r := Parse(after[1..]);
          if r.None? then None
          else Some(([if ls[0].IfLine? then Branch(ls[0].cond, body, []) else Loop(ls[0].bound, body)]
              + r.value.0, r.value.1))
        else if !ls[0].IfLine? then None
        else
          var other := Parse(after[1..]);
          if other.None? || other.value.1 == [] || !other.value.1[0].EndLine? then None
          else
            var r := Parse(other.value.1[1..]);
            if r.None? then None else Some(([Branch(ls[0].cond, body, other.value.0)] + r.value.0, r.value.1))
  }

  /** Parsing undoes printing: what the emitter nests is what the engine sees. */
  lemma {:induction false} ParseFlat(bs: seq<Block>, rest: seq<Line>)
    requires Proper(bs)
    requires rest == [] || rest[0].Closes()
    ensures Parse(FlatAll(bs) + rest) == Some((bs, rest))
    decreases bs, 1
  {
    if bs == [] {
      assert FlatAll(bs) + rest == rest;
    } else {
      assert forall b :: b in bs[1..] ==> b in bs;
      ParseFlat(bs[1..], rest);
      ParseFlatOne(bs[0], FlatAll(bs[1..]) + rest);
      FlatCut(bs, rest);
      assert bs == [bs[0]] + bs[1..];
    }
  }

  lemma FlatCut(bs: seq<Block>, rest: seq<Line>)
    requires bs != []
    ensures FlatAll(bs) + rest == Flat(bs[0]) + (FlatAll(bs[1..]) + rest)
  {
  }

  lemma {:induction false} ParseFlatOne(b: Block, more: seq<Line>)
    requires ProperBlock(b)
    requires Parse(more).Some?
    ensures Parse(Flat(b) + more) == Some(([b] + Parse(more).value.0, Parse(more).value.1))
    decreases b, 0
  {
    match b
    case Plain(l) =>
      ParsePlain(l, more);
    case Branch(c, yes, no) =>
      if no == [] {
        ParseFlat(yes, [EndLine] + more);
        ParseClosed(IfLine(c), FlatAll(yes) + ([EndLine] + more), yes, more);
        FlatShape(b, more);
      } else {
        ParseFlat(no, [EndLine] + more);
        var tail := [ElseLine] + (FlatAll(no) + ([EndLine] + more));
        ParseFlat(yes, tail);
        ParseElse(c, FlatAll(yes) + tail, yes, FlatAll(no) + ([EndLine] + more), no, more);
        FlatShape(b, more);
      }
    case Loop(e, body) =>
      ParseFlat(body, [EndLine] + more);
      ParseClosed(RangeLine(e), FlatAll(body) + ([EndLine] + more), body, more);
      FlatShape(b, more);
  }

  lemma FlatShape(b: Block, more: seq<Line>)
    requires !b.Plain?
    ensures Flat(b) + more ==
            match b
            case Branch(c, yes, no) =>
              [IfLine(c)] + (FlatAll(yes) + (if no == [] then [EndLine] + more
                  else [ElseLine] + (FlatAll(no) + ([EndLine] + more))))
            case Loop(e, body) => [RangeLine(e)] + (FlatAll(body) + ([EndLine] + more))
            case _ => []
  {
  }

  lemma ParsePlain(l: Line, more: seq<Line>)
    requires l.Plain()
    requires Parse(more).Some?
    ensures Parse([l] + more) == Some(([Plain(l)] + Parse(more).value.0, Parse(more).value.1))
  {
    assert ([l] + more)[1..] == more;
  }

  lemma ParseClosed(open: Line, inner: seq<Line>, body: seq<Block>, more: seq<Line>)
    requires open.IfLine? || open.RangeLine?
    requires Parse(inner) == Some((body, [EndLine] + more))
    requires Parse(more).Some?
    ensures Parse([open] + inner) ==
            Some(([if open.IfLine? then Branch(open.cond, body, []) else Loop(open.bound, body)]
                + Parse(more).value.0, Parse(more).value.1))
  {
    assert ([open] + inner)[1..] == inner;
    assert ([EndLine] + more)[1..] == more;
  }

  lemma ParseElse(c: Expr, inner: seq<Line>, yes: seq<Block>, other: seq<Line>, no: seq<Block>, more: seq<Line>)
    requires Parse(inner) == Some((yes, [ElseLine] + other))
    requires Parse(other) == Some((no, [EndLine] + more))
    requires Parse(more).Some?
    ensures Parse([IfLine(c)] + inner) == Some(([Branch(c, yes, no)] + Parse(more).value.0, Parse(more).value.1))
  {
    assert ([IfLine(c)] + inner)[1..] == inner;
    assert ([ElseLine] + other)[1..] == other;
    assert ([EndLine] + more)[1..] == more;
  }

  lemma {:induction false} FlatAppend(a: seq<Block>, b: seq<Block>)
    ensures FlatAll(a + b) == FlatAll(a) + FlatAll(b)
  {
    if a == [] {
      assert a + b == b;
    } else {
      assert (a + b)[1..] == a[1..] + b;
      FlatAppend(a[1..], b);
    }
  }

  // ----- rendering -----

  /** One line of the rendered document. */
  datatype Out =
    | OutSeparator
    | OutKey(col: nat, key: string)
    | OutPair(col: nat, key: string, scalar: Scalar)
    | OutEmpty(col: nat, key: string)
    | OutBrace(col: nat)

  /** sprig's `until (int n)`: 0, 1, ... n-1, or 0, -1, ... for a negative n. */
  function UntilCount(n: real): nat {
    if n >= 0.0 then n.Floor else (-n).Floor
  }

  function UntilItem(n: real, k: int): int {
    if n >= 0.0 then k else -k
  }

  function EvalLine(l: Line, ctx: Context): Outcome<seq<Out>> {
    match l
    case Separator => Ok([OutSeparator])
    case KeyLine(c, k) => Ok([OutKey(c, k)])
    case PairLine(c, k, r) => var s :- EvalRhs(r, ctx); Ok([OutPair(c, k, s)])
    case EmptyLine(c, k) => Ok([OutEmpty(c, k)])
    case BraceLine(c) => Ok([OutBrace(c)])
    case _ => Fail(Syntax)
  }

  function Run(b: Block, ctx: Context): Outcome<seq<Out>>
    decreases b, 0, 0
  {
    match b
    case Plain(l) => EvalLine(l, ctx)
    case Branch(c, yes, no) =>
      var v :- Eval(c, ctx);
      if Truth(v) then RunAll(yes, ctx) else RunAll(no, ctx)
    case Loop(e, body) =>
      var v :- Eval(e, ctx);
      if !v.Num? then Fail(BadType) else RunTimes(body, ctx, v.amount, UntilCount(v.amount))
  }

  function RunAll(bs: seq<Block>, ctx: Context): Outcome<seq<Out>>
    decreases bs, 1, 0
  {
    if bs == [] then Ok([])
    else
      var head :- Run(bs[0], ctx);
      var tail :- RunAll(bs[1..], ctx);
      Ok(head + tail)
  }

  /** The first k iterations of a range over `until (int n)`. */
  function RunTimes(body: seq<Block>, ctx: Context, n: real, k: nat): Outcome<seq<Out>>
    decreases body, 2, k
  {
    if k == 0 then Ok([])
    else
      var before :- RunTimes(body, ctx, n, k - 1);
      var last :- RunAll(body, ctx.(index := Some(UntilItem(n, k - 1))));
      Ok(before + last)
  }

  /** Rendering a line sequence: parse it, then evaluate what was parsed. */
  function Render(ls: seq<Line>, ctx: Context): Outcome<seq<Out>> {
    var r := Parse(ls);
    if r.None? || r.value.1 != [] then Fail(Syntax) else RunAll(r.value.0, ctx)
  }

  lemma RenderFlat(bs: seq<Block>, ctx: Context)
    requires Proper(bs)
    ensures Render(FlatAll(bs), ctx) == RunAll(bs, ctx)
  {
    ParseFlat(bs, []);
    assert FlatAll(bs) + [] == FlatAll(bs);
  }

  lemma {:induction false} RunAppend(a: seq<Block>, b: seq<Block>, ctx: Context)
    ensures RunAll(a + b, ctx) ==
            if RunAll(a, ctx).Fail? then RunAll(a, ctx)
            else if RunAll(b, ctx).Fail? then RunAll(b, ctx)
            else Ok(RunAll(a, ctx).value + RunAll(b, ctx).value)
  {
    if a == [] {
      assert a + b == b;
      if RunAll(b, ctx).Ok? {
        assert RunAll(a, ctx).value + RunAll(b, ctx).value == RunAll(b, ctx).value;
      }
    } else {
      assert (a + b)[1..] == a[1..] + b;
      RunAppend(a[1..], b, ctx);
      if RunAll(a, ctx).Ok? && RunAll(b, ctx).Ok? {
        var h, t, u := Run(a[0], ctx).value, RunAll(a[1..], ctx).value, RunAll(b, ctx).value;
        assert h + (t + u) == (h + t) + u;
      }
    }
  }

  /** The document the emitter appends to (internal/emit/yaml.go). */
  class Doc {
    var lines: seq<Line>

    constructor ()
      ensures lines == []
    {
      lines := [];
    }

    method Put(l: Line)
      modifies this
      ensures lines == old(lines) + [l]
    {
      lines := lines + [l];
    }
  }
}
