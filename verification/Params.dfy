/** Declared parameters, how a dotted reference resolves through them
    (internal/blueprint/load.go), and the guard the emitter writes around a
    dereference (internal/emit/composition.go). */
module Params {
  import opened Template
  import opened Text

  datatype Parameter = Parameter(
    typ: string,
    required: bool,
    default: string,
    enum: seq<string>,
    properties: map<string, Parameter>)

  type Declarations = map<string, Parameter>

  /** The declarations met along a reference, one for each segment. */
  function Resolve(ps: Declarations, segs: seq<string>): (r: Option<seq<Parameter>>)
    ensures r.Some? ==> |r.value| == |segs| > 0
    decreases |segs|
  {
    if segs == [] || segs[0] !in ps then None
    else
      var decl := ps[segs[0]];
      if |segs| == 1 then Some([decl])
      else if decl.typ != "object" || decl.properties == map[] then None
      else
        var rest := Resolve(decl.properties, segs[1..]);
        if rest.None? then None else Some([decl] + rest.value)
  }

  /** Resolution one segment further, the way ParamChain's loop grows it. */
  lemma {:induction false} ResolveSnoc(ps: Declarations, segs: seq<string>, s: string)
    requires segs != []
    ensures var r := Resolve(ps, segs);
            Resolve(ps, segs + [s]) ==
            if r.None? then None
            else
              var cur := r.value[|segs| - 1];
              if cur.typ != "object" || s !in cur.properties then None
              else Some(r.value + [cur.properties[s]])
    decreases |segs|
  {
    assert (segs + [s])[1..] == segs[1..] + [s];
    if segs[0] in ps && |segs| > 1 {
      var decl := ps[segs[0]];
      if decl.typ == "object" && decl.properties != map[] {
        ResolveSnoc(decl.properties, segs[1..], s);
        var r := Resolve(decl.properties, segs[1..]);
        if r.Some? && r.value[|segs| - 2].typ == "object" && s in r.value[|segs| - 2].properties {
          assert [decl] + (r.value + [r.value[|segs| - 2].properties[s]]) == ([decl] + r.value)
              + [r.value[|segs| - 2].properties[s]];
        }
      }
    } else if segs[0] in ps {
      assert segs[1..] + [s] == [s];
    }
  }

  lemma {:induction false} ResolvePrefix(ps: Declarations, segs: seq<string>, k: nat)
    requires 0 < k <= |segs| && Resolve(ps, segs).Some?
    ensures Resolve(ps, segs[..k]) == Some(Resolve(ps, segs).value[..k])
    decreases |segs| - k
  {
    if k == |segs| {
      assert segs[..k] == segs;
      assert Resolve(ps, segs).value[..k] == Resolve(ps, segs).value;
    } else {
      ResolvePrefix(ps, segs, k + 1);
      assert segs[..k + 1] == segs[..k] + [segs[k]];
      ResolveSnoc(ps, segs[..k], segs[k]);
      var r := Resolve(ps, segs).value;
      assert r[..k + 1][..k] == r[..k];
    }
  }

  /** Each declaration of a chain is a property of the object before it. */
  lemma ResolveStep(ps: Declarations, segs: seq<string>, k: nat)
    requires 0 < k < |segs| && Resolve(ps, segs).Some?
    ensures var r := Resolve(ps, segs).value;
            r[k - 1].typ == "object" && segs[k] in r[k - 1].properties && r[k] == r[k - 1].properties[segs[k]]
  {
    ResolvePrefix(ps, segs, k);
    ResolvePrefix(ps, segs, k + 1);
    assert segs[..k + 1] == segs[..k] + [segs[k]];
    ResolveSnoc(ps, segs[..k], segs[k]);
  }

  method ParamChain(ps: Declarations, ref: string) returns (r: Option<(seq<string>, seq<Parameter>)>)
    ensures var segs := Split(ref, '.');
            r == if Resolve(ps, segs).None? then None else Some((segs, Resolve(ps, segs).value))
  {
    var segs := Split(ref, '.');
    assert segs[..1] == [segs[0]] && segs[..|segs|] == segs;
    if segs[0] !in ps {
      return None;
    }
    var chain := [ps[segs[0]]];
    var i := 1;
    while i < |segs|
      invariant 1 <= i <= |segs|
      invariant Resolve(ps, segs[..i]) == Some(chain)
    {
      var cur := chain[i - 1];
      ghost var unresolved := Resolve(ps, segs).None?;
      assert segs[..i + 1] == segs[..i] + [segs[i]];
      ResolveSnoc(ps, segs[..i], segs[i]);
      if Resolve(ps, segs).Some? {
        ResolvePrefix(ps, segs, i + 1);
      }
      if cur.typ != "object" {
        return None;
      }
      if |cur.properties| == 0 {
        return None;
      }
      if segs[i] !in cur.properties {
        return None;
      }
      chain := chain + [cur.properties[segs[i]]];
      i := i + 1;
    }
    return Some((segs, chain));
  }

  // ----- what the XRD admits -----

  /** A spec value the XRD's schema admits after defaulting: required and
      defaulted keys are present, present keys have their declared type. */
  ghost predicate Admits(p: Parameter, v: Value)
    decreases p
  {
    match p.typ
    case "string" => v.Str?
    case "boolean" => v.Bool?
    case "integer" => v.Num?
    case "number" => v.Num?
    case "object" =>
      && v.Dict?
      && (forall k :: k in p.properties && AlwaysSet(p.properties[k]) ==> k in v.fields)
      && (forall k :: k in p.properties && k in v.fields ==> Admits(p.properties[k], v.fields[k]))
    case _ => false
  }

  predicate AlwaysSet(p: Parameter) {
    p.required || p.default != ""
  }

  ghost predicate AdmitsSpec(ps: Declarations, spec: map<string, Value>) {
    Admits(Parameter("object", true, "", [], ps), Dict(spec))
  }

  /** The value at a path of keys, if every key is there. */
  function Walk(v: Value, segs: seq<string>): Option<Value> {
    if segs == [] then Some(v)
    else if v.Dict? && segs[0] in v.fields then Walk(v.fields[segs[0]], segs[1..])
    else None
  }

  lemma {:induction false} WalkSnoc(v: Value, segs: seq<string>, s: string)
    ensures var w := Walk(v, segs);
            Walk(v, segs + [s]) ==
            if w.Some? && w.value.Dict? && s in w.value.fields then Some(w.value.fields[s]) else None
  {
    if segs == [] {
      assert [] + [s] == [s];
    } else {
      assert (segs + [s])[1..] == segs[1..] + [s];
      if v.Dict? && segs[0] in v.fields {
        WalkSnoc(v.fields[segs[0]], segs[1..], s);
      }
    }
  }

  /** `base.s0.s1...` */
  function Deref(base: Expr, segs: seq<string>): Expr {
    if segs == [] then base else Member(Deref(base, segs[..|segs| - 1]), segs[|segs| - 1])
  }

  /** Dereferencing yields the value at the path, or the missing-key failure
      as soon as a key is absent. */
  lemma {:induction false} DerefWalks(base: Expr, v: Value, segs: seq<string>, ctx: Context)
    requires Eval(base, ctx) == Ok(v)
    ensures Walk(v, segs).Some? ==> Eval(Deref(base, segs), ctx) == Ok(Walk(v, segs).value)
    ensures Walk(v, segs).None? ==> Eval(Deref(base, segs), ctx).Fail?
    decreases |segs|
  {
    if segs != [] {
      var before := segs[..|segs| - 1];
      DerefWalks(base, v, before, ctx);
      WalkSnoc(v, before, segs[|segs| - 1]);
      assert before + [segs[|segs| - 1]] == segs;
    }
  }

  /** Along a declared reference every value found is one its declaration admits. */
  lemma {:induction false} WalkAdmitted(ps: Declarations, spec: map<string, Value>, segs: seq<string>, k: nat)
    requires AdmitsSpec(ps, spec) && Resolve(ps, segs).Some?
    requires 0 < k <= |segs|
    ensures var w := Walk(Dict(spec), segs[..k]);
            && (w.Some? ==> Admits(Resolve(ps, segs).value[k - 1], w.value))
            && (AlwaysSet(Resolve(ps, segs).value[k - 1]) && Walk(Dict(spec), segs[..k - 1]).Some? ==> w.Some?)
    decreases k
  {
    var r := Resolve(ps, segs).value;
    assert segs[..k] == segs[..k - 1] + [segs[k - 1]];
    WalkSnoc(Dict(spec), segs[..k - 1], segs[k - 1]);
    if k > 1 {
      WalkAdmitted(ps, spec, segs, k - 1);
      ResolveStep(ps, segs, k - 1);
    } else {
      assert segs[..0] == [];
    }
  }

  // ----- chainGuard -----

  function Root(): Expr {
    Ref(SpecVar)
  }

  /** The index of the first declaration that is not required. */
  function FirstOptional(chain: seq<Parameter>): (n: nat)
    ensures n <= |chain|
    ensures forall i :: 0 <= i < n ==> chain[i].required
    ensures n < |chain| ==> !chain[n].required
  {
    if chain == [] || !chain[0].required then 0 else 1 + FirstOptional(chain[1..])
  }

  function Link(segs: seq<string>, i: nat): Expr
    requires i < |segs|
  {
    HasKey(Deref(Root(), segs[..i]), segs[i])
  }

  function Links(segs: seq<string>, first: nat): (ls: seq<Expr>)
    requires first <= |segs|
    ensures |ls| == |segs| - first
    ensures forall i :: 0 <= i < |ls| ==> ls[i] == Link(segs, first + i)
    decreases |segs| - first
  {
    if first == |segs| then [] else [Link(segs, first)] + Links(segs, first + 1)
  }

  /** The guard for a reference, or None when it needs none. */
  function GuardOf(segs: seq<string>, chain: seq<Parameter>): Option<Expr>
    requires |segs| == |chain|
  {
    var first := FirstOptional(chain);
    if first == |chain| then None
    else if |segs| - first == 1 then Some(Link(segs, first))
    else Some(And(Links(segs, first)))
  }

  method ChainGuard(segs: seq<string>, chain: seq<Parameter>) returns (g: Option<Expr>)
    requires |segs| == |chain|
    ensures g == GuardOf(segs, chain)
  {
    var first := -1;
    for i := 0 to |chain|
      invariant first == -1
      invariant forall j :: 0 <= j < i ==> chain[j].required
    {
      if !chain[i].required {
        first := i;
        break;
      }
    }
    if first == -1 {
      return None;
    }
    var links: seq<Expr> := [];
    var i := first;
    while i < |segs|
      invariant first <= i <= |segs|
      invariant links == Links(segs, first)[..i - first]
    {
      links := links + [HasKey(Deref(Root(), segs[..i]), segs[i])];
      i := i + 1;
    }
    assert FirstOptional(chain) == first;
    assert Links(segs, first)[..|segs| - first] == Links(segs, first);
    if |links| == 1 {
      return Some(links[0]);
    }
    return Some(And(links));
  }

  /** A link asks, of a parent that is there, whether the next key is there. */
  lemma LinkAsks(ps: Declarations, ctx: Context, segs: seq<string>, i: nat)
    requires AdmitsSpec(ps, ctx.spec) && Resolve(ps, segs).Some? && i < |segs|
    requires Walk(Dict(ctx.spec), segs[..i]).Some?
    ensures Eval(Link(segs, i), ctx) == Ok(Bool(Walk(Dict(ctx.spec), segs[..i + 1]).Some?))
  {
    DerefWalks(Root(), Dict(ctx.spec), segs[..i], ctx);
    assert segs[..i + 1] == segs[..i] + [segs[i]];
    WalkSnoc(Dict(ctx.spec), segs[..i], segs[i]);
    if i > 0 {
      WalkAdmitted(ps, ctx.spec, segs, i);
      ResolveStep(ps, segs, i);
    }
  }

  lemma {:induction false} WalkShorter(v: Value, segs: seq<string>, i: nat)
    requires i <= |segs| && Walk(v, segs).Some?
    ensures Walk(v, segs[..i]).Some?
    decreases |segs| - i
  {
    if i == |segs| {
      assert segs[..i] == segs;
    } else {
      WalkShorter(v, segs, i + 1);
      assert segs[..i + 1] == segs[..i] + [segs[i]];
      WalkSnoc(v, segs[..i], segs[i]);
    }
  }

  lemma {:induction false} LinksAsk(ps: Declarations, ctx: Context, segs: seq<string>, i: nat)
    requires AdmitsSpec(ps, ctx.spec) && Resolve(ps, segs).Some? && i < |segs|
    requires Walk(Dict(ctx.spec), segs[..i]).Some?
    ensures EvalAll(Links(segs, i), ctx) == Ok(Bool(Walk(Dict(ctx.spec), segs).Some?))
    decreases |segs| - i
  {
    LinkAsks(ps, ctx, segs, i);
    assert segs[..|segs|] == segs;
    assert Links(segs, i)[1..] == Links(segs, i + 1);
    if Walk(Dict(ctx.spec), segs[..i + 1]).Some? {
      if i + 1 < |segs| {
        LinksAsk(ps, ctx, segs, i + 1);
      }
    } else if Walk(Dict(ctx.spec), segs).Some? {
      WalkShorter(Dict(ctx.spec), segs, i + 1);
    }
  }

  lemma {:induction false} RequiredPresent(ps: Declarations, spec: map<string, Value>, segs: seq<string>, i: nat)
    requires AdmitsSpec(ps, spec) && Resolve(ps, segs).Some?
    requires i <= |segs| && forall j :: 0 <= j < i ==> AlwaysSet(Resolve(ps, segs).value[j])
    ensures Walk(Dict(spec), segs[..i]).Some?
    decreases i
  {
    if i > 0 {
      RequiredPresent(ps, spec, segs, i - 1);
      WalkAdmitted(ps, spec, segs, i);
    }
  }

  /** A guard asks whether the whole reference is there. */
  lemma GuardAsks(ps: Declarations, ctx: Context, segs: seq<string>)
    requires AdmitsSpec(ps, ctx.spec) && Resolve(ps, segs).Some?
    ensures var g := GuardOf(segs, Resolve(ps, segs).value);
            if g.None? then Walk(Dict(ctx.spec), segs).Some?
            else Eval(g.value, ctx) == Ok(Bool(Walk(Dict(ctx.spec), segs).Some?))
  {
    var first := FirstOptional(Resolve(ps, segs).value);
    assert segs[..|segs|] == segs;
    RequiredPresent(ps, ctx.spec, segs, first);
    if first < |segs| {
      LinksAsk(ps, ctx, segs, first);
      LinkAsks(ps, ctx, segs, first);
    }
  }

  /** The guard of a declared reference never fails on an admitted spec, and it
      holds exactly when the reference can be dereferenced; a reference without
      a guard can always be. What it then yields has the declared type. */
  lemma GuardExact(ps: Declarations, ctx: Context, segs: seq<string>)
    requires AdmitsSpec(ps, ctx.spec) && Resolve(ps, segs).Some?
    ensures var g, chain, e := GuardOf(segs, Resolve(ps, segs).value), Resolve(ps, segs).value, Deref(Root(), segs);
            && (g.None? ==> Eval(e, ctx).Ok?)
            && (g.Some? ==> Decides(g.value, ctx) && (Holds(g.value, ctx) <==> Eval(e, ctx).Ok?))
            && (Eval(e, ctx).Ok? <==> Walk(Dict(ctx.spec), segs).Some?)
            && (Eval(e, ctx).Ok? ==> Admits(chain[|segs| - 1], Eval(e, ctx).value))
  {
    GuardAsks(ps, ctx, segs);
    DerefWalks(Root(), Dict(ctx.spec), segs, ctx);
    assert segs[..|segs|] == segs;
    WalkAdmitted(ps, ctx.spec, segs, |segs|);
  }
}
