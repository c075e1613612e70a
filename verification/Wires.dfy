/** What one reference becomes in the template: the expression that reads it,
    the guard around it, the condition of `when` and the bound of `forEach`
    (internal/emit/composition.go, internal/emit/yaml.go). */
module Wires {
  import opened Seqs
  import opened Template
  import opened Text
  import opened Numbers
  import opened Refs
  import opened Params
  import opened Blueprint
  import opened Rewrite

  // ----- observed status -----

  function StatusPath(name: string, path: seq<string>): seq<string> {
    ["resources", name, "resource", "status"] + path
  }

  function StatusGuard(name: string, path: seq<string>): Expr
    requires path != []
  {
    HasKey(Dig(StatusPath(name, path[..|path| - 1]), Ref(ObservedVar)), path[|path| - 1])
  }

  function StatusBase(name: string): Expr {
    Member(Member(Lookup(Member(Ref(ObservedVar), "resources"), name), "resource"), "status")
  }

  function StatusExpr(name: string, path: seq<string>): Expr {
    Deref(StatusBase(name), path)
  }

  /** statusGuard: both are put together segment by segment. */
  method BuildStatusGuard(name: string, segs: seq<string>) returns (guard: Expr, expr: Expr)
    requires segs != []
    ensures guard == StatusGuard(name, segs) && expr == StatusExpr(name, segs)
  {
    var digKeys := ["resources", name, "resource", "status"];
    var last := |segs| - 1;
    for i := 0 to last
      invariant digKeys == StatusPath(name, segs[..i])
    {
      digKeys := digKeys + [segs[i]];
      assert segs[..i + 1] == segs[..i] + [segs[i]];
    }
    guard := HasKey(Dig(digKeys, Ref(ObservedVar)), segs[last]);
    expr := Member(Member(Lookup(Member(Ref(ObservedVar), "resources"), name), "resource"), "status");
    for i := 0 to |segs|
      invariant expr == StatusExpr(name, segs[..i])
    {
      expr := Member(expr, segs[i]);
      assert segs[..i + 1][..i] == segs[..i];
    }
    assert segs[..|segs|] == segs;
  }

  /** Every value met on the way to the last key is a map. */
  predicate MapsAlong(v: Value, path: seq<string>) {
    path == [] || (v.Dict? && (path[0] in v.fields ==> MapsAlong(v.fields[path[0]], path[1..])))
  }

  lemma {:induction false} DigWalks(v: Value, path: seq<string>, leaf: string)
    requires MapsAlong(v, path + [leaf])
    ensures DigIn(v, path) == Ok(if Walk(v, path).Some? then Walk(v, path).value else Dict(map[]))
    ensures Walk(v, path).Some? ==> Walk(v, path).value.Dict?
    decreases path
  {
    if path == [] {
      assert [] + [leaf] == [leaf];
    } else {
      assert (path + [leaf])[0] == path[0] && (path + [leaf])[1..] == path[1..] + [leaf];
      if path[0] in v.fields {
        DigWalks(v.fields[path[0]], path[1..], leaf);
      }
    }
  }

  /** Digging fails, or ends where no key can be asked for, exactly where
      something on the way is no map. */
  lemma {:induction false} DigDecides(v: Value, path: seq<string>, leaf: string)
    ensures DigIn(v, path).Ok? && DigIn(v, path).value.Dict? <==> MapsAlong(v, path + [leaf])
    decreases path
  {
    if path == [] {
      assert [] + [leaf] == [leaf];
    } else {
      assert (path + [leaf])[0] == path[0] && (path + [leaf])[1..] == path[1..] + [leaf];
      if v.Dict? && path[0] in v.fields {
        DigDecides(v.fields[path[0]], path[1..], leaf);
      }
    }
  }

  lemma {:induction false} WalkTwo(v: Value, a: seq<string>, b: seq<string>)
    ensures Walk(v, a + b) == if Walk(v, a).Some? then Walk(Walk(v, a).value, b) else None
  {
    if a == [] {
      assert a + b == b;
    } else {
      assert (a + b)[0] == a[0] && (a + b)[1..] == a[1..] + b;
      if v.Dict? && a[0] in v.fields {
        WalkTwo(v.fields[a[0]], a[1..], b);
      }
    }
  }

  lemma StatusBaseReads(ctx: Context, name: string)
    requires Walk(Dict(ctx.observed), ["resources", name, "resource", "status"]).Some?
    ensures Eval(StatusBase(name), ctx) == Ok(Walk(Dict(ctx.observed), ["resources", name, "resource", "status"]).value)
  {
    var p := ["resources", name, "resource", "status"];
    assert p[1..] == [name, "resource", "status"];
    var v1 := ctx.observed["resources"];
    assert Walk(v1, [name, "resource", "status"]) == Walk(Dict(ctx.observed), p);
    assert [name, "resource", "status"][1..] == ["resource", "status"];
    var v2 := v1.fields[name];
    assert Walk(v2, ["resource", "status"]) == Walk(Dict(ctx.observed), p);
    assert ["resource", "status"][1..] == ["status"];
    var v3 := v2.fields["resource"];
    assert Walk(v3, ["status"]) == Walk(Dict(ctx.observed), p);
    assert ["status"][1..] == [];
    assert Eval(Member(Ref(ObservedVar), "resources"), ctx) == Ok(v1);
    assert Eval(Lookup(Member(Ref(ObservedVar), "resources"), name), ctx) == Ok(v2);
  }

  /** The guard evaluates without failing exactly when everything observed on
      the way is a map: dig does not skip a scalar. */
  lemma StatusDecidesIff(ctx: Context, name: string, path: seq<string>)
    requires path != []
    ensures Decides(StatusGuard(name, path), ctx) <==> MapsAlong(Dict(ctx.observed), StatusPath(name, path))
  {
    var before, leaf := StatusPath(name, path[..|path| - 1]), path[|path| - 1];
    assert path == path[..|path| - 1] + [leaf];
    assert StatusPath(name, path) == before + [leaf];
    assert Eval(Ref(ObservedVar), ctx) == Ok(Dict(ctx.observed));
    assert Eval(Dig(before, Ref(ObservedVar)), ctx) == DigIn(Dict(ctx.observed), before);
    DigDecides(Dict(ctx.observed), before, leaf);
  }

  function StringStatus(): Value {
    Dict(map["x" := Str("text")])
  }

  /** An observed status with a string where the wire goes on below it. */
  lemma ScalarOnTheWay(ctx: Context)
    requires ctx.observed ==
             map["resources" := Dict(map["a" := Dict(map["resource" := Dict(map["status" := StringStatus()])])])]
    ensures !Decides(StatusGuard("a", ["x", "y"]), ctx)
  {
    var path := StatusPath("a", ["x", "y"]);
    var status := StringStatus();
    assert path == ["resources", "a", "resource", "status", "x", "y"];
    assert path[1..] == ["a", "resource", "status", "x", "y"] && path[1..][1..] == ["resource", "status", "x", "y"];
    assert path[1..][1..][1..] == ["status", "x", "y"] && path[1..][1..][1..][1..] == ["x", "y"];
    assert ["x", "y"][1..] == ["y"] && !MapsAlong(Str("text"), ["y"]);
    assert !MapsAlong(status, ["x", "y"]);
    assert !MapsAlong(Dict(map["status" := status]), ["status", "x", "y"]);
    assert !MapsAlong(Dict(map["resource" := Dict(map["status" := status])]), ["resource", "status", "x", "y"]);
    StatusDecidesIff(ctx, "a", ["x", "y"]);
  }

  /** The guard never fails while what is observed on the way are maps; it holds
      exactly when the status carries the value, and then the value is read. */
  lemma StatusExact(ctx: Context, name: string, path: seq<string>)
    requires path != [] && MapsAlong(Dict(ctx.observed), StatusPath(name, path))
    ensures Eval(StatusGuard(name, path), ctx) == Ok(Bool(Walk(Dict(ctx.observed), StatusPath(name, path)).Some?))
    ensures Walk(Dict(ctx.observed), StatusPath(name, path)).Some? ==>
              Eval(StatusExpr(name, path), ctx) == Ok(Walk(Dict(ctx.observed), StatusPath(name, path)).value)
  {
    var before, leaf := StatusPath(name, path[..|path| - 1]), path[|path| - 1];
    assert path == path[..|path| - 1] + [leaf];
    assert StatusPath(name, path) == before + [leaf];
    assert Eval(Ref(ObservedVar), ctx) == Ok(Dict(ctx.observed));
    assert Eval(Dig(before, Ref(ObservedVar)), ctx) == DigIn(Dict(ctx.observed), before);
    DigWalks(Dict(ctx.observed), before, leaf);
    WalkSnoc(Dict(ctx.observed), before, leaf);
    WalkTwo(Dict(ctx.observed), ["resources", name, "resource", "status"], path);
    if Walk(Dict(ctx.observed), StatusPath(name, path)).Some? {
      StatusBaseReads(ctx, name);
      DerefWalks(StatusBase(name), Walk(Dict(ctx.observed), ["resources", name, "resource", "status"]).value, path,
          ctx);
    }
  }

  // ----- the environment -----

  function Env(): Expr {
    Ref(EnvVar)
  }

  /** A decimal text pasted into the template. */
  function NumberExpr(s: string, number: string -> real): Expr {
    var c := Constant(s, number);
    if c.Some? then Const(Num(c.value)) else Word(s)
  }

  /** envDefaultExpr and its default-free counterpart. */
  function EnvExpr(key: string, decl: EnvironmentKey, number: string -> real): Expr {
    if decl.default == "" then Member(Env(), key)
    else if decl.typ == "boolean" then Ternary(Lookup(Env(), key), Word(decl.default), HasKey(Env(), key))
    else if decl.typ == "integer" || decl.typ == "number" then
      Ternary(Lookup(Env(), key), NumberExpr(decl.default, number), HasKey(Env(), key))
    else OrElse(Lookup(Env(), key), Str(decl.default))
  }

  function EnvGuard(key: string, decl: EnvironmentKey): Option<Expr> {
    if decl.default == "" then Some(HasKey(Env(), key)) else None
  }

  predicate Typed(typ: string, v: Value) {
    match typ
    case "string" => v.Str?
    case "boolean" => v.Bool?
    case "integer" => v.Num?
    case "number" => v.Num?
    case _ => false
  }

  predicate EnvAdmits(env: map<string, EnvironmentKey>, values: map<string, Value>) {
    forall k :: k in env && k in values ==> Typed(env[k].typ, values[k])
  }

  function DefaultValue(decl: EnvironmentKey, number: string -> real): Value {
    match decl.typ
    case "boolean" => Bool(decl.default == "true")
    case "string" => Str(decl.default)
    case _ => Num(if Constant(decl.default, number).Some? then Constant(decl.default, number).value else 0.0)
  }

  /** What an environment key yields; an empty string counts as absent when
      there is a default. */
  function EnvValue(key: string, decl: EnvironmentKey, ctx: Context, number: string -> real): Option<Value> {
    if key in ctx.env && !(decl.typ == "string" && decl.default != "" && ctx.env[key] == Str("")) then
        Some(ctx.env[key])
    else if decl.default != "" then Some(DefaultValue(decl, number))
    else None
  }

  predicate Numeric(typ: string) {
    typ == "integer" || typ == "number"
  }

  /** A default is pasted into the template as it is written, so it must be a
      constant there: a boolean in lower case, a number the engine accepts. */
  predicate DefaultPrints(decl: EnvironmentKey) {
    && (decl.typ == "boolean" ==> decl.default in {"", "true", "false"})
    && (Numeric(decl.typ) && decl.default != "" ==> Marked(decl.default) || TemplateInt(decl.default).Some?)
  }

  predicate DefaultsPrint(d: Document) {
    forall k :: k in d.environment ==> DefaultPrints(d.environment[k])
  }

  /** `ternary (index $env key) other (hasKey $env key)`. */
  lemma TernaryReads(key: string, other: Expr, fallback: Value, ctx: Context)
    requires Eval(other, ctx) == Ok(fallback)
    ensures Eval(Ternary(Lookup(Env(), key), other, HasKey(Env(), key)), ctx) ==
            Ok(if key in ctx.env then ctx.env[key] else fallback)
  {
    assert Eval(Env(), ctx) == Ok(Dict(ctx.env));
  }

  lemma DefaultReads(decl: EnvironmentKey, key: string, ctx: Context, number: string -> real)
    requires decl.default != "" && DefaultPrints(decl) && (Numeric(decl.typ) || decl.typ == "boolean")
    ensures Eval(EnvExpr(key, decl, number), ctx) == Ok(if key in ctx.env then ctx.env[key]
            else DefaultValue(decl, number))
  {
    TernaryReads(key, if decl.typ == "boolean" then Word(decl.default) else NumberExpr(decl.default, number),
                 DefaultValue(decl, number), ctx);
  }

  lemma EnvExact(d: Document, key: string, ctx: Context, number: string -> real)
    requires EnvironmentOk(d) && key in d.environment && EnvAdmits(d.environment, ctx.env)
             && DefaultPrints(d.environment[key])
    ensures var decl := d.environment[key];
            var v, g := EnvValue(key, decl, ctx, number), EnvGuard(key, decl);
            && (g.None? ==> v.Some?)
            && (g.Some? ==> Eval(g.value, ctx) == Ok(Bool(v.Some?)))
            && (v.Some? ==> Eval(EnvExpr(key, decl, number), ctx) == Ok(v.value) && Typed(decl.typ, v.value))
  {
    var decl := d.environment[key];
    assert KeyOk(key, decl) && Eval(Env(), ctx) == Ok(Dict(ctx.env));
    if decl.default != "" && decl.typ != "string" {
      DefaultReads(decl, key, ctx, number);
    }
  }

  /** The validator accepts a boolean default in any case and a decimal one with
      leading zeros, but not each of them is a template constant: any other
      makes the expression fail on every composite. */
  lemma DefaultFails(d: Document, key: string, ctx: Context, number: string -> real)
    requires EnvironmentOk(d) && key in d.environment && d.environment[key].default != ""
    ensures Eval(EnvExpr(key, d.environment[key], number), ctx).Ok? <==> DefaultPrints(d.environment[key])
  {
    var decl := d.environment[key];
    assert KeyOk(key, decl) && Eval(Env(), ctx) == Ok(Dict(ctx.env));
    if Numeric(decl.typ) {
      NumberEvaluates(decl.default, ctx, number);
    }
  }

  lemma NumberEvaluates(s: string, ctx: Context, number: string -> real)
    ensures Eval(NumberExpr(s, number), ctx).Ok? <==> Marked(s) || TemplateInt(s).Some?
  {
    assert 'e' in "true" && 'e' in "false" && 'e' in ".eEpP";
  }

  lemma IntegerDigits(s: string)
    ensures ParseInt(s).Some? ==> AllDigits(Magnitude(s))
  {
  }

  /** A numeric default that is a constant yields the declared number exactly
      when its text is faithful. */
  lemma DefaultDeclared(d: Document, key: string, number: string -> real)
    requires EnvironmentOk(d) && key in d.environment && Numeric(d.environment[key].typ)
    requires d.environment[key].default != "" && DefaultPrints(d.environment[key])
    ensures var decl := d.environment[key];
            && DeclaredNumber(decl.default, number).Some?
            && (DefaultValue(decl, number) == Num(DeclaredNumber(decl.default, number).value) <==>
                Faithful(decl.default))
  {
    var decl := d.environment[key];
    assert KeyOk(key, decl);
    IntegerDigits(decl.default);
    ConstantDeclared(decl.default, number);
  }

  lemma CasedDefaultAccepted()
    ensures exists d: Document :: EnvironmentOk(d) && !DefaultsPrint(d)
  {
    var d := Document(map[], [], map["flag" := EnvironmentKey("boolean", "True")], map[], {}, []);
    assert Lower("True") == "true";
    assert Lower("flag") == "flag";
    assert Camel("flag");
    assert EnvironmentOk(d);
    assert !DefaultPrints(d.environment["flag"]);
  }

  // ----- a wire -----

  datatype Planned = Planned(expr: Expr, guard: Option<Expr>, status: bool)

  /** The expression and guard of a reference; a name reference has neither. */
  function WirePlan(d: Document, s: string, number: string -> real): Option<Planned> {
    var r := ParseFrom(s);
    if r.None? then None
    else match r.value
      case ParamOf(ref) =>
        var chain := ParamTarget(d, ref);
        if chain.None? then None
        else Some(Planned(Deref(Root(), Split(ref, '.')), GuardOf(Split(ref, '.'), chain.value), false))
      case EnvOf(key) =>
        if key !in d.environment then None
        else Some(Planned(EnvExpr(key, d.environment[key], number), EnvGuard(key, d.environment[key]), false))
      case StatusOf(name, path) =>
        if path == [] then None else Some(Planned(StatusExpr(name, path), Some(StatusGuard(name, path)), true))
      case NameOf(_) => None
  }

  /** The value a reference leads to in the composite, the environment or what
      is observed, if it is there. */
  function WireValue(d: Document, s: string, ctx: Context, number: string -> real): Option<Value> {
    var r := ParseFrom(s);
    if r.None? then None
    else match r.value
      case ParamOf(ref) => Walk(Dict(ctx.spec), Split(ref, '.'))
      case EnvOf(key) => if key in d.environment then EnvValue(key, d.environment[key], ctx, number) else None
      case StatusOf(name, path) => Walk(Dict(ctx.observed), StatusPath(name, path))
      case NameOf(_) => None
  }

  predicate Observes(ctx: Context, s: string) {
    var r := ParseFrom(s);
    r.Some? && r.value.StatusOf? ==> MapsAlong(Dict(ctx.observed), StatusPath(r.value.resource, r.value.path))
  }

  ghost predicate Admitted(d: Document, ctx: Context) {
    AdmitsSpec(d.parameters, ctx.spec) && EnvAdmits(d.environment, ctx.env)
  }

  /** Of every reference that validation lets through: without a guard the value
      is always there; a guard decides whether it is; and where it is there the
      expression reads it. */
  lemma WireExact(d: Document, s: string, ctx: Context, number: string -> real)
    requires WirePlan(d, s, number).Some? && EnvironmentOk(d) && DefaultsPrint(d) && Admitted(d, ctx)
             && Observes(ctx, s)
    ensures var p, v := WirePlan(d, s, number).value, WireValue(d, s, ctx, number);
            && (p.guard.None? ==> v.Some?)
            && (p.guard.Some? ==> Decides(p.guard.value, ctx) && (Holds(p.guard.value, ctx) <==> v.Some?))
            && (v.Some? ==> Eval(p.expr, ctx) == Ok(v.value))
  {
    match ParseFrom(s).value
    case ParamOf(ref) =>
      var segs := Split(ref, '.');
      GuardAsks(d.parameters, ctx, segs);
      DerefWalks(Root(), Dict(ctx.spec), segs, ctx);
    case EnvOf(key) =>
      EnvExact(d, key, ctx, number);
    case StatusOf(name, path) =>
      StatusExact(ctx, name, path);
    case NameOf(_) =>
  }

  // ----- when -----

  /** whenCondition. */
  function WhenCondition(d: Document, w: When, number: string -> real): Expr {
    if w.source == "env" then
      if w.name in d.environment && d.environment[w.name].default != "" then
        var e := EnvExpr(w.name, d.environment[w.name], number);
        if w.op == "" then e else if w.op == "==" then Equals(e, w.literal) else Differs(e, w.literal)
      else
        var there, e := HasKey(Env(), w.name), Member(Env(), w.name);
        if w.op == "" then And([there, e])
        else if w.op == "==" then And([there, Equals(e, w.literal)])
        else Or([Not(there), Differs(e, w.literal)])
    else
      var e := Member(Root(), w.name);
      if w.op == "" then e else if w.op == "==" then Equals(e, w.literal) else Differs(e, w.literal)
  }

  function TestedValue(d: Document, w: When, ctx: Context, number: string -> real): Option<Value> {
    if w.source == "env" then
      if w.name in d.environment then EnvValue(w.name, d.environment[w.name], ctx, number) else None
    else if w.name in ctx.spec then Some(ctx.spec[w.name])
    else None
  }

  /** What a condition says about the value it tests. An absent environment key
      is neither true nor equal to anything. */
  predicate Passes(w: When, v: Option<Value>) {
    if w.op == "" then v == Some(Bool(true))
    else if w.op == "==" then v == Some(Str(w.literal))
    else v != Some(Str(w.literal))
  }

  predicate TestOk(d: Document, w: When) {
    if w.source == "env" then
      w.name in d.environment && d.environment[w.name].typ == (if w.op == "" then "boolean" else "string")
    else TestParamOk(d.parameters, w)
  }

  lemma AndTwo(a: Expr, b: Expr, ctx: Context)
    requires Eval(a, ctx).Ok? && Eval(a, ctx).value.Bool?
    ensures Eval(And([a, b]), ctx) == if Truth(Eval(a, ctx).value) then Eval(b, ctx) else Eval(a, ctx)
    ensures Eval(Or([a, b]), ctx) == if Truth(Eval(a, ctx).value) then Eval(a, ctx) else Eval(b, ctx)
  {
    assert [a, b][1..] == [b];
    assert EvalAll([b], ctx) == Eval(b, ctx);
    assert EvalAny([b], ctx) == Eval(b, ctx);
  }

  /** The three comparisons over an expression that reads a value. */
  lemma Compared(e: Expr, literal: string, ctx: Context)
    requires Eval(e, ctx).Ok? && Eval(e, ctx).value.Str?
    ensures Eval(Equals(e, literal), ctx) == Ok(Bool(Eval(e, ctx).value == Str(literal)))
    ensures Eval(Differs(e, literal), ctx) == Ok(Bool(Eval(e, ctx).value != Str(literal)))
  {
  }

  lemma EnvTestGuarded(key: string, w: When, v: Option<Value>, ctx: Context)
    requires v == if key in ctx.env then Some(ctx.env[key]) else None
    requires v.Some? ==> if w.op == "" then v.value.Bool? else v.value.Str?
    requires w.op == "" || w.op == "==" || w.op == "!="
    ensures var there, e := HasKey(Env(), key), Member(Env(), key);
            var c := if w.op == "" then And([there, e]) else if w.op == "==" then And([there, Equals(e, w.literal)])
                else Or([Not(there), Differs(e, w.literal)]);
            Decides(c, ctx) && (Holds(c, ctx) <==> Passes(w, v))
  {
    var there, e := HasKey(Env(), key), Member(Env(), key);
    assert Eval(Env(), ctx) == Ok(Dict(ctx.env));
    assert Eval(there, ctx) == Ok(Bool(v.Some?));
    assert Eval(Not(there), ctx) == Ok(Bool(!v.Some?));
    if v.Some? {
      assert Eval(e, ctx) == Ok(v.value);
      if w.op != "" {
        Compared(e, w.literal, ctx);
      }
    }
    AndTwo(there, e, ctx);
    AndTwo(there, Equals(e, w.literal), ctx);
    AndTwo(Not(there), Differs(e, w.literal), ctx);
  }

  lemma EnvTestExact(d: Document, w: When, ctx: Context, number: string -> real)
    requires WellWhen(w) && TestOk(d, w) && w.source == "env"
    requires EnvironmentOk(d) && DefaultsPrint(d) && EnvAdmits(d.environment, ctx.env)
    ensures Decides(WhenCondition(d, w, number), ctx)
    ensures Holds(WhenCondition(d, w, number), ctx) <==> Passes(w, TestedValue(d, w, ctx, number))
  {
    EnvExact(d, w.name, ctx, number);
    var decl := d.environment[w.name];
    if decl.default == "" {
      EnvTestGuarded(w.name, w, TestedValue(d, w, ctx, number), ctx);
    } else if w.op != "" {
      Compared(EnvExpr(w.name, decl, number), w.literal, ctx);
    }
  }

  lemma ParamTestExact(d: Document, w: When, ctx: Context, number: string -> real)
    requires WellWhen(w) && TestOk(d, w) && w.source == "params" && AdmitsSpec(d.parameters, ctx.spec)
    ensures Decides(WhenCondition(d, w, number), ctx)
    ensures Holds(WhenCondition(d, w, number), ctx) <==> Passes(w, TestedValue(d, w, ctx, number))
  {
    assert w.name in ctx.spec && Admits(d.parameters[w.name], ctx.spec[w.name]);
    assert Eval(Root(), ctx) == Ok(Dict(ctx.spec));
    assert Eval(Member(Root(), w.name), ctx) == Ok(ctx.spec[w.name]);
    if w.op != "" {
      Compared(Member(Root(), w.name), w.literal, ctx);
    }
  }

  /** A validated condition decides on every admitted composite, although the
      reads of $spec carry no guard, and it holds exactly when the tested value
      passes. */
  lemma WhenExact(d: Document, r: Resource, ctx: Context, number: string -> real)
    requires EnvironmentOk(d) && DefaultsPrint(d) && WhenOk(d, r) && r.when != "" && Admitted(d, ctx)
    ensures var w := ParseWhen(r.when).value;
            && Decides(WhenCondition(d, w, number), ctx)
            && (Holds(WhenCondition(d, w, number), ctx) <==> Passes(w, TestedValue(d, w, ctx, number)))
  {
    WhenParsed(r.when);
    var w := ParseWhen(r.when).value;
    if w.source == "env" {
      EnvTestExact(d, w, ctx, number);
    } else {
      ParamTestExact(d, w, ctx, number);
    }
  }

  // ----- forEach -----

  datatype LoopHead = LoopHead(guard: Option<Expr>, bound: Expr)

  function TrimPrefix(s: string, p: string): string {
    if p <= s then s[|p|..] else s
  }

  /** The three ways writeResourceTemplate heads a range; what is neither an
      observed status nor an environment key is read off $spec. */
  function HeadOf(d: Document, s: string, number: string -> real): LoopHead {
    var r := ParseFrom(s);
    if r.Some? && r.value.StatusOf? && r.value.path != [] then
      LoopHead(Some(StatusGuard(r.value.resource, r.value.path)), StatusExpr(r.value.resource, r.value.path))
    else if ENV <= s then
      var key := s[|ENV|..];
      if key in d.environment then LoopHead(EnvGuard(key, d.environment[key]), EnvExpr(key, d.environment[key], number))
      else LoopHead(Some(HasKey(Env(), key)), Member(Env(), key))
    else LoopHead(None, Deref(Root(), Split(TrimPrefix(s, PARAMS), '.')))
  }

  /** The observed path of a loop bound does not run into the name suffix. */
  predicate LoopReads(s: string) {
    RESOURCES <= s && StatusRef(s).Some? ==> !EndsInMetaName(Split(StatusRef(s).value.1, '.'))
  }

  function LoopValue(d: Document, s: string, ctx: Context, number: string -> real): Option<Value> {
    if RESOURCES <= s then
      if StatusRef(s).Some? then Walk(Dict(ctx.observed), StatusPath(StatusRef(s).value.0,
          Split(StatusRef(s).value.1, '.'))) else None
    else if ENV <= s then
      if s[|ENV|..] in d.environment then EnvValue(s[|ENV|..], d.environment[s[|ENV|..]], ctx, number) else None
    else if PARAMS <= s && s[|PARAMS|..] in ctx.spec then Some(ctx.spec[s[|PARAMS|..]])
    else None
  }

  /** What is observed on the way to a loop bound are maps, and the bound a number. */
  predicate Counts(ctx: Context, s: string) {
    RESOURCES <= s && StatusRef(s).Some? ==>
      var p := StatusPath(StatusRef(s).value.0, Split(StatusRef(s).value.1, '.'));
      MapsAlong(Dict(ctx.observed), p) && (Walk(Dict(ctx.observed), p).Some? ==> Walk(Dict(ctx.observed), p).value.Num?)
  }

  lemma CamelIdents(path: seq<string>)
    requires forall seg :: seg in path ==> Camel(seg)
    ensures forall seg :: seg in path ==> Ident(seg)
  {
  }

  /** How a validated status bound parses under the stricter grammar of from:. */
  lemma StatusBoundParses(d: Document, r: Resource)
    requires ResourcesOk(d) && ForEachOk(d, r) && RESOURCES <= r.forEach
    ensures var (name, path) := StatusRef(r.forEach).value;
            ParseFrom(r.forEach) == if EndsInMetaName(Split(path, '.')) then None
                else Some(StatusOf(name, Split(path, '.')))
  {
    assert r.forEach != "";
    var (name, path) := StatusRef(r.forEach).value;
    DeclaredName(d, name);
    BoundParses(r.forEach, name, path);
  }

  lemma DeclaredName(d: Document, name: string)
    requires ResourcesOk(d) && IndexOf(d.resources, name) >= 0
    ensures DnsLabel(name)
  {
    var i := IndexOf(d.resources, name);
    assert d.resources[i] in d.resources && ResourceOk(d, d.resources[i]);
  }

  lemma BoundParses(s: string, name: string, path: string)
    requires StatusRef(s) == Some((name, path)) && DnsLabel(name)
             && forall seg :: seg in Split(path, '.') ==> Camel(seg)
    ensures ParseFrom(s) == if EndsInMetaName(Split(path, '.')) then None else Some(StatusOf(name, Split(path, '.')))
  {
    StatusRefWrites(s);
    JoinSplit(path, '.');
    CamelIdents(Split(path, '.'));
    StatusWritten(name, Split(path, '.'));
  }

  lemma StatusHead(d: Document, r: Resource, number: string -> real)
    requires ResourcesOk(d) && ForEachOk(d, r) && RESOURCES <= r.forEach && LoopReads(r.forEach)
    ensures var (name, path) := StatusRef(r.forEach).value;
            HeadOf(d, r.forEach, number) == LoopHead(Some(StatusGuard(name, Split(path, '.'))),
                StatusExpr(name, Split(path, '.')))
  {
    StatusBoundParses(d, r);
  }

  lemma ParamHead(d: Document, r: Resource, number: string -> real)
    requires ForEachOk(d, r) && PARAMS <= r.forEach
    ensures HeadOf(d, r.forEach, number) == LoopHead(None, Deref(Root(), [r.forEach[|PARAMS|..]]))
  {
    Families(r.forEach);
    SplitPlain(r.forEach[|PARAMS|..], '.');
  }

  lemma ParamBound(d: Document, r: Resource, ctx: Context, number: string -> real)
    requires ForEachOk(d, r) && PARAMS <= r.forEach && AdmitsSpec(d.parameters, ctx.spec)
    ensures var v := LoopValue(d, r.forEach, ctx, number);
            v.Some? && v.value.Num? && Eval(Deref(Root(), [r.forEach[|PARAMS|..]]), ctx) == Ok(v.value)
  {
    Families(r.forEach);
    var name := r.forEach[|PARAMS|..];
    assert AlwaysSet(d.parameters[name]) && name in ctx.spec && Admits(d.parameters[name], ctx.spec[name]);
    DerefWalks(Root(), Dict(ctx.spec), [name], ctx);
    assert [name][1..] == [];
    assert Walk(Dict(ctx.spec), [name]) == Some(ctx.spec[name]);
  }

  /** The bound of a validated loop: its guard decides whether the count is
      there, an unguarded one always is, and the count is a number. */
  lemma LoopExact(d: Document, r: Resource, ctx: Context, number: string -> real)
    requires EnvironmentOk(d) && ResourcesOk(d) && ForEachOk(d, r) && r.forEach != ""
    requires DefaultsPrint(d) && Admitted(d, ctx) && LoopReads(r.forEach) && Counts(ctx, r.forEach)
    ensures var h, v := HeadOf(d, r.forEach, number), LoopValue(d, r.forEach, ctx, number);
            && (h.guard.None? ==> v.Some?)
            && (h.guard.Some? ==> Decides(h.guard.value, ctx) && (Holds(h.guard.value, ctx) <==> v.Some?))
            && (v.Some? ==> Eval(h.bound, ctx) == Ok(v.value) && v.value.Num?)
  {
    var s := r.forEach;
    Families(s);
    if RESOURCES <= s {
      StatusHead(d, r, number);
      var (name, path) := StatusRef(s).value;
      StatusExact(ctx, name, Split(path, '.'));
    } else if ENV <= s {
      EnvExact(d, s[|ENV|..], ctx, number);
    } else {
      ParamHead(d, r, number);
      ParamBound(d, r, ctx, number);
    }
  }

  lemma ResourcesFirst(s: string)
    requires RESOURCES <= s
    ensures Split(s, '.')[0] == "resources"
  {
    var rest := s[|RESOURCES|..];
    assert s == "resources" + "." + rest;
    SplitHead("resources", rest, '.');
  }

  lemma Unguarded(d: Document, s: string, ctx: Context, number: string -> real)
    requires RESOURCES <= s && ParseFrom(s).None?
    ensures HeadOf(d, s, number).guard.None?
    ensures "resources" !in ctx.spec ==> Eval(HeadOf(d, s, number).bound, ctx).Fail?
  {
    Families(s);
    ResourcesFirst(s);
    DerefWalks(Root(), Dict(ctx.spec), Split(s, '.'), ctx);
  }

  /** A validated status bound is guarded exactly when its path does not end in
      metadata.name. When it does, the emitter falls through to an unguarded
      read of a parameter called resources, which fails wherever the composite
      has none. */
  lemma LoopGuardedIff(d: Document, r: Resource, ctx: Context, number: string -> real)
    requires ResourcesOk(d) && ForEachOk(d, r) && RESOURCES <= r.forEach
    ensures HeadOf(d, r.forEach, number).guard.Some? <==> LoopReads(r.forEach)
    ensures !LoopReads(r.forEach) && "resources" !in ctx.spec ==> Eval(HeadOf(d, r.forEach, number).bound, ctx).Fail?
  {
    StatusBoundParses(d, r);
    if !LoopReads(r.forEach) {
      Unguarded(d, r.forEach, ctx, number);
    }
  }
}
