/** Expanding the patches of an adopted composition (internal/adopt/adopt.go:3125-3434). */
module Patches {
  import opened Template
  import opened Text
  import opened Refs
  import opened Params
  import opened Blueprint
  import opened Declare
  import opened FieldPaths
  import opened Rewrite

  /** An entry of a patch list; one that is no mapping is skipped. */
  datatype Patch =
    | NoMapping
    | Patch(typ: string, from: string, to: string, patchSet: string, transforms: bool)

  type Table = map<string, seq<Patch>>

  datatype Loss = Transforms | SetMissing(name: string) | SetCircular(name: string) | Unsupported(from: string,
      to: string)

  /** What adoption builds up: the resource's wires, the declarations they need
      and the losses reported. */
  datatype State = State(
    params: Declarations,
    env: map<string, string>,
    fields: FieldMap,
    envelope: FieldMap,
    annotations: FieldMap,
    losses: seq<Loss>)

  /** What adoption knows of the resource besides: whether it is native, which
      field paths other resources set, and how quoted brackets in a path are
      rewritten, which rests on a pattern. */
  datatype Rules = Rules(native: bool, known: set<string>, plain: string -> string)

  datatype Surface = OnFields | OnEnvelope | OnAnnotations

  /** A leaf patch is turned into a wire, or lost. */
  datatype Effect =
    | WireParam(surface: Surface, key: string, param: string, typ: string)
    | WireEnv(surface: Surface, key: string, envKey: string)
    | DeclareOnly(envKey: string)
    | Lost

  const SPEC: string := "spec."
  const SPEC_PARAMETERS: string := "spec.parameters."
  const FOR_PROVIDER: string := "spec.forProvider."
  const INIT_PROVIDER: string := "spec.initProvider"
  const TAGS: string := "tags"
  const ANNOTATIONS: string := "metadata.annotations"
  const META_PREFIX: string := "metadata."

  predicate Reserved(name: string) {
    Split(name, '.')[0] in {
      "claimRef", "resourceRefs", "resourceRef", "compositionRef", "compositionSelector", "compositionRevisionRef",
      "compositionRevisionSelector", "compositionUpdatePolicy", "writeConnectionSecretToRef",
          "publishConnectionDetailsTo"}
  }

  predicate ParamIdentifier(name: string) {
    forall p :: p in Split(name, '.') ==> ParamName(p)
  }

  predicate FlatIdentifier(name: string) {
    '.' !in name && ParamName(name)
  }

  /** The parameter a fromFieldPath names, if it is one. */
  function FromParam(from: string): Option<string> {
    if SPEC_PARAMETERS <= from then Some(from[|SPEC_PARAMETERS|..])
    else if SPEC <= from then Some(from[|SPEC|..])
    else None
  }

  predicate OnTags(to: string) {
    to == TAGS || TAGS + "." <= to || TAGS + "[" <= to
  }

  predicate OnInit(to: string) {
    to == INIT_PROVIDER || INIT_PROVIDER + "." <= to
  }

  predicate OnAnnotation(to: string) {
    ANNOTATIONS + "." <= to || ANNOTATIONS + "[" <= to
  }

  /** The key behind `metadata.annotations.`, or in brackets and perhaps quoted. */
  function AnnotationKey(to: string): string {
    if ANNOTATIONS + "[" <= to then
      var key := to[|ANNOTATIONS| + 1..];
      TrimQuotes(if EndsWith(key, "]") then key[..|key| - 1] else key)
    else if ANNOTATIONS + "." <= to then to[|ANNOTATIONS| + 1..]
    else to
  }

  /** isWholeObjectParamForFields: the name leads to an object with members, or
      to an object where the target is no map. */
  predicate WholeObject(s: State, rules: Rules, name: string, target: string) {
    var p := MemberAt(s.params, Split(name, '.'));
    && name != "" && p.Some?
    && (p.value.properties != map[]
        || (p.value.typ == "object" && !(target != "" && MapTarget(target, s.fields.Keys + rules.known))))
  }

  /** The checks in front of a field wire; strict ones also want a target and no
      reserved name. */
  function FieldWire(s: State, rules: Rules, name: Option<string>, target: string, strict: bool): Effect {
    if name.None? then Lost
    else if !Reserved(name.value) && WholeObject(s, rules, name.value, target) then Lost
    else if name.value != "" && ParamIdentifier(name.value) && (strict ==> target != "" && !Reserved(name.value)) then
      WireParam(OnFields, target, name.value, if MapField(target) then "object" else "string")
    else Lost
  }

  /** FromCompositeFieldPath, branch by branch over the target path. */
  function DecideComposite(s: State, rules: Rules, from: string, to: string): Effect {
    var name := FromParam(from);
    if FOR_PROVIDER <= to then FieldWire(s, rules, name, Normal(rules.plain, to[|FOR_PROVIDER|..]), true)
    else if !rules.native && OnTags(to) then FieldWire(s, rules, name, Normal(rules.plain, to), true)
    else if OnInit(to) then Lost
    else if SPEC <= to then
      if rules.native then FieldWire(s, rules, name, Normal(rules.plain, to), true)
      else
        var target := Normal(rules.plain, to[|SPEC|..]);
        if !EnvelopeKey(target) || name.None? then Lost
        else if !Reserved(name.value) && WholeObject(s, rules, name.value, target) then Lost
        else if name.value != "" && ParamIdentifier(name.value) then WireParam(OnEnvelope, target, name.value, "string")
        else Lost
    else if OnAnnotation(to) then
      var key := AnnotationKey(to);
      if name.None? then Lost
      else if !Reserved(name.value) && WholeObject(s, rules, name.value, key) then Lost
      else if name.value != "" && key != "" && ParamIdentifier(name.value) then
          WireParam(OnAnnotations, key, name.value, "string")
      else Lost
    else if META_PREFIX <= to then
      if !rules.native then Lost else FieldWire(s, rules, name, Normal(rules.plain, to), false)
    else if rules.native then FieldWire(s, rules, name, Normal(rules.plain, to), true)
    else Lost
  }

  function EnvWire(surface: Surface, key: string, envKey: string): Effect {
    if key != "" then WireEnv(surface, key, envKey) else DeclareOnly(envKey)
  }

  /** FromEnvironmentFieldPath: the key is declared before the target is looked at. */
  function DecideEnvironment(rules: Rules, from: string, to: string): Effect {
    if from == "" || !FlatIdentifier(from) then Lost
    else if FOR_PROVIDER <= to then EnvWire(OnFields, Normal(rules.plain, to[|FOR_PROVIDER|..]), from)
    else if !rules.native && OnTags(to) then EnvWire(OnFields, Normal(rules.plain, to), from)
    else if OnInit(to) then DeclareOnly(from)
    else if SPEC <= to then
      if rules.native then EnvWire(OnFields, Normal(rules.plain, to), from)
      else
        var target := Normal(rules.plain, to[|SPEC|..]);
        if target != "" && EnvelopeKey(target) then WireEnv(OnEnvelope, target, from) else DeclareOnly(from)
    else if OnAnnotation(to) then EnvWire(OnAnnotations, AnnotationKey(to), from)
    else if META_PREFIX <= to then
      if !rules.native then DeclareOnly(from) else WireEnv(OnFields, Normal(rules.plain, to), from)
    else if rules.native then EnvWire(OnFields, Normal(rules.plain, to), from)
    else DeclareOnly(from)
  }

  function Decide(s: State, rules: Rules, p: Patch): Effect
    requires p.Patch?
  {
    if p.typ == "FromCompositeFieldPath" || p.typ == "" then DecideComposite(s, rules, p.from, p.to)
    else if p.typ == "FromEnvironmentFieldPath" then DecideEnvironment(rules, p.from, p.to)
    else Lost
  }

  function Wired(from: string): Field {
    Field(from, "", "", "")
  }

  function Put(s: State, surface: Surface, key: string, f: Field): State {
    match surface
    case OnFields => s.(fields := s.fields[key := f])
    case OnEnvelope => s.(envelope := s.envelope[key := f])
    case OnAnnotations => s.(annotations := s.annotations[key := f])
  }

  /** ensureEnvDeclared: a new key is a string, and so is an old one of any type
      once it is widened by a string. */
  function EnvDeclared(s: State, key: string): State {
    s.(env := s.env[key := "string"])
  }

  function LoseOne(s: State, l: Loss): State {
    s.(losses := s.losses + [l])
  }

  function LeafApplied(s: State, rules: Rules, p: Patch): State
    requires p.Patch?
  {
    Performed(s, rules, p, Decide(s, rules, p))
  }

  function Performed(s: State, rules: Rules, p: Patch, effect: Effect): State
    requires p.Patch?
  {
    match effect
    case WireParam(surface, key, param, typ) =>
      var t := Put(s, surface, key, Wired(PARAMS + param));
      t.(params := WithPath(t.params, Split(param, '.'), typ))
    case WireEnv(surface, key, envKey) => Put(EnvDeclared(s, envKey), surface, key, Wired(ENV + envKey))
    case DeclareOnly(envKey) => LoseOne(EnvDeclared(s, envKey), Unsupported(p.from, p.to))
    case Lost => LoseOne(s, Unsupported(p.from, p.to))
  }

  // ----- what a patch expands to -----

  datatype Item = Leaf(patch: Patch) | Gone(loss: Loss)

  function Reached(table: Table, p: Patch, visited: set<string>): seq<Item>
    decreases |table.Keys - visited|, 0
  {
    if p.NoMapping? then []
    else
      (if p.transforms then [Gone(Transforms)] else [])
      + if p.typ != "PatchSet" then [Leaf(p)]
        else if p.patchSet !in table then [Gone(SetMissing(p.patchSet))]
        else if p.patchSet in visited then [Gone(SetCircular(p.patchSet))]
        else
          OneFewer(table, p.patchSet, visited);
          ReachedAll(table, table[p.patchSet], visited + {p.patchSet})
  }

  function ReachedAll(table: Table, ps: seq<Patch>, visited: set<string>): seq<Item>
    decreases |table.Keys - visited|, |ps| + 1
  {
    if ps == [] then [] else ReachedAll(table, ps[..|ps| - 1], visited) + Reached(table, ps[|ps| - 1], visited)
  }

  /** Entering a patch set leaves fewer sets to enter. */
  lemma OneFewer(table: Table, name: string, visited: set<string>)
    requires name in table && name !in visited
    ensures |table.Keys - (visited + {name})| < |table.Keys - visited|
  {
    var before, after := table.Keys - visited, table.Keys - (visited + {name});
    assert before == after + {name} && name !in after;
  }

  function ItemApplied(s: State, rules: Rules, item: Item): State {
    match item
    case Leaf(p) => if p.Patch? then LeafApplied(s, rules, p) else s
    case Gone(l) => LoseOne(s, l)
  }

  function AllApplied(s: State, rules: Rules, items: seq<Item>): State {
    if items == [] then s else ItemApplied(AllApplied(s, rules, items[..|items| - 1]), rules, items[|items| - 1])
  }

  lemma {:induction false} AppliedTwo(s: State, rules: Rules, a: seq<Item>, b: seq<Item>)
    ensures AllApplied(s, rules, a + b) == AllApplied(AllApplied(s, rules, a), rules, b)
    decreases |b|
  {
    if b == [] {
      assert a + b == a;
    } else {
      var init := b[..|b| - 1];
      assert (a + b)[..|a + b| - 1] == a + init && (a + b)[|a + b| - 1] == b[|b| - 1];
      AppliedTwo(s, rules, a, init);
    }
  }

  lemma AppliedOne(s: State, rules: Rules, item: Item)
    ensures AllApplied(s, rules, [item]) == ItemApplied(s, rules, item)
  {
    assert [item][..0] == [];
    assert AllApplied(s, rules, []) == s;
  }

  // ----- the expansion as it runs -----

  class Adoption {
    const table: Table
    const rules: Rules
    var state: State
    var visited: set<string>

    constructor (table: Table, rules: Rules, state: State)
      ensures this.table == table && this.rules == rules && this.state == state && visited == {}
    {
      this.table, this.rules, this.state, visited := table, rules, state, {};
    }

    method Record(l: Loss)
      modifies this`state
      ensures state == LoseOne(old(state), l)
    {
      state := state.(losses := state.losses + [l]);
    }

    method ApplyLeaf(p: Patch)
      requires p.Patch?
      modifies this`state
      ensures state == LeafApplied(old(state), rules, p)
    {
      var effect := Decide(state, rules, p);
      match effect
      case WireParam(surface, key, param, typ) =>
        state := Put(state, surface, key, Wired(PARAMS + param));
        var params := InsertParam(state.params, Split(param, '.'), typ);
        state := state.(params := params);
      case WireEnv(surface, key, envKey) =>
        state := EnvDeclared(state, envKey);
        state := Put(state, surface, key, Wired(ENV + envKey));
      case DeclareOnly(envKey) =>
        state := EnvDeclared(state, envKey);
        Record(Unsupported(p.from, p.to));
      case Lost =>
        Record(Unsupported(p.from, p.to));
    }

    /** applyPatch: it returns on every table, cyclic ones included, leaves
        visited as it found it, and has applied exactly what the patch reaches. */
    method ApplyPatch(p: Patch)
      modifies this`state, this`visited
      ensures visited == old(visited)
      ensures state == AllApplied(old(state), rules, Reached(table, p, old(visited)))
      decreases |table.Keys - visited|, 1
    {
      if p.NoMapping? {
        return;
      }
      ghost var head := if p.transforms then [Gone(Transforms)] else [];
      if p.transforms {
        Record(Transforms);
        AppliedOne(old(state), rules, Gone(Transforms));
      }
      assert state == AllApplied(old(state), rules, head);
      if p.typ == "PatchSet" {
        ApplySet(p.patchSet);
        AppliedTwo(old(state), rules, head, SetReached(table, p.patchSet, visited));
      } else {
        AppliedOne(state, rules, Leaf(p));
        AppliedTwo(old(state), rules, head, [Leaf(p)]);
        ApplyLeaf(p);
      }
    }

    method ApplySet(name: string)
      modifies this`state, this`visited
      ensures visited == old(visited)
      ensures state == AllApplied(old(state), rules, SetReached(table, name, old(visited)))
      decreases |table.Keys - visited|, 0
    {
      if name !in table {
        AppliedOne(state, rules, Gone(SetMissing(name)));
        Record(SetMissing(name));
        return;
      }
      if name in visited {
        AppliedOne(state, rules, Gone(SetCircular(name)));
        Record(SetCircular(name));
        return;
      }
      OneFewer(table, name, visited);
      ghost var start, before := state, visited;
      visited := visited + {name};
      var i := 0;
      while i < |table[name]|
        invariant 0 <= i <= |table[name]| && visited == before + {name}
        invariant state == AllApplied(start, rules, ReachedAll(table, table[name][..i], visited))
      {
        ApplyPatch(table[name][i]);
        ReachedNext(table, table[name], i, visited);
        AppliedTwo(start, rules, ReachedAll(table, table[name][..i], visited), Reached(table, table[name][i], visited));
        i := i + 1;
      }
      assert table[name][..i] == table[name];
      visited := visited - {name};
    }
  }

  function SetReached(table: Table, name: string, visited: set<string>): seq<Item> {
    if name !in table then [Gone(SetMissing(name))]
    else if name in visited then [Gone(SetCircular(name))]
    else ReachedAll(table, table[name], visited + {name})
  }

  lemma ReachedNext(table: Table, ps: seq<Patch>, i: nat, visited: set<string>)
    requires i < |ps|
    ensures ReachedAll(table, ps[..i + 1], visited) == ReachedAll(table, ps[..i], visited)
            + Reached(table, ps[i], visited)
  {
    assert ps[..i + 1][..i] == ps[..i];
  }

  // ----- every leaf is accounted for -----

  /** One wire was put somewhere; only declarations may have grown besides. */
  ghost predicate WritesOne(s: State, t: State) {
    exists surface, key, f :: t == Put(s, surface, key, f).(params := t.params, env := t.env)
  }

  ghost predicate LosesOne(s: State, t: State) {
    exists l :: t == LoseOne(s, l).(env := t.env)
  }

  /** Whatever a patch reaches either writes one wire and reports nothing, or
      reports one loss and writes nothing. */
  lemma Accounted(s: State, rules: Rules, item: Item)
    requires item.Leaf? ==> item.patch.Patch?
    ensures var t := ItemApplied(s, rules, item); (WritesOne(s, t) && t.losses == s.losses) || LosesOne(s, t)
  {
    if item.Leaf? {
      var effect := Decide(s, rules, item.patch);
      if effect.WireParam? || effect.WireEnv? {
        EffectWrites(s, rules, item.patch, effect);
      } else {
        EffectLoses(s, rules, item.patch, effect);
      }
    } else {
      Reported(s, ItemApplied(s, rules, item), item.loss);
    }
  }

  lemma Written(s: State, t: State, surface: Surface, key: string, f: Field)
    requires t == Put(s, surface, key, f).(params := t.params, env := t.env)
    ensures WritesOne(s, t) && t.losses == s.losses
  {
  }

  lemma Reported(s: State, t: State, l: Loss)
    requires t == LoseOne(s, l).(env := t.env)
    ensures LosesOne(s, t)
  {
  }

  lemma PutLater(s: State, surface: Surface, key: string, f: Field, params: Declarations, env: map<string, string>)
    ensures Put(s.(env := env), surface, key, f) == Put(s, surface, key, f).(env := env)
    ensures var t := Put(s, surface, key, f).(params := params, env := env); WritesOne(s, t) && t.losses == s.losses
  {
    var t := Put(s, surface, key, f).(params := params, env := env);
    Written(s, t, surface, key, f);
  }

  lemma EffectWrites(s: State, rules: Rules, p: Patch, effect: Effect)
    requires p.Patch? && (effect.WireParam? || effect.WireEnv?)
    ensures WritesOne(s, Performed(s, rules, p, effect)) && Performed(s, rules, p, effect).losses == s.losses
  {
    if effect.WireParam? {
      var t := Put(s, effect.surface, effect.key, Wired(PARAMS + effect.param));
      PutLater(s, effect.surface, effect.key, Wired(PARAMS + effect.param),
          WithPath(t.params, Split(effect.param, '.'), effect.typ), t.env);
    } else {
      PutLater(s, effect.surface, effect.key, Wired(ENV + effect.envKey), s.params,
          EnvDeclared(s, effect.envKey).env);
    }
  }

  lemma EffectLoses(s: State, rules: Rules, p: Patch, effect: Effect)
    requires p.Patch? && (effect.DeclareOnly? || effect.Lost?)
    ensures LosesOne(s, Performed(s, rules, p, effect))
  {
    Reported(s, Performed(s, rules, p, effect), Unsupported(p.from, p.to));
  }

  lemma {:induction false} LeavesArePatches(table: Table, p: Patch, visited: set<string>)
    ensures forall item :: item in Reached(table, p, visited) && item.Leaf? ==> item.patch.Patch?
    decreases |table.Keys - visited|, 0
  {
    if p.Patch? && p.typ == "PatchSet" && p.patchSet in table && p.patchSet !in visited {
      OneFewer(table, p.patchSet, visited);
      AllArePatches(table, table[p.patchSet], visited + {p.patchSet});
    }
  }

  lemma {:induction false} AllArePatches(table: Table, ps: seq<Patch>, visited: set<string>)
    ensures forall item :: item in ReachedAll(table, ps, visited) && item.Leaf? ==> item.patch.Patch?
    decreases |table.Keys - visited|, |ps| + 1
  {
    if ps != [] {
      AllArePatches(table, ps[..|ps| - 1], visited);
      LeavesArePatches(table, ps[|ps| - 1], visited);
    }
  }

  // ----- every wire resolves -----

  predicate WireResolves(ps: Declarations, env: map<string, string>, s: string) {
    && (PARAMS <= s ==> Resolve(ps, Split(s[|PARAMS|..], '.')).Some?)
    && (ENV <= s ==> s[|ENV|..] in env)
  }

  predicate MapResolves(ps: Declarations, env: map<string, string>, m: FieldMap) {
    forall k :: k in m ==> WireResolves(ps, env, m[k].from)
  }

  predicate Resolving(s: State) {
    MapResolves(s.params, s.env, s.fields) && MapResolves(s.params, s.env, s.envelope)
        && MapResolves(s.params, s.env, s.annotations)
  }

  lemma MapGrows(ps: Declarations, env: map<string, string>, m: FieldMap, parts: seq<string>, typ: string,
      env2: map<string, string>)
    requires MapResolves(ps, env, m) && parts != [] && env.Keys <= env2.Keys
    ensures MapResolves(WithPath(ps, parts, typ), env2, m) && MapResolves(ps, env2, m)
  {
    forall k | k in m ensures WireResolves(WithPath(ps, parts, typ), env2, m[k].from)
        && WireResolves(ps, env2, m[k].from) {
      if PARAMS <= m[k].from {
        DeclaredKeeps(ps, parts, typ, Split(m[k].from[|PARAMS|..], '.'));
      }
    }
  }

  lemma ParamWireResolves(ps: Declarations, env: map<string, string>, param: string, typ: string)
    ensures WireResolves(WithPath(ps, Split(param, '.'), typ), env, PARAMS + param)
  {
    var s := PARAMS + param;
    Families(s);
    assert s[|PARAMS|..] == param;
    DeclaredResolves(ps, Split(param, '.'), typ);
  }

  lemma EnvWireResolves(ps: Declarations, env: map<string, string>, key: string)
    requires key in env
    ensures WireResolves(ps, env, ENV + key)
  {
    var s := ENV + key;
    Families(s);
    assert s[|ENV|..] == key;
  }

  lemma PutResolves(s: State, surface: Surface, key: string, f: Field)
    requires Resolving(s) && WireResolves(s.params, s.env, f.from)
    ensures Resolving(Put(s, surface, key, f))
  {
  }

  lemma ParamsGrow(s: State, parts: seq<string>, typ: string)
    requires Resolving(s) && parts != []
    ensures Resolving(s.(params := WithPath(s.params, parts, typ)))
  {
    MapGrows(s.params, s.env, s.fields, parts, typ, s.env);
    MapGrows(s.params, s.env, s.envelope, parts, typ, s.env);
    MapGrows(s.params, s.env, s.annotations, parts, typ, s.env);
  }

  lemma ParamStep(s: State, surface: Surface, key: string, param: string, typ: string)
    requires Resolving(s)
    ensures var t := Put(s, surface, key, Wired(PARAMS + param));
            Resolving(t.(params := WithPath(t.params, Split(param, '.'), typ)))
  {
    var parts := Split(param, '.');
    ParamsGrow(s, parts, typ);
    ParamWireResolves(s.params, s.env, param, typ);
    PutResolves(s.(params := WithPath(s.params, parts, typ)), surface, key, Wired(PARAMS + param));
  }

  /** Every step keeps every wire resolvable. */
  lemma StepResolves(s: State, rules: Rules, item: Item)
    requires Resolving(s) && (item.Leaf? ==> item.patch.Patch?)
    ensures Resolving(ItemApplied(s, rules, item))
  {
    if item.Leaf? {
      EffectResolves(s, rules, item.patch, Decide(s, rules, item.patch));
    }
  }

  lemma EffectResolves(s: State, rules: Rules, p: Patch, effect: Effect)
    requires Resolving(s) && p.Patch?
    ensures Resolving(Performed(s, rules, p, effect))
  {
    match effect
    case WireParam(surface, key, param, typ) =>
      ParamStep(s, surface, key, param, typ);
    case WireEnv(surface, key, envKey) =>
      var t := EnvDeclared(s, envKey);
      EnvGrows(s, t);
      EnvWireResolves(t.params, t.env, envKey);
      PutResolves(t, surface, key, Wired(ENV + envKey));
    case DeclareOnly(envKey) =>
      EnvGrows(s, EnvDeclared(s, envKey));
    case Lost =>
  }

  lemma EnvGrows(s: State, t: State)
    requires Resolving(s) && s.env.Keys <= t.env.Keys && t == s.(env := t.env)
    ensures Resolving(t)
  {
    MapGrows(s.params, s.env, s.fields, ["a"], "string", t.env);
    MapGrows(s.params, s.env, s.envelope, ["a"], "string", t.env);
    MapGrows(s.params, s.env, s.annotations, ["a"], "string", t.env);
  }

  lemma {:induction false} ItemsResolve(s: State, rules: Rules, items: seq<Item>)
    requires Resolving(s) && forall item :: item in items && item.Leaf? ==> item.patch.Patch?
    ensures Resolving(AllApplied(s, rules, items))
  {
    if items != [] {
      ItemsResolve(s, rules, items[..|items| - 1]);
      StepResolves(AllApplied(s, rules, items[..|items| - 1]), rules, items[|items| - 1]);
    }
  }

  /** However the patch sets are nested, every params. and env. wire that stands
      after a patch was applied resolves. */
  lemma PatchResolves(s: State, table: Table, rules: Rules, p: Patch, visited: set<string>)
    requires Resolving(s)
    ensures Resolving(AllApplied(s, rules, Reached(table, p, visited)))
  {
    LeavesArePatches(table, p, visited);
    ItemsResolve(s, rules, Reached(table, p, visited));
  }
}
