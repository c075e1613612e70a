/** The pipeline a blueprint ends up with (internal/emit/pipeline.go) and the
    validation it rests on (internal/blueprint/pipeline.go). */
module Pipeline {
  import opened Seqs
  import opened Text
  import opened Blueprint
  import Names

  datatype Step = Step(name: string, fn: string, package: string, position: string, input: string)

  const TEMPLATING: string := "render-resources"
  const ENV_STEP: string := "environment-configs"
  const ENV_FN: string := "function-environment-configs"
  const ENV_PACKAGE: string := "xpkg.crossplane.io/crossplane-contrib/function-environment-configs:v0.4.0"
  const BEFORE: string := "before"
  const AFTER: string := "after"
  const AUTO_READY: Step := Step("auto-ready", "function-auto-ready",
      "xpkg.upbound.io/crossplane-contrib/function-auto-ready:v0.5.0", "", "")

  predicate StepOk(s: Step) {
    && ResourceName(s.name) && s.name != TEMPLATING
    && s.fn != "" && s.package != ""
    && s.position in {"", BEFORE, AFTER}
    && !(s.fn == ENV_FN && s.position == AFTER)
  }

  predicate UniqueSteps(steps: seq<Step>) {
    forall i, j :: 0 <= i < j < |steps| ==> steps[i].name != steps[j].name
  }

  /** One package for each function. */
  predicate PackagesAgree(steps: seq<Step>) {
    forall i, j :: 0 <= i < j < |steps| && steps[i].fn == steps[j].fn ==> steps[i].package == steps[j].package
  }

  predicate ValidPipeline(steps: seq<Step>) {
    (forall i :: 0 <= i < |steps| ==> StepOk(steps[i])) && UniqueSteps(steps) && PackagesAgree(steps)
  }

  function NamesOf(steps: seq<Step>): set<string> {
    set i | 0 <= i < |steps| :: steps[i].name
  }

  lemma NamesSnoc(steps: seq<Step>, s: Step)
    ensures NamesOf(steps + [s]) == NamesOf(steps) + {s.name}
  {
    var all := steps + [s];
    forall n ensures n in NamesOf(all) <==> n in NamesOf(steps) || n == s.name {
      if n in NamesOf(steps) {
        var i :| 0 <= i < |steps| && steps[i].name == n;
        assert all[i].name == n;
      }
      assert all[|steps|].name == s.name;
    }
  }

  lemma UniqueSnoc(steps: seq<Step>, s: Step)
    ensures UniqueSteps(steps + [s]) <==> UniqueSteps(steps) && s.name !in NamesOf(steps)
  {
    var all := steps + [s];
    if UniqueSteps(all) {
      forall i | 0 <= i < |steps| ensures steps[i].name != s.name {
        assert all[i] == steps[i] && all[|steps|] == s;
      }
      forall i, j | 0 <= i < j < |steps| ensures steps[i].name != steps[j].name {
        assert all[i] == steps[i] && all[j] == steps[j];
      }
    }
  }

  /** Which package each function met so far comes from. */
  ghost predicate Packages(steps: seq<Step>, seen: map<string, string>) {
    && (forall i :: 0 <= i < |steps| ==> steps[i].fn in seen && seen[steps[i].fn] == steps[i].package)
    && (forall f :: f in seen ==> exists i :: 0 <= i < |steps| && steps[i].fn == f)
  }

  lemma PackagesSnoc(steps: seq<Step>, s: Step, seen: map<string, string>)
    requires PackagesAgree(steps) && Packages(steps, seen)
    ensures PackagesAgree(steps + [s]) <==> s.fn !in seen || seen[s.fn] == s.package
    ensures s.fn !in seen || seen[s.fn] == s.package ==> Packages(steps + [s], seen[s.fn := s.package])
  {
    var all := steps + [s];
    assert forall i :: 0 <= i < |steps| ==> all[i] == steps[i];
    assert all[|steps|] == s;
    if s.fn in seen {
      var i :| 0 <= i < |steps| && steps[i].fn == s.fn;
      assert PackagesAgree(all) ==> all[i].package == s.package;
    }
  }

  lemma PrefixOk(steps: seq<Step>, i: nat)
    requires i < |steps| && ValidPipeline(steps)
    ensures ValidPipeline(steps[..i + 1]) && StepOk(steps[i])
  {
    assert forall j :: 0 <= j <= i ==> steps[..i + 1][j] == steps[j];
  }

  lemma PipelineSnoc(steps: seq<Step>, s: Step)
    requires ValidPipeline(steps)
    ensures ValidPipeline(steps + [s]) <==> StepOk(s) && UniqueSteps(steps + [s]) && PackagesAgree(steps + [s])
  {
    assert (steps + [s])[|steps|] == s;
  }

  method ValidatePipeline(steps: seq<Step>) returns (ok: bool)
    ensures ok <==> ValidPipeline(steps)
  {
    var seenName: set<string> := {};
    var seenPkg: map<string, string> := map[];
    ok := true;
    for i := 0 to |steps|
      invariant ok ==> ValidPipeline(steps[..i]) && seenName == NamesOf(steps[..i]) && Packages(steps[..i], seenPkg)
      invariant !ok ==> !ValidPipeline(steps)
    {
      if ok {
        var s := steps[i];
        assert steps[..i + 1] == steps[..i] + [s];
        UniqueSnoc(steps[..i], s);
        NamesSnoc(steps[..i], s);
        PackagesSnoc(steps[..i], s, seenPkg);
        PipelineSnoc(steps[..i], s);
        if ValidPipeline(steps) {
          PrefixOk(steps, i);
        }
        if !StepOk(s) || s.name in seenName || (s.fn in seenPkg && seenPkg[s.fn] != s.package) {
          ok := false;
        } else {
          seenName := seenName + {s.name};
          seenPkg := seenPkg[s.fn := s.package];
        }
      }
    }
    assert steps[..|steps|] == steps;
  }

  // ----- a free name for the environment step -----

  predicate Taken(steps: seq<Step>, name: string) {
    name == TEMPLATING || name in NamesOf(steps)
  }

  method NameTaken(steps: seq<Step>, name: string) returns (taken: bool)
    ensures taken <==> Taken(steps, name)
  {
    if name == TEMPLATING {
      return true;
    }
    for i := 0 to |steps|
      invariant forall j :: 0 <= j < i ==> steps[j].name != name
    {
      if steps[i].name == name {
        return true;
      }
    }
    return false;
  }

  const FN_BASE: string := "environment-configs-fn"

  function Numbered(k: nat): string {
    FN_BASE + "-" + Names.Decimal(k)
  }

  lemma NumberedInjective(j: nat, k: nat)
    requires Numbered(j) == Numbered(k)
    ensures j == k
  {
    var x, y := Names.DecimalNat(j), Names.DecimalNat(k);
    var p := FN_BASE + "-";
    assert x == (p + x)[|p|..] && y == (p + y)[|p|..];
    Names.DecimalInjective(j, k);
  }

  /** No candidate is the templating step's name. */
  lemma NotTemplating(k: nat)
    ensures Numbered(k) != TEMPLATING
  {
    assert FN_BASE[0] == 'e' && TEMPLATING[0] == 'r';
    assert Numbered(k)[0] == FN_BASE[0];
  }

  ghost function Tried(k: nat): set<string> {
    set j | 2 <= j < k :: Numbered(j)
  }

  /** Trying one more taken candidate leaves fewer names to collide with. */
  lemma OneFewer(steps: seq<Step>, k: nat)
    requires k >= 2 && Taken(steps, Numbered(k))
    ensures |NamesOf(steps) - Tried(k + 1)| < |NamesOf(steps) - Tried(k)|
  {
    NotTemplating(k);
    var before, after := NamesOf(steps) - Tried(k), NamesOf(steps) - Tried(k + 1);
    if Numbered(k) in Tried(k) {
      var j :| 2 <= j < k && Numbered(j) == Numbered(k);
      NumberedInjective(j, k);
    }
    assert Numbered(k) in before && Numbered(k) !in after;
    assert Tried(k) <= Tried(k + 1);
    assert after <= before - {Numbered(k)};
    Smaller(after, before - {Numbered(k)});
  }

  lemma Smaller(a: set<string>, b: set<string>)
    requires a <= b
    ensures |a| <= |b|
  {
    assert b == a + (b - a) && a !! (b - a);
  }

  /** The first free one of environment-configs, environment-configs-fn,
      environment-configs-fn-2, -3, ... */
  ghost predicate FirstFree(steps: seq<Step>, name: string) {
    if !Taken(steps, ENV_STEP) then name == ENV_STEP
    else if !Taken(steps, FN_BASE) then name == FN_BASE
    else exists k: nat ::
        k >= 2 && name == Numbered(k) && !Taken(steps, name)
        && forall j: nat :: 2 <= j < k ==> Taken(steps, Numbered(j))
  }

  method NextNumbered(steps: seq<Step>) returns (name: string)
    requires Taken(steps, ENV_STEP) && Taken(steps, FN_BASE)
    ensures FirstFree(steps, name) && !Taken(steps, name)
  {
    var suffix := 2;
    name := Numbered(suffix);
    var taken := NameTaken(steps, name);
    while taken
      invariant suffix >= 2 && name == Numbered(suffix) && (taken <==> Taken(steps, name))
      invariant forall j: nat :: 2 <= j < suffix ==> Taken(steps, Numbered(j))
      decreases |NamesOf(steps) - Tried(suffix)| + if taken then 1 else 0
    {
      OneFewer(steps, suffix);
      suffix := suffix + 1;
      name := Numbered(suffix);
      taken := NameTaken(steps, name);
    }
  }

  method FreeName(steps: seq<Step>) returns (name: string)
    ensures FirstFree(steps, name) && !Taken(steps, name)
  {
    name := ENV_STEP;
    var taken := NameTaken(steps, name);
    if taken {
      name := FN_BASE;
      taken := NameTaken(steps, name);
      if taken {
        name := NextNumbered(steps);
      }
    }
  }

  // ----- the effective pipeline -----

  function Placed(s: Step): Step {
    if s.fn == ENV_FN && s.position == "" then s.(position := BEFORE) else s
  }

  function Completed(s: Step, input: string): Step {
    var t := if s.input == "" then s.(input := input) else s;
    if t.package == "" then t.(package := ENV_PACKAGE) else t
  }

  function FirstEnv(steps: seq<Step>): (i: nat)
    ensures i <= |steps| && (i < |steps| ==> steps[i].fn == ENV_FN)
    ensures forall j :: 0 <= j < i ==> steps[j].fn != ENV_FN
  {
    if steps == [] || steps[0].fn == ENV_FN then 0 else 1 + FirstEnv(steps[1..])
  }

  function PlacedAll(steps: seq<Step>): (r: seq<Step>)
    ensures |r| == |steps| && forall i :: 0 <= i < |steps| ==> r[i] == Placed(steps[i])
  {
    seq(|steps|, i requires 0 <= i < |steps| => Placed(steps[i]))
  }

  /** The declared steps, or the default one when there are none. */
  function Declared(steps: seq<Step>): seq<Step> {
    if steps == [] then [AUTO_READY] else steps
  }

  /** What the declared steps become: positions filled in, and with an
      environment the first environment step's input and package. */
  function Kept(steps: seq<Step>, hasEnv: bool, input: string): seq<Step> {
    var placed := PlacedAll(Declared(steps));
    var at := FirstEnv(placed);
    if hasEnv && at < |placed| then placed[at := Completed(placed[at], input)] else placed
  }

  /** effectivePipeline as declared: every declared step, in order, with one
      step in front when an environment has no step of its own. */
  ghost predicate Effective(steps: seq<Step>, hasEnv: bool, input: string, r: seq<Step>) {
    var kept := Kept(steps, hasEnv, input);
    if hasEnv && FirstEnv(kept) == |kept| then
      r != [] && r[1..] == kept && FirstFree(kept, r[0].name)
          && r[0] == Step(r[0].name, ENV_FN, ENV_PACKAGE, BEFORE, input)
    else r == kept
  }

  /** What becomes of the declared steps: all of them, in order. A step of
      another function is untouched; one of the environment function without a
      position stands in front, and with an environment the first of them gets
      the input and the package it does not have. No steps at all are one step
      of function-auto-ready. */
  lemma StepsKept(steps: seq<Step>, hasEnv: bool, input: string)
    ensures var kept := Kept(steps, hasEnv, input);
            var from := if steps != [] then steps
                else [Step("auto-ready", "function-auto-ready",
                    "xpkg.upbound.io/crossplane-contrib/function-auto-ready:v0.5.0", "", "")];
            && |kept| == |from|
            && forall i :: 0 <= i < |from| ==>
                var s := from[i];
                if s.fn != "function-environment-configs" then kept[i] == s
                else
                  var first := hasEnv && forall j :: 0 <= j < i ==> from[j].fn != "function-environment-configs";
                  kept[i] == Step(s.name, s.fn,
                    if first && s.package == "" then
                      "xpkg.crossplane.io/crossplane-contrib/function-environment-configs:v0.4.0"
                    else s.package,
                    if s.position == "" then "before" else s.position,
                    if first && s.input == "" then input else s.input)
  {
    var from := Declared(steps);
    var placed := PlacedAll(from);
    assert forall j :: 0 <= j < |from| ==> placed[j].fn == from[j].fn;
    forall i | 0 <= i < |from| ensures i == FirstEnv(placed) <==>
        from[i].fn == ENV_FN && forall j :: 0 <= j < i ==> from[j].fn != ENV_FN {
      if i > FirstEnv(placed) {
        assert from[FirstEnv(placed)].fn == ENV_FN;
      }
    }
  }

  method PlaceSteps(declared: seq<Step>) returns (steps: seq<Step>)
    ensures steps == PlacedAll(declared)
  {
    steps := declared;
    for i := 0 to |declared|
      invariant |steps| == |declared|
      invariant forall j :: 0 <= j < |steps| ==> steps[j] == if j < i then Placed(declared[j]) else declared[j]
    {
      if steps[i].fn == ENV_FN && steps[i].position == "" {
        steps := steps[i := steps[i].(position := BEFORE)];
      }
    }
  }

  method CompleteEnv(placed: seq<Step>, input: string) returns (steps: seq<Step>, hasEnvStep: bool)
    ensures hasEnvStep <==> FirstEnv(placed) < |placed|
    ensures steps == if hasEnvStep then placed[FirstEnv(placed) := Completed(placed[FirstEnv(placed)], input)]
            else placed
  {
    steps, hasEnvStep := placed, false;
    for i := 0 to |placed|
      invariant steps == placed && !hasEnvStep
      invariant forall j :: 0 <= j < i ==> placed[j].fn != ENV_FN
    {
      if steps[i].fn == ENV_FN {
        hasEnvStep := true;
        assert FirstEnv(placed) == i;
        steps := steps[i := Completed(placed[i], input)];
        return;
      }
    }
  }

  predicate CleanNames(steps: seq<Step>) {
    UniqueSteps(steps) && forall i :: 0 <= i < |steps| ==> steps[i].name != TEMPLATING
  }

  /** The de-duplication: it drops nothing when the names are clean already. */
  method Dedupe(steps: seq<Step>) returns (r: seq<Step>)
    ensures CleanNames(r)
    ensures CleanNames(steps) ==> r == steps
  {
    var seen: set<string> := {};
    r := [];
    for i := 0 to |steps|
      invariant CleanNames(r) && seen == NamesOf(r)
      invariant CleanNames(steps) ==> r == steps[..i]
    {
      UniqueSnoc(r, steps[i]);
      NamesSnoc(r, steps[i]);
      if CleanNames(steps) {
        assert steps[i].name !in NamesOf(steps[..i]);
      }
      if steps[i].name != TEMPLATING && steps[i].name !in seen {
        seen := seen + {steps[i].name};
        r := r + [steps[i]];
      }
    }
    assert steps[..|steps|] == steps;
  }

  lemma KeptClean(steps: seq<Step>, hasEnv: bool, input: string)
    requires ValidPipeline(steps)
    ensures var kept := Kept(steps, hasEnv, input);
            && CleanNames(kept) && |kept| == |Declared(steps)|
            && forall i :: 0 <= i < |kept| ==>
                kept[i].name == Declared(steps)[i].name
                && kept[i].fn == Declared(steps)[i].fn
  {
    KeptNames(steps, hasEnv, input);
    DeclaredClean(steps);
  }

  lemma KeptNames(steps: seq<Step>, hasEnv: bool, input: string)
    ensures var kept := Kept(steps, hasEnv, input);
            && |kept| == |Declared(steps)|
            && forall i :: 0 <= i < |kept| ==>
                kept[i].name == Declared(steps)[i].name
                && kept[i].fn == Declared(steps)[i].fn
  {
  }

  lemma DeclaredClean(steps: seq<Step>)
    requires ValidPipeline(steps)
    ensures CleanNames(Declared(steps))
  {
    if steps == [] {
      assert AUTO_READY.name[0] == 'a' && TEMPLATING[0] == 'r';
    }
  }

  lemma FrontClean(kept: seq<Step>, s: Step)
    requires CleanNames(kept) && !Taken(kept, s.name)
    ensures CleanNames([s] + kept)
  {
    var r := [s] + kept;
    forall i, j | 0 <= i < j < |r| ensures r[i].name != r[j].name {
      assert r[j] == kept[j - 1];
      if i > 0 {
        assert r[i] == kept[i - 1];
      }
    }
    forall i | 0 <= i < |r| ensures r[i].name != TEMPLATING {
      if i > 0 {
        assert r[i] == kept[i - 1];
      }
    }
  }

  method EffectivePipeline(declared: seq<Step>, hasEnv: bool, input: string) returns (r: seq<Step>)
    requires ValidPipeline(declared)
    ensures Effective(declared, hasEnv, input, r) && CleanNames(r)
  {
    KeptClean(declared, hasEnv, input);
    var steps := if |declared| == 0 then [AUTO_READY] else declared;
    steps := PlaceSteps(steps);
    if hasEnv {
      var hasEnvStep;
      steps, hasEnvStep := CompleteEnv(steps, input);
      if !hasEnvStep {
        var stepName := FreeName(steps);
        var envStep := Step(stepName, ENV_FN, ENV_PACKAGE, BEFORE, input);
        FrontClean(steps, envStep);
        steps := [envStep] + steps;
        assert steps[1..] == Kept(declared, hasEnv, input);
      }
    }
    r := Dedupe(steps);
  }

  // ----- around the templating step -----

  function Before(steps: seq<Step>): seq<Step> {
    if steps == [] then []
    else Before(steps[..|steps| - 1]) + if steps[|steps| - 1].position == BEFORE then [steps[|steps| - 1]] else []
  }

  function After(steps: seq<Step>): seq<Step> {
    if steps == [] then []
    else After(steps[..|steps| - 1]) + if steps[|steps| - 1].position == BEFORE then [] else [steps[|steps| - 1]]
  }

  method SplitPipeline(steps: seq<Step>) returns (before: seq<Step>, after: seq<Step>)
    ensures before == Before(steps) && after == After(steps)
  {
    before, after := [], [];
    for i := 0 to |steps|
      invariant before == Before(steps[..i]) && after == After(steps[..i])
    {
      assert steps[..i + 1][..i] == steps[..i];
      if steps[i].position == BEFORE {
        before := before + [steps[i]];
      } else {
        after := after + [steps[i]];
      }
    }
    assert steps[..|steps|] == steps;
  }

  ghost predicate SideOf(steps: seq<Step>, test: Step -> bool, at: seq<nat>, side: seq<Step>) {
    Picks(steps, test, at) && |side| == |at| && forall k :: 0 <= k < |at| ==> side[k] == steps[at[k]]
  }

  predicate InFront(s: Step) {
    s.position == BEFORE
  }

  predicate Behind(s: Step) {
    s.position != BEFORE
  }

  lemma {:induction false} BeforePlaced(steps: seq<Step>) returns (at: seq<nat>)
    ensures SideOf(steps, InFront, at, Before(steps))
  {
    if steps == [] {
      at := [];
    } else {
      var last := |steps| - 1;
      var front := BeforePlaced(steps[..last]);
      PicksSnoc(steps, InFront, front);
      at := if InFront(steps[last]) then front + [last] else front;
      if !InFront(steps[last]) {
        assert Before(steps) == Before(steps[..last]);
      }
    }
  }

  lemma {:induction false} AfterPlaced(steps: seq<Step>) returns (at: seq<nat>)
    ensures SideOf(steps, Behind, at, After(steps))
  {
    if steps == [] {
      at := [];
    } else {
      var last := |steps| - 1;
      var front := AfterPlaced(steps[..last]);
      PicksSnoc(steps, Behind, front);
      at := if Behind(steps[last]) then front + [last] else front;
      if !Behind(steps[last]) {
        assert After(steps) == After(steps[..last]);
      }
    }
  }

  /** Both sides hold their steps in the order declared. */
  lemma SidesInOrder(steps: seq<Step>) returns (front: seq<nat>, back: seq<nat>)
    ensures SideOf(steps, InFront, front, Before(steps)) && SideOf(steps, Behind, back, After(steps))
  {
    front := BeforePlaced(steps);
    back := AfterPlaced(steps);
  }

  lemma {:induction false} SidesMembers(steps: seq<Step>, s: Step)
    ensures s in Before(steps) <==> s in steps && s.position == BEFORE
    ensures s in After(steps) <==> s in steps && s.position != BEFORE
    ensures |Before(steps)| + |After(steps)| == |steps|
  {
    if steps != [] {
      SidesMembers(steps[..|steps| - 1], s);
      assert steps == steps[..|steps| - 1] + [steps[|steps| - 1]];
    }
  }

  /** All steps of the finished pipeline, the templating step in its place. */
  function StepNames(steps: seq<Step>): (ns: seq<string>)
    ensures |ns| == |steps| && forall i :: 0 <= i < |steps| ==> ns[i] == steps[i].name
  {
    seq(|steps|, i requires 0 <= i < |steps| => steps[i].name)
  }

  lemma {:induction false} SidesClean(steps: seq<Step>)
    requires UniqueSteps(steps)
    ensures UniqueSteps(Before(steps)) && UniqueSteps(After(steps))
    ensures NamesOf(Before(steps)) !! NamesOf(After(steps))
    ensures NamesOf(Before(steps)) + NamesOf(After(steps)) == NamesOf(steps)
  {
    if steps == [] {
      assert NamesOf(steps) == {};
    } else {
      var init, last := steps[..|steps| - 1], steps[|steps| - 1];
      assert steps == init + [last];
      UniqueSnoc(init, last);
      NamesSnoc(init, last);
      SidesClean(init);
      UniqueSnoc(Before(init), last);
      NamesSnoc(Before(init), last);
      UniqueSnoc(After(init), last);
      NamesSnoc(After(init), last);
      assert After(init) + [] == After(init) && Before(init) + [] == Before(init);
    }
  }

  lemma ThreeDistinct(b: seq<Step>, mid: string, a: seq<Step>)
    requires UniqueSteps(b) && UniqueSteps(a) && NamesOf(b) !! NamesOf(a) && mid !in NamesOf(b) && mid !in NamesOf(a)
    ensures var all := StepNames(b) + [mid] + StepNames(a); forall i, j :: 0 <= i < j < |all| ==> all[i] != all[j]
  {
    var all := StepNames(b) + [mid] + StepNames(a);
    forall i, j | 0 <= i < j < |all| ensures all[i] != all[j] {
      assert i < |b| ==> all[i] == b[i].name && b[i].name in NamesOf(b);
      assert j < |b| ==> all[j] == b[j].name;
      assert i > |b| ==> all[i] == a[i - |b| - 1].name;
      assert j > |b| ==> all[j] == a[j - |b| - 1].name && a[j - |b| - 1].name in NamesOf(a);
    }
  }

  lemma KeptBefore(declared: seq<Step>, hasEnv: bool, input: string, i: nat)
    requires ValidPipeline(declared) && i < |Kept(declared, hasEnv, input)|
             && Kept(declared, hasEnv, input)[i].fn == ENV_FN
    ensures Kept(declared, hasEnv, input)[i].position == BEFORE
  {
    var placed := PlacedAll(Declared(declared));
    assert placed[i] == Placed(Declared(declared)[i]);
    if declared != [] {
      assert StepOk(declared[i]);
    }
  }

  lemma EnvPlaced(declared: seq<Step>, hasEnv: bool, input: string, r: seq<Step>)
    requires ValidPipeline(declared) && Effective(declared, hasEnv, input, r)
    ensures forall s :: s in r && s.fn == ENV_FN ==> s.position == BEFORE
    ensures hasEnv ==> exists s :: s in r && s.fn == ENV_FN
  {
    var kept := Kept(declared, hasEnv, input);
    forall s | s in kept && s.fn == ENV_FN ensures s.position == BEFORE {
      var i :| 0 <= i < |kept| && kept[i] == s;
      KeptBefore(declared, hasEnv, input, i);
    }
    if hasEnv && FirstEnv(kept) == |kept| {
      assert r[0] in r && r == [r[0]] + kept;
    } else if hasEnv {
      assert kept[FirstEnv(kept)] in r;
    }
  }

  /** The pipeline of every validated blueprint: step names are distinct, the
      templating step's included; every environment-configs step stands in front
      of it, and there is one when the blueprint has an environment. */
  lemma PipelineSound(declared: seq<Step>, hasEnv: bool, input: string, r: seq<Step>)
    requires ValidPipeline(declared) && Effective(declared, hasEnv, input, r) && CleanNames(r)
    ensures var all := StepNames(Before(r)) + [TEMPLATING] + StepNames(After(r));
            |all| == |r| + 1 && forall i, j :: 0 <= i < j < |all| ==> all[i] != all[j]
    ensures forall s :: s in r && s.fn == ENV_FN ==> s in Before(r)
    ensures hasEnv ==> exists s :: s in Before(r) && s.fn == ENV_FN
  {
    EnvPlaced(declared, hasEnv, input, r);
    SidesClean(r);
    forall s ensures s in Before(r) <==> s in r && s.position == BEFORE {
      SidesMembers(r, s);
    }
    SidesMembers(r, AUTO_READY);
    ThreeDistinct(Before(r), TEMPLATING, After(r));
  }
}
