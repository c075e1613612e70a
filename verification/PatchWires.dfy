/** What one patch of an adopted composition does, said of the texts it carries
    (internal/adopt/adopt.go:3158-3434). */
module PatchWires {
  import opened Template
  import opened Text
  import opened Refs
  import opened Params
  import opened Blueprint
  import opened Declare
  import opened FieldPaths
  import opened Patches

  // ----- what the texts say -----

  predicate FromComposite(p: Patch) {
    p.Patch? && (p.typ == "FromCompositeFieldPath" || p.typ == "")
  }

  predicate FromEnvironment(p: Patch) {
    p.Patch? && p.typ == "FromEnvironmentFieldPath"
  }

  /** The composite's field that is the parameter: with or without the prefix
      of the legacy layout. */
  predicate NamesParam(from: string, name: string) {
    from == "spec.parameters." + name || (from == "spec." + name && !("parameters." <= name))
  }

  predicate Beginning(s: string, start: string) {
    start <= s
  }

  predicate TagsPath(to: string) {
    to == "tags" || "tags." <= to || "tags[" <= to
  }

  predicate InitPath(to: string) {
    to == "spec.initProvider" || "spec.initProvider." <= to
  }

  predicate AnnotationPath(to: string) {
    "metadata.annotations." <= to || "metadata.annotations[" <= to
  }

  /** Some other path of the spec. */
  predicate SpecPath(to: string) {
    "spec." <= to && !("spec.forProvider." <= to) && !InitPath(to)
  }

  predicate MetadataPath(to: string) {
    "metadata." <= to && !AnnotationPath(to)
  }

  /** Neither spec nor metadata. */
  predicate OtherPath(to: string) {
    !("spec." <= to) && !("metadata." <= to)
  }

  // ----- what can have happened -----

  /** The field at key is the parameter's wire, the parameter is declared, and
      nothing else has changed. */
  ghost predicate FieldSet(s: State, t: State, key: string, name: string, typ: string) {
    t == s.(fields := s.fields[key := Field("params." + name, "", "", "")],
            params := WithPath(s.params, Split(name, '.'), typ))
  }

  ghost predicate EnvelopeSet(s: State, t: State, key: string, name: string) {
    t == s.(envelope := s.envelope[key := Field("params." + name, "", "", "")],
            params := WithPath(s.params, Split(name, '.'), "string"))
  }

  ghost predicate AnnotationSet(s: State, t: State, key: string, name: string) {
    t == s.(annotations := s.annotations[key := Field("params." + name, "", "", "")],
            params := WithPath(s.params, Split(name, '.'), "string"))
  }

  /** One loss, and nothing else. */
  ghost predicate Refused(s: State, t: State, p: Patch)
    requires p.Patch?
  {
    t == s.(losses := s.losses + [Unsupported(p.from, p.to)])
  }

  /** A name the blueprint can declare. */
  predicate Declarable(name: string) {
    name != "" && ParamIdentifier(name)
  }

  /** The whole object would be wired where only its members can be. */
  predicate Whole(s: State, rules: Rules, name: string, key: string) {
    !Reserved(name) && WholeObject(s, rules, name, key)
  }

  /** What a field of the resource is wired from. */
  predicate FieldGoes(s: State, rules: Rules, name: string, key: string) {
    Declarable(name) && key != "" && !Reserved(name) && !Whole(s, rules, name, key)
  }

  function FieldType(key: string): string {
    if MapField(key) then "object" else "string"
  }

  ghost predicate FieldOrRefused(s: State, t: State, p: Patch, rules: Rules, name: string, key: string)
    requires p.Patch?
  {
    if FieldGoes(s, rules, name, key) then FieldSet(s, t, key, name, FieldType(key)) else Refused(s, t, p)
  }

  // ----- from the composite -----

  lemma ParamNamed(from: string, name: string)
    ensures FromParam(from) == Some(name) <==> NamesParam(from, name)
  {
    if NamesParam(from, name) {
      if from == SPEC_PARAMETERS + name {
        assert from[|SPEC_PARAMETERS|..] == name;
      } else {
        NotUnder(name);
        assert from[|SPEC|..] == name;
      }
    }
    if FromParam(from) == Some(name) {
      if SPEC_PARAMETERS <= from {
        assert from == SPEC_PARAMETERS + name;
      } else {
        assert from == SPEC + name;
        NotUnder(name);
      }
    }
  }

  lemma NotUnder(name: string)
    ensures SPEC_PARAMETERS <= SPEC + name <==> "parameters." <= name
  {
    assert SPEC_PARAMETERS == SPEC + "parameters.";
    assert (SPEC + name)[|SPEC|..] == name && SPEC_PARAMETERS[|SPEC|..] == "parameters.";
  }

  lemma Stripped(prefix: string, rest: string)
    ensures prefix <= prefix + rest && (prefix + rest)[|prefix|..] == rest
  {
  }

  // the tests the source makes, and the texts they stand for

  lemma TestsAre(to: string)
    ensures OnTags(to) <==> TagsPath(to)
    ensures OnInit(to) <==> InitPath(to)
    ensures OnAnnotation(to) <==> AnnotationPath(to)
    ensures FOR_PROVIDER == "spec.forProvider." && SPEC == "spec." && META_PREFIX == "metadata."
  {
    assert TAGS + "." == "tags." && TAGS + "[" == "tags[";
    assert INIT_PROVIDER + "." == "spec.initProvider.";
    assert ANNOTATIONS + "." == "metadata.annotations." && ANNOTATIONS + "[" == "metadata.annotations[";
  }

  /** The families of target paths exclude each other. */
  lemma PathsApart(to: string)
    ensures "spec.forProvider." <= to ==> "spec." <= to && !InitPath(to)
    ensures InitPath(to) ==> "spec." <= to
    ensures AnnotationPath(to) ==> "metadata." <= to
    ensures "spec." <= to ==> !TagsPath(to) && !("metadata." <= to)
    ensures "metadata." <= to ==> !TagsPath(to)
  {
    var a, b, c, d := "spec.", "spec.forProvider.", "spec.initProvider", "metadata.";
    assert b[5] == 'f' && c[5] == 'i' && a[0] == 's' && d[0] == 'm' && "tags"[0] == 't';
    assert b[..5] == a && c[..5] == a && "spec.initProvider."[..5] == a && "spec.initProvider."[5] == 'i';
    assert "metadata.annotations."[..9] == d && "metadata.annotations["[..9] == d;
    assert "tags."[0] == 't' && "tags["[0] == 't';
  }

  lemma FieldDone(s: State, rules: Rules, p: Patch, name: string, key: string)
    requires p.Patch? && Decide(s, rules, p) == FieldWire(s, rules, Some(name), key, true)
    ensures FieldOrRefused(s, LeafApplied(s, rules, p), p, rules, name, key)
  {
    assert PARAMS == "params.";
  }

  lemma ToProvider(s: State, rules: Rules, p: Patch, name: string, x: string)
    requires FromComposite(p) && NamesParam(p.from, name) && p.to == "spec.forProvider." + x
    ensures FieldOrRefused(s, LeafApplied(s, rules, p), p, rules, name, Normal(rules.plain, x))
  {
    ParamNamed(p.from, name);
    TestsAre(p.to);
    Stripped("spec.forProvider.", x);
    FieldDone(s, rules, p, name, Normal(rules.plain, x));
  }

  lemma ToTags(s: State, rules: Rules, p: Patch, name: string)
    requires FromComposite(p) && NamesParam(p.from, name) && !rules.native && TagsPath(p.to)
    ensures FieldOrRefused(s, LeafApplied(s, rules, p), p, rules, name, Normal(rules.plain, p.to))
  {
    ParamNamed(p.from, name);
    TestsAre(p.to);
    PathsApart(p.to);
    FieldDone(s, rules, p, name, Normal(rules.plain, p.to));
  }

  lemma ToNative(s: State, rules: Rules, p: Patch, name: string)
    requires FromComposite(p) && NamesParam(p.from, name) && rules.native && (SpecPath(p.to) || OtherPath(p.to))
    ensures FieldOrRefused(s, LeafApplied(s, rules, p), p, rules, name, Normal(rules.plain, p.to))
  {
    ParamNamed(p.from, name);
    TestsAre(p.to);
    PathsApart(p.to);
    FieldDone(s, rules, p, name, Normal(rules.plain, p.to));
  }

  lemma ToEnvelope(s: State, rules: Rules, p: Patch, name: string, x: string)
    requires FromComposite(p) && NamesParam(p.from, name) && !rules.native && p.to == "spec." + x && SpecPath(p.to)
    ensures var key, t := Normal(rules.plain, x), LeafApplied(s, rules, p);
            if EnvelopeKey(key) && Declarable(name) && !Whole(s, rules, name, key) then
              EnvelopeSet(s, t, key, name)
            else Refused(s, t, p)
  {
    ParamNamed(p.from, name);
    TestsAre(p.to);
    PathsApart(p.to);
    Stripped("spec.", x);
    assert PARAMS == "params.";
  }

  lemma AnnotationDone(s: State, rules: Rules, p: Patch, name: string, key: string)
    requires p.Patch?
    requires Decide(s, rules, p) ==
             if key != "" && Declarable(name) && !Whole(s, rules, name, key) then
               WireParam(OnAnnotations, key, name, "string")
             else Lost
    ensures var t := LeafApplied(s, rules, p);
            if key != "" && Declarable(name) && !Whole(s, rules, name, key) then AnnotationSet(s, t, key, name)
            else Refused(s, t, p)
  {
    assert PARAMS == "params.";
  }

  lemma ToAnnotation(s: State, rules: Rules, p: Patch, name: string)
    requires FromComposite(p) && NamesParam(p.from, name) && AnnotationPath(p.to)
    ensures var key, t := AnnotationKey(p.to), LeafApplied(s, rules, p);
            if key != "" && Declarable(name) && !Whole(s, rules, name, key) then AnnotationSet(s, t, key, name)
            else Refused(s, t, p)
  {
    ParamNamed(p.from, name);
    TestsAre(p.to);
    PathsApart(p.to);
    var key := AnnotationKey(p.to);
    AnnotationDone(s, rules, p, name, key);
  }

  lemma ToMetadata(s: State, rules: Rules, p: Patch, name: string)
    requires FromComposite(p) && NamesParam(p.from, name) && MetadataPath(p.to)
    ensures var key, t := Normal(rules.plain, p.to), LeafApplied(s, rules, p);
            if rules.native && Declarable(name) && !Whole(s, rules, name, key) then
              FieldSet(s, t, key, name, FieldType(key))
            else Refused(s, t, p)
  {
    ParamNamed(p.from, name);
    TestsAre(p.to);
    PathsApart(p.to);
    assert PARAMS == "params.";
  }

  /** Everything else is refused: what is not read from the spec, initProvider,
      and of a managed resource what lies outside spec, metadata and tags. */
  lemma ToNowhere(s: State, rules: Rules, p: Patch)
    requires FromComposite(p)
    requires !("spec." <= p.from) || InitPath(p.to) || (!rules.native && OtherPath(p.to) && !TagsPath(p.to))
    ensures Refused(s, LeafApplied(s, rules, p), p)
  {
    TestsAre(p.to);
    PathsApart(p.to);
    assert SPEC_PARAMETERS[..5] == SPEC;
  }

  // ----- from the environment -----

  /** What is wired at key on a surface, None for a wire that cannot be placed:
      the environment key is declared in any case, the wire stands or one loss. */
  ghost predicate EnvDone(s: State, t: State, p: Patch, key: string, placed: Option<Surface>)
    requires p.Patch?
  {
    var wire, env := Field("env." + p.from, "", "", ""), s.env[p.from := "string"];
    match placed
    case None => t == s.(env := env, losses := s.losses + [Unsupported(p.from, p.to)])
    case Some(OnFields) => t == s.(env := env, fields := s.fields[key := wire])
    case Some(OnEnvelope) => t == s.(env := env, envelope := s.envelope[key := wire])
    case Some(OnAnnotations) => t == s.(env := env, annotations := s.annotations[key := wire])
  }

  lemma EnvPerformed(s: State, rules: Rules, p: Patch, key: string, placed: Option<Surface>)
    requires p.Patch?
    requires Decide(s, rules, p) == if placed.Some? then WireEnv(placed.value, key, p.from) else DeclareOnly(p.from)
    ensures EnvDone(s, LeafApplied(s, rules, p), p, key, placed)
  {
    assert ENV == "env.";
  }

  /** A flat environment key is declared and wired where the target can hold it. */
  lemma EnvironmentPatch(s: State, rules: Rules, p: Patch)
    requires FromEnvironment(p) && p.from != "" && FlatIdentifier(p.from)
    ensures var t, to := LeafApplied(s, rules, p), p.to;
            && ("spec.forProvider." <= to ==>
                  var key := Normal(rules.plain, to[17..]);
                  EnvDone(s, t, p, key, if key != "" then Some(OnFields) else None))
            && ((if rules.native then SpecPath(to) || OtherPath(to) else TagsPath(to)) ==>
                  var key := Normal(rules.plain, to);
                  EnvDone(s, t, p, key, if key != "" then Some(OnFields) else None))
            && (!rules.native && SpecPath(to) ==>
                  var key := Normal(rules.plain, to[5..]);
                  EnvDone(s, t, p, key, if EnvelopeKey(key) then Some(OnEnvelope) else None))
            && (AnnotationPath(to) ==>
                  var key := AnnotationKey(to);
                  EnvDone(s, t, p, key, if key != "" then Some(OnAnnotations) else None))
            && (MetadataPath(to) ==>
                  EnvDone(s, t, p, Normal(rules.plain, to), if rules.native then Some(OnFields) else None))
            && (InitPath(to) || (!rules.native && OtherPath(to) && !TagsPath(to)) ==> EnvDone(s, t, p, "", None))
  {
    TestsAre(p.to);
    PathsApart(p.to);
    assert |FOR_PROVIDER| == 17 && |SPEC| == 5;
    var e := Decide(s, rules, p);
    EnvPerformed(s, rules, p, if e.WireEnv? then e.key else "", if e.WireEnv? then Some(e.surface) else None);
  }

  /** Any other key is refused, and so is every other type of patch. */
  lemma OthersRefused(s: State, rules: Rules, p: Patch)
    requires p.Patch? && !FromComposite(p)
    requires FromEnvironment(p) ==> p.from == "" || !FlatIdentifier(p.from)
    ensures Refused(s, LeafApplied(s, rules, p), p)
  {
  }

  // ----- annotation keys -----

  predicate Quotes(s: string) {
    forall c :: c in s ==> c == '"' || c == '\''
  }

  predicate Bare(k: string) {
    k != "" ==> !Quotes(k[..1]) && !Quotes(k[|k| - 1..])
  }

  lemma {:induction false} FrontTrimmed(a: string, rest: string)
    requires Quotes(a)
    ensures TrimQuotes(a + rest) == TrimQuotes(rest)
    decreases |a|
  {
    if a == "" {
      assert a + rest == rest;
    } else {
      var s := a + rest;
      assert a[0] in a && s[0] == a[0] && s[1..] == a[1..] + rest;
      assert forall c :: c in a[1..] ==> c in a;
      FrontTrimmed(a[1..], rest);
    }
  }

  lemma {:induction false} BackTrimmed(k: string, b: string)
    requires Quotes(b) && Bare(k) && k != ""
    ensures TrimQuotes(k + b) == k
    decreases |b|
  {
    if b == "" {
      BareStays(k);
      assert k + b == k;
    } else {
      var s, n := k + b, |b| - 1;
      assert b[n] in b && s[|s| - 1] == b[n] && s[..|s| - 1] == k + b[..n];
      assert forall c :: c in b[..n] ==> c in b;
      assert k[..1] == [k[0]] && s[0] == k[0];
      BackTrimmed(k, b[..n]);
    }
  }

  lemma QuotesTrimmed(a: string, k: string, b: string)
    requires Quotes(a) && Quotes(b) && Bare(k)
    ensures TrimQuotes(a + k + b) == k
  {
    assert a + k + b == a + (k + b);
    FrontTrimmed(a, k + b);
    if k == "" {
      assert k + b == b + "";
      FrontTrimmed(b, "");
    } else {
      BackTrimmed(k, b);
    }
  }

  lemma BareStays(k: string)
    requires Bare(k)
    ensures TrimQuotes(k) == k
  {
    if k != "" {
      assert k[..1] == [k[0]] && k[|k| - 1..] == [k[|k| - 1]];
    }
  }

  lemma DottedKey(key: string)
    ensures AnnotationKey("metadata.annotations." + key) == key
  {
    var to := "metadata.annotations." + key;
    assert ANNOTATIONS + "." == "metadata.annotations." && |ANNOTATIONS| == 20;
    assert to[20] == '.' && (ANNOTATIONS + "[")[20] == '[';
    assert to[21..] == key;
  }

  /** In brackets the key loses the closing one and the quotes around it. */
  lemma BracketedKey(a: string, key: string, b: string)
    requires Quotes(a) && Quotes(b) && Bare(key)
    ensures AnnotationKey("metadata.annotations[" + (a + key + b + "]")) == key
  {
    var inner := a + key + b;
    var to := "metadata.annotations[" + (inner + "]");
    assert ANNOTATIONS + "[" == "metadata.annotations[" && |ANNOTATIONS| == 20;
    assert to[21..] == inner + "]";
    assert (inner + "]")[|inner|..] == "]" && (inner + "]")[..|inner|] == inner;
    QuotesTrimmed(a, key, b);
  }

  // ----- as it is applied -----

  /** A patch that is no set is applied once, behind the report of its transforms. */
  lemma OnePatch(s: State, rules: Rules, table: Table, p: Patch, visited: set<string>)
    requires p.Patch? && p.typ != "PatchSet"
    ensures AllApplied(s, rules, Reached(table, p, visited)) ==
            LeafApplied(if p.transforms then s.(losses := s.losses + [Transforms]) else s, rules, p)
  {
    var head := if p.transforms then [Gone(Transforms)] else [];
    AppliedTwo(s, rules, head, [Leaf(p)]);
    AppliedOne(s, rules, Gone(Transforms));
    AppliedOne(AllApplied(s, rules, head), rules, Leaf(p));
  }
}
