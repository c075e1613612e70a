/** The blueprint document as far as its references go, and the checks of
    Validate that references rest on (internal/blueprint/load.go,
    validate_resources.go, validate_params.go, envelope.go, annotations.go). */
module Blueprint {
  import opened Template
  import opened Text
  import opened Numbers
  import opened Refs
  import opened Params
  import Paths

  datatype Field = Field(from: string, value: string, raw: string, template: string)

  type FieldMap = map<string, Field>

  datatype EnvironmentKey = EnvironmentKey(typ: string, default: string)

  datatype Resource = Resource(
    name: string,
    kind: string,
    provider: string,
    forEach: string,
    when: string,
    fields: FieldMap,
    envelope: FieldMap,
    annotations: FieldMap)

  /** statusWires are the `from:` values of the composite status declarations. */
  datatype Document = Document(
    parameters: Declarations,
    statusWires: seq<string>,
    environment: map<string, EnvironmentKey>,
    templates: map<string, string>,
    crdSources: set<string>,
    resources: seq<Resource>)

  /** Written by the generator itself on every composed document. */
  const NAME_ANNOTATION: string := "gotemplating.fn.crossplane.io/composition-resource-name"

  predicate ReservedKey(k: string) {
    k == NAME_ANNOTATION || k == "crossplane.io/composition-resource-name"
  }

  // ----- names -----

  function Lower(s: string): string {
    seq(|s|, i requires 0 <= i < |s| => if 'A' <= s[i] <= 'Z' then s[i] - 'A' + 'a' else s[i])
  }

  predicate YamlKeyword(s: string) {
    Lower(s) in {"true", "false", "yes", "no", "on", "off", "null", "y", "n"}
  }

  predicate ParamKeyword(s: string) {
    Lower(s) in {"true", "false", "null"}
  }

  predicate ParamName(s: string) {
    Camel(s) && !ParamKeyword(s)
  }

  predicate ResourceName(s: string) {
    DnsLabel(s) && !YamlKeyword(s)
  }

  // ----- lookups -----

  /** The index of the first resource with that name, or -1 (resourceIndex). */
  function IndexOf(rs: seq<Resource>, name: string): (i: int)
    ensures -1 <= i < |rs|
    ensures i >= 0 ==> rs[i].name == name
    ensures i >= 0 ==> forall j :: 0 <= j < i ==> rs[j].name != name
    ensures i < 0 ==> forall j :: 0 <= j < |rs| ==> rs[j].name != name
  {
    if rs == [] then -1
    else if rs[0].name == name then 0
    else
      var i := IndexOf(rs[1..], name);
      if i < 0 then -1 else i + 1
  }

  method ResourceIndex(rs: seq<Resource>, name: string) returns (r: int)
    ensures r == IndexOf(rs, name)
  {
    for i := 0 to |rs|
      invariant forall j :: 0 <= j < i ==> rs[j].name != name
    {
      if rs[i].name == name {
        return i;
      }
    }
    return -1;
  }

  // ----- managed resources and parameters -----

  predicate Managed(d: Document, r: Resource) {
    !(r.provider == "k8s" || EndsWith(r.provider, ".yaml") || EndsWith(r.provider, ".yml")
        || r.provider in d.crdSources)
  }

  predicate HasManaged(d: Document) {
    exists r :: r in d.resources && Managed(d, r)
  }

  predicate DeclOk(p: Parameter)
    decreases p
  {
    && p.typ in {"string", "integer", "number", "boolean", "object"}
    && (p.properties != map[] ==> p.typ == "object")
    && forall m :: m in p.properties ==> ParamName(m) && DeclOk(p.properties[m])
  }

  predicate ProviderNameOk(ps: Declarations) {
    "providerName" in ps && ps["providerName"].typ == "string" && ps["providerName"].required
  }

  predicate ParametersOk(d: Document) {
    && (forall n :: n in d.parameters ==> ParamName(n) && DeclOk(d.parameters[n]))
    && (HasManaged(d) ==> ProviderNameOk(d.parameters))
  }

  // ----- references -----

  /** The declarations a dotted parameter reference resolves to. */
  function ParamTarget(d: Document, ref: string): Option<seq<Parameter>> {
    Resolve(d.parameters, Split(ref, '.'))
  }

  /** validateStatusRef: another, unlooped resource's observed status. */
  predicate StatusWireOk(d: Document, self: Option<string>, s: string) {
    var r := StatusRef(s);
    && r.Some?
    && (self.Some? ==> r.value.0 != self.value)
    && UnloopedTarget(d, r.value.0)
    && forall seg :: seg in Split(r.value.1, '.') ==> Camel(seg)
  }

  predicate UnloopedTarget(d: Document, name: string) {
    var i := IndexOf(d.resources, name);
    i >= 0 && d.resources[i].forEach == ""
  }

  /** validateMetadataRef. */
  predicate NameWireOk(d: Document, self: string, s: string) {
    var r := MetadataRef(s);
    r.Some? && r.value.1 == "name" && r.value.0 != self && UnloopedTarget(d, r.value.0)
  }

  /** What a `from:` of a field or annotation must resolve to; typed says which
      declarations the surface can render. */
  predicate FromOk(d: Document, self: string, s: string, typed: Parameter -> bool) {
    var r := ParseFrom(s);
    && r.Some?
    && match r.value
       case StatusOf(_, _) => StatusWireOk(d, Some(self), s)
       case NameOf(_) => NameWireOk(d, self, s)
       case EnvOf(key) => key in d.environment
       case ParamOf(ref) => ParamTarget(d, ref).Some? && typed(Last(ParamTarget(d, ref).value))
  }

  function Last(chain: seq<Parameter>): Parameter
    requires chain != []
  {
    chain[|chain| - 1]
  }

  function CountSet(texts: seq<string>): nat {
    if texts == [] then 0 else (if texts[0] != "" then 1 else 0) + CountSet(texts[1..])
  }

  function One(s: string): nat {
    if s != "" then 1 else 0
  }

  lemma CountParts(a: string, b: string, c: string, e: string)
    ensures CountSet([a, b, c, e]) == One(a) + One(b) + One(c) + One(e)
    ensures CountSet([a, b, c]) == One(a) + One(b) + One(c)
  {
    assert [a, b, c, e][1..] == [b, c, e] && [b, c, e][1..] == [c, e] && [c, e][1..] == [e] && [e][1..] == [];
    assert CountSet([e]) == One(e);
    assert CountSet([c, e]) == One(c) + One(e);
    assert CountSet([b, c, e]) == One(b) + One(c) + One(e);
    assert [a, b, c][1..] == [b, c] && [b, c][1..] == [c] && [c][1..] == [];
    assert CountSet([c]) == One(c);
    assert CountSet([b, c]) == One(b) + One(c);
  }

  predicate ScalarDecl(p: Parameter) {
    p.typ != "object" && p.typ != "array"
  }

  /** base[key] as opposed to base, base[0] and base[12]. */
  function MapKey(p: string): Option<(string, string)> {
    if p == "" || p[|p| - 1] != ']' then None
    else
      var at := LastIndex(p, '[');
      if at <= 0 then None
      else
        var inner := p[at + 1..|p| - 1];
        if inner != "" && forall c :: c in inner ==> Digit(c) then None else Some((p[..at], TrimQuotes(inner)))
  }

  function TrimQuotes(s: string): string {
    if s != "" && (s[0] == '"' || s[0] == '\'') then TrimQuotes(s[1..])
    else if s != "" && (s[|s| - 1] == '"' || s[|s| - 1] == '\'') then TrimQuotes(s[..|s| - 1])
    else s
  }

  predicate MapShaped(p: string, fields: FieldMap) {
    || (exists q :: q in fields && p + "[" <= q)
    || p in {"tags", "labels", "annotations"}
    || EndsWith(p, ".tags") || EndsWith(p, ".labels") || EndsWith(p, ".annotations")
  }

  /** Which declarations a field at path p can be wired from. */
  predicate FieldTypeOk(p: string, fields: FieldMap, decl: Parameter) {
    decl.typ != "array" && (decl.typ == "object" ==> MapKey(p).None? && MapShaped(p, fields))
  }

  /** A map set key by key may also be set whole only from an object parameter. */
  predicate WholeMapOk(d: Document, p: string, fields: FieldMap) {
    MapKey(p).Some? ==>
      && MapKey(p).value.1 != ""
      && (MapKey(p).value.0 in fields ==> ObjectParam(d, fields[MapKey(p).value.0].from))
  }

  predicate ObjectParam(d: Document, from: string) {
    PARAMS <= from &&
    var name := Split(from[|PARAMS|..], '.')[0];
    name != "" && name in d.parameters && d.parameters[name].typ == "object"
  }

  predicate FieldOk(d: Document, r: Resource, p: string, f: Field) {
    && WholeMapOk(d, p, r.fields)
    && CountSet([f.from, f.value, f.raw, f.template]) == 1
    && (f.template != "" ==> f.template in d.templates && r.provider != "k8s")
    && (f.from != "" ==> FromOk(d, r.name, f.from, decl => FieldTypeOk(p, r.fields, decl)))
  }

  /** A parameter reference that ends at a scalar. */
  predicate ScalarWire(d: Document, from: string) {
    && PARAMS <= from
    && ParamTarget(d, from[|PARAMS|..]).Some?
    && ScalarDecl(Last(ParamTarget(d, from[|PARAMS|..]).value))
  }

  predicate EnvelopeOk(d: Document, p: string, f: Field) {
    && (forall seg :: seg in Split(p, '.') ==> Camel(seg) && !YamlKeyword(seg))
    && CountSet([f.from, f.value, f.raw]) == 1
    && (f.from != "" ==>
          if ENV <= f.from then f.from[|ENV|..] in d.environment
          else ScalarWire(d, f.from))
  }

  predicate AnnotationOk(d: Document, r: Resource, f: Field) {
    && CountSet([f.from, f.value, f.raw, f.template]) == 1
    && (f.template != "" ==> f.template in d.templates)
    && (f.from != "" ==> FromOk(d, r.name, f.from, ScalarDecl))
  }

  /** The three forms of a loop bound. */
  predicate ForEachOk(d: Document, r: Resource) {
    r.forEach != "" ==>
      if RESOURCES <= r.forEach then StatusWireOk(d, Some(r.name), r.forEach)
      else if ENV <= r.forEach then
        r.forEach[|ENV|..] in d.environment && d.environment[r.forEach[|ENV|..]].typ == "integer"
      else
        && PARAMS <= r.forEach
        && LoopParamOk(d.parameters, r.forEach[|PARAMS|..])
  }

  predicate LoopParamOk(ps: Declarations, name: string) {
    '.' !in name && name in ps && ps[name].typ == "integer" && AlwaysSet(ps[name])
  }

  predicate WhenOk(d: Document, r: Resource) {
    r.when != "" ==>
      var w := ParseWhen(r.when);
      && w.Some?
      && if w.value.source == "env" then
           && w.value.name in d.environment
           && d.environment[w.value.name].typ == (if w.value.op == "" then "boolean" else "string")
         else TestParamOk(d.parameters, w.value)
  }

  predicate TestParamOk(ps: Declarations, w: When) {
    && w.name in ps && AlwaysSet(ps[w.name])
    && (if w.op == "" then ps[w.name].typ == "boolean"
        else ps[w.name].typ == "string" && (ps[w.name].enum != [] ==> w.literal in ps[w.name].enum))
  }

  predicate EnvelopeKeysOk(envelope: FieldMap) {
    forall p, q :: p in envelope && q in envelope ==> !Paths.Covers(p, q)
  }

  predicate ResourceOk(d: Document, r: Resource) {
    && ResourceName(r.name)
    && ForEachOk(d, r)
    && WhenOk(d, r)
    && (forall p :: p in r.fields ==> FieldOk(d, r, p, r.fields[p]))
    && (forall p :: p in r.envelope ==> EnvelopeOk(d, p, r.envelope[p]))
    && EnvelopeKeysOk(r.envelope)
    && (forall k :: k in r.annotations ==> !ReservedKey(k))
    && (forall k :: k in r.annotations ==> AnnotationOk(d, r, r.annotations[k]))
  }

  predicate UniqueNames(rs: seq<Resource>) {
    forall i, j :: 0 <= i < j < |rs| ==> rs[i].name != rs[j].name
  }

  predicate StatusOk(d: Document) {
    forall s :: s in d.statusWires ==> StatusWireOk(d, None, s)
  }

  predicate ResourcesOk(d: Document) {
    UniqueNames(d.resources) && forall r :: r in d.resources ==> ResourceOk(d, r)
  }

  predicate KeyOk(name: string, k: EnvironmentKey) {
    && ParamName(name)
    && k.typ in {"string", "integer", "number", "boolean"}
    && (k.default != "" ==>
          && (k.typ == "boolean" ==> Lower(k.default) in {"true", "false"})
          && (k.typ == "integer" ==> ParseInt(k.default).Some?)
          && (k.typ == "number" ==> Marked(k.default) || AllDigits(Magnitude(k.default))))
  }

  predicate EnvironmentOk(d: Document) {
    forall k :: k in d.environment ==> KeyOk(k, d.environment[k])
  }

  predicate Valid(d: Document) {
    EnvironmentOk(d) && ParametersOk(d) && StatusOk(d) && ResourcesOk(d)
  }

  // ----- what references mean -----

  /** What a reference leads to: declarations, or a resource by its place in
      the document together with the path below it. */
  datatype Meaning =
    | NoMeaning
    | Declared(chain: seq<Parameter>)
    | FromEnvironment(key: string)
    | Observed(at: int, path: seq<string>)
    | NameAt(at: int)

  function WireMeaning(d: Document, s: string): Meaning {
    var r := ParseFrom(s);
    if r.None? then NoMeaning
    else match r.value
      case ParamOf(ref) => if ParamTarget(d, ref).Some? then Declared(ParamTarget(d, ref).value) else NoMeaning
      case EnvOf(key) => FromEnvironment(key)
      case StatusOf(name, path) => Observed(IndexOf(d.resources, name), path)
      case NameOf(name) => NameAt(IndexOf(d.resources, name))
  }

  function LoopMeaning(d: Document, s: string): Meaning {
    if RESOURCES <= s then
      if StatusRef(s).None? then NoMeaning
      else Observed(IndexOf(d.resources, StatusRef(s).value.0), Split(StatusRef(s).value.1, '.'))
    else if ENV <= s then FromEnvironment(s[|ENV|..])
    else if PARAMS <= s && s[|PARAMS|..] in d.parameters then Declared([d.parameters[s[|PARAMS|..]]])
    else NoMeaning
  }

  /** The tested declaration or key, the operator and the literal. */
  function TestMeaning(d: Document, s: string): (Meaning, string, string) {
    var w := ParseWhen(s);
    if w.None? then (NoMeaning, "", "")
    else if w.value.source == "env" then (FromEnvironment(w.value.name), w.value.op, w.value.literal)
    else if w.value.name in d.parameters then (Declared([d.parameters[w.value.name]]), w.value.op, w.value.literal)
    else (NoMeaning, "", "")
  }

  ghost predicate SameWires(d: Document, m: FieldMap, d2: Document, m2: FieldMap) {
    && m2.Keys == m.Keys
    && forall p :: p in m ==>
        WireMeaning(d2, m2[p].from) == WireMeaning(d, m[p].from)
        && m2[p].(from := m[p].from) == m[p]
  }

  ghost predicate SameResource(d: Document, r: Resource, d2: Document, r2: Resource) {
    && SameWires(d, r.fields, d2, r2.fields)
    && SameWires(d, r.envelope, d2, r2.envelope)
    && SameWires(d, r.annotations, d2, r2.annotations)
    && LoopMeaning(d2, r2.forEach) == LoopMeaning(d, r.forEach)
    && TestMeaning(d2, r2.when) == TestMeaning(d, r.when)
  }

  ghost predicate SameMeaning(d: Document, d2: Document) {
    && |d2.resources| == |d.resources|
    && (forall i :: 0 <= i < |d.resources| ==> SameResource(d, d.resources[i], d2, d2.resources[i]))
    && |d2.statusWires| == |d.statusWires|
    && forall i :: 0 <= i < |d.statusWires| ==> WireMeaning(d2, d2.statusWires[i]) == WireMeaning(d, d.statusWires[i])
  }

  /** With unique names a lookup finds the one resource of that name. */
  lemma IndexUnique(rs: seq<Resource>, i: nat)
    requires UniqueNames(rs) && i < |rs|
    ensures IndexOf(rs, rs[i].name) == i
  {
  }
}
