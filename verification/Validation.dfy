/** Validate, pass by pass, against the predicates of a valid document
    (internal/blueprint/load.go, validate_resources.go, validate_params.go,
    validate_environment.go, envelope.go, annotations.go). */
module Validation {
  import opened Seqs
  import opened Template
  import opened Text
  import opened Numbers
  import opened Refs
  import opened Params
  import opened Paths
  import opened Blueprint

  // ----- references -----

  method CheckSegments(path: string) returns (ok: bool)
    ensures ok <==> forall seg :: seg in Split(path, '.') ==> Camel(seg)
  {
    var segs := Split(path, '.');
    for i := 0 to |segs|
      invariant forall j :: 0 <= j < i ==> Camel(segs[j])
    {
      if !Camel(segs[i]) {
        return false;
      }
    }
    return true;
  }

  /** The target of a wire: some other resource, and one without a loop. */
  method CheckTarget(d: Document, self: Option<string>, target: string) returns (ok: bool)
    ensures ok <==> (self.Some? ==> target != self.value) && UnloopedTarget(d, target)
  {
    if self.Some? && target == self.value {
      return false;
    }
    var i := ResourceIndex(d.resources, target);
    return i >= 0 && d.resources[i].forEach == "";
  }

  method ValidateStatusRef(d: Document, self: Option<string>, s: string) returns (ok: bool)
    ensures ok <==> StatusWireOk(d, self, s)
  {
    var ref := StatusRef(s);
    if ref.None? {
      return false;
    }
    var (target, path) := ref.value;
    ok := CheckTarget(d, self, target);
    if ok {
      ok := CheckSegments(path);
    }
  }

  method ValidateMetadataRef(d: Document, self: string, s: string) returns (ok: bool)
    ensures ok <==> NameWireOk(d, self, s)
  {
    var ref := MetadataRef(s);
    if ref.None? || ref.value.1 != "name" {
      return false;
    }
    ok := CheckTarget(d, Some(self), ref.value.0);
  }

  /** resolveParamRef: the declaration a dotted reference ends at. */
  method ResolveParamRef(ps: Declarations, ref: string) returns (decl: Option<Parameter>)
    ensures var r := Resolve(ps, Split(ref, '.')); decl == if r.None? then None else Some(Last(r.value))
  {
    var chain := ParamChain(ps, ref);
    if chain.None? {
      return None;
    }
    var (_, decls) := chain.value;
    return Some(decls[|decls| - 1]);
  }

  /** A from: of a field or annotation; decl is what a parameter reference ends at. */
  method CheckFrom(d: Document, self: string, s: string) returns (ok: bool, decl: Option<Parameter>)
    ensures decl.Some? ==> ok
    ensures forall typed: Parameter -> bool :: FromOk(d, self, s, typed) <==> ok && (decl.Some? ==> typed(decl.value))
  {
    decl := None;
    var ref := ParseFrom(s);
    if ref.None? {
      return false, None;
    }
    match ref.value {
      case StatusOf(_, _) =>
        ok := ValidateStatusRef(d, Some(self), s);
      case NameOf(_) =>
        ok := ValidateMetadataRef(d, self, s);
      case EnvOf(key) =>
        ok := key in d.environment;
      case ParamOf(param) =>
        decl := ResolveParamRef(d.parameters, param);
        ok := decl.Some?;
    }
  }

  method CountValues(texts: seq<string>) returns (count: nat)
    ensures count == CountSet(texts)
  {
    count := 0;
    assert texts[0..] == texts;
    for i := 0 to |texts|
      invariant count + CountSet(texts[i..]) == CountSet(texts)
    {
      assert texts[i..][1..] == texts[i + 1..];
      if texts[i] != "" {
        count := count + 1;
      }
    }
  }

  // ----- fields, envelope, annotations -----

  method HasChildMapKeys(p: string, fields: FieldMap) returns (found: bool)
    ensures found <==> exists q :: q in fields && p + "[" <= q
  {
    var todo := fields.Keys;
    while todo != {}
      invariant todo <= fields.Keys
      invariant forall q :: q in fields && q !in todo ==> !(p + "[" <= q)
      decreases |todo|
    {
      var q :| q in todo;
      if p + "[" <= q {
        return true;
      }
      todo := todo - {q};
    }
    return false;
  }

  method CheckFieldType(p: string, fields: FieldMap, decl: Parameter) returns (ok: bool)
    ensures ok <==> FieldTypeOk(p, fields, decl)
  {
    if decl.typ == "array" {
      return false;
    }
    if decl.typ == "object" {
      if MapKey(p).Some? {
        return false;
      }
      var hasChildMapKeys := HasChildMapKeys(p, fields);
      return hasChildMapKeys || p == "tags" || p == "labels" || p == "annotations"
        || EndsWith(p, ".tags") || EndsWith(p, ".labels") || EndsWith(p, ".annotations");
    }
    return true;
  }

  method CheckField(d: Document, r: Resource, p: string) returns (ok: bool)
    requires p in r.fields
    ensures ok <==> FieldOk(d, r, p, r.fields[p])
  {
    var key := MapKey(p);
    if key.Some? {
      var (base, mapKey) := key.value;
      if mapKey == "" {
        return false;
      }
      if base in r.fields && !ObjectParam(d, r.fields[base].from) {
        return false;
      }
    }
    var f := r.fields[p];
    var count := CountValues([f.from, f.value, f.raw, f.template]);
    if count != 1 {
      return false;
    }
    if f.template != "" && (f.template !in d.templates || r.provider == "k8s") {
      return false;
    }
    ok := true;
    if f.from != "" {
      var decl;
      ok, decl := CheckFrom(d, r.name, f.from);
      if decl.Some? {
        ok := CheckFieldType(p, r.fields, decl.value);
      }
    }
  }

  method ValidateFields(d: Document, r: Resource) returns (ok: bool)
    ensures ok <==> forall p :: p in r.fields ==> FieldOk(d, r, p, r.fields[p])
  {
    var paths := SortedKeys(r.fields.Keys);
    for i := 0 to |paths|
      invariant forall p :: p in paths[..i] ==> p in r.fields && FieldOk(d, r, p, r.fields[p])
    {
      assert paths[i] in paths;
      ok := CheckField(d, r, paths[i]);
      if !ok {
        return;
      }
      Grown(paths, i);
    }
    assert paths[..|paths|] == paths;
    return true;
  }

  method CheckEntry(d: Document, p: string, f: Field) returns (ok: bool)
    ensures ok <==> EnvelopeOk(d, p, f)
  {
    var segs := Split(p, '.');
    for i := 0 to |segs|
      invariant forall j :: 0 <= j < i ==> Camel(segs[j]) && !YamlKeyword(segs[j])
    {
      if !Camel(segs[i]) || YamlKeyword(segs[i]) {
        return false;
      }
    }
    var count := CountValues([f.from, f.value, f.raw]);
    if count != 1 {
      return false;
    }
    if f.from == "" {
      return true;
    }
    if ENV <= f.from {
      return f.from[|ENV|..] in d.environment;
    }
    if !(PARAMS <= f.from) {
      return false;
    }
    var decl := ResolveParamRef(d.parameters, f.from[|PARAMS|..]);
    return decl.Some? && decl.value.typ != "object" && decl.value.typ != "array";
  }

  method CheckEntries(d: Document, envelope: FieldMap, paths: seq<string>) returns (ok: bool)
    requires forall p :: p in paths <==> p in envelope
    ensures ok <==> forall p :: p in envelope ==> EnvelopeOk(d, p, envelope[p])
  {
    for i := 0 to |paths|
      invariant forall p :: p in paths[..i] ==> p in envelope && EnvelopeOk(d, p, envelope[p])
    {
      assert paths[i] in paths;
      ok := CheckEntry(d, paths[i], envelope[paths[i]]);
      if !ok {
        return;
      }
      Grown(paths, i);
    }
    assert paths[..|paths|] == paths;
    return true;
  }

  /** Every entry, then the conflicts, which neighbours in sorted order show. */
  method ValidateEnvelope(d: Document, r: Resource) returns (ok: bool)
    ensures ok <==> (forall p :: p in r.envelope ==> EnvelopeOk(d, p, r.envelope[p])) && EnvelopeKeysOk(r.envelope)
  {
    var paths := SortedKeys(r.envelope.Keys);
    ok := CheckEntries(d, r.envelope, paths);
    if !ok {
      return;
    }
    CamelKeys(d, r.envelope, paths);
    ok := CheckConflicts(paths);
    KeysFree(r.envelope, paths);
  }

  lemma CamelKeys(d: Document, envelope: FieldMap, paths: seq<string>)
    requires forall p :: p in paths ==> p in envelope && EnvelopeOk(d, p, envelope[p])
    ensures forall p :: p in paths ==> CamelDotted(p)
  {
    forall p | p in paths ensures CamelDotted(p) {
      assert EnvelopeOk(d, p, envelope[p]);
    }
  }

  lemma KeysFree(envelope: FieldMap, paths: seq<string>)
    requires forall p :: p in paths <==> p in envelope
    ensures PrefixFree(paths) <==> EnvelopeKeysOk(envelope)
  {
    if PrefixFree(paths) {
      forall p, q | p in envelope && q in envelope ensures !Covers(p, q) {
        var i :| 0 <= i < |paths| && paths[i] == p;
        var j :| 0 <= j < |paths| && paths[j] == q;
      }
    }
    if EnvelopeKeysOk(envelope) {
      forall i, j | 0 <= i < |paths| && 0 <= j < |paths| ensures !Covers(paths[i], paths[j]) {
        assert paths[i] in paths && paths[j] in paths;
      }
    }
  }

  method CheckAnnotation(d: Document, r: Resource, f: Field) returns (ok: bool)
    ensures ok <==> AnnotationOk(d, r, f)
  {
    var count := CountValues([f.from, f.value, f.raw, f.template]);
    if count != 1 || (f.template != "" && f.template !in d.templates) {
      return false;
    }
    ok := true;
    if f.from != "" {
      var decl;
      ok, decl := CheckFrom(d, r.name, f.from);
      if decl.Some? {
        ok := decl.value.typ != "object" && decl.value.typ != "array";
      }
    }
  }

  predicate AnnotationFits(d: Document, r: Resource, k: string) {
    k in r.annotations && !ReservedKey(k) && AnnotationOk(d, r, r.annotations[k])
  }

  method CheckAnnotationAt(d: Document, r: Resource, k: string) returns (ok: bool)
    requires k in r.annotations
    ensures ok <==> AnnotationFits(d, r, k)
  {
    if ReservedKey(k) {
      return false;
    }
    ok := CheckAnnotation(d, r, r.annotations[k]);
  }

  method ValidateAnnotations(d: Document, r: Resource) returns (ok: bool)
    ensures ok <==> forall k :: k in r.annotations ==> AnnotationFits(d, r, k)
  {
    var keys := SortedKeys(r.annotations.Keys);
    for i := 0 to |keys|
      invariant forall k :: k in keys[..i] ==> AnnotationFits(d, r, k)
    {
      assert keys[i] in keys;
      ok := CheckAnnotationAt(d, r, keys[i]);
      if !ok {
        return;
      }
      Grown(keys, i);
    }
    assert keys[..|keys|] == keys;
    return true;
  }

  // ----- loop bound and condition -----

  method ValidateForEach(d: Document, r: Resource) returns (ok: bool)
    ensures ok <==> ForEachOk(d, r)
  {
    if r.forEach == "" {
      return true;
    }
    if RESOURCES <= r.forEach {
      ok := ValidateStatusRef(d, Some(r.name), r.forEach);
    } else if ENV <= r.forEach {
      var key := r.forEach[|ENV|..];
      ok := key in d.environment && d.environment[key].typ == "integer";
    } else if PARAMS <= r.forEach {
      var param := r.forEach[|PARAMS|..];
      if '.' in param || param !in d.parameters {
        return false;
      }
      var decl := d.parameters[param];
      ok := decl.typ == "integer" && (decl.required || decl.default != "");
    } else {
      ok := false;
    }
  }

  method ValidateWhen(d: Document, r: Resource) returns (ok: bool)
    ensures ok <==> WhenOk(d, r)
  {
    if r.when == "" {
      return true;
    }
    var w := ParseWhen(r.when);
    if w.None? {
      return false;
    }
    var When(source, name, op, literal) := w.value;
    if source == "env" {
      if name !in d.environment {
        return false;
      }
      return if op == "" then d.environment[name].typ == "boolean" else d.environment[name].typ == "string";
    }
    if name !in d.parameters {
      return false;
    }
    var decl := d.parameters[name];
    if !decl.required && decl.default == "" {
      return false;
    }
    if op == "" {
      return decl.typ == "boolean";
    }
    return decl.typ == "string" && (decl.enum == [] || literal in decl.enum);
  }

  // ----- the passes -----

  method ValidateResource(d: Document, r: Resource) returns (ok: bool)
    ensures ok <==> ResourceOk(d, r)
  {
    if !ResourceName(r.name) {
      return false;
    }
    ok := ValidateForEach(d, r);
    if ok {
      ok := ValidateWhen(d, r);
    }
    if ok {
      ok := ValidateFields(d, r);
    }
    if ok {
      ok := ValidateEnvelope(d, r);
    }
    if ok {
      ok := ValidateAnnotations(d, r);
    }
  }

  /** The pass over the names. */
  method CheckNames(rs: seq<Resource>) returns (ok: bool)
    ensures ok <==> UniqueNames(rs)
  {
    var names: set<string> := {};
    for i := 0 to |rs|
      invariant forall n :: n in names <==> exists j :: 0 <= j < i && rs[j].name == n
      invariant UniqueNames(rs[..i])
    {
      if rs[i].name in names {
        return false;
      }
      assert rs[..i + 1] == rs[..i] + [rs[i]];
      names := names + {rs[i].name};
    }
    assert rs[..|rs|] == rs;
    return true;
  }

  /** validateResources: the pass over the names, then the pass over the resources. */
  method ValidateResources(d: Document) returns (ok: bool)
    ensures ok <==> ResourcesOk(d)
  {
    ok := CheckNames(d.resources);
    if !ok {
      return;
    }
    for i := 0 to |d.resources|
      invariant forall j :: 0 <= j < i ==> ResourceOk(d, d.resources[j])
    {
      ok := ValidateResource(d, d.resources[i]);
      if !ok {
        assert d.resources[i] in d.resources;
        return;
      }
    }
    return true;
  }

  method HasManagedResources(d: Document) returns (found: bool)
    ensures found <==> HasManaged(d)
  {
    for i := 0 to |d.resources|
      invariant forall j :: 0 <= j < i ==> !Managed(d, d.resources[j])
    {
      if Managed(d, d.resources[i]) {
        assert d.resources[i] in d.resources;
        return true;
      }
    }
    return false;
  }

  predicate Declares(ps: Declarations, name: string) {
    name in ps && ParamName(name) && DeclOk(ps[name])
  }

  /** A declaration and, depth first, its members. */
  method CheckDeclaration(p: Parameter) returns (ok: bool)
    ensures ok <==> DeclOk(p)
    decreases p, 1
  {
    if p.typ !in {"string", "integer", "number", "boolean", "object"} {
      return false;
    }
    if |p.properties| > 0 && p.typ != "object" {
      return false;
    }
    ok := CheckMembers(p);
  }

  method CheckMember(ps: Declarations, name: string) returns (ok: bool)
    requires name in ps
    ensures ok <==> Declares(ps, name)
    decreases ps[name], 2
  {
    if !ParamName(name) {
      return false;
    }
    ok := CheckDeclaration(ps[name]);
  }

  method CheckMembers(p: Parameter) returns (ok: bool)
    ensures ok <==> forall m :: m in p.properties ==> Declares(p.properties, m)
    decreases p, 0
  {
    var names := SortedKeys(p.properties.Keys);
    for i := 0 to |names|
      invariant forall n :: n in names[..i] ==> Declares(p.properties, n)
    {
      assert names[i] in names;
      ok := CheckMember(p.properties, names[i]);
      if !ok {
        return;
      }
      Grown(names, i);
    }
    assert names[..|names|] == names;
    return true;
  }

  method ValidateParameters(d: Document) returns (ok: bool)
    ensures ok <==> ParametersOk(d)
  {
    var names := SortedKeys(d.parameters.Keys);
    for i := 0 to |names|
      invariant forall n :: n in names[..i] ==> Declares(d.parameters, n)
    {
      assert names[i] in names;
      ok := CheckMember(d.parameters, names[i]);
      if !ok {
        return;
      }
      Grown(names, i);
    }
    assert names[..|names|] == names;
    ok := CheckProviderName(d);
  }

  method CheckProviderName(d: Document) returns (ok: bool)
    ensures ok <==> (HasManaged(d) ==> ProviderNameOk(d.parameters))
  {
    var managed := HasManagedResources(d);
    if !managed {
      return true;
    }
    if "providerName" !in d.parameters {
      return false;
    }
    var p := d.parameters["providerName"];
    return p.typ == "string" && p.required;
  }

  method CheckDefault(typ: string, default: string) returns (ok: bool)
    ensures ok <==>
            && (typ == "boolean" ==> Lower(default) in {"true", "false"})
            && (typ == "integer" ==> ParseInt(default).Some?)
            && (typ == "number" ==> Marked(default) || AllDigits(Magnitude(default)))
  {
    match typ {
      case "boolean" => ok := Lower(default) in {"true", "false"};
      case "integer" => ok := ParseInt(default).Some?;
      case "number" => ok := Marked(default) || AllDigits(Magnitude(default));
      case _ => ok := true;
    }
  }

  method CheckKey(name: string, k: EnvironmentKey) returns (ok: bool)
    ensures ok <==> KeyOk(name, k)
  {
    if !ParamName(name) || k.typ !in {"string", "integer", "number", "boolean"} {
      return false;
    }
    ok := true;
    if k.default != "" {
      ok := CheckDefault(k.typ, k.default);
    }
  }

  method ValidateEnvironment(d: Document) returns (ok: bool)
    ensures ok <==> EnvironmentOk(d)
  {
    var names := SortedKeys(d.environment.Keys);
    for i := 0 to |names|
      invariant forall n :: n in names[..i] ==> n in d.environment && KeyOk(n, d.environment[n])
    {
      assert names[i] in names;
      ok := CheckKey(names[i], d.environment[names[i]]);
      if !ok {
        return;
      }
      Grown(names, i);
    }
    assert names[..|names|] == names;
    return true;
  }

  method ValidateStatus(d: Document) returns (ok: bool)
    ensures ok <==> StatusOk(d)
  {
    for i := 0 to |d.statusWires|
      invariant forall j :: 0 <= j < i ==> StatusWireOk(d, None, d.statusWires[j])
    {
      ok := ValidateStatusRef(d, None, d.statusWires[i]);
      if !ok {
        assert d.statusWires[i] in d.statusWires;
        return;
      }
    }
    return true;
  }

  method Validate(d: Document) returns (ok: bool)
    ensures ok <==> Valid(d)
  {
    ok := ValidateEnvironment(d);
    if ok {
      ok := ValidateParameters(d);
    }
    if ok {
      ok := ValidateStatus(d);
    }
    if ok {
      ok := ValidateResources(d);
    }
  }

  // ----- what a valid document never contains -----

  predicate Keyword(s: string) {
    Lower(s) in {"true", "false", "yes", "no", "on", "off", "null", "y", "n"}
  }

  /** Of the texts that can set an entry exactly one is given. */
  predicate ExactlyOne(f: Field) {
    || (f.from != "" && f.value == "" && f.raw == "" && f.template == "")
    || (f.from == "" && f.value != "" && f.raw == "" && f.template == "")
    || (f.from == "" && f.value == "" && f.raw != "" && f.template == "")
    || (f.from == "" && f.value == "" && f.raw == "" && f.template != "")
  }

  lemma OneText(f: Field)
    ensures CountSet([f.from, f.value, f.raw, f.template]) == 1 ==> ExactlyOne(f)
    ensures CountSet([f.from, f.value, f.raw]) == 1 ==> ExactlyOne(f.(template := ""))
  {
    CountParts(f.from, f.value, f.raw, f.template);
  }

  /** Every entry of a resource is set in one way, from templates that exist. */
  lemma EntryRules(d: Document, r: Resource)
    requires Valid(d) && r in d.resources
    ensures forall p :: p in r.fields ==>
              ExactlyOne(r.fields[p])
              && (r.fields[p].template != "" ==> r.fields[p].template in d.templates && r.provider != "k8s")
    ensures forall k :: k in r.annotations ==>
              ExactlyOne(r.annotations[k])
              && (r.annotations[k].template != "" ==> r.annotations[k].template in d.templates)
    ensures forall p :: p in r.envelope ==> ExactlyOne(r.envelope[p].(template := ""))
  {
    assert ResourceOk(d, r);
    forall p | p in r.fields ensures ExactlyOne(r.fields[p]) {
      assert FieldOk(d, r, p, r.fields[p]);
      OneText(r.fields[p]);
    }
    forall k | k in r.annotations ensures ExactlyOne(r.annotations[k]) {
      assert AnnotationOk(d, r, r.annotations[k]);
      OneText(r.annotations[k]);
    }
    forall p | p in r.envelope ensures ExactlyOne(r.envelope[p].(template := "")) {
      assert EnvelopeOk(d, p, r.envelope[p]);
      OneText(r.envelope[p]);
    }
  }

  /** Names are DNS labels, no keywords, and unique; the name annotations are left
      to the generator; envelope paths are identifiers, and none continues another. */
  lemma NameRules(d: Document, r: Resource)
    requires Valid(d) && r in d.resources
    ensures DnsLabel(r.name) && !Keyword(r.name)
    ensures forall q :: q in d.resources && q.name == r.name ==> q == r
    ensures "gotemplating.fn.crossplane.io/composition-resource-name" !in r.annotations
    ensures "crossplane.io/composition-resource-name" !in r.annotations
    ensures forall p, seg :: p in r.envelope && seg in Split(p, '.') ==> Camel(seg) && !Keyword(seg)
    ensures forall p, q :: p in r.envelope && q in r.envelope ==> !(p + "." <= q)
  {
    assert ResourceOk(d, r);
    forall q | q in d.resources && q.name == r.name ensures q == r {
      var i :| 0 <= i < |d.resources| && d.resources[i] == q;
      var j :| 0 <= j < |d.resources| && d.resources[j] == r;
    }
    assert ReservedKey(NAME_ANNOTATION) && ReservedKey("crossplane.io/composition-resource-name");
    forall p | p in r.envelope ensures EnvelopeOk(d, p, r.envelope[p]) {
    }
    forall p, q | p in r.envelope && q in r.envelope ensures !(p + "." <= q) {
      assert !Covers(p, q);
    }
  }

  /** What the declarations of a valid document keep to. */
  lemma DeclarationRules(d: Document)
    requires Valid(d)
    ensures forall n :: n in d.parameters ==> Camel(n) && Lower(n) !in {"true", "false", "null"}
    ensures forall n :: n in d.parameters ==>
              && d.parameters[n].typ in {"string", "integer", "number", "boolean", "object"}
              && (d.parameters[n].properties != map[] ==> d.parameters[n].typ == "object")
              && forall m :: m in d.parameters[n].properties ==> Camel(m) && Lower(m) !in {"true", "false", "null"}
    ensures forall r :: r in d.resources && Managed(d, r) ==>
              "providerName" in d.parameters && d.parameters["providerName"].typ == "string"
              && d.parameters["providerName"].required
    ensures forall k :: k in d.environment ==>
              && Camel(k) && Lower(k) !in {"true", "false", "null"}
              && d.environment[k].typ in {"string", "integer", "number", "boolean"}
              && (d.environment[k].typ == "boolean" ==> Lower(d.environment[k].default) in {"", "true", "false"})
              && (d.environment[k].typ == "integer" && d.environment[k].default != "" ==>
                  ParseInt(d.environment[k].default).Some?)
  {
    forall k | k in d.environment ensures KeyOk(k, d.environment[k]) {
    }
    assert Lower("") == "";
  }

  /** What conditions and loop bounds of a valid document test and count. */
  lemma TestRules(d: Document, r: Resource)
    requires Valid(d) && r in d.resources
    ensures r.when != "" ==>
              var w := ParseWhen(r.when);
              && w.Some?
              && (w.value.source == "params" ==>
                  && w.value.name in d.parameters
                  && (d.parameters[w.value.name].required || d.parameters[w.value.name].default != "")
                  && d.parameters[w.value.name].typ == (if w.value.op == "" then "boolean" else "string")
                  && (w.value.op != "" && d.parameters[w.value.name].enum != [] ==>
                      w.value.literal in d.parameters[w.value.name].enum))
              && (w.value.source == "env" ==>
                  && w.value.name in d.environment
                  && d.environment[w.value.name].typ == (if w.value.op == "" then "boolean" else "string"))
    ensures forall n :: r.forEach == "params." + n ==>
              && n in d.parameters && d.parameters[n].typ == "integer"
              && (d.parameters[n].required || d.parameters[n].default != "")
    ensures forall k :: r.forEach == "env." + k ==> k in d.environment && d.environment[k].typ == "integer"
  {
    assert ResourceOk(d, r);
    forall n | r.forEach == "params." + n ensures LoopParamOk(d.parameters, n) {
      assert PARAMS == "params." && r.forEach[|PARAMS|..] == n;
      Families(r.forEach);
    }
    forall k | r.forEach == "env." + k ensures k in d.environment && d.environment[k].typ == "integer" {
      assert ENV == "env." && r.forEach[|ENV|..] == k;
      Families(r.forEach);
    }
  }
}
