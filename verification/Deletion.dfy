/** The scans that guard a deletion (internal/blueprint/edit.go:137-205,
    306-321) and why they are exact. */
module Deletion {
  import opened Seqs
  import opened Template
  import opened Text
  import opened Refs
  import opened Params
  import opened Blueprint
  import opened Rewrite
  import RenameParam
  import RenameResource

  // ----- scanning for a parameter -----

  predicate WiresFrom(f: Field, want: string) {
    f.from == want || want + "." <= f.from
  }

  ghost predicate AnyWire(m: FieldMap, want: string) {
    exists p :: p in m && WiresFrom(m[p], want)
  }

  /** Free text is searched by patterns; uses says what they find. */
  ghost predicate AnyText(m: FieldMap, uses: string -> bool) {
    exists p :: p in m && m[p].raw != "" && uses(m[p].raw)
  }

  function TestedParam(when: string): string {
    var w := ParseWhen(when);
    if when == "" || w.None? || w.value.source != "params" then "" else w.value.name
  }

  ghost predicate RefersToParam(r: Resource, name: string, uses: string -> bool) {
    || r.forEach == PARAMS + name || TestedParam(r.when) == name
    || AnyWire(r.fields, PARAMS + name) || AnyWire(r.envelope, PARAMS + name) || AnyWire(r.annotations, PARAMS + name)
    || AnyText(r.fields, uses) || AnyText(r.envelope, uses) || AnyText(r.annotations, uses)
  }

  method AnyFrom(m: FieldMap, want: string) returns (found: bool)
    ensures found <==> AnyWire(m, want)
  {
    var todo := m.Keys;
    while todo != {}
      invariant todo <= m.Keys
      invariant forall p :: p in m && p !in todo ==> !WiresFrom(m[p], want)
      decreases |todo|
    {
      var p :| p in todo;
      if WiresFrom(m[p], want) {
        return true;
      }
      todo := todo - {p};
    }
    return false;
  }

  method AnyRaw(m: FieldMap, uses: string -> bool) returns (found: bool)
    ensures found <==> AnyText(m, uses)
  {
    var todo := m.Keys;
    while todo != {}
      invariant todo <= m.Keys
      invariant forall p :: p in m && p !in todo ==> m[p].raw == "" || !uses(m[p].raw)
      decreases |todo|
    {
      var p :| p in todo;
      if m[p].raw != "" && uses(m[p].raw) {
        return true;
      }
      todo := todo - {p};
    }
    return false;
  }

  /** The names, in resource order, of the resources that satisfy refers. */
  ghost function NamesWhere(rs: seq<Resource>, refers: Resource -> bool): (names: seq<string>)
    ensures names == [] <==> forall r :: r in rs ==> !refers(r)
  {
    if rs == [] then []
    else
      var last := |rs| - 1;
      assert forall r :: r in rs <==> r in rs[..last] || r == rs[last];
      NamesWhere(rs[..last], refers) + if refers(rs[last]) then [rs[last].name] else []
  }

  /** The names of the resources at these places, which are all that satisfy
      refers. */
  ghost predicate Places(rs: seq<Resource>, refers: Resource -> bool, at: seq<nat>, names: seq<string>) {
    Picks(rs, refers, at) && |names| == |at| && forall k :: 0 <= k < |at| ==> names[k] == rs[at[k]].name
  }

  lemma {:induction false} NamesPlaced(rs: seq<Resource>, refers: Resource -> bool) returns (at: seq<nat>)
    ensures Places(rs, refers, at, NamesWhere(rs, refers))
  {
    if rs == [] {
      at := [];
    } else {
      var last := |rs| - 1;
      var front := NamesPlaced(rs[..last], refers);
      at := if refers(rs[last]) then front + [last] else front;
      PicksSnoc(rs, refers, front);
    }
  }

  ghost function ParamReferrers(d: Document, name: string, uses: string -> bool): (names: seq<string>)
    ensures names == [] <==> forall r :: r in d.resources ==> !RefersToParam(r, name, uses)
  {
    NamesWhere(d.resources, r => RefersToParam(r, name, uses))
  }

  method ReferencingResources(d: Document, name: string, uses: string -> bool) returns (refs: seq<string>)
    ensures refs == ParamReferrers(d, name, uses)
  {
    refs := [];
    ghost var refers := r => RefersToParam(r, name, uses);
    for i := 0 to |d.resources|
      invariant refs == NamesWhere(d.resources[..i], refers)
    {
      var r := d.resources[i];
      assert d.resources[..i + 1][..i] == d.resources[..i];
      var fields := AnyFrom(r.fields, PARAMS + name);
      var envelope := AnyFrom(r.envelope, PARAMS + name);
      var annotations := AnyFrom(r.annotations, PARAMS + name);
      var rawFields := AnyRaw(r.fields, uses);
      var rawEnvelope := AnyRaw(r.envelope, uses);
      var rawAnnotations := AnyRaw(r.annotations, uses);
      if r.forEach == PARAMS + name || TestedParam(r.when) == name ||
         fields || envelope || annotations || rawFields || rawEnvelope || rawAnnotations {
        refs := refs + [r.name];
      }
    }
    assert d.resources[..|d.resources|] == d.resources;
  }

  // ----- scanning for a resource -----

  predicate FromResource(s: string, name: string) {
    var r := ParseFrom(s);
    s != "" && r.Some? && (r.value.StatusOf? || r.value.NameOf?) && r.value.resource == name
  }

  ghost predicate AnyFromResource(m: FieldMap, name: string, uses: string -> bool) {
    exists p :: p in m && (FromResource(m[p].from, name) || (m[p].raw != "" && uses(m[p].raw)))
  }

  predicate LoopsOver(s: string, name: string) {
    StatusRef(s).Some? && StatusRef(s).value.0 == name
  }

  ghost predicate RefersToResource(r: Resource, name: string, uses: string -> bool) {
    r.name != name &&
    (|| LoopsOver(r.forEach, name)
     || AnyFromResource(r.fields, name, uses) || AnyFromResource(r.annotations, name, uses)
         || AnyFromResource(r.envelope, name, uses))
  }

  method AnyStatusFrom(m: FieldMap, name: string, uses: string -> bool) returns (found: bool)
    ensures found <==> AnyFromResource(m, name, uses)
  {
    var todo := m.Keys;
    while todo != {}
      invariant todo <= m.Keys
      invariant forall p :: p in m && p !in todo ==>
                !FromResource(m[p].from, name)
                && (m[p].raw == "" || !uses(m[p].raw))
      decreases |todo|
    {
      var p :| p in todo;
      if FromResource(m[p].from, name) {
        return true;
      }
      if m[p].raw != "" && uses(m[p].raw) {
        return true;
      }
      todo := todo - {p};
    }
    return false;
  }

  ghost function ResourceReferrers(d: Document, name: string, uses: string -> bool): (names: seq<string>)
    ensures names == [] <==> forall r :: r in d.resources ==> !RefersToResource(r, name, uses)
  {
    NamesWhere(d.resources, r => RefersToResource(r, name, uses))
  }

  method StatusReferencingResources(d: Document, name: string, uses: string -> bool) returns (refs: seq<string>)
    ensures refs == ResourceReferrers(d, name, uses)
  {
    refs := [];
    ghost var refers := r => RefersToResource(r, name, uses);
    for i := 0 to |d.resources|
      invariant refs == NamesWhere(d.resources[..i], refers)
    {
      var r := d.resources[i];
      assert d.resources[..i + 1][..i] == d.resources[..i];
      if r.name == name {
        continue;
      }
      if LoopsOver(r.forEach, name) {
        refs := refs + [r.name];
        continue;
      }
      var fields := AnyStatusFrom(r.fields, name, uses);
      var annotations := AnyStatusFrom(r.annotations, name, uses);
      var envelope := AnyStatusFrom(r.envelope, name, uses);
      if fields || annotations || envelope {
        refs := refs + [r.name];
      }
    }
    assert d.resources[..|d.resources|] == d.resources;
  }

  // ----- the parameter scan is exact -----

  function WithoutParameter(d: Document, name: string): Document {
    d.(parameters := d.parameters - {name})
  }

  predicate TextSilent(d: Document, uses: string -> bool) {
    && (forall r :: r in d.resources ==>
        FieldsSilent(r.fields, uses) && FieldsSilent(r.envelope, uses)
        && FieldsSilent(r.annotations, uses))
    && forall n :: n in d.templates ==> !uses(d.templates[n])
  }

  predicate FieldsSilent(m: FieldMap, uses: string -> bool) {
    forall p :: p in m && m[p].raw != "" ==> !uses(m[p].raw)
  }

  /** A wire of the scanned form starts, as a reference, at the name. */
  lemma WireStarts(s: string, name: string)
    requires '.' !in name
    ensures s == PARAMS + name || PARAMS + name + "." <= s <==> PARAMS <= s && Split(s[|PARAMS|..], '.')[0] == name
  {
    if PARAMS <= s {
      var ref := s[|PARAMS|..];
      assert s == PARAMS + ref;
      FirstSegment(ref, name);
      PrefixBehind(PARAMS, name, ref);
      PrefixBehind(PARAMS, name + ".", ref);
      Assoc(PARAMS, name, ".");
    } else {
      OtherWiresKept(s, name, "");
      Longer(PARAMS, name, s);
      Longer(PARAMS, name + ".", s);
      Assoc(PARAMS, name, ".");
    }
  }

  lemma TargetWithout(d: Document, name: string, ref: string)
    ensures ParamTarget(WithoutParameter(d, name), ref) == if Split(ref, '.')[0] == name then None
            else ParamTarget(d, ref)
  {
  }

  lemma FromWithout(d: Document, name: string, self: string, s: string, typed: Parameter -> bool)
    requires FromOk(d, self, s, typed) && '.' !in name
    ensures FromOk(WithoutParameter(d, name), self, s, typed) <==> !(s == PARAMS + name || PARAMS + name + "." <= s)
  {
    WireStarts(s, name);
    Families(s);
    if PARAMS <= s {
      TargetWithout(d, name, s[|PARAMS|..]);
    }
  }

  lemma ObjectWithout(d: Document, name: string, s: string)
    requires ObjectParam(d, s) && '.' !in name && !(s == PARAMS + name || PARAMS + name + "." <= s)
    ensures ObjectParam(WithoutParameter(d, name), s)
  {
    WireStarts(s, name);
  }

  lemma FieldsWithout(d: Document, r: Resource, name: string)
    requires ResourceOk(d, r) && '.' !in name
    ensures (forall p :: p in r.fields ==> FieldOk(WithoutParameter(d, name), r, p, r.fields[p])) <==>
            !AnyWire(r.fields, PARAMS + name)
  {
    var d2 := WithoutParameter(d, name);
    forall p | p in r.fields && r.fields[p].from != ""
      ensures FromOk(d2, r.name, r.fields[p].from, decl => FieldTypeOk(p, r.fields, decl)) <==>
              !WiresFrom(r.fields[p], PARAMS + name)
    {
      assert FieldOk(d, r, p, r.fields[p]);
      FromWithout(d, name, r.name, r.fields[p].from, decl => FieldTypeOk(p, r.fields, decl));
    }
    forall p | p in r.fields && WiresFrom(r.fields[p], PARAMS + name) ensures !FieldOk(d2, r, p, r.fields[p]) {
      assert r.fields[p].from != "";
    }
    if !AnyWire(r.fields, PARAMS + name) {
      forall p | p in r.fields ensures FieldOk(d2, r, p, r.fields[p]) {
        assert FieldOk(d, r, p, r.fields[p]);
        assert !WiresFrom(r.fields[p], PARAMS + name);
        var m := MapKey(p);
        if m.Some? && m.value.0 in r.fields {
          assert !WiresFrom(r.fields[m.value.0], PARAMS + name);
          ObjectWithout(d, name, r.fields[m.value.0].from);
        }
      }
    }
  }

  lemma EnvelopeWithout(d: Document, r: Resource, name: string)
    requires ResourceOk(d, r) && '.' !in name
    ensures (forall p :: p in r.envelope ==> EnvelopeOk(WithoutParameter(d, name), p, r.envelope[p])) <==>
            !AnyWire(r.envelope, PARAMS + name)
  {
    var d2 := WithoutParameter(d, name);
    forall p | p in r.envelope ensures EnvelopeOk(d2, p, r.envelope[p]) <==> !WiresFrom(r.envelope[p], PARAMS + name) {
      var s := r.envelope[p].from;
      assert EnvelopeOk(d, p, r.envelope[p]);
      Families(s);
      WireStarts(s, name);
      if PARAMS <= s {
        TargetWithout(d, name, s[|PARAMS|..]);
      }
    }
  }

  lemma AnnotationsWithout(d: Document, r: Resource, name: string)
    requires ResourceOk(d, r) && '.' !in name
    ensures (forall k :: k in r.annotations ==> AnnotationOk(WithoutParameter(d, name), r, r.annotations[k])) <==>
            !AnyWire(r.annotations, PARAMS + name)
  {
    var d2 := WithoutParameter(d, name);
    forall k | k in r.annotations ensures AnnotationOk(d2, r, r.annotations[k]) <==>
        !WiresFrom(r.annotations[k], PARAMS + name) {
      var s := r.annotations[k].from;
      assert AnnotationOk(d, r, r.annotations[k]);
      if s != "" {
        FromWithout(d, name, r.name, s, ScalarDecl);
      }
    }
  }

  lemma LoopWithout(d: Document, r: Resource, name: string)
    requires ForEachOk(d, r) && '.' !in name
    ensures ForEachOk(WithoutParameter(d, name), r) <==> r.forEach != PARAMS + name
  {
    Families(r.forEach);
    if PARAMS <= r.forEach {
      assert r.forEach == PARAMS + r.forEach[|PARAMS|..];
      PrefixBehind(PARAMS, name, r.forEach[|PARAMS|..]);
    }
  }

  lemma WhenWithout(d: Document, r: Resource, name: string)
    requires WhenOk(d, r) && name != ""
    ensures WhenOk(WithoutParameter(d, name), r) <==> TestedParam(r.when) != name
  {
    if r.when != "" {
      WhenParsed(r.when);
    }
  }

  /** Without the parameter a resource is in order exactly when the scan passes
      it over. */
  lemma ResourceWithout(d: Document, r: Resource, name: string, uses: string -> bool)
    requires ResourceOk(d, r) && r in d.resources && TextSilent(d, uses) && Camel(name)
    ensures ResourceOk(WithoutParameter(d, name), r) <==> !RefersToParam(r, name, uses)
  {
    RenameParam.CamelNoDot(name);
    FieldsWithout(d, r, name);
    EnvelopeWithout(d, r, name);
    AnnotationsWithout(d, r, name);
    LoopWithout(d, r, name);
    WhenWithout(d, r, name);
  }

  /** The scan is empty exactly when every reference of every resource still
      resolves after the deletion. */
  lemma ParameterScanExact(d: Document, name: string, uses: string -> bool)
    requires Valid(d) && TextSilent(d, uses) && name in d.parameters
    ensures ParamReferrers(d, name, uses) == [] <==> ResourcesOk(WithoutParameter(d, name))
  {
    assert ParamName(name);
    forall r | r in d.resources ensures ResourceOk(WithoutParameter(d, name), r) <==> !RefersToParam(r, name, uses) {
      ResourceWithout(d, r, name, uses);
    }
  }

  /** The names are those of the resources that would no longer validate, in
      document order. */
  lemma ParamReferrersPlaced(d: Document, name: string, uses: string -> bool) returns (at: seq<nat>)
    requires Valid(d) && TextSilent(d, uses) && name in d.parameters
    ensures Places(d.resources, (r: Resource) => !ResourceOk(WithoutParameter(d, name), r), at,
        ParamReferrers(d, name, uses))
  {
    at := NamesPlaced(d.resources, r => RefersToParam(r, name, uses));
    assert ParamName(name);
    forall i | 0 <= i < |d.resources| ensures i in at <==> !ResourceOk(WithoutParameter(d, name), d.resources[i]) {
      ResourceWithout(d, d.resources[i], name, uses);
    }
  }

  lemma DeclarationsWithout(d: Document, name: string)
    requires ParametersOk(d)
    ensures ParametersOk(WithoutParameter(d, name)) <==> RenameParam.ProviderAllows(d, name)
  {
    assert forall r :: Managed(WithoutParameter(d, name), r) <==> Managed(d, r);
  }

  lemma CompositeWithout(d: Document, name: string)
    requires StatusOk(d)
    ensures StatusOk(WithoutParameter(d, name))
  {
    forall s | s in d.statusWires ensures StatusWireOk(WithoutParameter(d, name), None, s) {
      assert StatusWireOk(d, None, s);
    }
  }

  /** And then nothing but the providerName rule can refuse the deletion. */
  lemma WithoutParameterValid(d: Document, name: string, uses: string -> bool)
    requires Valid(d) && TextSilent(d, uses) && name in d.parameters
    ensures Valid(WithoutParameter(d, name)) <==>
            ParamReferrers(d, name, uses) == []
            && RenameParam.ProviderAllows(d, name)
  {
    ParameterScanExact(d, name, uses);
    DeclarationsWithout(d, name);
    CompositeWithout(d, name);
  }

  // ----- the resource scan is exact -----

  function WithoutAt(rs: seq<Resource>, i: nat): seq<Resource>
    requires i < |rs|
  {
    rs[..i] + rs[i + 1..]
  }

  function WithoutResource(d: Document, i: nat): Document
    requires i < |d.resources|
  {
    d.(resources := WithoutAt(d.resources, i))
  }

  lemma RestIsRest(rs: seq<Resource>, i: nat)
    requires i < |rs| && UniqueNames(rs)
    ensures UniqueNames(WithoutAt(rs, i))
    ensures forall r :: r in WithoutAt(rs, i) <==> r in rs && r.name != rs[i].name
  {
    var out := WithoutAt(rs, i);
    assert forall k :: 0 <= k < |out| ==> out[k] == rs[if k < i then k else k + 1];
    forall r | r in rs && r.name != rs[i].name ensures r in out {
      var k :| 0 <= k < |rs| && rs[k] == r;
      assert out[if k < i then k else k - 1] == r;
    }
  }

  /** Nothing else of the document changes, and the resource put back at its
      place gives the document there was. */
  lemma WithoutPutBack(d: Document, i: nat)
    requires i < |d.resources|
    ensures var d2 := WithoutResource(d, i);
            && d2.(resources := d.resources) == d
            && |d2.resources| == |d.resources| - 1
            && d2.resources[..i] + [d.resources[i]] + d2.resources[i..] == d.resources
  {
  }

  /** Every other resource is still there, as it was, and any two of them stand
      in the order they had. */
  lemma OrderKept(rs: seq<Resource>, i: nat, a: string, b: string)
    requires i < |rs| && UniqueNames(rs) && a != rs[i].name && b != rs[i].name
    ensures IndexOf(WithoutAt(rs, i), a) >= 0 <==> IndexOf(rs, a) >= 0
    ensures IndexOf(rs, a) >= 0 ==> WithoutAt(rs, i)[IndexOf(WithoutAt(rs, i), a)] == rs[IndexOf(rs, a)]
    ensures IndexOf(rs, a) >= 0 && IndexOf(rs, b) >= 0 ==>
              (IndexOf(WithoutAt(rs, i), a) < IndexOf(WithoutAt(rs, i), b) <==> IndexOf(rs, a) < IndexOf(rs, b))
  {
    PlaceLeft(rs, i, a);
    PlaceLeft(rs, i, b);
  }

  lemma PlaceLeft(rs: seq<Resource>, i: nat, name: string)
    requires i < |rs| && UniqueNames(rs) && name != rs[i].name
    ensures var j := IndexOf(rs, name);
            IndexOf(WithoutAt(rs, i), name) == if j < i then j else j - 1
    ensures var j := IndexOf(rs, name);
            j >= 0 ==> WithoutAt(rs, i)[if j < i then j else j - 1] == rs[j]
  {
    RestIsRest(rs, i);
    var j := IndexOf(rs, name);
    if j >= 0 {
      PlaceMoved(rs, i, j);
    } else {
      NotThere(rs, WithoutAt(rs, i), name);
    }
  }

  lemma PlaceMoved(rs: seq<Resource>, i: nat, j: nat)
    requires i < |rs| && j < |rs| && i != j && UniqueNames(WithoutAt(rs, i))
    ensures var out, k := WithoutAt(rs, i), if j < i then j else j - 1;
            k < |out| && out[k] == rs[j] && IndexOf(out, rs[j].name) == k
  {
    IndexUnique(WithoutAt(rs, i), if j < i then j else j - 1);
  }

  lemma NotThere(rs: seq<Resource>, out: seq<Resource>, name: string)
    requires (forall r :: r in out ==> r in rs) && IndexOf(rs, name) < 0
    ensures IndexOf(out, name) < 0
  {
    forall k | 0 <= k < |out| ensures out[k].name != name {
      assert out[k] in rs;
    }
  }

  lemma TargetLeft(d: Document, i: nat, name: string)
    requires i < |d.resources| && UniqueNames(d.resources)
    ensures UnloopedTarget(WithoutResource(d, i), name) <==> UnloopedTarget(d, name) && name != d.resources[i].name
  {
    RestIsRest(d.resources, i);
    var out := WithoutAt(d.resources, i);
    var j, k := IndexOf(d.resources, name), IndexOf(out, name);
    if k >= 0 {
      assert out[k] in d.resources;
      SameNamed(d.resources, out[k], name);
    }
    if j >= 0 && name != d.resources[i].name {
      assert d.resources[j] in out;
    }
  }

  lemma SameNamed(rs: seq<Resource>, r: Resource, name: string)
    requires UniqueNames(rs) && r in rs && r.name == name
    ensures IndexOf(rs, name) >= 0 && rs[IndexOf(rs, name)] == r
  {
    var k :| 0 <= k < |rs| && rs[k] == r;
    IndexUnique(rs, k);
  }

  lemma StatusLeft(d: Document, i: nat, self: Option<string>, s: string)
    requires i < |d.resources| && UniqueNames(d.resources) && StatusWireOk(d, self, s)
    ensures StatusWireOk(WithoutResource(d, i), self, s) <==> !LoopsOver(s, d.resources[i].name)
  {
    TargetLeft(d, i, StatusRef(s).value.0);
  }

  lemma FromLeft(d: Document, i: nat, self: string, s: string, typed: Parameter -> bool)
    requires i < |d.resources| && UniqueNames(d.resources) && FromOk(d, self, s, typed)
    ensures FromOk(WithoutResource(d, i), self, s, typed) <==> !FromResource(s, d.resources[i].name)
  {
    Families(s);
    ParsedWrites(s);
    match ParseFrom(s).value
    case ParamOf(ref) =>
    case EnvOf(key) =>
    case StatusOf(name, path) =>
      RenameResource.StatusTarget(name, path);
      StatusLeft(d, i, Some(self), s);
    case NameOf(name) =>
      NoDotInDns(name);
      MetadataRefWritten(name);
      TargetLeft(d, i, name);
  }

  lemma FieldLeft(d: Document, i: nat, r: Resource, p: string, uses: string -> bool)
    requires i < |d.resources| && UniqueNames(d.resources) && p in r.fields && FieldOk(d, r, p, r.fields[p])
    ensures FieldOk(WithoutResource(d, i), r, p, r.fields[p]) <==> !FromResource(r.fields[p].from, d.resources[i].name)
  {
    if r.fields[p].from != "" {
      FromLeft(d, i, r.name, r.fields[p].from, decl => FieldTypeOk(p, r.fields, decl));
    }
  }

  lemma AnnotationLeft(d: Document, i: nat, r: Resource, k: string)
    requires i < |d.resources| && UniqueNames(d.resources) && k in r.annotations && AnnotationOk(d, r, r.annotations[k])
    ensures AnnotationOk(WithoutResource(d, i), r, r.annotations[k]) <==>
            !FromResource(r.annotations[k].from, d.resources[i].name)
  {
    if r.annotations[k].from != "" {
      FromLeft(d, i, r.name, r.annotations[k].from, ScalarDecl);
    }
  }

  lemma EnvelopeLeft(d: Document, i: nat, p: string, f: Field)
    requires i < |d.resources| && EnvelopeOk(d, p, f)
    ensures EnvelopeOk(WithoutResource(d, i), p, f) && !FromResource(f.from, d.resources[i].name)
  {
    Families(f.from);
  }

  lemma LoopLeft(d: Document, i: nat, r: Resource)
    requires i < |d.resources| && UniqueNames(d.resources) && ForEachOk(d, r)
    ensures ForEachOk(WithoutResource(d, i), r) <==> !LoopsOver(r.forEach, d.resources[i].name)
  {
    if RESOURCES <= r.forEach {
      assert r.forEach != "";
      StatusLeft(d, i, Some(r.name), r.forEach);
    }
  }

  lemma FieldsLeft(d: Document, i: nat, r: Resource, uses: string -> bool)
    requires ResourcesOk(d) && i < |d.resources| && ResourceOk(d, r) && FieldsSilent(r.fields, uses)
    ensures (forall p :: p in r.fields ==> FieldOk(WithoutResource(d, i), r, p, r.fields[p])) <==>
            !AnyFromResource(r.fields, d.resources[i].name, uses)
  {
    forall p | p in r.fields
      ensures FieldOk(WithoutResource(d, i), r, p, r.fields[p]) <==>
              !FromResource(r.fields[p].from, d.resources[i].name)
    {
      FieldLeft(d, i, r, p, uses);
    }
  }

  lemma AnnotationsLeft(d: Document, i: nat, r: Resource, uses: string -> bool)
    requires ResourcesOk(d) && i < |d.resources| && ResourceOk(d, r) && FieldsSilent(r.annotations, uses)
    ensures (forall k :: k in r.annotations ==> AnnotationOk(WithoutResource(d, i), r, r.annotations[k])) <==>
            !AnyFromResource(r.annotations, d.resources[i].name, uses)
  {
    forall k | k in r.annotations
      ensures AnnotationOk(WithoutResource(d, i), r, r.annotations[k]) <==>
              !FromResource(r.annotations[k].from, d.resources[i].name)
    {
      AnnotationLeft(d, i, r, k);
    }
  }

  lemma EnvelopesLeft(d: Document, i: nat, r: Resource, uses: string -> bool)
    requires i < |d.resources| && ResourceOk(d, r) && FieldsSilent(r.envelope, uses)
    ensures forall p :: p in r.envelope ==> EnvelopeOk(WithoutResource(d, i), p, r.envelope[p])
    ensures !AnyFromResource(r.envelope, d.resources[i].name, uses)
  {
    forall p | p in r.envelope
      ensures EnvelopeOk(WithoutResource(d, i), p, r.envelope[p])
              && !FromResource(r.envelope[p].from, d.resources[i].name)
    {
      EnvelopeLeft(d, i, p, r.envelope[p]);
    }
  }

  lemma WhenLeft(d: Document, i: nat, r: Resource)
    requires i < |d.resources| && WhenOk(d, r)
    ensures WhenOk(WithoutResource(d, i), r)
  {
  }

  lemma ResourceLeft(d: Document, i: nat, r: Resource, uses: string -> bool)
    requires ResourcesOk(d) && TextSilent(d, uses) && i < |d.resources| && r in d.resources
             && r.name != d.resources[i].name
    ensures ResourceOk(WithoutResource(d, i), r) <==> !RefersToResource(r, d.resources[i].name, uses)
  {
    assert ResourceOk(d, r);
    FieldsLeft(d, i, r, uses);
    AnnotationsLeft(d, i, r, uses);
    EnvelopesLeft(d, i, r, uses);
    LoopLeft(d, i, r);
    WhenLeft(d, i, r);
  }

  /** The scan is empty exactly when every reference of every other resource
      still resolves after the deletion. */
  lemma ResourceScanExact(d: Document, i: nat, uses: string -> bool)
    requires Valid(d) && TextSilent(d, uses) && i < |d.resources|
    ensures ResourceReferrers(d, d.resources[i].name, uses) == [] <==> ResourcesOk(WithoutResource(d, i))
  {
    RestIsRest(d.resources, i);
    forall r | r in d.resources && r.name != d.resources[i].name
      ensures ResourceOk(WithoutResource(d, i), r) <==> !RefersToResource(r, d.resources[i].name, uses)
    {
      ResourceLeft(d, i, r, uses);
    }
  }

  /** The names are those of the other resources that would no longer validate,
      in document order. */
  lemma ResourceReferrersPlaced(d: Document, i: nat, uses: string -> bool) returns (at: seq<nat>)
    requires Valid(d) && TextSilent(d, uses) && i < |d.resources|
    ensures Places(d.resources,
        (r: Resource) => r.name != d.resources[i].name && !ResourceOk(WithoutResource(d, i), r),
        at, ResourceReferrers(d, d.resources[i].name, uses))
  {
    var name := d.resources[i].name;
    at := NamesPlaced(d.resources, r => RefersToResource(r, name, uses));
    forall k | 0 <= k < |d.resources|
      ensures k in at <==> d.resources[k].name != name && !ResourceOk(WithoutResource(d, i), d.resources[k])
    {
      if d.resources[k].name != name {
        ResourceLeft(d, i, d.resources[k], uses);
      }
    }
  }

  lemma DeclarationsLeft(d: Document, i: nat)
    requires i < |d.resources| && UniqueNames(d.resources) && ParametersOk(d)
    ensures ParametersOk(WithoutResource(d, i))
  {
    RestIsRest(d.resources, i);
    assert forall r :: Managed(WithoutResource(d, i), r) <==> Managed(d, r);
  }

  lemma CompositeLeft(d: Document, i: nat)
    requires i < |d.resources| && UniqueNames(d.resources) && StatusOk(d)
    ensures StatusOk(WithoutResource(d, i)) <==> RenameResource.StatusFree(d, d.resources[i].name)
  {
    forall s | s in d.statusWires
      ensures StatusWireOk(WithoutResource(d, i), None, s) <==> !LoopsOver(s, d.resources[i].name)
    {
      assert StatusWireOk(d, None, s);
      StatusLeft(d, i, None, s);
    }
  }

  /** The scan does not look at the composite status; Validate does. */
  lemma WithoutResourceValid(d: Document, i: nat, uses: string -> bool)
    requires Valid(d) && TextSilent(d, uses) && i < |d.resources|
    ensures Valid(WithoutResource(d, i)) <==>
            ResourceReferrers(d, d.resources[i].name, uses) == [] && RenameResource.StatusFree(d, d.resources[i].name)
  {
    ResourceScanExact(d, i, uses);
    DeclarationsLeft(d, i);
    CompositeLeft(d, i);
  }
}
