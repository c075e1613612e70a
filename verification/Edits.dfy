/** The atomic edits (internal/blueprint/edit.go): each works on a copy and
    writes it back once Validate accepts it. */
module Edits {
  import opened Template
  import opened Text
  import opened Refs
  import opened Params
  import opened Blueprint
  import opened Validation
  import opened Rewrite
  import opened Deletion
  import RenameParam
  import ResourceRename = RenameResource

  // ----- what each edit makes of a document, None when it is refused -----

  function Accepted(d: Document): Option<Document> {
    if Valid(d) then Some(d) else None
  }

  function ParameterRenamed(d: Document, from: string, to: string, prints: char -> bool,
      text: string -> string): Option<Document> {
    if from !in d.parameters then None
    else if from == to then Some(d)
    else if to in d.parameters then None
    else Accepted(RenamedParameter(d, from, to, prints, text))
  }

  /** The resource at i takes the new name; every resource is rewritten. */
  function RenamedAt(d: Document, i: nat, to: string, text: string -> string): Document
    requires i < |d.resources|
  {
    var w := ResourceRename.ResourceRewiring(d.resources[i].name, to, text);
    var rs := RewireResources(d.resources, w);
    d.(resources := rs[i := rs[i].(name := to)], templates := RewireTemplates(d.templates, w))
  }

  function ResourceRenamed(d: Document, from: string, to: string, text: string -> string): Option<Document> {
    var i := IndexOf(d.resources, from);
    if i < 0 then None
    else if from == to then Some(d)
    else if IndexOf(d.resources, to) >= 0 then None
    else Accepted(RenamedAt(d, i, to, text))
  }

  ghost function ParameterDeleted(d: Document, name: string, uses: string -> bool): Option<Document> {
    if name !in d.parameters || ParamReferrers(d, name, uses) != []
        || (exists n :: n in d.templates && uses(d.templates[n])) then None
    else Accepted(WithoutParameter(d, name))
  }

  ghost function ResourceDeleted(d: Document, name: string, uses: string -> bool): Option<Document> {
    var i := IndexOf(d.resources, name);
    if i < 0 || ResourceReferrers(d, name, uses) != [] || (exists n :: n in d.templates && uses(d.templates[n])) then
        None
    else Accepted(WithoutResource(d, i))
  }

  class Editable {
    var doc: Document

    constructor (d: Document)
      ensures doc == d
    {
      doc := d;
    }

    /** Every edit ends here: the copy replaces the document or is dropped. */
    method Commit(cp: Document) returns (ok: bool)
      modifies this
      ensures ok <==> Valid(cp)
      ensures doc == if ok then cp else old(doc)
    {
      ok := Validate(cp);
      if ok {
        doc := cp;
      }
    }

    method RenameParameter(from: string, to: string, prints: char -> bool, text: string -> string) returns (ok: bool)
      modifies this
      ensures var r := ParameterRenamed(old(doc), from, to, prints, text);
              ok == r.Some? && doc == if r.Some? then r.value else old(doc)
    {
      if from !in doc.parameters {
        return false;
      }
      if from == to {
        return true;
      }
      if to in doc.parameters {
        return false;
      }
      var w := ParamRewiring(from, to, prints, text);
      var resources := RewriteResources(doc.resources, w);
      var templates := RewriteTemplates(doc.templates, w);
      var cp := doc.(parameters := (doc.parameters - {from})[to := doc.parameters[from]], resources := resources,
          templates := templates);
      ok := Commit(cp);
    }

    method RenameResource(from: string, to: string, text: string -> string) returns (ok: bool)
      modifies this
      ensures var r := ResourceRenamed(old(doc), from, to, text);
              ok == r.Some? && doc == if r.Some? then r.value else old(doc)
    {
      var idx := ResourceIndex(doc.resources, from);
      if idx < 0 {
        return false;
      }
      if from == to {
        return true;
      }
      var taken := ResourceIndex(doc.resources, to);
      if taken >= 0 {
        return false;
      }
      var w := ResourceRename.ResourceRewiring(from, to, text);
      var resources := RewriteResources(doc.resources, w);
      resources := resources[idx := resources[idx].(name := to)];
      var templates := RewriteTemplates(doc.templates, w);
      ok := Commit(doc.(resources := resources, templates := templates));
    }

    method DeleteParameter(name: string, uses: string -> bool) returns (ok: bool)
      modifies this
      ensures var r := ParameterDeleted(old(doc), name, uses);
              ok == r.Some? && doc == if r.Some? then r.value else old(doc)
    {
      if name !in doc.parameters {
        return false;
      }
      var refs := ReferencingResources(doc, name, uses);
      if refs != [] {
        return false;
      }
      var used := TemplateUses(doc.templates, uses);
      if used {
        return false;
      }
      ok := Commit(doc.(parameters := doc.parameters - {name}));
    }

    method DeleteResource(name: string, uses: string -> bool) returns (ok: bool)
      modifies this
      ensures var r := ResourceDeleted(old(doc), name, uses);
              ok == r.Some? && doc == if r.Some? then r.value else old(doc)
    {
      var idx := ResourceIndex(doc.resources, name);
      if idx < 0 {
        return false;
      }
      var refs := StatusReferencingResources(doc, name, uses);
      if refs != [] {
        return false;
      }
      var used := TemplateUses(doc.templates, uses);
      if used {
        return false;
      }
      ok := Commit(doc.(resources := doc.resources[..idx] + doc.resources[idx + 1..]));
    }
  }

  method TemplateUses(m: map<string, string>, uses: string -> bool) returns (found: bool)
    ensures found <==> exists n :: n in m && uses(m[n])
  {
    var todo := m.Keys;
    while todo != {}
      invariant todo <= m.Keys
      invariant forall n :: n in m && n !in todo ==> !uses(m[n])
      decreases |todo|
    {
      var n :| n in todo;
      if uses(m[n]) {
        return true;
      }
      todo := todo - {n};
    }
    return false;
  }

  // ----- when an edit succeeds -----

  /** With unique names renaming one place is renaming the name. */
  lemma RenamedOnce(d: Document, from: string, to: string, text: string -> string)
    requires UniqueNames(d.resources) && IndexOf(d.resources, from) >= 0
    ensures RenamedAt(d, IndexOf(d.resources, from), to, text) == ResourceRename.Renamed(d, from, to, text)
  {
    var i := IndexOf(d.resources, from);
    var a, b := RenamedAt(d, i, to, text).resources, ResourceRename.Renamed(d, from, to, text).resources;
    forall k | 0 <= k < |d.resources| ensures a[k] == b[k] {
      assert k != i ==> d.resources[k].name != from;
    }
    assert a == b;
  }

  /** Renaming a parameter to a fresh legal name fails for two reasons only. */
  lemma ParameterRenameSucceeds(d: Document, from: string, to: string, prints: char -> bool, text: string -> string)
    requires Valid(d) && TextFixed(d, text) && from in d.parameters && from != to
    ensures ParameterRenamed(d, from, to, prints, text).Some? <==>
            to !in d.parameters && ParamName(to) && RenameParam.ProviderAllows(d, from)
                && RenameParam.TestsPrint(d, from, prints)
  {
    if to !in d.parameters {
      var d2 := RenamedParameter(d, from, to, prints, text);
      if ParamName(to) {
        RenameParam.RenamedValidIff(d, from, to, prints, text);
      } else {
        assert to in d2.parameters;
      }
    }
  }

  lemma ResourceRenameSucceeds(d: Document, from: string, to: string, text: string -> string)
    requires Valid(d) && TextFixed(d, text) && IndexOf(d.resources, from) >= 0 && from != to
    ensures ResourceRenamed(d, from, to, text).Some? <==>
            IndexOf(d.resources, to) < 0 && ResourceName(to) && ResourceRename.StatusFree(d, from)
  {
    if IndexOf(d.resources, to) < 0 {
      RenamedOnce(d, from, to, text);
      if DnsLabel(to) {
        ResourceRename.RenamedValidIff(d, from, to, text);
      } else {
        var i := IndexOf(d.resources, from);
        var d2 := ResourceRename.Renamed(d, from, to, text);
        assert d2.resources[i] in d2.resources && d2.resources[i].name == to;
      }
    }
  }

  /** A deletion succeeds exactly when what is left is valid: the scans refuse
      nothing that Validate would have let through. */
  lemma ParameterDeleteSucceeds(d: Document, name: string, uses: string -> bool)
    requires Valid(d) && TextSilent(d, uses) && name in d.parameters
    ensures ParameterDeleted(d, name, uses) == Accepted(WithoutParameter(d, name))
    ensures ParameterDeleted(d, name, uses).Some? <==>
            ParamReferrers(d, name, uses) == []
            && RenameParam.ProviderAllows(d, name)
  {
    WithoutParameterValid(d, name, uses);
  }

  lemma ResourceDeleteSucceeds(d: Document, name: string, uses: string -> bool)
    requires Valid(d) && TextSilent(d, uses) && IndexOf(d.resources, name) >= 0
    ensures ResourceDeleted(d, name, uses) == Accepted(WithoutResource(d, IndexOf(d.resources, name)))
    ensures ResourceDeleted(d, name, uses).Some? <==>
            ResourceReferrers(d, name, uses) == []
            && ResourceRename.StatusFree(d, name)
  {
    WithoutResourceValid(d, IndexOf(d.resources, name), uses);
  }

  // ----- what an edit leaves alone -----

  ghost predicate FieldsRetexted(m: FieldMap, m2: FieldMap, text: string -> string) {
    && m2.Keys == m.Keys
    && forall p :: p in m ==>
        && m2[p].value == m[p].value && m2[p].template == m[p].template
        && m2[p].raw == if m[p].raw == "" then "" else text(m[p].raw)
  }

  ghost predicate ResourceRetexted(r: Resource, r2: Resource, text: string -> string) {
    && r2.kind == r.kind && r2.provider == r.provider
    && FieldsRetexted(r.fields, r2.fields, text) && FieldsRetexted(r.envelope, r2.envelope, text)
    && FieldsRetexted(r.annotations, r2.annotations, text)
  }

  /** Every free text and every template body is rewritten, once; kinds,
      providers, values, named templates, environment, sources and the
      composite status are what they were. */
  ghost predicate Retexted(d: Document, d2: Document, text: string -> string) {
    && |d2.resources| == |d.resources|
    && (forall i :: 0 <= i < |d.resources| ==> ResourceRetexted(d.resources[i], d2.resources[i], text))
    && d2.templates.Keys == d.templates.Keys
    && (forall n :: n in d.templates ==> d2.templates[n] == text(d.templates[n]))
    && d2.statusWires == d.statusWires && d2.environment == d.environment && d2.crdSources == d.crdSources
  }

  /** Renaming a parameter moves its declaration and touches references only. */
  lemma ParameterRenamedOnly(d: Document, from: string, to: string, prints: char -> bool, text: string -> string)
    requires from != to && ParameterRenamed(d, from, to, prints, text).Some?
    ensures var d2 := ParameterRenamed(d, from, to, prints, text).value;
            && Retexted(d, d2, text)
            && (forall i :: 0 <= i < |d.resources| ==> d2.resources[i].name == d.resources[i].name)
            && from !in d2.parameters && to in d2.parameters && d2.parameters[to] == d.parameters[from]
            && d2.parameters - {to} == d.parameters - {from}
  {
    var d2 := ParameterRenamed(d, from, to, prints, text).value;
    forall i | 0 <= i < |d.resources| ensures ResourceRetexted(d.resources[i], d2.resources[i], text) {
      RewiredOnly(d.resources[i], ParamRewiring(from, to, prints, text));
    }
    assert d2.parameters - {to} == d.parameters - {from};
  }

  lemma RewiredOnly(r: Resource, w: Rewiring)
    ensures ResourceRetexted(r, RewireResource(r, w), w.text) && RewireResource(r, w).name == r.name
  {
  }

  /** Renaming a resource gives it the new name and touches references only. */
  lemma ResourceRenamedOnly(d: Document, from: string, to: string, text: string -> string)
    requires from != to && ResourceRenamed(d, from, to, text).Some?
    ensures var d2, at := ResourceRenamed(d, from, to, text).value, IndexOf(d.resources, from);
            && Retexted(d, d2, text) && d2.parameters == d.parameters
            && forall i :: 0 <= i < |d.resources| ==>
                d2.resources[i].name == if i == at then to else d.resources[i].name
  {
    var d2 := ResourceRenamed(d, from, to, text).value;
    forall i | 0 <= i < |d.resources| ensures ResourceRetexted(d.resources[i], d2.resources[i], text) {
      RewiredOnly(d.resources[i], ResourceRename.ResourceRewiring(from, to, text));
    }
  }

  /** Deleting a parameter removes its declaration and nothing else: declared
      again it gives the document there was. */
  lemma ParameterDeletedOnly(d: Document, name: string, uses: string -> bool)
    requires ParameterDeleted(d, name, uses).Some?
    ensures var d2 := ParameterDeleted(d, name, uses).value;
            && name in d.parameters && name !in d2.parameters
            && d2.(parameters := d2.parameters[name := d.parameters[name]]) == d
  {
    var d2 := ParameterDeleted(d, name, uses).value;
    assert d2.parameters[name := d.parameters[name]] == d.parameters;
  }

  /** The others are what they were, and any two stand in the order they had. */
  ghost predicate OthersKept(rs: seq<Resource>, rs2: seq<Resource>, name: string) {
    && (forall a :: a != name && IndexOf(rs, a) >= 0 ==>
        IndexOf(rs2, a) >= 0 && rs2[IndexOf(rs2, a)] == rs[IndexOf(rs, a)])
    && forall a, b :: a != name && b != name && IndexOf(rs, a) >= 0 && IndexOf(rs, b) >= 0 ==>
        (IndexOf(rs2, a) < IndexOf(rs2, b) <==> IndexOf(rs, a) < IndexOf(rs, b))
  }

  lemma RestKept(rs: seq<Resource>, i: nat)
    requires i < |rs| && UniqueNames(rs)
    ensures OthersKept(rs, WithoutAt(rs, i), rs[i].name) && IndexOf(WithoutAt(rs, i), rs[i].name) < 0
  {
    var rs2, name := WithoutAt(rs, i), rs[i].name;
    forall a, b | a != name && b != name
      ensures IndexOf(rs, a) >= 0 ==> IndexOf(rs2, a) >= 0 && rs2[IndexOf(rs2, a)] == rs[IndexOf(rs, a)]
      ensures IndexOf(rs, a) >= 0 && IndexOf(rs, b) >= 0 ==>
                (IndexOf(rs2, a) < IndexOf(rs2, b) <==> IndexOf(rs, a) < IndexOf(rs, b))
    {
      OrderKept(rs, i, a, b);
    }
    RestIsRest(rs, i);
    forall k | 0 <= k < |rs2| ensures rs2[k].name != name {
      assert rs2[k] in rs2;
    }
  }

  /** Deleting a resource removes it and nothing else: the others are what they
      were, any two of them in the order they had, and put back at its place it
      gives the document there was. */
  lemma ResourceDeletedOnly(d: Document, name: string, uses: string -> bool)
    requires UniqueNames(d.resources) && ResourceDeleted(d, name, uses).Some?
    ensures var d2, i := ResourceDeleted(d, name, uses).value, IndexOf(d.resources, name);
            && 0 <= i <= |d2.resources|
            && d2.(resources := d2.resources[..i] + [d.resources[i]] + d2.resources[i..]) == d
            && IndexOf(d2.resources, name) < 0 && OthersKept(d.resources, d2.resources, name)
  {
    var i := IndexOf(d.resources, name);
    WithoutPutBack(d, i);
    RestKept(d.resources, i);
  }

  // ----- runs of renames -----

  datatype Step = ParameterStep(from: string, to: string) | ResourceStep(from: string, to: string)

  function Apply(d: Document, s: Step, prints: char -> bool, text: string -> string): Option<Document> {
    match s
    case ParameterStep(from, to) => ParameterRenamed(d, from, to, prints, text)
    case ResourceStep(from, to) => ResourceRenamed(d, from, to, text)
  }

  function ApplyAll(d: Document, steps: seq<Step>, prints: char -> bool, text: string -> string): Option<Document>
    decreases |steps|
  {
    if steps == [] then Some(d)
    else
      var r := Apply(d, steps[0], prints, text);
      if r.None? then None else ApplyAll(r.value, steps[1..], prints, text)
  }

  function Back(s: Step): Step {
    match s
    case ParameterStep(from, to) => ParameterStep(to, from)
    case ResourceStep(from, to) => ResourceStep(to, from)
  }

  function BackAll(steps: seq<Step>): seq<Step> {
    if steps == [] then [] else BackAll(steps[1..]) + [Back(steps[0])]
  }

  predicate FieldsPlain(m: FieldMap) {
    forall p :: p in m ==> m[p].raw == ""
  }

  /** No raw text and no template bodies. */
  predicate TextFree(d: Document) {
    d.templates == map[] && forall r :: r in d.resources ==>
        FieldsPlain(r.fields) && FieldsPlain(r.envelope)
        && FieldsPlain(r.annotations)
  }

  lemma MeaningChains(d1: Document, d2: Document, d3: Document)
    requires SameMeaning(d1, d2) && SameMeaning(d2, d3)
    ensures SameMeaning(d1, d3)
  {
    forall i | 0 <= i < |d1.resources| ensures SameResource(d1, d1.resources[i], d3, d3.resources[i]) {
      assert SameResource(d1, d1.resources[i], d2, d2.resources[i])
          && SameResource(d2, d2.resources[i], d3, d3.resources[i]);
    }
  }

  lemma MeaningSame(d: Document)
    ensures SameMeaning(d, d)
  {
  }

  lemma ParameterStepKeeps(d: Document, from: string, to: string, prints: char -> bool, text: string -> string)
    requires Valid(d) && TextFree(d) && from != to && ParameterRenamed(d, from, to, prints, text).Some?
    ensures var d2 := ParameterRenamed(d, from, to, prints, text).value;
            Valid(d2) && TextFree(d2) && SameMeaning(d, d2) && ParameterRenamed(d2, to, from, prints, text) == Some(d)
  {
    ParameterRenameSucceeds(d, from, to, prints, text);
    StaysPlain(d, from, to, prints, text);
    RenameParam.RenameInverse(d, from, to, prints, text);
    RenameParam.RenameKeepsMeaning(d, from, to, prints, text);
    ParameterStepBack(d, from, to, prints, text);
  }

  lemma ParameterStepBack(d: Document, from: string, to: string, prints: char -> bool, text: string -> string)
    requires Valid(d) && from != to && from in d.parameters && to !in d.parameters
    requires RenamedParameter(RenamedParameter(d, from, to, prints, text), to, from, prints, text) == d
    ensures ParameterRenamed(RenamedParameter(d, from, to, prints, text), to, from, prints, text) == Some(d)
  {
  }

  lemma StaysPlain(d: Document, from: string, to: string, prints: char -> bool, text: string -> string)
    requires TextFree(d) && from in d.parameters
    ensures TextFree(RenamedParameter(d, from, to, prints, text)) && TextFixed(d, text)
  {
  }

  lemma ResourceStepKeeps(d: Document, from: string, to: string, prints: char -> bool, text: string -> string)
    requires Valid(d) && TextFree(d) && from != to && ResourceRenamed(d, from, to, text).Some?
    ensures var d2 := ResourceRenamed(d, from, to, text).value;
            Valid(d2) && TextFree(d2) && SameMeaning(d, d2) && ResourceRenamed(d2, to, from, text) == Some(d)
  {
    ResourceRenameSucceeds(d, from, to, text);
    RenamedOnce(d, from, to, text);
    StaysTextFree(d, from, to, text);
    ResourceRename.RenameInverse(d, from, to, text);
    ResourceRename.RenameKeepsMeaning(d, from, to, text);
    ResourceStepBack(d, from, to, text);
  }

  lemma ResourceStepBack(d: Document, from: string, to: string, text: string -> string)
    requires Valid(d) && from != to && IndexOf(d.resources, from) >= 0 && IndexOf(d.resources, to) < 0
    requires var d2 := ResourceRename.Renamed(d, from, to, text);
             Valid(d2) && ResourceRename.Renamed(d2, to, from, text) == d
    ensures ResourceRenamed(ResourceRename.Renamed(d, from, to, text), to, from, text) == Some(d)
  {
    ResourceRename.PlaceKept(d.resources, from, to, text, from);
    ResourceRename.OldNameGone(d.resources, from, to, text);
    RenamedOnce(ResourceRename.Renamed(d, from, to, text), to, from, text);
  }

  lemma StaysTextFree(d: Document, from: string, to: string, text: string -> string)
    requires TextFree(d)
    ensures TextFree(ResourceRename.Renamed(d, from, to, text))
  {
  }

  lemma StepKeeps(d: Document, s: Step, prints: char -> bool, text: string -> string)
    requires Valid(d) && TextFree(d) && Apply(d, s, prints, text).Some?
    ensures var d2 := Apply(d, s, prints, text).value;
            Valid(d2) && TextFree(d2) && SameMeaning(d, d2) && Apply(d2, Back(s), prints, text) == Some(d)
  {
    MeaningSame(d);
    if s.from != s.to {
      if s.ParameterStep? {
        ParameterStepKeeps(d, s.from, s.to, prints, text);
      } else {
        ResourceStepKeeps(d, s.from, s.to, prints, text);
      }
    }
  }

  lemma {:induction false} ApplyTwo(d: Document, a: seq<Step>, b: seq<Step>, prints: char -> bool,
      text: string -> string)
    requires ApplyAll(d, a, prints, text).Some?
    ensures ApplyAll(d, a + b, prints, text) == ApplyAll(ApplyAll(d, a, prints, text).value, b, prints, text)
    decreases |a|
  {
    if a == [] {
      assert a + b == b;
    } else {
      assert (a + b)[1..] == a[1..] + b;
      ApplyTwo(Apply(d, a[0], prints, text).value, a[1..], b, prints, text);
    }
  }

  /** Over any run of successful renames, of parameters and of resources in any
      order, the document stays valid, every reference keeps its meaning, and
      the reverse renames in reverse order all succeed and lead back exactly. */
  lemma {:induction false} RunKeeps(d: Document, steps: seq<Step>, prints: char -> bool, text: string -> string)
    requires Valid(d) && TextFree(d) && ApplyAll(d, steps, prints, text).Some?
    ensures var d2 := ApplyAll(d, steps, prints, text).value;
            Valid(d2) && TextFree(d2) && SameMeaning(d, d2) && ApplyAll(d2, BackAll(steps), prints, text) == Some(d)
    decreases |steps|
  {
    if steps == [] {
      MeaningSame(d);
    } else {
      StepKeeps(d, steps[0], prints, text);
      var d1 := Apply(d, steps[0], prints, text).value;
      RunKeeps(d1, steps[1..], prints, text);
      var d2 := ApplyAll(d1, steps[1..], prints, text).value;
      MeaningChains(d, d1, d2);
      ApplyTwo(d2, BackAll(steps[1..]), [Back(steps[0])], prints, text);
      assert [Back(steps[0])][1..] == [];
      assert ApplyAll(d1, [Back(steps[0])], prints, text) == Some(d);
    }
  }
}
