/** Renaming a parameter (internal/blueprint/edit.go:507-598): what it keeps,
    when it succeeds, and that renaming back undoes it. */
module RenameParam {
  import opened Template
  import opened Text
  import opened Refs
  import opened Params
  import opened Blueprint
  import opened Rewrite

  /** A valid document, a declared parameter, a fresh and legal target name,
      and free text that does not mention the parameter. */
  predicate Ready(d: Document, from: string, to: string, text: string -> string) {
    && Valid(d) && TextFixed(d, text)
    && from in d.parameters && to !in d.parameters && ParamName(to)
  }

  lemma CamelNoDot(s: string)
    requires Camel(s)
    ensures '.' !in s && s != ""
  {
  }

  lemma NamesDotFree(d: Document, from: string, to: string, text: string -> string)
    requires Ready(d, from, to, text)
    ensures '.' !in from && '.' !in to && to != "" && from != to
  {
    assert ParamName(from);
    CamelNoDot(from);
    CamelNoDot(to);
  }

  // ----- single references -----

  /** A resolving parameter reference keeps its chain of declarations. */
  lemma WireKeepsTarget(d: Document, from: string, to: string, prints: char -> bool, text: string -> string,
      ref: string)
    requires Ready(d, from, to, text) && ParamTarget(d, ref).Some?
    ensures var s := RenameParamRef(PARAMS + ref, from, to);
            && PARAMS <= s
            && ParamTarget(RenamedParameter(d, from, to, prints, text), s[|PARAMS|..]) == ParamTarget(d, ref)
  {
    NamesDotFree(d, from, to, text);
    RenameBySegments(ref, from, to);
    RenamedSplit(ref, from, to);
    ResolveRenamed(d.parameters, Split(ref, '.'), from, to);
    var r := Join(RenamedSegs(Split(ref, '.'), from, to), '.');
    assert (PARAMS + r)[|PARAMS|..] == r;
  }

  lemma IndexKept(rs: seq<Resource>, w: Rewiring, name: string)
    ensures IndexOf(RewireResources(rs, w), name) == IndexOf(rs, name)
  {
    var i, j := IndexOf(rs, name), IndexOf(RewireResources(rs, w), name);
    var out := RewireResources(rs, w);
    assert forall k :: 0 <= k < |rs| ==> out[k].name == rs[k].name;
  }

  lemma LoopNonempty(s: string, from: string, to: string)
    ensures RenameLoop(s, from, to) == "" <==> s == ""
  {
    assert |PARAMS + from| > 0 && |PARAMS + to| > 0;
  }

  lemma TargetKept(d: Document, from: string, to: string, prints: char -> bool, text: string -> string, name: string)
    requires from in d.parameters
    ensures UnloopedTarget(RenamedParameter(d, from, to, prints, text), name) <==> UnloopedTarget(d, name)
  {
    var w := ParamRewiring(from, to, prints, text);
    IndexKept(d.resources, w, name);
    var i := IndexOf(d.resources, name);
    if i >= 0 {
      LoopNonempty(d.resources[i].forEach, from, to);
    }
  }

  lemma StatusKept(d: Document, from: string, to: string, prints: char -> bool, text: string -> string,
      self: Option<string>, s: string)
    requires from in d.parameters
    ensures StatusWireOk(RenamedParameter(d, from, to, prints, text), self, s) <==> StatusWireOk(d, self, s)
  {
    if StatusRef(s).Some? {
      TargetKept(d, from, to, prints, text, StatusRef(s).value.0);
    }
  }

  lemma NameWireKept(d: Document, from: string, to: string, prints: char -> bool, text: string -> string,
      self: string, s: string)
    requires from in d.parameters
    ensures NameWireOk(RenamedParameter(d, from, to, prints, text), self, s) <==> NameWireOk(d, self, s)
  {
    if MetadataRef(s).Some? {
      TargetKept(d, from, to, prints, text, MetadataRef(s).value.0);
    }
  }

  lemma FromKept(d: Document, from: string, to: string, prints: char -> bool, text: string -> string,
                 self: string, s: string, typed: Parameter -> bool, typed2: Parameter -> bool)
    requires Ready(d, from, to, text) && FromOk(d, self, s, typed)
    requires forall p :: typed(p) ==> typed2(p)
    ensures FromOk(RenamedParameter(d, from, to, prints, text), self, RenameParamRef(s, from, to), typed2)
  {
    var d2 := RenamedParameter(d, from, to, prints, text);
    Families(s);
    match ParseFrom(s).value
    case ParamOf(ref) =>
      assert s == PARAMS + ref;
      WireKeepsTarget(d, from, to, prints, text, ref);
      var s2 := RenameParamRef(s, from, to);
      assert ParseFrom(s2) == Some(ParamOf(s2[|PARAMS|..]));
    case EnvOf(key) =>
      OtherWiresKept(s, from, to);
    case StatusOf(_, _) =>
      OtherWiresKept(s, from, to);
      StatusKept(d, from, to, prints, text, Some(self), s);
    case NameOf(_) =>
      OtherWiresKept(s, from, to);
      NameWireKept(d, from, to, prints, text, self, s);
  }

  lemma WireNonempty(s: string, from: string, to: string)
    ensures RenameParamRef(s, from, to) == "" <==> s == ""
  {
    assert |PARAMS + from| > 0 && |PARAMS + to| > 0;
  }

  lemma CountKept(f: Field, w: Rewiring)
    requires w.wire(f.from) == "" <==> f.from == ""
    requires f.raw != "" ==> w.text(f.raw) != ""
    ensures var g := RewireField(f, w);
            && CountSet([g.from, g.value, g.raw, g.template]) == CountSet([f.from, f.value, f.raw, f.template])
            && CountSet([g.from, g.value, g.raw]) == CountSet([f.from, f.value, f.raw])
  {
    var g := RewireField(f, w);
    CountParts(f.from, f.value, f.raw, f.template);
    CountParts(g.from, g.value, g.raw, g.template);
  }

  lemma ObjectParamKept(d: Document, from: string, to: string, prints: char -> bool, text: string -> string, s: string)
    requires Ready(d, from, to, text) && ObjectParam(d, s)
    ensures ObjectParam(RenamedParameter(d, from, to, prints, text), RenameParamRef(s, from, to))
  {
    NamesDotFree(d, from, to, text);
    var ref := s[|PARAMS|..];
    assert s == PARAMS + ref;
    RenameBySegments(ref, from, to);
    RenamedSplit(ref, from, to);
    var r := Join(RenamedSegs(Split(ref, '.'), from, to), '.');
    assert (PARAMS + r)[|PARAMS|..] == r;
  }

  // ----- one field, loop bound, condition -----

  lemma FieldKept(d: Document, from: string, to: string, prints: char -> bool, text: string -> string, r: Resource,
      p: string)
    requires Ready(d, from, to, text) && r in d.resources && p in r.fields
    ensures var w := ParamRewiring(from, to, prints, text);
            FieldOk(RenamedParameter(d, from, to, prints, text), RewireResource(r, w), p, RewireField(r.fields[p], w))
  {
    var w := ParamRewiring(from, to, prints, text);
    var d2, r2, f := RenamedParameter(d, from, to, prints, text), RewireResource(r, w), r.fields[p];
    assert ResourceOk(d, r) && FieldOk(d, r, p, f);
    WireNonempty(f.from, from, to);
    CountKept(f, w);
    if MapKey(p).Some? && MapKey(p).value.0 in r.fields {
      ObjectParamKept(d, from, to, prints, text, r.fields[MapKey(p).value.0].from);
    }
    assert WholeMapOk(d2, p, r2.fields);
    if f.from != "" {
      ShapeKept(p, r.fields, w);
      FromKept(d, from, to, prints, text, r.name, f.from, decl => FieldTypeOk(p, r.fields, decl),
          decl => FieldTypeOk(p, r2.fields, decl));
    }
  }

  lemma ShapeKept(p: string, m: FieldMap, w: Rewiring)
    ensures forall decl :: FieldTypeOk(p, m, decl) <==> FieldTypeOk(p, RewireFields(m, w), decl)
  {
    assert RewireFields(m, w).Keys == m.Keys;
    assert MapShaped(p, m) <==> MapShaped(p, RewireFields(m, w)) by {
      assert forall q :: q in m <==> q in RewireFields(m, w);
    }
  }

  lemma EnvelopeKept(d: Document, from: string, to: string, prints: char -> bool, text: string -> string,
      r: Resource, p: string)
    requires Ready(d, from, to, text) && r in d.resources && p in r.envelope
    ensures EnvelopeOk(RenamedParameter(d, from, to, prints, text), p,
            RewireField(r.envelope[p], ParamRewiring(from, to, prints, text)))
  {
    var w, f := ParamRewiring(from, to, prints, text), r.envelope[p];
    assert ResourceOk(d, r) && EnvelopeOk(d, p, f);
    WireNonempty(f.from, from, to);
    CountKept(f, w);
    Families(f.from);
    if f.from != "" {
      if ENV <= f.from {
        OtherWiresKept(f.from, from, to);
      } else {
        assert f.from == PARAMS + f.from[|PARAMS|..];
        WireKeepsTarget(d, from, to, prints, text, f.from[|PARAMS|..]);
        Families(RenameParamRef(f.from, from, to));
      }
    }
  }

  lemma AnnotationKept(d: Document, from: string, to: string, prints: char -> bool, text: string -> string,
      r: Resource, k: string)
    requires Ready(d, from, to, text) && r in d.resources && k in r.annotations
    ensures var w := ParamRewiring(from, to, prints, text);
            AnnotationOk(RenamedParameter(d, from, to, prints, text), RewireResource(r, w),
                RewireField(r.annotations[k], w))
  {
    var w, f := ParamRewiring(from, to, prints, text), r.annotations[k];
    assert ResourceOk(d, r) && AnnotationOk(d, r, f);
    WireNonempty(f.from, from, to);
    CountKept(f, w);
    if f.from != "" {
      FromKept(d, from, to, prints, text, r.name, f.from, ScalarDecl, ScalarDecl);
    }
  }

  lemma LoopKept(d: Document, from: string, to: string, prints: char -> bool, text: string -> string, r: Resource)
    requires Ready(d, from, to, text) && r in d.resources
    ensures ForEachOk(RenamedParameter(d, from, to, prints, text),
            RewireResource(r, ParamRewiring(from, to, prints, text)))
  {
    assert ResourceOk(d, r);
    var s := r.forEach;
    Families(s);
    if s != "" {
      if RESOURCES <= s || ENV <= s {
        OtherWiresKept(s, from, to);
        StatusKept(d, from, to, prints, text, Some(r.name), s);
      } else {
        NamesDotFree(d, from, to, text);
        ParamLoopKept(d.parameters, s, from, to);
        Families(RenameLoop(s, from, to));
      }
    }
  }

  lemma ParamLoopKept(ps: Declarations, s: string, from: string, to: string)
    requires from in ps && to !in ps && '.' !in to && PARAMS <= s && LoopParamOk(ps, s[|PARAMS|..])
    ensures var s2 := RenameLoop(s, from, to);
            PARAMS <= s2
            && LoopParamOk(RenamedDeclarations(ps, from, to), s2[|PARAMS|..])
  {
    assert s == PARAMS + s[|PARAMS|..];
    if s == PARAMS + from {
      assert s[|PARAMS|..] == from && (PARAMS + to)[|PARAMS|..] == to;
    }
  }

  /** The literal of a condition on the renamed parameter survives quoting. */
  predicate TestPrints(r: Resource, from: string, prints: char -> bool) {
    var w := ParseWhen(r.when);
    w.Some? && w.value.source == "params" && w.value.name == from && w.value.op != "" ==>
      Printable(w.value.literal, prints)
  }

  predicate TestsPrint(d: Document, from: string, prints: char -> bool) {
    forall r :: r in d.resources ==> TestPrints(r, from, prints)
  }

  function RenamedTest(w: When, from: string, to: string): When {
    if w.source == "params" && w.name == from then w.(name := to) else w
  }

  /** The rebuilt condition is the written form of the renamed parse. */
  lemma TestRenamed(s: string, from: string, to: string, prints: char -> bool)
    requires ParseWhen(s).Some? && Camel(to)
    requires var w := ParseWhen(s).value;
             w.source == "params" && w.name == from && w.op != "" ==> Printable(w.literal, prints)
    ensures RenameWhen(s, from, to, prints) == WriteWhen(RenamedTest(ParseWhen(s).value, from, to))
    ensures ParseWhen(RenameWhen(s, from, to, prints)) == Some(RenamedTest(ParseWhen(s).value, from, to))
  {
    WhenParsed(s);
    var w := ParseWhen(s).value;
    var w2 := RenamedTest(w, from, to);
    if w.source == "params" && w.name == from {
      assert PARAMS == "params" + ".";
      if w.op != "" {
        EscapePrintable(w.literal, prints);
        RenameText(to, w.op, w.literal);
      }
    }
    assert s != "" by { Families(s); }
    WhenWritten(w2);
  }

  lemma RenameText(to: string, op: string, literal: string)
    ensures PARAMS + to + " " + op + " " + ("\"" + literal + "\"") == "params" + "."
            + (to + (" " + op + " \"" + literal + "\""))
  {
    var q := literal + "\"";
    assert PARAMS == "params" + ".";
    assert "\"" + literal + "\"" == "\"" + q;
    assert " " + op + " \"" + literal + "\"" == " " + op + " \"" + q;
    assert " \"" == " " + "\"";
  }

  lemma WhenKept(d: Document, from: string, to: string, prints: char -> bool, text: string -> string, r: Resource)
    requires Ready(d, from, to, text) && r in d.resources && TestPrints(r, from, prints)
    ensures WhenOk(RenamedParameter(d, from, to, prints, text),
            RewireResource(r, ParamRewiring(from, to, prints, text)))
  {
    assert ResourceOk(d, r) && WhenOk(d, r);
    if r.when != "" {
      TestRenamed(r.when, from, to, prints);
      var w := ParseWhen(r.when).value;
      if w.source != "env" {
        WhenParsed(r.when);
        TestParamKept(d.parameters, w, from, to);
      }
    }
  }

  lemma TestParamKept(ps: Declarations, w: When, from: string, to: string)
    requires from in ps && to !in ps && TestParamOk(ps, w) && w.source == "params"
    ensures TestParamOk(RenamedDeclarations(ps, from, to), RenamedTest(w, from, to))
  {
  }

  // ----- the whole document -----

  lemma ManagedKept(d: Document, from: string, to: string, prints: char -> bool, text: string -> string)
    requires from in d.parameters
    ensures HasManaged(RenamedParameter(d, from, to, prints, text)) <==> HasManaged(d)
  {
    var w := ParamRewiring(from, to, prints, text);
    var d2 := RenamedParameter(d, from, to, prints, text);
    if HasManaged(d) {
      var r :| r in d.resources && Managed(d, r);
      var i :| 0 <= i < |d.resources| && d.resources[i] == r;
      assert d2.resources[i] == RewireResource(r, w) && d2.resources[i] in d2.resources;
      assert Managed(d2, d2.resources[i]);
    }
    if HasManaged(d2) {
      var r2 :| r2 in d2.resources && Managed(d2, r2);
      var i :| 0 <= i < |d2.resources| && d2.resources[i] == r2;
      assert r2 == RewireResource(d.resources[i], w) && d.resources[i] in d.resources;
      assert Managed(d, d.resources[i]);
    }
  }

  lemma ResourceKept(d: Document, from: string, to: string, prints: char -> bool, text: string -> string, r: Resource)
    requires Ready(d, from, to, text) && r in d.resources && TestPrints(r, from, prints)
    ensures ResourceOk(RenamedParameter(d, from, to, prints, text),
            RewireResource(r, ParamRewiring(from, to, prints, text)))
  {
    var w := ParamRewiring(from, to, prints, text);
    var d2, r2 := RenamedParameter(d, from, to, prints, text), RewireResource(r, w);
    assert ResourceOk(d, r);
    LoopKept(d, from, to, prints, text, r);
    WhenKept(d, from, to, prints, text, r);
    forall p | p in r2.fields ensures FieldOk(d2, r2, p, r2.fields[p]) {
      FieldKept(d, from, to, prints, text, r, p);
    }
    forall p | p in r2.envelope ensures EnvelopeOk(d2, p, r2.envelope[p]) {
      EnvelopeKept(d, from, to, prints, text, r, p);
    }
    forall k | k in r2.annotations ensures AnnotationOk(d2, r2, r2.annotations[k]) {
      AnnotationKept(d, from, to, prints, text, r, k);
    }
    assert r2.envelope.Keys == r.envelope.Keys;
  }

  /** The providerName rule allows the rename. */
  predicate ProviderAllows(d: Document, from: string) {
    HasManaged(d) ==> from != "providerName"
  }

  lemma ParametersKept(d: Document, from: string, to: string, prints: char -> bool, text: string -> string)
    requires Ready(d, from, to, text)
    ensures ParametersOk(RenamedParameter(d, from, to, prints, text)) <==> ProviderAllows(d, from)
  {
    ManagedKept(d, from, to, prints, text);
    DeclarationsRenamed(d.parameters, from, to);
    ProviderRenamed(d.parameters, from, to);
  }

  lemma DeclarationsRenamed(ps: Declarations, from: string, to: string)
    requires from in ps && ParamName(to) && forall n :: n in ps ==> ParamName(n) && DeclOk(ps[n])
    ensures forall n :: n in RenamedDeclarations(ps, from, to) ==>
            ParamName(n)
            && DeclOk(RenamedDeclarations(ps, from, to)[n])
  {
    forall n | n in RenamedDeclarations(ps, from, to) ensures ParamName(n)
        && DeclOk(RenamedDeclarations(ps, from, to)[n]) {
      assert n == to || n in ps;
    }
  }

  lemma ProviderRenamed(ps: Declarations, from: string, to: string)
    requires from in ps && to !in ps
    ensures ProviderNameOk(ps) ==> (ProviderNameOk(RenamedDeclarations(ps, from, to)) <==> from != "providerName")
  {
  }

  lemma RenamedValid(d: Document, from: string, to: string, prints: char -> bool, text: string -> string)
    requires Ready(d, from, to, text) && TestsPrint(d, from, prints) && ProviderAllows(d, from)
    ensures Valid(RenamedParameter(d, from, to, prints, text))
  {
    var w := ParamRewiring(from, to, prints, text);
    var d2 := RenamedParameter(d, from, to, prints, text);
    ParametersKept(d, from, to, prints, text);
    forall s | s in d2.statusWires ensures StatusWireOk(d2, None, s) {
      StatusKept(d, from, to, prints, text, None, s);
    }
    forall r2 | r2 in d2.resources ensures ResourceOk(d2, r2) {
      var i :| 0 <= i < |d2.resources| && d2.resources[i] == r2;
      assert d.resources[i] in d.resources && r2 == RewireResource(d.resources[i], w);
      ResourceKept(d, from, to, prints, text, d.resources[i]);
    }
  }

  /** An escaped literal leaves a backslash, and no condition with one parses. */
  lemma EscapedRefused(s: string, from: string, to: string, prints: char -> bool)
    requires ParseWhen(s).Some? && s != ""
    requires var w := ParseWhen(s).value;
             w.source == "params" && w.name == from && w.op != "" && !Printable(w.literal, prints)
    ensures ParseWhen(RenameWhen(s, from, to, prints)).None?
  {
    var w := ParseWhen(s).value;
    EscapePrintable(w.literal, prints);
    var out := RenameWhen(s, from, to, prints);
    assert out == PARAMS + to + " " + w.op + " " + Quote(w.literal, prints);
    assert '\\' in Quote(w.literal, prints);
    assert '\\' in out;
    if ParseWhen(out).Some? {
      WhenParsed(out);
      NoBackslash(ParseWhen(out).value);
    }
  }

  lemma NoBackslash(w: When)
    requires WellWhen(w)
    ensures '\\' !in WriteWhen(w)
  {
    assert '\\' !in w.name;
    assert '\\' !in w.source && '\\' !in w.op && '\\' !in " " && '\\' !in " \"" && '\\' !in "\"" && '\\' !in ".";
  }

  /** On a valid document with opaque text that does not mention the parameter,
      the renamed document is valid exactly when the providerName rule allows
      it and every condition on the parameter has a literal that prints. */
  lemma RenamedValidIff(d: Document, from: string, to: string, prints: char -> bool, text: string -> string)
    requires Ready(d, from, to, text)
    ensures Valid(RenamedParameter(d, from, to, prints, text)) <==>
            ProviderAllows(d, from)
            && TestsPrint(d, from, prints)
  {
    var w := ParamRewiring(from, to, prints, text);
    var d2 := RenamedParameter(d, from, to, prints, text);
    ParametersKept(d, from, to, prints, text);
    if ProviderAllows(d, from) && TestsPrint(d, from, prints) {
      RenamedValid(d, from, to, prints, text);
    }
    if Valid(d2) {
      forall r | r in d.resources ensures TestPrints(r, from, prints) {
        var i :| 0 <= i < |d.resources| && d.resources[i] == r;
        assert d2.resources[i] == RewireResource(r, w) && d2.resources[i] in d2.resources;
        assert ResourceOk(d2, d2.resources[i]) && ResourceOk(d, r);
        if !TestPrints(r, from, prints) {
          EscapedRefused(r.when, from, to, prints);
        }
      }
    }
  }

  // ----- renaming back -----

  /** A wire that does not start at the new name comes back. */
  lemma WireBack(s: string, from: string, to: string)
    requires '.' !in from && '.' !in to
    requires PARAMS <= s ==> Split(s[|PARAMS|..], '.')[0] != to
    ensures RenameParamRef(RenameParamRef(s, from, to), to, from) == s
  {
    if PARAMS <= s {
      var ref := s[|PARAMS|..];
      var segs := Split(ref, '.');
      assert s == PARAMS + ref;
      RenameBySegments(ref, from, to);
      RenamedSplit(ref, from, to);
      var ref2 := Join(RenamedSegs(segs, from, to), '.');
      RenameBySegments(ref2, to, from);
      assert RenamedSegs(RenamedSegs(segs, from, to), to, from) == segs by {
        if segs[0] == from {
          assert ([to] + segs[1..])[1..] == segs[1..];
          assert segs == [from] + segs[1..];
        }
      }
      JoinSplit(ref, '.');
    } else {
      OtherWiresKept(s, from, to);
      OtherWiresKept(s, to, from);
    }
  }

  /** Validity rules out references to a name that is not declared. */
  lemma NoPriorUse(d: Document, to: string, self: string, s: string, typed: Parameter -> bool)
    requires to !in d.parameters && FromOk(d, self, s, typed) && PARAMS <= s
    ensures Split(s[|PARAMS|..], '.')[0] != to
  {
    Families(s);
  }

  lemma FieldsBack(d: Document, from: string, to: string, prints: char -> bool, text: string -> string, m: FieldMap)
    requires Ready(d, from, to, text) && FieldsFixed(m, text)
    requires forall p :: p in m && PARAMS <= m[p].from ==> Split(m[p].from[|PARAMS|..], '.')[0] != to
    ensures RewireFields(RewireFields(m, ParamRewiring(from, to, prints, text)),
            ParamRewiring(to, from, prints, text)) == m
  {
    NamesDotFree(d, from, to, text);
    var w, v := ParamRewiring(from, to, prints, text), ParamRewiring(to, from, prints, text);
    var out := RewireFields(RewireFields(m, w), v);
    forall p | p in m ensures out[p] == m[p] {
      WireBack(m[p].from, from, to);
    }
  }

  lemma WhenBack(d: Document, from: string, to: string, prints: char -> bool, text: string -> string, r: Resource)
    requires Ready(d, from, to, text) && r in d.resources && TestPrints(r, from, prints)
    ensures RenameWhen(RenameWhen(r.when, from, to, prints), to, from, prints) == r.when
  {
    assert ResourceOk(d, r) && WhenOk(d, r);
    if r.when != "" {
      var w := ParseWhen(r.when).value;
      TestRenamed(r.when, from, to, prints);
      WhenParsed(r.when);
      var s2 := RenameWhen(r.when, from, to, prints);
      if w.source == "params" && w.name == from {
        TestRenamed(s2, to, from, prints);
      } else {
        Families(s2);
      }
    }
  }

  lemma ResourceBack(d: Document, from: string, to: string, prints: char -> bool, text: string -> string, r: Resource)
    requires Ready(d, from, to, text) && r in d.resources && TestPrints(r, from, prints)
    ensures RewireResource(RewireResource(r, ParamRewiring(from, to, prints, text)),
            ParamRewiring(to, from, prints, text)) == r
  {
    assert ResourceOk(d, r);
    WhenBack(d, from, to, prints, text, r);
    LoopBack(d, from, to, r);
    forall p | p in r.fields && PARAMS <= r.fields[p].from ensures Split(r.fields[p].from[|PARAMS|..], '.')[0] != to {
      assert FieldOk(d, r, p, r.fields[p]);
      NoPriorUse(d, to, r.name, r.fields[p].from, decl => FieldTypeOk(p, r.fields, decl));
    }
    FieldsBack(d, from, to, prints, text, r.fields);
    forall p | p in r.envelope && PARAMS <= r.envelope[p].from ensures Split(r.envelope[p].from[|PARAMS|..],
        '.')[0] != to {
      assert EnvelopeOk(d, p, r.envelope[p]);
      Families(r.envelope[p].from);
    }
    FieldsBack(d, from, to, prints, text, r.envelope);
    forall k | k in r.annotations && PARAMS <= r.annotations[k].from ensures Split(r.annotations[k].from[|PARAMS|..],
        '.')[0] != to {
      assert AnnotationOk(d, r, r.annotations[k]);
      NoPriorUse(d, to, r.name, r.annotations[k].from, ScalarDecl);
    }
    FieldsBack(d, from, to, prints, text, r.annotations);
  }

  lemma LoopBack(d: Document, from: string, to: string, r: Resource)
    requires to !in d.parameters && ForEachOk(d, r)
    ensures RenameLoop(RenameLoop(r.forEach, from, to), to, from) == r.forEach
  {
    Families(r.forEach);
    Families(PARAMS + to);
    assert (PARAMS + to)[|PARAMS|..] == to;
    assert r.forEach != PARAMS + to;
  }

  lemma DeclarationsBack(ps: Declarations, from: string, to: string)
    requires from in ps && to !in ps
    ensures RenamedDeclarations(RenamedDeclarations(ps, from, to), to, from) == ps
  {
  }

  lemma ResourcesBack(d: Document, from: string, to: string, prints: char -> bool, text: string -> string)
    requires Ready(d, from, to, text) && TestsPrint(d, from, prints)
    ensures RewireResources(RewireResources(d.resources, ParamRewiring(from, to, prints, text)),
            ParamRewiring(to, from, prints, text)) == d.resources
  {
    var w, v := ParamRewiring(from, to, prints, text), ParamRewiring(to, from, prints, text);
    var out := RewireResources(RewireResources(d.resources, w), v);
    forall i | 0 <= i < |d.resources| ensures out[i] == d.resources[i] {
      assert d.resources[i] in d.resources;
      ResourceBack(d, from, to, prints, text, d.resources[i]);
    }
  }

  /** Renaming back restores the document exactly. */
  lemma RenameInverse(d: Document, from: string, to: string, prints: char -> bool, text: string -> string)
    requires Ready(d, from, to, text) && TestsPrint(d, from, prints)
    ensures RenamedParameter(RenamedParameter(d, from, to, prints, text), to, from, prints, text) == d
  {
    DeclarationsBack(d.parameters, from, to);
    ResourcesBack(d, from, to, prints, text);
    var d3 := RenamedParameter(RenamedParameter(d, from, to, prints, text), to, from, prints, text);
    assert d3.templates == d.templates;
  }

  // ----- what every reference means stays -----

  lemma ParamMeansSame(d: Document, from: string, to: string, prints: char -> bool, text: string -> string, ref: string)
    requires Ready(d, from, to, text) && ParamTarget(d, ref).Some?
    ensures WireMeaning(RenamedParameter(d, from, to, prints, text), RenameParamRef(PARAMS + ref, from, to))
            == WireMeaning(d, PARAMS + ref)
  {
    WireKeepsTarget(d, from, to, prints, text, ref);
    assert (PARAMS + ref)[|PARAMS|..] == ref;
  }

  lemma WireMeansSame(d: Document, from: string, to: string, prints: char -> bool, text: string -> string, s: string)
    requires Ready(d, from, to, text)
    requires PARAMS <= s ==> ParamTarget(d, s[|PARAMS|..]).Some?
    ensures WireMeaning(RenamedParameter(d, from, to, prints, text), RenameParamRef(s, from, to)) == WireMeaning(d, s)
  {
    if PARAMS <= s {
      assert s == PARAMS + s[|PARAMS|..];
      ParamMeansSame(d, from, to, prints, text, s[|PARAMS|..]);
    } else {
      OtherWiresKept(s, from, to);
      var r := ParseFrom(s);
      if r.Some? && (r.value.StatusOf? || r.value.NameOf?) {
        IndexKept(d.resources, ParamRewiring(from, to, prints, text), r.value.resource);
      }
    }
  }

  lemma FieldsMeanSame(d: Document, from: string, to: string, prints: char -> bool, text: string -> string, m: FieldMap)
    requires Ready(d, from, to, text) && FieldsFixed(m, text)
    requires forall p :: p in m && PARAMS <= m[p].from ==> ParamTarget(d, m[p].from[|PARAMS|..]).Some?
    ensures SameWires(d, m, RenamedParameter(d, from, to, prints, text),
            RewireFields(m, ParamRewiring(from, to, prints, text)))
  {
    forall p | p in m {
      WireMeansSame(d, from, to, prints, text, m[p].from);
    }
  }

  lemma ResourceMeansSame(d: Document, from: string, to: string, prints: char -> bool, text: string -> string,
      r: Resource)
    requires Ready(d, from, to, text) && r in d.resources && TestPrints(r, from, prints)
    ensures SameResource(d, r, RenamedParameter(d, from, to, prints, text),
            RewireResource(r, ParamRewiring(from, to, prints, text)))
  {
    assert ResourceOk(d, r);
    forall p | p in r.fields && PARAMS <= r.fields[p].from ensures ParamTarget(d, r.fields[p].from[|PARAMS|..]).Some? {
      assert FieldOk(d, r, p, r.fields[p]);
    }
    FieldsMeanSame(d, from, to, prints, text, r.fields);
    forall p | p in r.envelope && PARAMS <= r.envelope[p].from ensures ParamTarget(d,
        r.envelope[p].from[|PARAMS|..]).Some? {
      assert EnvelopeOk(d, p, r.envelope[p]);
      Families(r.envelope[p].from);
    }
    FieldsMeanSame(d, from, to, prints, text, r.envelope);
    forall k | k in r.annotations && PARAMS <= r.annotations[k].from ensures ParamTarget(d,
        r.annotations[k].from[|PARAMS|..]).Some? {
      assert AnnotationOk(d, r, r.annotations[k]);
    }
    FieldsMeanSame(d, from, to, prints, text, r.annotations);
    LoopMeansSame(d, from, to, prints, text, r);
    TestMeansSame(d, from, to, prints, text, r);
  }

  lemma LoopMeansSame(d: Document, from: string, to: string, prints: char -> bool, text: string -> string, r: Resource)
    requires Ready(d, from, to, text) && r in d.resources && ResourceOk(d, r)
    ensures LoopMeaning(RenamedParameter(d, from, to, prints, text), RenameLoop(r.forEach, from, to))
            == LoopMeaning(d, r.forEach)
  {
    var s := r.forEach;
    var s2 := RenameLoop(s, from, to);
    Families(s);
    Families(s2);
    LoopNonempty(s, from, to);
    if s != "" && (RESOURCES <= s || ENV <= s) {
      OtherWiresKept(s, from, to);
      if StatusRef(s).Some? {
        IndexKept(d.resources, ParamRewiring(from, to, prints, text), StatusRef(s).value.0);
      }
    } else if s != "" {
      assert s == PARAMS + s[|PARAMS|..];
      assert s == PARAMS + from ==> s[|PARAMS|..] == from && s2[|PARAMS|..] == to;
    }
  }

  lemma TestMeansSame(d: Document, from: string, to: string, prints: char -> bool, text: string -> string, r: Resource)
    requires Ready(d, from, to, text) && r in d.resources && ResourceOk(d, r) && TestPrints(r, from, prints)
    ensures TestMeaning(RenamedParameter(d, from, to, prints, text), RenameWhen(r.when, from, to, prints))
            == TestMeaning(d, r.when)
  {
    assert WhenOk(d, r);
    if ParseWhen(r.when).Some? {
      WhenParsed(r.when);
    }
    if r.when != "" {
      TestRenamed(r.when, from, to, prints);
      RenamedTestMeans(d.parameters, ParseWhen(r.when).value, from, to);
    }
  }

  lemma RenamedTestMeans(ps: Declarations, w: When, from: string, to: string)
    requires from in ps && to !in ps
    ensures var w2, ps2 := RenamedTest(w, from, to), RenamedDeclarations(ps, from, to);
            && w2.source == w.source && w2.op == w.op && w2.literal == w.literal
            && (w.source == "env" ==> w2.name == w.name)
            && (w.source == "params" && w.name in ps ==> w2.name in ps2 && ps2[w2.name] == ps[w.name])
  {
  }

  /** Every wire, loop bound, condition and composite-status wire refers after
      the rename to the declarations and resources it referred to before. */
  lemma RenameKeepsMeaning(d: Document, from: string, to: string, prints: char -> bool, text: string -> string)
    requires Ready(d, from, to, text) && TestsPrint(d, from, prints)
    ensures SameMeaning(d, RenamedParameter(d, from, to, prints, text))
  {
    var d2 := RenamedParameter(d, from, to, prints, text);
    forall i | 0 <= i < |d.resources| ensures SameResource(d, d.resources[i], d2, d2.resources[i]) {
      assert d.resources[i] in d.resources;
      ResourceMeansSame(d, from, to, prints, text, d.resources[i]);
    }
    forall i | 0 <= i < |d.statusWires| ensures WireMeaning(d2, d2.statusWires[i]) == WireMeaning(d, d.statusWires[i]) {
      assert StatusWireOk(d, None, d.statusWires[i]);
      Families(d.statusWires[i]);
      OtherWiresKept(d.statusWires[i], from, to);
      WireMeansSame(d, from, to, prints, text, d.statusWires[i]);
    }
  }
}
