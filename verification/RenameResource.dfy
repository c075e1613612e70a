/** Renaming a resource (internal/blueprint/edit.go:347-439): what it keeps,
    when it succeeds, and that renaming back undoes it. */
module RenameResource {
  import opened Seqs
  import opened Template
  import opened Text
  import opened Refs
  import opened Params
  import opened Blueprint
  import opened Rewrite

  function StatusPrefix(name: string): string {
    RESOURCES + name + STATUS
  }

  function NameRef(name: string): string {
    RESOURCES + name + META_NAME
  }

  function RenameLoopRef(s: string, from: string, to: string): string {
    if StatusPrefix(from) <= s then StatusPrefix(to) + s[|StatusPrefix(from)|..] else s
  }

  function RenameWire(s: string, from: string, to: string): string {
    if StatusPrefix(from) <= s then StatusPrefix(to) + s[|StatusPrefix(from)|..]
    else if s == NameRef(from) then NameRef(to)
    else s
  }

  function ResourceRewiring(from: string, to: string, text: string -> string): Rewiring {
    Rewiring(s => RenameWire(s, from, to), s => RenameLoopRef(s, from, to), s => s, text)
  }

  function NewName(name: string, from: string, to: string): string {
    if name == from then to else name
  }

  function RenamedOne(r: Resource, from: string, to: string, text: string -> string): Resource {
    RewireResource(r, ResourceRewiring(from, to, text)).(name := NewName(r.name, from, to))
  }

  function RenamedAll(rs: seq<Resource>, from: string, to: string, text: string -> string): seq<Resource> {
    seq(|rs|, i requires 0 <= i < |rs| => RenamedOne(rs[i], from, to, text))
  }

  function Renamed(d: Document, from: string, to: string, text: string -> string): Document {
    d.(resources := RenamedAll(d.resources, from, to, text),
       templates := RewireTemplates(d.templates, ResourceRewiring(from, to, text)))
  }

  predicate Ready(d: Document, from: string, to: string, text: string -> string) {
    && Valid(d) && TextFixed(d, text)
    && IndexOf(d.resources, from) >= 0 && IndexOf(d.resources, to) < 0 && DnsLabel(to)
  }

  // ----- the prefix tests look at the whole name -----

  lemma FirstDot(a: string, x: string, b: string, y: string)
    requires '.' !in a && '.' !in b
    ensures a + "." + x <= b + "." + y <==> a == b && x <= y
    ensures a + "." + x == b + "." + y <==> a == b && x == y
  {
    var u, v := a + "." + x, b + "." + y;
    assert u[|a|] == '.' && v[|b|] == '.';
    assert forall i :: 0 <= i < |a| ==> u[i] == a[i];
    assert forall i :: 0 <= i < |b| ==> v[i] == b[i];
    assert u[|a| + 1..] == x && v[|b| + 1..] == y;
    if u <= v {
      assert |a| == |b|;
      assert a == u[..|a|] == v[..|a|] == b;
      assert x == u[|a| + 1..] <= v[|a| + 1..] == y;
    }
  }

  lemma StatusParts(name: string, path: string)
    ensures StatusPrefix(name) + path == RESOURCES + (name + "." + ("status." + path))
  {
    assert STATUS == "." + "status.";
  }

  lemma NameParts(name: string)
    ensures NameRef(name) == RESOURCES + (name + "." + "metadata.name")
  {
    assert META_NAME == "." + "metadata.name";
  }

  lemma BehindResources(x: string, y: string)
    ensures RESOURCES + x <= RESOURCES + y <==> x <= y
    ensures RESOURCES + x == RESOURCES + y <==> x == y
  {
    PrefixBehind(RESOURCES, x, y);
  }

  /** A status wire is rewritten exactly when it names the renamed resource. */
  lemma StatusWireRenamed(name: string, path: string, from: string, to: string)
    requires '.' !in name && '.' !in from
    ensures var s := StatusPrefix(name) + path;
            && RenameWire(s, from, to) == StatusPrefix(NewName(name, from, to)) + path
            && RenameLoopRef(s, from, to) == StatusPrefix(NewName(name, from, to)) + path
  {
    var s := StatusPrefix(name) + path;
    StatusParts(name, path);
    StatusParts(from, "");
    assert StatusPrefix(from) + "" == StatusPrefix(from) && "status." + "" == "status.";
    BehindResources(from + "." + "status.", name + "." + ("status." + path));
    FirstDot(from, "status.", name, "status." + path);
    if name == from {
      assert s[|StatusPrefix(from)|..] == path;
    } else {
      NameParts(from);
      BehindResources(name + "." + ("status." + path), from + "." + "metadata.name");
      FirstDot(name, "status." + path, from, "metadata.name");
    }
  }

  lemma NameWireRenamed(name: string, from: string, to: string)
    requires '.' !in name && '.' !in from
    ensures RenameWire(NameRef(name), from, to) == NameRef(NewName(name, from, to))
    ensures RenameLoopRef(NameRef(name), from, to) == NameRef(name)
  {
    NameParts(name);
    NameParts(from);
    BehindResources(name + "." + "metadata.name", from + "." + "metadata.name");
    FirstDot(name, "metadata.name", from, "metadata.name");
    StatusParts(from, "");
    assert StatusPrefix(from) + "" == StatusPrefix(from) && "status." + "" == "status.";
    BehindResources(from + "." + "status.", name + "." + "metadata.name");
    FirstDot(from, "status.", name, "metadata.name");
    assert "status."[0] == 's' && "metadata.name"[0] == 'm';
  }

  lemma OthersKept(s: string, from: string, to: string)
    requires !(RESOURCES <= s)
    ensures RenameWire(s, from, to) == s && RenameLoopRef(s, from, to) == s
  {
    Prefixed(RESOURCES, from + STATUS, s);
    Prefixed(RESOURCES, from + META_NAME, s);
    Assoc(RESOURCES, from, STATUS);
    Assoc(RESOURCES, from, META_NAME);
  }

  lemma Prefixed(a: string, x: string, s: string)
    requires !(a <= s)
    ensures !(a + x <= s) && a + x != s
  {
  }

  // ----- names and places -----

  lemma NamesDotFree(d: Document, from: string, to: string, text: string -> string)
    requires Ready(d, from, to, text)
    ensures '.' !in from && '.' !in to && from != to && to != ""
  {
    var i := IndexOf(d.resources, from);
    assert d.resources[i] in d.resources && ResourceOk(d, d.resources[i]);
    NoDotInDns(from);
    NoDotInDns(to);
  }

  lemma DeclaredDotFree(d: Document, name: string)
    requires ResourcesOk(d) && IndexOf(d.resources, name) >= 0
    ensures DnsLabel(name) && '.' !in name && name != ""
  {
    var i := IndexOf(d.resources, name);
    assert d.resources[i] in d.resources && ResourceOk(d, d.resources[i]);
    NoDotInDns(name);
  }

  /** Every declared name keeps its place under its new name. */
  lemma PlaceKept(rs: seq<Resource>, from: string, to: string, text: string -> string, name: string)
    requires IndexOf(rs, to) < 0 && name != to
    ensures IndexOf(RenamedAll(rs, from, to, text), NewName(name, from, to)) == IndexOf(rs, name)
  {
    var out := RenamedAll(rs, from, to, text);
    var i, j := IndexOf(rs, name), IndexOf(out, NewName(name, from, to));
    assert forall k :: 0 <= k < |rs| ==> out[k].name == NewName(rs[k].name, from, to) && rs[k].name != to;
    if i >= 0 {
      assert out[i].name == NewName(name, from, to);
    }
    if j >= 0 {
      assert rs[j].name == name;
    }
  }

  /** The old name is gone. */
  lemma OldNameGone(rs: seq<Resource>, from: string, to: string, text: string -> string)
    requires from != to
    ensures IndexOf(RenamedAll(rs, from, to, text), from) < 0
  {
    var out := RenamedAll(rs, from, to, text);
    assert forall k :: 0 <= k < |rs| ==> out[k].name != from;
  }

  lemma LoopNonempty(s: string, from: string, to: string)
    ensures RenameLoopRef(s, from, to) == "" <==> s == ""
    ensures RenameWire(s, from, to) == "" <==> s == ""
  {
    assert |StatusPrefix(from)| > 0 && |StatusPrefix(to)| > 0 && |NameRef(to)| > 0 && |NameRef(from)| > 0;
  }

  lemma TargetKept(d: Document, from: string, to: string, text: string -> string, name: string)
    requires IndexOf(d.resources, to) < 0 && UnloopedTarget(d, name)
    ensures UnloopedTarget(Renamed(d, from, to, text), NewName(name, from, to))
  {
    PlaceKept(d.resources, from, to, text, name);
    var i := IndexOf(d.resources, name);
    LoopNonempty(d.resources[i].forEach, from, to);
  }

  // ----- single references -----

  lemma StatusKept(d: Document, from: string, to: string, text: string -> string, self: string, s: string)
    requires Ready(d, from, to, text) && StatusWireOk(d, Some(self), s) && IndexOf(d.resources, self) >= 0
    ensures RenameWire(s, from, to) == RenameLoopRef(s, from, to)
    ensures StatusWireOk(Renamed(d, from, to, text), Some(NewName(self, from, to)), RenameWire(s, from, to))
  {
    NamesDotFree(d, from, to, text);
    var (name, path) := StatusRef(s).value;
    StatusRefWrites(s);
    DeclaredDotFree(d, name);
    StatusWireRenamed(name, path, from, to);
    TargetKept(d, from, to, text, name);
    var n2 := NewName(name, from, to);
    StatusRefWritten(n2, path);
    NewNameApart(d, from, to, name, self);
  }

  lemma NewNameApart(d: Document, from: string, to: string, a: string, b: string)
    requires IndexOf(d.resources, to) < 0 && IndexOf(d.resources, a) >= 0 && IndexOf(d.resources, b) >= 0 && a != b
    ensures NewName(a, from, to) != NewName(b, from, to)
  {
  }

  lemma NameWireKept(d: Document, from: string, to: string, text: string -> string, self: string, s: string,
      name: string)
    requires Ready(d, from, to, text) && NameWireOk(d, self, s) && IndexOf(d.resources, self) >= 0
    requires s == NameRef(name) && DnsLabel(name)
    ensures RenameWire(s, from, to) == NameRef(NewName(name, from, to))
    ensures NameWireOk(Renamed(d, from, to, text), NewName(self, from, to), RenameWire(s, from, to))
  {
    NamesDotFree(d, from, to, text);
    NoDotInDns(name);
    MetadataRefWritten(name);
    NameWireRenamed(name, from, to);
    TargetKept(d, from, to, text, name);
    MetadataRefWritten(NewName(name, from, to));
    NewNameApart(d, from, to, name, self);
  }

  lemma FromKept(d: Document, from: string, to: string, text: string -> string,
                 self: string, s: string, typed: Parameter -> bool, typed2: Parameter -> bool)
    requires Ready(d, from, to, text) && FromOk(d, self, s, typed) && IndexOf(d.resources, self) >= 0
    requires forall p :: typed(p) ==> typed2(p)
    ensures FromOk(Renamed(d, from, to, text), NewName(self, from, to), RenameWire(s, from, to), typed2)
  {
    Families(s);
    ParsedWrites(s);
    match ParseFrom(s).value
    case ParamOf(ref) =>
      OthersKept(s, from, to);
    case EnvOf(key) =>
      OthersKept(s, from, to);
    case StatusOf(name, path) =>
      StatusKept(d, from, to, text, self, s);
      StatusReads(d, from, to, text, s, name, path);
    case NameOf(name) =>
      NameWireKept(d, from, to, text, self, s, name);
      ParseWritten(NameOf(NewName(name, from, to)));
  }

  lemma StatusReads(d: Document, from: string, to: string, text: string -> string, s: string, name: string,
      path: seq<string>)
    requires Ready(d, from, to, text) && ParseFrom(s) == Some(StatusOf(name, path))
    ensures ParseFrom(RenameWire(s, from, to)) == Some(StatusOf(NewName(name, from, to), path))
  {
    NamesDotFree(d, from, to, text);
    ParsedWrites(s);
    NoDotInDns(name);
    StatusWireRenamed(name, Join(path, '.'), from, to);
    ParseWritten(StatusOf(NewName(name, from, to), path));
  }

  lemma CountKept(f: Field, from: string, to: string, text: string -> string)
    requires f.raw != "" ==> text(f.raw) != ""
    ensures var g := RewireField(f, ResourceRewiring(from, to, text));
            && CountSet([g.from, g.value, g.raw, g.template]) == CountSet([f.from, f.value, f.raw, f.template])
            && CountSet([g.from, g.value, g.raw]) == CountSet([f.from, f.value, f.raw])
  {
    LoopNonempty(f.from, from, to);
    var g := RewireField(f, ResourceRewiring(from, to, text));
    CountCong([f.from, f.value, f.raw, f.template], [g.from, g.value, g.raw, g.template]);
    CountCong([f.from, f.value, f.raw], [g.from, g.value, g.raw]);
  }

  lemma {:induction false} CountCong(a: seq<string>, b: seq<string>)
    requires |a| == |b| && forall i :: 0 <= i < |a| ==> (a[i] == "" <==> b[i] == "")
    ensures CountSet(a) == CountSet(b)
  {
    if a != [] {
      CountCong(a[1..], b[1..]);
    }
  }

  // ----- one field, loop bound -----

  lemma FieldKept(d: Document, from: string, to: string, text: string -> string, r: Resource, p: string)
    requires Ready(d, from, to, text) && r in d.resources && IndexOf(d.resources, r.name) >= 0 && p in r.fields
    ensures var r2 := RenamedOne(r, from, to, text);
            p in r2.fields && FieldOk(Renamed(d, from, to, text), r2, p, r2.fields[p])
  {
    var r2, f := RenamedOne(r, from, to, text), r.fields[p];
    var d2 := Renamed(d, from, to, text);
    assert ResourceOk(d, r) && FieldOk(d, r, p, f);
    LoopNonempty(f.from, from, to);
    CountKept(f, from, to, text);
    if MapKey(p).Some? && MapKey(p).value.0 in r.fields {
      ObjectKept(d, from, to, text, r.fields[MapKey(p).value.0].from);
    }
    assert WholeMapOk(d2, p, r2.fields);
    if f.from != "" {
      ShapeKept(p, r.fields, ResourceRewiring(from, to, text));
      FromKept(d, from, to, text, r.name, f.from, decl => FieldTypeOk(p, r.fields, decl),
          decl => FieldTypeOk(p, r2.fields, decl));
    }
  }

  lemma ObjectKept(d: Document, from: string, to: string, text: string -> string, s: string)
    requires ObjectParam(d, s)
    ensures ObjectParam(Renamed(d, from, to, text), RenameWire(s, from, to))
  {
    Families(s);
    OthersKept(s, from, to);
  }

  lemma ShapeKept(p: string, m: FieldMap, w: Rewiring)
    ensures forall decl :: FieldTypeOk(p, m, decl) <==> FieldTypeOk(p, RewireFields(m, w), decl)
  {
    assert MapShaped(p, m) <==> MapShaped(p, RewireFields(m, w)) by {
      assert forall q :: q in m <==> q in RewireFields(m, w);
    }
  }

  lemma EnvelopeKept(d: Document, from: string, to: string, text: string -> string, r: Resource, p: string)
    requires Ready(d, from, to, text) && r in d.resources && p in r.envelope
    ensures var w := ResourceRewiring(from, to, text); EnvelopeOk(Renamed(d, from, to, text), p,
            RewireField(r.envelope[p], w))
  {
    var f := r.envelope[p];
    assert ResourceOk(d, r) && EnvelopeOk(d, p, f);
    Families(f.from);
    LoopNonempty(f.from, from, to);
    CountKept(f, from, to, text);
    if f.from != "" {
      OthersKept(f.from, from, to);
    }
  }

  lemma AnnotationKept(d: Document, from: string, to: string, text: string -> string, r: Resource, k: string)
    requires Ready(d, from, to, text) && r in d.resources && IndexOf(d.resources, r.name) >= 0 && k in r.annotations
    ensures var r2 := RenamedOne(r, from, to, text);
            k in r2.annotations
            && AnnotationOk(Renamed(d, from, to, text), r2, r2.annotations[k])
  {
    var f := r.annotations[k];
    assert ResourceOk(d, r) && AnnotationOk(d, r, f);
    LoopNonempty(f.from, from, to);
    CountKept(f, from, to, text);
    if f.from != "" {
      FromKept(d, from, to, text, r.name, f.from, ScalarDecl, ScalarDecl);
    }
  }

  lemma LoopKept(d: Document, from: string, to: string, text: string -> string, r: Resource)
    requires Ready(d, from, to, text) && r in d.resources && IndexOf(d.resources, r.name) >= 0
    ensures ForEachOk(Renamed(d, from, to, text), RenamedOne(r, from, to, text))
  {
    assert ResourceOk(d, r) && ForEachOk(d, r);
    var s := r.forEach;
    LoopNonempty(s, from, to);
    Families(s);
    if RESOURCES <= s {
      StatusKept(d, from, to, text, r.name, s);
      var s2 := RenameLoopRef(s, from, to);
      assert StatusRef(s2).Some?;
    } else {
      OthersKept(s, from, to);
    }
  }

  lemma ResourceKept(d: Document, from: string, to: string, text: string -> string, r: Resource)
    requires Ready(d, from, to, text) && r in d.resources && IndexOf(d.resources, r.name) >= 0 && ResourceName(to)
    ensures ResourceOk(Renamed(d, from, to, text), RenamedOne(r, from, to, text))
  {
    var r2 := RenamedOne(r, from, to, text);
    assert ResourceOk(d, r);
    LoopKept(d, from, to, text, r);
    WhenSame(d, from, to, text, r);
    FieldsKept(d, from, to, text, r);
    KeysSame(r, from, to, text);
  }

  lemma KeysSame(r: Resource, from: string, to: string, text: string -> string)
    ensures RenamedOne(r, from, to, text).envelope.Keys == r.envelope.Keys
    ensures RenamedOne(r, from, to, text).annotations.Keys == r.annotations.Keys
  {
  }

  lemma WhenSame(d: Document, from: string, to: string, text: string -> string, r: Resource)
    requires WhenOk(d, r)
    ensures WhenOk(Renamed(d, from, to, text), RenamedOne(r, from, to, text))
  {
  }

  lemma FieldsKept(d: Document, from: string, to: string, text: string -> string, r: Resource)
    requires Ready(d, from, to, text) && r in d.resources && IndexOf(d.resources, r.name) >= 0
    ensures var d2, r2 := Renamed(d, from, to, text), RenamedOne(r, from, to, text);
            && (forall p :: p in r2.fields ==> FieldOk(d2, r2, p, r2.fields[p]))
            && (forall p :: p in r2.envelope ==> EnvelopeOk(d2, p, r2.envelope[p]))
            && (forall k :: k in r2.annotations ==> AnnotationOk(d2, r2, r2.annotations[k]))
  {
    var d2, r2 := Renamed(d, from, to, text), RenamedOne(r, from, to, text);
    forall p | p in r2.fields ensures FieldOk(d2, r2, p, r2.fields[p]) {
      FieldKept(d, from, to, text, r, p);
    }
    forall p | p in r2.envelope ensures EnvelopeOk(d2, p, r2.envelope[p]) {
      EnvelopeKept(d, from, to, text, r, p);
    }
    forall k | k in r2.annotations ensures AnnotationOk(d2, r2, r2.annotations[k]) {
      AnnotationKept(d, from, to, text, r, k);
    }
  }

  // ----- the whole document -----

  lemma Placed(d: Document, i: nat)
    requires ResourcesOk(d) && i < |d.resources|
    ensures IndexOf(d.resources, d.resources[i].name) == i && d.resources[i] in d.resources
            && ResourceOk(d, d.resources[i])
  {
    IndexUnique(d.resources, i);
  }

  lemma ManagedKept(d: Document, from: string, to: string, text: string -> string)
    ensures HasManaged(Renamed(d, from, to, text)) <==> HasManaged(d)
  {
    var d2 := Renamed(d, from, to, text);
    if HasManaged(d) {
      var r :| r in d.resources && Managed(d, r);
      var i :| 0 <= i < |d.resources| && d.resources[i] == r;
      assert d2.resources[i] == RenamedOne(r, from, to, text) && d2.resources[i] in d2.resources;
      assert Managed(d2, d2.resources[i]);
    }
    if HasManaged(d2) {
      var r2 :| r2 in d2.resources && Managed(d2, r2);
      var i :| 0 <= i < |d2.resources| && d2.resources[i] == r2;
      assert r2 == RenamedOne(d.resources[i], from, to, text) && d.resources[i] in d.resources;
      assert Managed(d, d.resources[i]);
    }
  }

  /** No composite-status declaration reads from the resource. */
  predicate StatusFree(d: Document, from: string) {
    forall s :: s in d.statusWires ==> StatusRef(s).None? || StatusRef(s).value.0 != from
  }

  /** The composite status is not rewritten, so its wires survive exactly when
      they name another resource. */
  lemma CompositeStatus(d: Document, from: string, to: string, text: string -> string)
    requires Ready(d, from, to, text)
    ensures StatusOk(Renamed(d, from, to, text)) <==> StatusFree(d, from)
  {
    var d2 := Renamed(d, from, to, text);
    NamesDotFree(d, from, to, text);
    OldNameGone(d.resources, from, to, text);
    forall s | s in d.statusWires ensures StatusWireOk(d2, None, s) <==> StatusRef(s).value.0 != from {
      assert StatusWireOk(d, None, s);
      var name := StatusRef(s).value.0;
      if name != from {
        TargetKept(d, from, to, text, name);
      }
    }
  }

  lemma ResourcesKept(d: Document, from: string, to: string, text: string -> string)
    requires Ready(d, from, to, text)
    ensures ResourcesOk(Renamed(d, from, to, text)) <==> ResourceName(to)
  {
    var d2 := Renamed(d, from, to, text);
    forall i, j | 0 <= i < j < |d2.resources| ensures d2.resources[i].name != d2.resources[j].name {
      assert d.resources[i].name != d.resources[j].name;
    }
    var at := IndexOf(d.resources, from);
    assert d2.resources[at].name == to && d2.resources[at] in d2.resources;
    if ResourceName(to) {
      forall r2 | r2 in d2.resources ensures ResourceOk(d2, r2) {
        var i :| 0 <= i < |d2.resources| && d2.resources[i] == r2;
        Placed(d, i);
        ResourceKept(d, from, to, text, d.resources[i]);
      }
    }
  }

  /** On a valid document with opaque text that does not mention the resource,
      the renamed document is valid exactly when the new name is no YAML keyword
      and no composite-status declaration reads from the resource. */
  lemma RenamedValidIff(d: Document, from: string, to: string, text: string -> string)
    requires Ready(d, from, to, text)
    ensures Valid(Renamed(d, from, to, text)) <==> ResourceName(to) && StatusFree(d, from)
  {
    ManagedKept(d, from, to, text);
    CompositeStatus(d, from, to, text);
    ResourcesKept(d, from, to, text);
  }

  // ----- renaming back -----

  /** A wire that resolves does not name the fresh resource and comes back. */
  lemma WireBack(d: Document, from: string, to: string, text: string -> string, self: string, s: string,
      typed: Parameter -> bool)
    requires Ready(d, from, to, text) && FromOk(d, self, s, typed)
    ensures RenameWire(RenameWire(s, from, to), to, from) == s
  {
    NamesDotFree(d, from, to, text);
    Families(s);
    ParsedWrites(s);
    match ParseFrom(s).value
    case ParamOf(ref) =>
      OthersKept(s, from, to);
      OthersKept(s, to, from);
    case EnvOf(key) =>
      OthersKept(s, from, to);
      OthersKept(s, to, from);
    case StatusOf(name, path) =>
      var t := Join(path, '.');
      NoDotInDns(name);
      StatusTarget(name, path);
      StatusWireRenamed(name, t, from, to);
      StatusWireRenamed(NewName(name, from, to), t, to, from);
    case NameOf(name) =>
      NoDotInDns(name);
      MetadataRefWritten(name);
      NameWireRenamed(name, from, to);
      NameWireRenamed(NewName(name, from, to), to, from);
  }

  lemma StatusTarget(name: string, path: seq<string>)
    requires WellFormed(StatusOf(name, path))
    ensures StatusRef(Write(StatusOf(name, path))) == Some((name, Join(path, '.')))
  {
    NoDotInDns(name);
    assert path[0] in path;
    JoinNonempty(path);
    StatusRefWritten(name, Join(path, '.'));
  }

  lemma LoopBack(d: Document, from: string, to: string, text: string -> string, r: Resource)
    requires Ready(d, from, to, text) && ForEachOk(d, r)
    ensures RenameLoopRef(RenameLoopRef(r.forEach, from, to), to, from) == r.forEach
  {
    NamesDotFree(d, from, to, text);
    var s := r.forEach;
    if RESOURCES <= s {
      LoopNonempty(s, from, to);
      var (name, path) := StatusRef(s).value;
      StatusRefWrites(s);
      DeclaredDotFree(d, name);
      StatusWireRenamed(name, path, from, to);
      StatusWireRenamed(NewName(name, from, to), path, to, from);
    } else {
      OthersKept(s, from, to);
      OthersKept(s, to, from);
    }
  }

  lemma FieldsBack(m: FieldMap, from: string, to: string, text: string -> string)
    requires FieldsFixed(m, text)
    requires forall p :: p in m ==> RenameWire(RenameWire(m[p].from, from, to), to, from) == m[p].from
    ensures RewireFields(RewireFields(m, ResourceRewiring(from, to, text)), ResourceRewiring(to, from, text)) == m
  {
    var out := RewireFields(RewireFields(m, ResourceRewiring(from, to, text)), ResourceRewiring(to, from, text));
    assert out.Keys == m.Keys;
    assert forall p :: p in m ==> out[p] == m[p];
  }

  lemma EmptyBack(from: string, to: string)
    ensures RenameWire(RenameWire("", from, to), to, from) == ""
  {
    LoopNonempty("", from, to);
    LoopNonempty("", to, from);
  }

  lemma ResourceBack(d: Document, from: string, to: string, text: string -> string, r: Resource)
    requires Ready(d, from, to, text) && r in d.resources
    ensures RenamedOne(RenamedOne(r, from, to, text), to, from, text) == r
  {
    assert ResourceOk(d, r);
    EmptyBack(from, to);
    LoopBack(d, from, to, text, r);
    forall p | p in r.fields && r.fields[p].from != "" ensures RenameWire(RenameWire(r.fields[p].from, from, to), to,
        from) == r.fields[p].from {
      assert FieldOk(d, r, p, r.fields[p]);
      WireBack(d, from, to, text, r.name, r.fields[p].from, decl => FieldTypeOk(p, r.fields, decl));
    }
    FieldsBack(r.fields, from, to, text);
    forall p | p in r.envelope && r.envelope[p].from != "" ensures RenameWire(RenameWire(r.envelope[p].from, from,
        to), to, from) == r.envelope[p].from {
      assert EnvelopeOk(d, p, r.envelope[p]);
      Families(r.envelope[p].from);
      OthersKept(r.envelope[p].from, from, to);
      OthersKept(r.envelope[p].from, to, from);
    }
    FieldsBack(r.envelope, from, to, text);
    forall k | k in r.annotations && r.annotations[k].from != "" ensures RenameWire(RenameWire(r.annotations[k].from,
        from, to), to, from) == r.annotations[k].from {
      assert AnnotationOk(d, r, r.annotations[k]);
      WireBack(d, from, to, text, r.name, r.annotations[k].from, ScalarDecl);
    }
    FieldsBack(r.annotations, from, to, text);
    NameBack(d, from, to, r.name);
  }

  lemma NameBack(d: Document, from: string, to: string, name: string)
    requires IndexOf(d.resources, to) < 0 && exists r :: r in d.resources && r.name == name
    ensures NewName(NewName(name, from, to), to, from) == name
  {
    var r :| r in d.resources && r.name == name;
    assert name != to;
  }

  /** Renaming back restores the document exactly. */
  lemma RenameInverse(d: Document, from: string, to: string, text: string -> string)
    requires Ready(d, from, to, text)
    ensures Renamed(Renamed(d, from, to, text), to, from, text) == d
  {
    var d2 := Renamed(d, from, to, text);
    var d3 := Renamed(d2, to, from, text);
    forall i | 0 <= i < |d.resources| ensures d3.resources[i] == d.resources[i] {
      assert d.resources[i] in d.resources;
      ResourceBack(d, from, to, text, d.resources[i]);
    }
    assert d3.resources == d.resources;
    assert d3.templates == d.templates;
  }

  // ----- what every reference means stays -----

  lemma WireMeansSame(d: Document, from: string, to: string, text: string -> string, self: string, s: string,
      typed: Parameter -> bool)
    requires Ready(d, from, to, text) && FromOk(d, self, s, typed)
    ensures WireMeaning(Renamed(d, from, to, text), RenameWire(s, from, to)) == WireMeaning(d, s)
  {
    Families(s);
    match ParseFrom(s).value
    case ParamOf(ref) =>
      OthersKept(s, from, to);
    case EnvOf(key) =>
      OthersKept(s, from, to);
    case StatusOf(name, path) =>
      StatusReads(d, from, to, text, s, name, path);
      FromTarget(d, self, s, typed, name);
      PlaceKept(d.resources, from, to, text, name);
    case NameOf(name) =>
      NameReads(d, from, to, text, s, name);
      FromTarget(d, self, s, typed, name);
      PlaceKept(d.resources, from, to, text, name);
  }

  lemma FromTarget(d: Document, self: string, s: string, typed: Parameter -> bool, name: string)
    requires FromOk(d, self, s, typed)
    requires ParseFrom(s) == Some(NameOf(name)) || exists path :: ParseFrom(s) == Some(StatusOf(name, path))
    ensures IndexOf(d.resources, name) >= 0
  {
    ParsedWrites(s);
    if ParseFrom(s) == Some(NameOf(name)) {
      MetadataRefWritten(name);
    } else {
      var path :| ParseFrom(s) == Some(StatusOf(name, path));
      StatusTarget(name, path);
    }
  }

  lemma NameReads(d: Document, from: string, to: string, text: string -> string, s: string, name: string)
    requires Ready(d, from, to, text) && ParseFrom(s) == Some(NameOf(name))
    ensures ParseFrom(RenameWire(s, from, to)) == Some(NameOf(NewName(name, from, to)))
  {
    NamesDotFree(d, from, to, text);
    ParsedWrites(s);
    NoDotInDns(name);
    NameWireRenamed(name, from, to);
    ParseWritten(NameOf(NewName(name, from, to)));
  }

  lemma EmptyMeansSame(d: Document, from: string, to: string, text: string -> string)
    ensures WireMeaning(Renamed(d, from, to, text), RenameWire("", from, to)) == WireMeaning(d, "") == NoMeaning
  {
    LoopNonempty("", from, to);
  }

  lemma LoopMeansSame(d: Document, from: string, to: string, text: string -> string, r: Resource)
    requires Ready(d, from, to, text) && ForEachOk(d, r)
    ensures LoopMeaning(Renamed(d, from, to, text), RenameLoopRef(r.forEach, from, to)) == LoopMeaning(d, r.forEach)
  {
    NamesDotFree(d, from, to, text);
    var s := r.forEach;
    if RESOURCES <= s {
      var (name, path) := StatusRef(s).value;
      assert s != "";
      StatusRefWrites(s);
      DeclaredDotFree(d, name);
      PlaceKept(d.resources, from, to, text, name);
      BoundRenamed(s, name, path, from, to);
    } else {
      OthersKept(s, from, to);
    }
  }

  lemma BoundRenamed(s: string, name: string, path: string, from: string, to: string)
    requires s == StatusPrefix(name) + path && '.' !in name && name != "" && path != "" && '.' !in from && '.' !in to
             && to != ""
    ensures var s2 := RenameLoopRef(s, from, to);
            RESOURCES <= s2 && StatusRef(s2) == Some((NewName(name, from, to), path))
  {
    StatusWireRenamed(name, path, from, to);
    StatusRefWritten(NewName(name, from, to), path);
    StatusParts(NewName(name, from, to), path);
  }

  lemma WiresSame(d: Document, d2: Document, m: FieldMap, from: string, to: string, text: string -> string)
    requires FieldsFixed(m, text)
    requires forall p :: p in m ==> WireMeaning(d2, RenameWire(m[p].from, from, to)) == WireMeaning(d, m[p].from)
    ensures SameWires(d, m, d2, RewireFields(m, ResourceRewiring(from, to, text)))
  {
    assert RewireFields(m, ResourceRewiring(from, to, text)).Keys == m.Keys;
  }

  lemma FieldsMeanSame(d: Document, from: string, to: string, text: string -> string, r: Resource)
    requires Ready(d, from, to, text) && r in d.resources
    ensures SameWires(d, r.fields, Renamed(d, from, to, text), RenamedOne(r, from, to, text).fields)
  {
    assert ResourceOk(d, r);
    forall p | p in r.fields ensures WireMeaning(Renamed(d, from, to, text), RenameWire(r.fields[p].from, from, to))
        == WireMeaning(d, r.fields[p].from) {
      assert FieldOk(d, r, p, r.fields[p]);
      EmptyMeansSame(d, from, to, text);
      if r.fields[p].from != "" {
        WireMeansSame(d, from, to, text, r.name, r.fields[p].from, decl => FieldTypeOk(p, r.fields, decl));
      }
    }
    WiresSame(d, Renamed(d, from, to, text), r.fields, from, to, text);
  }

  lemma EnvelopeMeansSame(d: Document, from: string, to: string, text: string -> string, r: Resource)
    requires Ready(d, from, to, text) && r in d.resources
    ensures SameWires(d, r.envelope, Renamed(d, from, to, text), RenamedOne(r, from, to, text).envelope)
  {
    assert ResourceOk(d, r);
    forall p | p in r.envelope ensures WireMeaning(Renamed(d, from, to, text),
        RenameWire(r.envelope[p].from, from, to)) == WireMeaning(d, r.envelope[p].from) {
      assert EnvelopeOk(d, p, r.envelope[p]);
      EmptyMeansSame(d, from, to, text);
      if r.envelope[p].from != "" {
        EnvelopeWireSame(d, from, to, text, r.envelope[p].from);
      }
    }
    WiresSame(d, Renamed(d, from, to, text), r.envelope, from, to, text);
  }

  lemma EnvelopeWireSame(d: Document, from: string, to: string, text: string -> string, s: string)
    requires ENV <= s || PARAMS <= s
    ensures WireMeaning(Renamed(d, from, to, text), RenameWire(s, from, to)) == WireMeaning(d, s)
  {
    Families(s);
    OthersKept(s, from, to);
  }

  lemma AnnotationsMeanSame(d: Document, from: string, to: string, text: string -> string, r: Resource)
    requires Ready(d, from, to, text) && r in d.resources
    ensures SameWires(d, r.annotations, Renamed(d, from, to, text), RenamedOne(r, from, to, text).annotations)
  {
    assert ResourceOk(d, r);
    forall k | k in r.annotations ensures WireMeaning(Renamed(d, from, to, text),
        RenameWire(r.annotations[k].from, from, to)) == WireMeaning(d, r.annotations[k].from) {
      assert AnnotationOk(d, r, r.annotations[k]);
      EmptyMeansSame(d, from, to, text);
      if r.annotations[k].from != "" {
        WireMeansSame(d, from, to, text, r.name, r.annotations[k].from, ScalarDecl);
      }
    }
    WiresSame(d, Renamed(d, from, to, text), r.annotations, from, to, text);
  }

  lemma ResourceMeansSame(d: Document, from: string, to: string, text: string -> string, r: Resource)
    requires Ready(d, from, to, text) && r in d.resources
    ensures SameResource(d, r, Renamed(d, from, to, text), RenamedOne(r, from, to, text))
  {
    assert ResourceOk(d, r);
    LoopMeansSame(d, from, to, text, r);
    FieldsMeanSame(d, from, to, text, r);
    EnvelopeMeansSame(d, from, to, text, r);
    AnnotationsMeanSame(d, from, to, text, r);
  }

  /** Every wire, loop bound and condition of every resource, and, when the
      rename goes through, every composite-status wire, refers to what it
      referred to before: resources by their place in the document. */
  lemma RenameKeepsMeaning(d: Document, from: string, to: string, text: string -> string)
    requires Ready(d, from, to, text) && StatusFree(d, from)
    ensures SameMeaning(d, Renamed(d, from, to, text))
  {
    var d2 := Renamed(d, from, to, text);
    forall i | 0 <= i < |d.resources| ensures SameResource(d, d.resources[i], d2, d2.resources[i]) {
      assert d.resources[i] in d.resources;
      ResourceMeansSame(d, from, to, text, d.resources[i]);
    }
    forall i | 0 <= i < |d.statusWires| ensures WireMeaning(d2, d2.statusWires[i]) == WireMeaning(d, d.statusWires[i]) {
      CompositeMeansSame(d, from, to, text, d.statusWires[i]);
    }
  }

  lemma CompositeMeansSame(d: Document, from: string, to: string, text: string -> string, s: string)
    requires Ready(d, from, to, text) && StatusFree(d, from) && s in d.statusWires
    ensures WireMeaning(Renamed(d, from, to, text), s) == WireMeaning(d, s)
  {
    assert StatusWireOk(d, None, s);
    Families(s);
    var r := ParseFrom(s);
    if r.Some? {
      ParsedWrites(s);
      if r.value.StatusOf? {
        StatusTarget(r.value.resource, r.value.path);
        PlaceKept(d.resources, from, to, text, r.value.resource);
      } else {
        NameNotStatus(r.value.resource);
      }
    }
  }

  /** A metadata.name reference is never a status reference to a declared name. */
  lemma NameNotStatus(name: string)
    requires DnsLabel(name)
    ensures StatusRef(NameRef(name)).None?
  {
    Assoc(RESOURCES, name, META_NAME);
    Behind(RESOURCES, name + META_NAME);
    NoDotInDns(name);
    forall j | 0 <= j <= |META_NAME| ensures !(STATUS <= META_NAME[j..]) {
      NoStatusIn(j);
    }
    FindNowhere(name, META_NAME, STATUS);
  }

  lemma Behind(a: string, x: string)
    ensures (a + x)[|a|..] == x
  {
  }

  lemma FindNowhere(name: string, tail: string, pat: string)
    requires pat != "" && pat[0] !in name
    requires forall j :: 0 <= j <= |tail| ==> !(pat <= tail[j..])
    ensures Find(name + tail, pat) < 0
  {
    var s := name + tail;
    forall i | 0 <= i <= |s| ensures !(pat <= s[i..]) {
      if i < |name| {
        assert s[i..][0] == name[i] && name[i] in name;
      } else {
        DropFront(name, tail, i - |name|);
      }
    }
    FoundThere(s, pat);
  }

  lemma FoundThere(s: string, pat: string)
    ensures var at := Find(s, pat); at >= 0 ==> at + |pat| <= |s| && pat <= s[at..]
  {
    var at := Find(s, pat);
    if at >= 0 {
      assert s[at..][..|pat|] == s[at..at + |pat|];
    }
  }

  lemma DropFront(a: string, b: string, j: nat)
    requires j <= |b|
    ensures (a + b)[|a| + j..] == b[j..]
  {
  }

  lemma NoStatusIn(j: nat)
    requires j <= |META_NAME|
    ensures !(STATUS <= META_NAME[j..])
  {
    var t := META_NAME[j..];
    if j == 0 {
      assert t[1] == 'm';
    } else if j < 8 {
      assert t[0] == META_NAME[j];
    }
  }
}
