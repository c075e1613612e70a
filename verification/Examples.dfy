/** Validated documents on which the code does less than it promises. */
module Examples {
  import opened Seqs
  import opened Template
  import opened Text
  import opened Refs
  import opened Params
  import opened Paths
  import opened Blueprint
  import opened Wires
  import opened Plans
  import E = Envelope
  import EnvelopeEmit
  import Edits
  import Names
  import opened Rewrite
  import RenameParam

  function Bare(name: string, provider: string): Resource {
    Resource(name, "Queue", provider, "", "", map[], map[], map[])
  }

  function Of(ps: Declarations, rs: seq<Resource>): Document {
    Document(ps, [], map[], map[], {}, rs)
  }

  const STRING: Parameter := Parameter("string", true, "", [], map[])

  lemma ShortNames()
    ensures ResourceName("a") && ResourceName("b") && ParamName("p") && ParamName("q") && ParamName("providerName")
  {
    assert Lower("a") == "a" && Lower("b") == "b" && Lower("p") == "p" && Lower("q") == "q";
    assert DnsLabel("a") && DnsLabel("b");
    assert Camel("p") && Camel("q") && Camel("providerName");
    assert Lower("providerName")[1] == 'r' && |Lower("providerName")| == 12;
  }

  // ----- an envelope on providerConfigRef -----

  /** A managed resource with one envelope entry. */
  function WithEntry(path: string, f: Field): Document {
    Of(map["providerName" := STRING], [Bare("a", "aws").(envelope := map[path := f])])
  }

  lemma OneParameter(d: Document, n: string)
    requires d.parameters == map[n := STRING] && ParamName(n) && (HasManaged(d) ==> n == "providerName")
    ensures ParametersOk(d)
  {
    assert DeclOk(STRING);
  }

  lemma EntryAccepted(path: string, segs: seq<string>, f: Field)
    requires f.from == "" && (f.value == "" <==> f.raw != "")
    requires Split(path, '.') == segs && forall seg :: seg in segs ==> Camel(seg) && !YamlKeyword(seg)
    ensures var d := WithEntry(path, f); Valid(d) && Managed(d, d.resources[0]) && ResourceOk(d, d.resources[0])
  {
    var d := WithEntry(path, f);
    ShortNames();
    var r := d.resources[0];
    CountParts(f.from, f.value, f.raw, "");
    assert EnvelopeOk(d, path, f);
    NoSelfCover(path);
    assert forall p :: p in r.envelope ==> p == path;
    assert ResourceOk(d, r);
    OneParameter(d, "providerName");
    assert !("aws" == "k8s") && !EndsWith("aws", ".yaml") && !EndsWith("aws", ".yml");
  }

  lemma NoSelfCover(p: string)
    ensures !Covers(p, p)
  {
  }

  /** With a single entry, completion overlaps exactly with these. */
  lemma OneKey(r: Resource, path: string, out: Surface)
    requires r.envelope.Keys == {path}
    ensures RefOverlaps(r, out) <==>
            || (path == E.PCR && !Spread(path, r.envelope[path], out))
            || Covers(KIND_PATH, path)
            || (path == KIND_PATH && Spread(path, r.envelope[path], out))
  {
    if path == KIND_PATH {
      NamesApart();
    }
  }

  lemma NamesApart()
    ensures !Covers(NAME_PATH, KIND_PATH) && NAME_PATH != KIND_PATH
  {
    assert (NAME_PATH + ".")[18] == 'n' && KIND_PATH[18] == 'k';
  }

  /** What planEnvelope makes of the one resource. */
  ghost function PlanOf(d: Document, out: Surface): E.Plan
    requires d.resources != []
  {
    EnvelopePlan(d, d.resources[0], out)
  }

  /** providerConfigRef set whole by raw text that is no flow map, such as
      `{{ $spec.x }}`: valid, and writing it crashes. */
  lemma ExampleOverlaps(f: Field, out: Surface)
    requires f.from == "" && f.value == "" && f.raw != "" && out.flow(f.raw).None?
    ensures var d := WithEntry(E.PCR, f);
            && Valid(d) && Managed(d, d.resources[0]) && RefOverlaps(d.resources[0], out)
            && E.Rooted(PlanOf(d, out)) && E.GroupsCrash(PlanOf(d, out))
  {
    var d := WithEntry(E.PCR, f);
    RefAccepted(f);
    OneKey(d.resources[0], E.PCR, out);
    PlanCrashes(d, d.resources[0], out);
  }

  lemma RefAccepted(f: Field)
    requires f.from == "" && f.value == "" && f.raw != ""
    ensures var d := WithEntry(E.PCR, f); Valid(d) && Managed(d, d.resources[0]) && ResourceOk(d, d.resources[0])
  {
    RefPaths();
    NoKeywords();
    EntryAccepted(E.PCR, [E.PCR], f);
  }

  lemma NoKeywords()
    ensures !YamlKeyword(E.PCR) && !YamlKeyword("policy") && !YamlKeyword("resolution")
    ensures Camel("policy") && Camel("resolution")
  {
    assert |Lower(E.PCR)| == 17 && |Lower("policy")| == 6 && |Lower("resolution")| == 10;
  }

  /** A flow map of kind and name there is spread into the two and written. */
  lemma ExampleSpread(out: Surface, f: Field)
    requires f.from == "" && f.value == "" && Spread(E.PCR, f, out) && out.flow(f.raw).value.Keys == {"kind", "name"}
    ensures var d := WithEntry(E.PCR, f);
            && Valid(d) && Managed(d, d.resources[0]) && !RefOverlaps(d.resources[0], out)
            && E.Rooted(PlanOf(d, out)) && !E.GroupsCrash(PlanOf(d, out))
    ensures var m := out.flow(f.raw).value;
            forall e :: e in PlanOf(WithEntry(E.PCR, f), out) <==>
              e == SpreadEntry(E.PCR, "kind", m["kind"]) || e == SpreadEntry(E.PCR, "name", m["name"])
  {
    var d := WithEntry(E.PCR, f);
    RefAccepted(f);
    OneKey(d.resources[0], E.PCR, out);
    RefNotKind();
    PlanCrashes(d, d.resources[0], out);
    SpreadPair(f, out, "kind", "name");
  }

  lemma OnlyEntry(path: string, f: Field, out: Surface, e: E.EnvField)
    ensures var d := WithEntry(path, f);
            e in EnvelopeEntries(d, d.resources[0], out) <==> e in EntriesOf(d, path, f, out)
  {
    var d := WithEntry(path, f);
    var envelope := d.resources[0].envelope;
    var ks := KeysOf(envelope.Keys);
    assert envelope.Keys == {path} && path in ks;
    EntriesMembers(d, envelope, out, ks, e);
  }

  lemma SpreadPair(f: Field, out: Surface, kind: string, name: string)
    requires Spread(E.PCR, f, out) && out.flow(f.raw).value.Keys == {kind, name} && kind == "kind" && name == "name"
    ensures var m := out.flow(f.raw).value;
            forall e :: e in PlanOf(WithEntry(E.PCR, f), out) <==>
              e == SpreadEntry(E.PCR, kind, m[kind]) || e == SpreadEntry(E.PCR, name, m[name])
  {
    var d, m := WithEntry(E.PCR, f), out.flow(f.raw).value;
    BasePair(E.PCR, f, out, kind, name);
    PairPaths(m, kind, name);
    Complete(EnvelopeEntries(d, d.resources[0], out), SpreadEntry(E.PCR, kind, m[kind]),
        SpreadEntry(E.PCR, name, m[name]));
  }

  lemma PairPaths(m: FlowMap, kind: string, name: string)
    requires m.Keys == {kind, name} && kind == "kind" && name == "name"
    ensures EnvelopeEmit.IsKind(SpreadEntry(E.PCR, kind, m[kind]))
            && EnvelopeEmit.IsName(SpreadEntry(E.PCR, name, m[name]))
  {
    RefPaths();
  }

  lemma BasePair(p: string, f: Field, out: Surface, a: string, b: string)
    requires Spread(p, f, out) && out.flow(f.raw).value.Keys == {a, b}
    ensures var d, m := WithEntry(p, f), out.flow(f.raw).value;
            forall e :: e in EnvelopeEntries(d, d.resources[0], out) <==>
                e == SpreadEntry(p, a, m[a])
                || e == SpreadEntry(p, b, m[b])
  {
    var d, m := WithEntry(p, f), out.flow(f.raw).value;
    forall e
      ensures e in EnvelopeEntries(d, d.resources[0], out) <==>
              e == SpreadEntry(p, a, m[a])
              || e == SpreadEntry(p, b, m[b])
    {
      OnlyEntry(p, f, out, e);
      PairEntries(p, m, a, b, e);
    }
  }

  /** With a kind and a name of its own the plan is only sorted. */
  lemma Complete(base: E.Plan, kind: E.EnvField, name: E.EnvField)
    requires kind in base && EnvelopeEmit.IsKind(kind) && name in base && EnvelopeEmit.IsName(name)
    ensures forall e :: e in EnvelopeEmit.SortPlan(base + EnvelopeEmit.Missing(base)) <==> e in base
  {
    EnvelopeEmit.AnyMember(base, EnvelopeEmit.IsKind);
    EnvelopeEmit.AnyMember(base, EnvelopeEmit.IsName);
    assert EnvelopeEmit.Missing(base) == [];
  }

  lemma PairEntries(p: string, m: FlowMap, a: string, b: string, e: E.EnvField)
    requires m.Keys == {a, b}
    ensures e in SpreadEntries(p, m) <==> e == SpreadEntry(p, a, m[a]) || e == SpreadEntry(p, b, m[b])
  {
    SpreadMembers(p, m, e);
    assert a in m.Keys && b in m.Keys;
  }

  const POLICY: string := E.PCR + "." + ("policy" + "." + "resolution")
  const OPTIONAL: Field := Field("", "Optional", "", "")

  lemma PolicyPath()
    ensures Split(POLICY, '.') == [E.PCR, "policy", "resolution"]
    ensures Camel(E.PCR) && Camel("policy") && Camel("resolution")
  {
    RefSegments();
    NoKeywords();
    ChildPath("policy", "resolution");
    PlainSegment(E.PCR);
    SplitHead(E.PCR, "policy" + "." + "resolution", '.');
    assert POLICY == E.PCR + ['.'] + ("policy" + "." + "resolution");
  }

  /** Setting only the policy of a cluster-scoped providerConfigRef: the plan
      gets a kind and no name. */
  lemma ExampleNameless(out: Surface)
    ensures var d := WithEntry(POLICY, OPTIONAL);
            && Valid(d) && Managed(d, d.resources[0]) && !RefOverlaps(d.resources[0], out)
            && EnvelopeEmit.Any(PlanOf(d, out), EnvelopeEmit.IsKind)
                && !EnvelopeEmit.Any(PlanOf(d, out), EnvelopeEmit.IsName)
  {
    PolicyAccepted();
    PolicyApart(WithEntry(POLICY, OPTIONAL), out);
    SoleEntry(POLICY, OPTIONAL, out);
    PolicyPath();
    Nameless(EnvelopeEntries(WithEntry(POLICY, OPTIONAL), WithEntry(POLICY, OPTIONAL).resources[0], out),
             EnvelopeEntry(WithEntry(POLICY, OPTIONAL), POLICY, OPTIONAL, out));
  }

  lemma PolicyAccepted()
    ensures var d := WithEntry(POLICY, OPTIONAL);
            Valid(d) && Managed(d, d.resources[0])
            && ResourceOk(d, d.resources[0])
  {
    PolicyPath();
    NoKeywords();
    EntryAccepted(POLICY, [E.PCR, "policy", "resolution"], OPTIONAL);
  }

  lemma SoleEntry(path: string, f: Field, out: Surface)
    requires !Spread(path, f, out)
    ensures var d := WithEntry(path, f);
            forall x :: x in EnvelopeEntries(d, d.resources[0], out) <==> x == EnvelopeEntry(d, path, f, out)
  {
    var d := WithEntry(path, f);
    forall x ensures x in EnvelopeEntries(d, d.resources[0], out) <==> x == EnvelopeEntry(d, path, f, out) {
      OnlyEntry(path, f, out, x);
    }
  }

  lemma Nameless(base: E.Plan, e: E.EnvField)
    requires (forall x :: x in base <==> x == e) && e.path == [E.PCR, "policy", "resolution"]
    ensures var full := EnvelopeEmit.SortPlan(base + EnvelopeEmit.Missing(base));
            EnvelopeEmit.Any(full, EnvelopeEmit.IsKind) && !EnvelopeEmit.Any(full, EnvelopeEmit.IsName)
  {
    EnvelopeEmit.AnyMember(base, EnvelopeEmit.InRef);
    EnvelopeEmit.AnyMember(base, EnvelopeEmit.IsName);
    EnvelopeEmit.AnyMember(base, EnvelopeEmit.IsKind);
    assert e in base && EnvelopeEmit.InRef(e);
    EnvelopeEmit.CompletionFills(base);
  }

  lemma RefNotKind()
    ensures !Covers(KIND_PATH, E.PCR) && KIND_PATH != E.PCR
  {
    assert |KIND_PATH| > |E.PCR|;
  }

  lemma PolicyApart(d: Document, out: Surface)
    requires d == WithEntry(POLICY, OPTIONAL) && ResourceOk(d, d.resources[0])
    ensures !RefOverlaps(d.resources[0], out)
  {
    OneKey(d.resources[0], POLICY, out);
    assert POLICY[18] == 'p' && KIND_PATH[18] == 'k' && (KIND_PATH + ".")[18] == 'k';
    assert |POLICY| > |E.PCR|;
  }

  // ----- renames that are refused -----

  /** U+00AD, a soft hyphen: no control character, and one that does not print. */
  const HYPHEN: char := 0xAD as char

  const TEST: When := When("params", "p", "==", [HYPHEN])

  function WithTest(): Document {
    Of(map["p" := STRING], [Bare("a", "k8s").(when := WriteWhen(TEST))])
  }

  /** A condition on such a literal is valid, and its parameter cannot be renamed. */
  lemma ExampleUnprinted(prints: char -> bool, text: string -> string)
    requires !prints(HYPHEN)
    ensures Valid(WithTest()) && Edits.ParameterRenamed(WithTest(), "p", "q", prints, text).None?
  {
    var d := WithTest();
    TestValid();
    TestReads();
    assert TextFixed(d, text);
    assert HYPHEN in TEST.literal;
    assert !RenameParam.TestPrints(d.resources[0], "p", prints);
    Edits.ParameterRenameSucceeds(d, "p", "q", prints, text);
  }

  lemma TestReads()
    ensures ParseWhen(WriteWhen(TEST)) == Some(TEST)
  {
    assert Camel("p");
    WhenWritten(TEST);
  }

  lemma TestValid()
    ensures Valid(WithTest())
  {
    var d := WithTest();
    ShortNames();
    TestReads();
    assert WhenOk(d, d.resources[0]);
    assert ResourceOk(d, d.resources[0]) && !Managed(d, d.resources[0]);
    OneParameter(d, "p");
  }

  function WithStatus(): Document {
    Of(map[], [Bare("a", "k8s")]).(statusWires := [RESOURCES + "a" + STATUS + "x"])
  }

  /** A composite status that reads from the resource is valid, and keeps the
      resource from being renamed. */
  lemma ExampleObserved(text: string -> string)
    ensures Valid(WithStatus()) && Edits.ResourceRenamed(WithStatus(), "a", "b", text).None?
  {
    var d := WithStatus();
    StatusValid();
    StatusReads();
    var s := RESOURCES + "a" + STATUS + "x";
    assert d.statusWires == [s] && TextFixed(d, text) && d.resources[0].name == "a";
    ReadRefused(d, "a", "b", s, text);
  }

  lemma ReadRefused(d: Document, from: string, to: string, s: string, text: string -> string)
    requires Valid(d) && TextFixed(d, text) && IndexOf(d.resources, from) >= 0 && from != to
    requires s in d.statusWires && StatusRef(s).Some? && StatusRef(s).value.0 == from
    ensures Edits.ResourceRenamed(d, from, to, text).None?
  {
    Edits.ResourceRenameSucceeds(d, from, to, text);
  }

  lemma StatusReads()
    ensures StatusRef(RESOURCES + "a" + STATUS + "x") == Some(("a", "x"))
  {
    StatusRefWritten("a", "x");
  }

  lemma StatusValid()
    ensures Valid(WithStatus())
  {
    var d := WithStatus();
    ShortNames();
    assert Camel("x");
    PlainSegment("x");
    StatusReads();
    assert UnloopedTarget(d, "a");
    assert ResourceOk(d, d.resources[0]) && !Managed(d, d.resources[0]);
  }

  // ----- loops -----

  const NAME_OF_A: string := RESOURCES + "a" + STATUS + (META + "." + NAME)

  /** A loop bound that reads a path ending in metadata.name. */
  function WithBound(): Document {
    Of(map[], [Bare("a", "k8s"), Bare("b", "k8s").(forEach := NAME_OF_A)])
  }

  lemma BoundRef()
    ensures StatusRef(NAME_OF_A) == Some(("a", META + "." + NAME)) && RESOURCES <= NAME_OF_A
    ensures Split(META + "." + NAME, '.') == [META, NAME] && Camel(META) && Camel(NAME)
  {
    MetaCamel();
    ChildPath(META, NAME);
    StatusRefWritten("a", META + "." + NAME);
    Assoc(RESOURCES, "a", STATUS);
    Assoc(RESOURCES, "a" + STATUS, META + "." + NAME);
  }

  lemma MetaCamel()
    ensures Camel(META) && Camel(NAME)
  {
  }

  lemma TwoAccepted(d: Document)
    requires |d.resources| == 2 && d.resources[0].name != d.resources[1].name
    requires ResourceOk(d, d.resources[0]) && ResourceOk(d, d.resources[1])
    ensures ResourcesOk(d)
  {
  }

  /** Such a document is valid, and the emitter does not recognise the bound. */
  lemma ExampleUnguarded()
    ensures Valid(WithBound()) && !LoopReads(WithBound().resources[1].forEach)
  {
    BoundValid();
    BoundRef();
    assert EndsInMetaName([META, NAME]);
  }

  lemma BoundValid()
    ensures Valid(WithBound())
  {
    BoundResources();
    NativeAccepted(WithBound());
  }

  /** Two native resources, and nothing else that could be invalid. */
  lemma NativeAccepted(d: Document)
    requires d.parameters == map[] && d.statusWires == [] && d.environment == map[]
    requires |d.resources| == 2 && d.resources[0].name != d.resources[1].name
    requires ResourceOk(d, d.resources[0]) && ResourceOk(d, d.resources[1])
    requires d.resources[0].provider == "k8s" && d.resources[1].provider == "k8s"
    ensures Valid(d)
  {
    TwoAccepted(d);
  }

  lemma BoundResources()
    ensures ResourceOk(WithBound(), WithBound().resources[0]) && ResourceOk(WithBound(), WithBound().resources[1])
    ensures WithBound().resources[0].name != WithBound().resources[1].name
  {
    ShortNames();
    BoundAccepted();
  }

  lemma BoundAccepted()
    ensures ForEachOk(WithBound(), WithBound().resources[1])
  {
    BoundRef();
    assert IndexOf(WithBound().resources, "a") == 0;
  }

  /** A looped `a` beside an unlooped `a-0`. */
  function WithShadow(): Document {
    Of(map["p" := STRING.(typ := "integer")], [Bare("a", "k8s").(forEach := "params.p"), Bare("a-0", "k8s")])
  }

  lemma ShadowLoop()
    ensures ForEachOk(WithShadow(), WithShadow().resources[0])
  {
    var s := "params.p";
    Families(s);
    assert PARAMS <= s && s[|PARAMS|..] == "p";
  }

  lemma ShadowNames()
    ensures ResourceName("a-0") && "a-0" == "a" + "-" + Names.Decimal(0)
  {
    assert Lower("a-0") == "a-0" && DnsLabel("a-0");
    assert Names.DecimalNat(0) == "0";
  }

  /** A valid document in which a resource is named like an iteration. */
  lemma ExampleShadowed()
    ensures Valid(WithShadow()) && Names.Shadowed(WithShadow())
  {
    var d := WithShadow();
    var a, b := d.resources[0], d.resources[1];
    ShortNames();
    ShadowNames();
    ShadowLoop();
    TwoAccepted(d);
    assert DeclOk(d.parameters["p"]);
    assert !Managed(d, a) && !Managed(d, b);
    assert b.name == a.name + "-" + Names.Decimal(0) && a in d.resources && b in d.resources;
  }
}
