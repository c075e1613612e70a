/** planEnvelope's completion of providerConfigRef and writeEnvelope itself,
    with the properties of what they emit (internal/emit/envelope.go). */
module EnvelopeEmit {
  import opened Template
  import opened Text
  import opened Paths
  import opened Yaml
  import opened Envelope
  import opened EnvelopeMeaning
  import opened EnvelopeOrder

  function Dotted(e: EnvField): string {
    Join(e.path, '.')
  }

  /** A plan whose dotted paths sort the way their segments do. */
  predicate SoundPlan(es: Plan) {
    && (forall e :: e in es ==> LeafPath(e.path))
    && forall a, b :: a in es && b in es ==> Aligned(a.path, b.path)
  }

  // ----- sort.Slice by the dotted path -----

  predicate DottedSorted(es: Plan) {
    forall i, j :: 0 <= i < j < |es| ==> !Less(Dotted(es[j]), Dotted(es[i]))
  }

  function Insert(e: EnvField, es: Plan): (r: Plan)
    requires DottedSorted(es)
    ensures DottedSorted(r)
    ensures multiset(r) == multiset(es) + multiset{e}
    ensures forall x :: x in r <==> x == e || x in es
  {
    if es == [] || !Less(Dotted(es[0]), Dotted(e)) then
      InsertFirst(e, es);
      assert forall x :: x in [e] + es <==> x == e || x in es;
      [e] + es
    else
      var r := Insert(e, es[1..]);
      assert es == [es[0]] + es[1..];
      InsertLater(es[0], e, es[1..], r);
      [es[0]] + r
  }

  lemma InsertFirst(e: EnvField, es: Plan)
    requires DottedSorted(es) && (es == [] || !Less(Dotted(es[0]), Dotted(e)))
    ensures DottedSorted([e] + es)
  {
    var r := [e] + es;
    forall i, j | 0 <= i < j < |r| ensures !Less(Dotted(r[j]), Dotted(r[i])) {
      if i == 0 && j > 1 {
        assert !Less(Dotted(es[j - 1]), Dotted(es[0]));
        NotLessTransitive(Dotted(e), Dotted(es[0]), Dotted(es[j - 1]));
      } else if i > 0 {
        assert r[i] == es[i - 1] && r[j] == es[j - 1];
      }
    }
  }

  lemma InsertLater(head: EnvField, e: EnvField, rest: Plan, r: Plan)
    requires Less(Dotted(head), Dotted(e)) && DottedSorted([head] + rest) && DottedSorted(r)
    requires forall x :: x in r <==> x == e || x in rest
    ensures DottedSorted([head] + r)
  {
    forall j | 0 <= j < |r| ensures !Less(Dotted(r[j]), Dotted(head)) {
      assert r[j] in r;
      LessTrichotomy(Dotted(head), Dotted(e));
      if r[j] != e {
        var k :| 0 <= k < |rest| && rest[k] == r[j];
        assert ([head] + rest)[k + 1] == r[j] && ([head] + rest)[0] == head;
      }
    }
  }

  lemma NotLessTransitive(a: string, b: string, c: string)
    requires !Less(b, a) && !Less(c, b)
    ensures !Less(c, a)
  {
    LessTrichotomy(a, b);
    LessTrichotomy(b, c);
    if Less(c, a) {
      if a != b {
        LessTransitive(c, a, b);
      }
    }
  }

  function SortPlan(es: Plan): (r: Plan)
    ensures DottedSorted(r) && multiset(r) == multiset(es)
    ensures forall x :: x in r <==> x in es
  {
    if es == [] then []
    else
      assert es == [es[0]] + es[1..];
      Insert(es[0], SortPlan(es[1..]))
  }

  lemma SortedByPath(es: Plan)
    requires DottedSorted(es) && SoundPlan(es)
    ensures Sorted(es)
  {
    forall i, j | 0 <= i < j < |es| ensures !PathLess(es[j].path, es[i].path) {
      assert es[i] in es && es[j] in es;
      DottedOrder(es[j].path, es[i].path);
    }
  }

  // ----- planEnvelope: completing a partial providerConfigRef -----

  const KIND_ENTRY: EnvField := EnvField([PCR, "kind"], Literal("ClusterProviderConfig"), None)
  const NAME_ENTRY: EnvField := EnvField([PCR, "name"], Wire(Member(Ref(SpecVar), "providerName"), false), None)

  predicate InRef(e: EnvField) {
    e.path != [] && e.path[0] == PCR
  }

  predicate IsName(e: EnvField) {
    e.path == [PCR, "name"]
  }

  predicate IsKind(e: EnvField) {
    e.path == [PCR, "kind"]
  }

  predicate IsOther(e: EnvField) {
    InRef(e) && !IsName(e) && !IsKind(e)
  }

  predicate IsWhole(e: EnvField) {
    e.path == [PCR]
  }

  predicate BelowKind(e: EnvField) {
    [PCR, "kind"] < e.path
  }

  predicate BelowName(e: EnvField) {
    [PCR, "name"] < e.path
  }

  predicate Any(es: Plan, p: EnvField -> bool) {
    exists i :: 0 <= i < |es| && p(es[i])
  }

  lemma AnyMember(es: Plan, p: EnvField -> bool)
    ensures Any(es, p) <==> exists e :: e in es && p(e)
  {
    if e :| e in es && p(e) {
      var i :| 0 <= i < |es| && es[i] == e;
      assert p(es[i]);
    }
  }

  ghost predicate SetAt(es: Plan, path: seq<string>) {
    exists e :: e in es && e.path == path
  }

  /** The entries planEnvelope adds. */
  function Missing(es: Plan): Plan {
    var name := Any(es, IsName);
    var kind := Any(es, IsKind);
    var other := Any(es, IsOther);
    (if (name || other) && !kind then [KIND_ENTRY] else []) + (if kind && !name then [NAME_ENTRY] else [])
  }

  method CompletePlan(plan: Plan) returns (r: Plan)
    ensures r == SortPlan(plan + Missing(plan))
  {
    var hasName, hasKind, hasOther := false, false, false;
    for i := 0 to |plan|
      invariant hasName <==> exists k :: 0 <= k < i && IsName(plan[k])
      invariant hasKind <==> exists k :: 0 <= k < i && IsKind(plan[k])
      invariant hasOther <==> exists k :: 0 <= k < i && IsOther(plan[k])
    {
      if |plan[i].path| > 0 && plan[i].path[0] == PCR {
        if |plan[i].path| == 2 && plan[i].path[1] == "name" {
          hasName := true;
          assert IsName(plan[i]);
        } else if |plan[i].path| == 2 && plan[i].path[1] == "kind" {
          hasKind := true;
          assert IsKind(plan[i]);
        } else {
          hasOther := true;
        }
      }
    }
    r := plan;
    if (hasName || hasOther) && !hasKind {
      r := r + [KIND_ENTRY];
    }
    if hasKind && !hasName {
      r := r + [NAME_ENTRY];
    }
    assert r == plan + Missing(plan);
    r := SortPlan(r);
  }

  /** The paths of two entries of the plan, whatever its order. */
  ghost predicate ClashIn(m: multiset<EnvField>) {
    exists a, b :: multiset{a, b} <= m && a.path <= b.path
  }

  lemma {:induction false} ClashByMultiset(es: Plan)
    ensures Clash(es) <==> ClashIn(multiset(es))
  {
    if Clash(es) {
      var i, j :| 0 <= i < |es| && 0 <= j < |es| && i != j && es[i].path <= es[j].path;
      PairIn(es, i, j);
      assert multiset{es[i], es[j]} <= multiset(es);
    }
    if ClashIn(multiset(es)) {
      var a, b :| multiset{a, b} <= multiset(es) && a.path <= b.path;
      var i, j := PairAt(es, a, b);
      assert es[i].path <= es[j].path;
    }
  }

  lemma PairIn(es: Plan, i: nat, j: nat)
    requires i < |es| && j < |es| && i != j
    ensures multiset{es[i], es[j]} <= multiset(es)
  {
    var lo, hi := if i < j then i else j, if i < j then j else i;
    assert es == es[..lo] + [es[lo]] + es[lo + 1..hi] + [es[hi]] + es[hi + 1..];
    assert multiset(es) == multiset(es[..lo]) + multiset{es[lo]} + multiset(es[lo + 1..hi]) + multiset{es[hi]}
        + multiset(es[hi + 1..]);
  }

  lemma TakeOut(es: Plan, i: nat)
    requires i < |es|
    ensures multiset(es) == multiset(es[..i] + es[i + 1..]) + multiset{es[i]}
  {
    assert es == es[..i] + [es[i]] + es[i + 1..];
  }

  lemma PairAt(es: Plan, a: EnvField, b: EnvField) returns (i: nat, j: nat)
    requires multiset{a, b} <= multiset(es)
    ensures i < |es| && j < |es| && i != j && es[i] == a && es[j] == b
  {
    assert a in multiset(es);
    i :| 0 <= i < |es| && es[i] == a;
    var rest := es[..i] + es[i + 1..];
    TakeOut(es, i);
    assert b in multiset(rest);
    var k :| 0 <= k < |rest| && rest[k] == b;
    j := if k < i then k else k + 1;
  }

  /** The plan sets providerConfigRef as a whole, or something below a leaf
      that the completion adds. */
  predicate Overlaps(plan: Plan) {
    || Any(plan, IsWhole)
    || Any(plan, BelowKind)
    || (Any(plan, IsKind) && Any(plan, BelowName))
  }

  /** A plan without conflicts stays without conflicts when it is completed
      unless it overlaps with what is added; then writing it crashes. */
  lemma CompletionConflicts(plan: Plan)
    requires SoundPlan(plan) && !Clash(plan)
    ensures var full := SortPlan(plan + Missing(plan));
            && SoundPlan(full) && Sorted(full) && Rooted(full)
            && (Clash(full) <==> Overlaps(plan))
            && (GroupsCrash(full) <==> Overlaps(plan))
  {
    CompletedSound(plan);
    var all := plan + Missing(plan);
    var full := SortPlan(all);
    GroupsCrashIffClash(full);
    ClashByMultiset(full);
    ClashByMultiset(all);
    if Overlaps(plan) {
      OverlapClashes(plan);
    } else {
      NoOverlapFits(plan);
    }
  }

  lemma AddedSound(e: EnvField)
    requires e == KIND_ENTRY || e == NAME_ENTRY
    ensures exists a :: Camel(a) && e.path == [PCR, a]
    ensures Camel(PCR) && LeafPath(e.path)
  {
    assert Camel(PCR);
    assert Camel("kind") && Camel("name");
  }

  lemma AddedAligned(a: EnvField, e: EnvField)
    requires LeafPath(a.path) && (e == KIND_ENTRY || e == NAME_ENTRY)
    ensures Aligned(a.path, e.path) && Aligned(e.path, a.path)
  {
    AddedSound(e);
    var last :| Camel(last) && e.path == [PCR, last];
    AlignedWithPair(a.path, PCR, last);
  }

  lemma CompletedSound(plan: Plan)
    requires SoundPlan(plan)
    ensures var full := SortPlan(plan + Missing(plan)); SoundPlan(full) && Sorted(full) && Rooted(full)
  {
    var all := plan + Missing(plan);
    var full := SortPlan(all);
    forall e | e in full ensures LeafPath(e.path) && (e in plan || e == KIND_ENTRY || e == NAME_ENTRY) {
      assert e in all;
      if e !in plan {
        AddedSound(e);
      }
    }
    forall a, b | a in full && b in full ensures Aligned(a.path, b.path) {
      if a !in plan {
        AddedAligned(b, a);
      } else if b !in plan {
        AddedAligned(a, b);
      }
    }
    SortedByPath(full);
    assert forall i :: 0 <= i < |full| ==> full[i] in full;
  }

  lemma Apart(plan: Plan, i: nat, j: nat)
    requires !Clash(plan) && i < |plan| && j < |plan|
    ensures i == j || !(plan[i].path <= plan[j].path)
  {
  }

  lemma OverlapClashes(plan: Plan)
    requires SoundPlan(plan) && !Clash(plan) && Overlaps(plan)
    ensures Clash(plan + Missing(plan))
  {
    var all, n := plan + Missing(plan), |plan|;
    if Any(plan, IsWhole) {
      var i :| 0 <= i < n && IsWhole(plan[i]);
      forall k | 0 <= k < n ensures !IsKind(plan[k]) {
        Apart(plan, i, k);
      }
      assert IsOther(plan[i]);
      assert all[n] == KIND_ENTRY && all[i].path <= all[n].path;
    } else if Any(plan, BelowKind) {
      var i :| 0 <= i < n && BelowKind(plan[i]);
      forall k | 0 <= k < n ensures !IsKind(plan[k]) {
        Apart(plan, k, i);
      }
      assert plan[i].path[0] == [PCR, "kind"][0];
      assert IsOther(plan[i]);
      assert all[n] == KIND_ENTRY && all[n].path <= all[i].path;
    } else {
      var i :| 0 <= i < n && BelowName(plan[i]);
      forall k | 0 <= k < n ensures !IsName(plan[k]) {
        Apart(plan, k, i);
      }
      assert all[n] == NAME_ENTRY && all[n].path <= all[i].path;
    }
  }

  lemma NoOverlapFits(plan: Plan)
    requires SoundPlan(plan) && !Clash(plan) && !Overlaps(plan)
    ensures !Clash(plan + Missing(plan))
  {
    var extra := Missing(plan);
    var all, n := plan + extra, |plan|;
    assert |extra| <= 1;
    forall i, j | 0 <= i < |all| && 0 <= j < |all| && i != j
      ensures !(all[i].path <= all[j].path)
    {
      if i < n && j < n {
        assert all[i] == plan[i] && all[j] == plan[j];
      } else {
        AddedFits(plan, if i < n then i else j);
      }
    }
  }

  lemma AddedFits(plan: Plan, i: nat)
    requires SoundPlan(plan) && !Clash(plan) && !Overlaps(plan)
    requires i < |plan| && Missing(plan) != []
    ensures !(plan[i].path <= Missing(plan)[0].path) && !(Missing(plan)[0].path <= plan[i].path)
  {
    var p, q := plan[i].path, Missing(plan)[0].path;
    assert |q| == 2 && q[0] == PCR && p != [];
    assert !IsWhole(plan[i]) && !(IsKind(plan[i]) && q == KIND_ENTRY.path)
        && !(IsName(plan[i]) && q == NAME_ENTRY.path);
    assert p != q;
    assert !(q < p) by {
      assert !BelowKind(plan[i]);
    }
    assert p == [p[0]] + p[1..];
  }

  /** Completing leaves a touched providerConfigRef with both kind and name
      exactly when the plan set one of the two itself: with only some other
      child set, the name stays unset. */
  lemma CompletionFills(plan: Plan)
    requires Any(plan, InRef)
    ensures var full := SortPlan(plan + Missing(plan));
            Any(full, IsKind) && (Any(full, IsName) <==> Any(plan, IsName) || Any(plan, IsKind))
  {
    var all := plan + Missing(plan);
    AnyIn(SortPlan(all), all, IsKind);
    AnyIn(SortPlan(all), all, IsName);
    AnyAppend(plan, Missing(plan), IsKind);
    AnyAppend(plan, Missing(plan), IsName);
    var i :| 0 <= i < |plan| && InRef(plan[i]);
    assert IsName(plan[i]) || IsKind(plan[i]) || IsOther(plan[i]);
    MissingKinds(plan);
  }

  lemma MissingKinds(plan: Plan)
    ensures Any(Missing(plan), IsKind) <==> (Any(plan, IsName) || Any(plan, IsOther)) && !Any(plan, IsKind)
    ensures Any(Missing(plan), IsName) <==> Any(plan, IsKind) && !Any(plan, IsName)
  {
    KindAndName();
    var m := Missing(plan);
    if m != [] {
      assert |m| == 1 && (m[0] == KIND_ENTRY || m[0] == NAME_ENTRY);
    }
  }

  lemma KindAndName()
    ensures IsKind(KIND_ENTRY) && !IsName(KIND_ENTRY) && IsName(NAME_ENTRY) && !IsKind(NAME_ENTRY)
  {
    assert "kind"[0] == 'k' && "name"[0] == 'n';
    assert KIND_ENTRY.path[1] == "kind" && NAME_ENTRY.path[1] == "name";
  }

  lemma AnyIn(a: Plan, b: Plan, p: EnvField -> bool)
    requires forall x :: x in a <==> x in b
    ensures Any(a, p) <==> Any(b, p)
  {
    if Any(a, p) {
      var i :| 0 <= i < |a| && p(a[i]);
      assert a[i] in b;
    }
    if Any(b, p) {
      var i :| 0 <= i < |b| && p(b[i]);
      assert b[i] in a;
    }
  }

  lemma AnyAppend(a: Plan, b: Plan, p: EnvField -> bool)
    ensures Any(a + b, p) <==> Any(a, p) || Any(b, p)
  {
    var all := a + b;
    if Any(a, p) {
      var i :| 0 <= i < |a| && p(a[i]);
      assert all[i] == a[i];
    }
    if Any(b, p) {
      var i :| 0 <= i < |b| && p(b[i]);
      assert all[|a| + i] == b[i];
    }
  }

  // ----- writeEnvelope -----

  /** The computed default block, as writeProviderConfigRef writes it. */
  function DefaultBlocks(ti: nat): seq<Block> {
    [Plain(KeyLine(2 * ti + 2, PCR)),
     Plain(PairLine(2 * ti + 4, "kind", KIND_ENTRY.rhs)),
     Plain(PairLine(2 * ti + 4, "name", NAME_ENTRY.rhs))]
  }

  method WriteProviderConfigRef(d: Doc, ti: nat)
    modifies d
    ensures d.lines == old(d.lines) + FlatAll(DefaultBlocks(ti))
  {
    d.Put(KeyLine(2 * ti + 2, PCR));
    d.Put(PairLine(2 * ti + 4, "kind", Literal("ClusterProviderConfig")));
    d.Put(PairLine(2 * ti + 4, "name", Wire(Member(Ref(SpecVar), "providerName"), false)));
    FlatDefault(ti);
  }

  lemma FlatDefault(ti: nat)
    ensures FlatAll(DefaultBlocks(ti)) ==
            [KeyLine(2 * ti + 2, PCR), PairLine(2 * ti + 4, "kind", KIND_ENTRY.rhs),
                PairLine(2 * ti + 4, "name", NAME_ENTRY.rhs)]
  {
    var b := DefaultBlocks(ti);
    assert b[2..][1..] == [];
    assert FlatAll(b[2..]) == [PairLine(2 * ti + 4, "name", NAME_ENTRY.rhs)];
    assert b[1..][1..] == b[2..];
    assert FlatAll(b[1..]) == [PairLine(2 * ti + 4, "kind", KIND_ENTRY.rhs)] + FlatAll(b[2..]);
  }

  /** The envelope with the default block slipped in, while it is still
      pending, before the first key that sorts after it. */
  function TopBlocks(ti: nat, es: Plan, pending: bool): seq<Block>
    requires Rooted(es) && !GroupsCrash(es)
    decreases Size(es)
  {
    if es == [] then (if pending then DefaultBlocks(ti) else [])
    else
      var due := pending && Less(PCR, es[0].path[0]);
      (if due then DefaultBlocks(ti) else [])
      + NodeBlocks(ti + 1, es[0].path[0], Group(es), None)
      + TopBlocks(ti, After(es), pending && !due)
  }

  /** One run of equal first segments, with the default in front when it is due. */
  method WriteTop(d: Doc, ti: nat, plan: Plan, i: nat, pending: bool) returns (crashed: bool, j: nat, pending2: bool)
    requires i < |plan|
    requires Rooted(plan) ==> Rooted(plan[i..])
    modifies d
    ensures crashed ==> !Rooted(plan) || GroupsCrash(plan[i..])
    ensures !crashed ==> i < j <= |plan| && (forall k :: i <= k < j ==> plan[k].path != []) && (pending2 ==> pending)
    ensures !crashed && Rooted(plan) ==> Rooted(plan[j..]) && (GroupsCrash(plan[i..]) <==> GroupsCrash(plan[j..]))
    ensures !crashed && Rooted(plan) && !GroupsCrash(plan[i..]) ==>
              d.lines + FlatAll(TopBlocks(ti, plan[j..], pending2)) == old(d.lines)
                  + FlatAll(TopBlocks(ti, plan[i..], pending))
  {
    j, pending2 := i, pending;
    if plan[i].path == [] {
      return true, i, pending;
    }
    ghost var before := d.lines;
    var due := pending && Less(PCR, plan[i].path[0]);
    if due {
      WriteProviderConfigRef(d, ti);
      pending2 := false;
    }
    var sub;
    crashed, j, sub := TakeRun(plan, i);
    if crashed {
      return;
    }
    crashed := WriteEnvelopeNode(d, ti + 1, plan[i].path[0], sub, None);
    if !crashed && Rooted(plan) && !GroupsCrash(plan[i..]) {
      TopStep(ti, plan[i..], pending);
      assert plan[i..][0] == plan[i];
      ThreeParts(before,
        if due then FlatAll(DefaultBlocks(ti)) else [],
        FlatAll(NodeBlocks(ti + 1, plan[i].path[0], sub, None)),
        FlatAll(TopBlocks(ti, plan[j..], pending2)));
    }
  }

  method HasRef(plan: Plan) returns (found: bool)
    ensures found <==> Any(plan, InRef)
  {
    for k := 0 to |plan|
      invariant forall m :: 0 <= m < k ==> !InRef(plan[m])
    {
      if |plan[k].path| > 0 && plan[k].path[0] == PCR {
        assert InRef(plan[k]);
        return true;
      }
    }
    return false;
  }

  method WriteEnvelope(d: Doc, ti: nat, plan: Plan, wantNamespaced: bool) returns (crashed: bool)
    modifies d
    ensures crashed <==> !Rooted(plan) || GroupsCrash(plan)
    ensures !crashed ==> d.lines == old(d.lines) + FlatAll(TopBlocks(ti, plan, wantNamespaced && !Any(plan, InRef)))
  {
    var hasPCRInPlan := HasRef(plan);
    var pending := wantNamespaced && !hasPCRInPlan;
    ghost var start := d.lines;
    ghost var fine := Rooted(plan) && !GroupsCrash(plan);
    ghost var all := if fine then FlatAll(TopBlocks(ti, plan, pending)) else [];
    var i := 0;
    crashed := false;
    assert plan[0..] == plan;
    while i < |plan| && !crashed
      invariant 0 <= i <= |plan|
      invariant Rooted(plan) ==> Rooted(plan[i..]) && (GroupsCrash(plan) <==> GroupsCrash(plan[i..]))
      invariant forall k :: 0 <= k < i ==> plan[k].path != []
      invariant crashed ==> !fine
      invariant fine ==> d.lines + FlatAll(TopBlocks(ti, plan[i..], pending)) == start + all
      decreases |plan| - i, !crashed
    {
      var j, pending2;
      crashed, j, pending2 := WriteTop(d, ti, plan, i, pending);
      if !crashed {
        i, pending := j, pending2;
      }
    }
    if !crashed {
      assert plan[i..] == [];
      if pending {
        WriteProviderConfigRef(d, ti);
      }
    }
  }

  lemma TopStep(ti: nat, es: Plan, pending: bool)
    requires Rooted(es) && !GroupsCrash(es) && es != []
    ensures var due := pending && Less(PCR, es[0].path[0]);
            FlatAll(TopBlocks(ti, es, pending)) ==
            (if due then FlatAll(DefaultBlocks(ti)) else [])
            + FlatAll(NodeBlocks(ti + 1, es[0].path[0], Group(es), None))
            + FlatAll(TopBlocks(ti, After(es), pending && !due))
  {
    var due := pending && Less(PCR, es[0].path[0]);
    var a := if due then DefaultBlocks(ti) else [];
    var b := NodeBlocks(ti + 1, es[0].path[0], Group(es), None);
    FlatAppend(a + b, TopBlocks(ti, After(es), pending && !due));
    FlatAppend(a, b);
  }

  lemma ThreeParts(s: seq<Line>, a: seq<Line>, b: seq<Line>, c: seq<Line>)
    ensures s + (a + b + c) == ((s + a) + b) + c
    ensures s + [] == s
  {
  }
}
