/** Exactly what pruning leaves, and what it leaves of it
    (internal/adopt/adopt.go:4839-4946). */
module PruneExact {
  import opened Template
  import opened Text
  import opened Params
  import opened Declare
  import opened Prune

  /** A declared path that the base blueprint declares too, or that some
      reference names, leads through or goes below. */
  predicate Anchor(ps: Declarations, base: Declarations, path: seq<string>, hit: Hit, segs: seq<string>) {
    segs != [] && Resolve(ps, segs).Some? && (MemberAt(base, segs).Some? || hit(path + segs))
  }

  /** The path is, or leads to, such a path. */
  ghost predicate Anchored(ps: Declarations, base: Declarations, path: seq<string>, hit: Hit, segs: seq<string>) {
    exists x :: Anchor(ps, base, path, hit, segs + x)
  }

  lemma AnchorStep(ps: Declarations, base: Declarations, path: seq<string>, hit: Hit, m: string, rest: seq<string>)
    requires rest != []
    ensures Anchor(ps, base, path, hit, [m] + rest) <==>
            && m in ps && ps[m].typ == "object" && ps[m].properties != map[]
            && Anchor(ps[m].properties, BaseAt(base, m), path + [m], hit, rest)
  {
    assert ([m] + rest)[1..] == rest;
    assert path + [m] + rest == path + ([m] + rest);
  }

  lemma AnchoredStep(ps: Declarations, base: Declarations, path: seq<string>, hit: Hit, m: string, rest: seq<string>)
    requires rest != []
    ensures Anchored(ps, base, path, hit, [m] + rest) <==>
            && m in ps && ps[m].typ == "object" && ps[m].properties != map[]
            && Anchored(ps[m].properties, BaseAt(base, m), path + [m], hit, rest)
  {
    forall x ensures Anchor(ps, base, path, hit, [m] + rest + x) <==>
        && m in ps && ps[m].typ == "object" && ps[m].properties != map[]
        && Anchor(ps[m].properties, BaseAt(base, m), path + [m], hit, rest + x) {
      AnchorStep(ps, base, path, hit, m, rest + x);
      assert [m] + rest + x == [m] + (rest + x);
    }
  }

  ghost predicate AnyAnchored(ps: Declarations, base: Declarations, path: seq<string>, hit: Hit) {
    exists n :: n in ps && Anchored(ps, base, path, hit, [n])
  }

  /** One segment: anchored itself, or some member below it is. */
  lemma AnchoredOne(ps: Declarations, base: Declarations, path: seq<string>, hit: Hit, m: string)
    requires m in ps
    ensures Anchored(ps, base, path, hit, [m]) <==>
            || m in base || hit(path + [m])
            || (ps[m].typ == "object" && AnyAnchored(ps[m].properties, BaseAt(base, m), path + [m], hit))
  {
    assert [m] + [] == [m];
    assert Anchor(ps, base, path, hit, [m] + []) <==> m in base || hit(path + [m]);
    if x :| x != [] && Anchor(ps, base, path, hit, [m] + x) {
      AnchorStep(ps, base, path, hit, m, x);
      assert x == [x[0]] + x[1..];
      assert x[0] in ps[m].properties;
      assert Anchored(ps[m].properties, BaseAt(base, m), path + [m], hit, [x[0]]);
    }
    if ps[m].typ == "object" && AnyAnchored(ps[m].properties, BaseAt(base, m), path + [m], hit) {
      var n :| n in ps[m].properties && Anchored(ps[m].properties, BaseAt(base, m), path + [m], hit, [n]);
      var x :| Anchor(ps[m].properties, BaseAt(base, m), path + [m], hit, [n] + x);
      AnchorStep(ps, base, path, hit, m, [n] + x);
    }
  }

  /** A member stays exactly when it is anchored. */
  lemma {:induction false} StaysIff(p: Parameter, base: Declarations, path: seq<string>, hit: Hit, m: string)
    requires p.typ == "object" && m in p.properties
    ensures Stays(PrunedMember(p.properties[m], BaseAt(base, m), path + [m], hit), m in base, path + [m], hit) <==>
            Anchored(p.properties, base, path, hit, [m])
    decreases p, 0
  {
    var child := p.properties[m];
    AnchoredOne(p.properties, base, path, hit, m);
    MembersIff(child, BaseAt(base, m), path + [m], hit);
  }

  /** What is left of an object has members exactly when one of them is anchored. */
  lemma {:induction false} MembersIff(p: Parameter, base: Declarations, path: seq<string>, hit: Hit)
    ensures PrunedMember(p, base, path, hit).typ == p.typ
    ensures p.typ == "object" ==>
            forall n :: n in PrunedMember(p, base, path, hit).properties <==>
                n in p.properties && Anchored(p.properties, base, path, hit, [n])
    decreases p, 1
  {
    if p.typ == "object" {
      forall n ensures n in PrunedMember(p, base, path, hit).properties <==>
          n in p.properties && Anchored(p.properties, base, path, hit, [n]) {
        MemberIn(p, base, path, hit, n);
        if n in p.properties {
          StaysIff(p, base, path, hit, n);
        }
      }
    }
  }

  lemma {:induction false} ResolvesIff(p: Parameter, base: Declarations, path: seq<string>, hit: Hit,
      segs: seq<string>)
    requires p.typ == "object" && segs != []
    ensures Resolve(PrunedMember(p, base, path, hit).properties, segs).Some? <==>
            Resolve(p.properties, segs).Some? && Anchored(p.properties, base, path, hit, segs)
    decreases |segs|
  {
    var q, m := PrunedMember(p, base, path, hit), segs[0];
    MembersIff(p, base, path, hit);
    MemberIn(p, base, path, hit, m);
    if |segs| == 1 {
      assert segs == [m];
    } else if m in p.properties {
      assert segs == [m] + segs[1..];
      var child := p.properties[m];
      AnchoredStep(p.properties, base, path, hit, m, segs[1..]);
      MembersIff(child, BaseAt(base, m), path + [m], hit);
      if child.typ == "object" {
        ResolvesIff(child, BaseAt(base, m), path + [m], hit, segs[1..]);
        if Anchored(p.properties, base, path, hit, segs) {
          AnchoredUp(p.properties, base, path, hit, segs);
        }
      }
    }
  }

  /** What leads to an anchored path is anchored. */
  lemma AnchoredUp(ps: Declarations, base: Declarations, path: seq<string>, hit: Hit, segs: seq<string>)
    requires segs != [] && Anchored(ps, base, path, hit, segs)
    ensures Anchored(ps, base, path, hit, [segs[0]])
  {
    var x :| Anchor(ps, base, path, hit, segs + x);
    assert [segs[0]] + (segs[1..] + x) == segs + x;
  }

  /** A declared path still resolves after the pruning exactly when it is, or
      leads to, a declared path that the base blueprint declares too or that is
      related to some reference; everything below providerName is left alone. */
  lemma PruneExact(ps: Declarations, base: Declarations, hit: Hit, segs: seq<string>)
    requires segs != []
    ensures Resolve(Pruned(ps, base, hit), segs).Some? <==>
            Resolve(ps, segs).Some? && (segs[0] == "providerName" || Anchored(ps, base, [], hit, segs))
  {
    var all := Parameter("object", false, "", [], ps);
    var m, out := segs[0], Pruned(ps, base, hit);
    assert [] + [m] == [m];
    if m != "providerName" && m in ps {
      StaysIff(all, base, [], hit, m);
      TopMember(ps, base, hit, m);
      ResolvesIff(all, base, [], hit, segs);
      SameHead(PrunedMember(all, base, [], hit).properties, out, segs);
    }
  }

  lemma TopMember(ps: Declarations, base: Declarations, hit: Hit, m: string)
    requires m in ps && m != "providerName"
    ensures var all := PrunedMember(Parameter("object", false, "", [], ps), base, [], hit).properties;
            && (m in Pruned(ps, base, hit) <==> m in all)
            && (m in all ==> Pruned(ps, base, hit)[m] == all[m])
  {
    MemberIn(Parameter("object", false, "", [], ps), base, [], hit, m);
    assert [] + [m] == [m];
  }

  lemma SameHead(a: Declarations, b: Declarations, segs: seq<string>)
    requires segs != [] && (segs[0] in a <==> segs[0] in b) && (segs[0] in a ==> a[segs[0]] == b[segs[0]])
    ensures Resolve(a, segs) == Resolve(b, segs)
  {
  }

  /** In particular what both the blueprint and its base declare survives. */
  lemma BaseSurvives(ps: Declarations, base: Declarations, hit: Hit, segs: seq<string>)
    requires Resolve(ps, segs).Some? && Resolve(base, segs).Some?
    ensures Resolve(Pruned(ps, base, hit), segs).Some?
  {
    ResolvedMember(base, segs);
    assert segs + [] == segs;
    assert Anchor(ps, base, [], hit, segs + []);
    PruneExact(ps, base, hit, segs);
  }

  lemma {:induction false} ResolvedMember(ps: Declarations, segs: seq<string>)
    requires Resolve(ps, segs).Some?
    ensures MemberAt(ps, segs) == Some(Resolve(ps, segs).value[|segs| - 1])
    decreases |segs|
  {
    if |segs| > 1 {
      ResolvedMember(ps[segs[0]].properties, segs[1..]);
    }
  }

  // ----- what stays is as it was -----

  predicate SameBut(p: Parameter, q: Parameter) {
    q == p.(properties := q.properties)
  }

  lemma {:induction false} MembersKept(p: Parameter, base: Declarations, path: seq<string>, hit: Hit,
      segs: seq<string>)
    requires p.typ == "object" && Resolve(PrunedMember(p, base, path, hit).properties, segs).Some?
    ensures var r, q := Resolve(p.properties, segs), Resolve(PrunedMember(p, base, path, hit).properties, segs);
            r.Some? && forall k :: 0 <= k < |segs| ==> SameBut(r.value[k], q.value[k])
    decreases |segs|
  {
    var m := segs[0];
    MemberIn(p, base, path, hit, m);
    var child := p.properties[m];
    assert SameBut(child, PrunedMember(child, BaseAt(base, m), path + [m], hit));
    if |segs| > 1 {
      ResolvesIff(p, base, path, hit, segs);
      MembersKept(child, BaseAt(base, m), path + [m], hit, segs[1..]);
      var r, q := Resolve(p.properties, segs).value, Resolve(PrunedMember(p, base, path, hit).properties, segs).value;
      forall k | 0 <= k < |segs| ensures SameBut(r[k], q[k]) {
        if k > 0 {
          assert r[k] == r[1..][k - 1] && q[k] == q[1..][k - 1];
        }
      }
    }
  }

  /** Whatever still resolves does so along the declarations it had: type,
      required mark, default and enumeration are those declared, and the
      declaration of providerName is untouched altogether. */
  lemma DeclarationsKept(ps: Declarations, base: Declarations, hit: Hit, segs: seq<string>)
    requires Resolve(Pruned(ps, base, hit), segs).Some?
    ensures var r, q := Resolve(ps, segs), Resolve(Pruned(ps, base, hit), segs);
            && r.Some?
            && (forall k :: 0 <= k < |segs| ==>
                && q.value[k].typ == r.value[k].typ && q.value[k].required == r.value[k].required
                && q.value[k].default == r.value[k].default && q.value[k].enum == r.value[k].enum)
            && (segs[0] == "providerName" ==> q == r)
  {
    var m, all := segs[0], Parameter("object", false, "", [], ps);
    if m != "providerName" {
      TopMember(ps, base, hit, m);
      SameHead(PrunedMember(all, base, [], hit).properties, Pruned(ps, base, hit), segs);
      MembersKept(all, base, [], hit, segs);
      var r, q := Resolve(ps, segs).value, Resolve(Pruned(ps, base, hit), segs).value;
      assert forall k :: 0 <= k < |segs| ==> SameBut(r[k], q[k]);
    } else {
      SameHead(ps, Pruned(ps, base, hit), segs);
    }
  }
}
