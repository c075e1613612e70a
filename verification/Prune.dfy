/** Dropping declared parameters that nothing refers to
    (internal/adopt/adopt.go:4748-4933). */
module Prune {
  import opened Seqs
  import opened Template
  import opened Text
  import opened Refs
  import opened Params
  import opened Rewrite

  /** matchesFrom: the reference is the target, leads to it or goes below it. */
  predicate MatchesFrom(from: string, target: string) {
    PARAMS <= from && (from == target || from + "." <= target || target + "." <= from)
  }

  function Target(path: seq<string>): string {
    PARAMS + Join(path, '.')
  }

  /** One of two paths of segments continues the other. */
  predicate Related(p: seq<string>, q: seq<string>) {
    p <= q || q <= p
  }

  /** isParameterReferenced on references alone: wires, loop bounds and tested
      parameters, without free text. */
  predicate Referenced(refs: set<string>, path: seq<string>) {
    exists r :: r in refs && MatchesFrom(r, Target(path))
  }

  method IsReferenced(refs: set<string>, path: seq<string>) returns (found: bool)
    ensures found <==> Referenced(refs, path)
  {
    var todo := refs;
    while todo != {}
      invariant todo <= refs
      invariant forall r :: r in refs && r !in todo ==> !MatchesFrom(r, Target(path))
      decreases |todo|
    {
      var r :| r in todo;
      if MatchesFrom(r, Target(path)) {
        return true;
      }
      todo := todo - {r};
    }
    return false;
  }

  // ----- string matching is matching of segments -----

  predicate Segments(path: seq<string>) {
    path != [] && forall p :: p in path ==> '.' !in p
  }

  lemma {:induction false} DottedPrefix(p: seq<string>, q: seq<string>)
    requires Segments(p) && Segments(q)
    ensures Join(p, '.') + "." <= Join(q, '.') <==> p < q
    decreases |p|
  {
    var a, b := p[0], q[0];
    assert a in p && b in q;
    HeadCut(a, After(p) + ".", b, After(q));
    JoinHead(p);
    JoinHead(q);
    Assoc(a, After(p), ".");
    if |p| > 1 && |q| > 1 {
      assert forall s :: s in p[1..] ==> s in p;
      assert forall s :: s in q[1..] ==> s in q;
      DottedPrefix(p[1..], q[1..]);
      Behind(Join(p[1..], '.') + ".", Join(q[1..], '.'));
      Assoc(".", Join(p[1..], '.'), ".");
    }
    PrefixCons(p, q);
  }

  /** What follows the first segment, its dot included. */
  function After(p: seq<string>): string
    requires p != []
  {
    if |p| == 1 then "" else "." + Join(p[1..], '.')
  }

  lemma JoinHead(p: seq<string>)
    requires p != []
    ensures Join(p, '.') == p[0] + After(p)
  {
  }

  lemma Behind(x: string, y: string)
    ensures "." + x <= "." + y <==> x <= y
  {
    PrefixBehind(".", x, y);
  }

  /** Heads without dots are compared whole. */
  lemma HeadCut(a: string, x: string, b: string, y: string)
    requires '.' !in a && '.' !in b && x != "" && x[0] == '.' && (y == "" || y[0] == '.')
    ensures a + x <= b + y <==> a == b && x <= y
  {
    var u, v := a + x, b + y;
    assert u[|a|] == '.';
    assert forall i :: 0 <= i < |a| ==> u[i] == a[i] && a[i] in a;
    assert forall i :: 0 <= i < |b| ==> v[i] == b[i] && b[i] in b;
    assert u[|a|..] == x && v[|b|..] == y;
    if u <= v {
      assert v[|a|] == '.';
      assert |b| <= |a|;
      assert |b| < |v|;
      assert v[|b|] == y[0];
      assert |a| <= |b|;
      assert a == u[..|a|] == v[..|b|] == b;
      assert x == u[|a|..] <= v[|b|..] == y;
    }
  }

  // ----- pruning, bottom up -----

  type Hit = seq<string> -> bool

  function HitOf(refs: set<string>): Hit {
    x => Referenced(refs, x)
  }

  function BaseAt(base: Declarations, m: string): Declarations {
    if m in base then base[m].properties else map[]
  }

  /** A member after its own members were pruned. */
  function PrunedMember(p: Parameter, base: Declarations, path: seq<string>, hit: Hit): Parameter
    decreases p, 1
  {
    if p.typ == "object" && p.properties != map[] then p.(properties := PrunedProperties(p, base, path, hit)) else p
  }

  function PrunedProperties(p: Parameter, base: Declarations, path: seq<string>, hit: Hit): Declarations
    decreases p, 0
  {
    map m | m in p.properties && Stays(PrunedMember(p.properties[m], BaseAt(base, m), path + [m], hit), m in base,
        path + [m], hit)
      :: PrunedMember(p.properties[m], BaseAt(base, m), path + [m], hit)
  }

  /** The members of a pruned object. */
  lemma MemberIn(p: Parameter, base: Declarations, path: seq<string>, hit: Hit, m: string)
    requires p.typ == "object"
    ensures var q := PrunedMember(p, base, path, hit);
            && q.typ == "object"
            && (m in q.properties <==> m in p.properties && Stays(PrunedMember(p.properties[m], BaseAt(base, m), path
                + [m], hit), m in base, path + [m], hit))
            && (m in q.properties ==> q.properties[m] == PrunedMember(p.properties[m], BaseAt(base, m), path
                + [m], hit))
  {
  }

  /** Declared by the base blueprint, an object that still has members, or
      referenced. */
  predicate Stays(q: Parameter, inBase: bool, path: seq<string>, hit: Hit) {
    inBase || (q.typ == "object" && q.properties != map[]) || hit(path)
  }

  /** pruneOrphanedParameters: the same rule at the top, except that providerName
      is left alone. */
  function Pruned(ps: Declarations, base: Declarations, hit: Hit): Declarations {
    map m | m in ps && (m == "providerName" || Stays(PrunedMember(ps[m], BaseAt(base, m), [m], hit), m in base, [m],
        hit))
      :: if m == "providerName" then ps[m] else PrunedMember(ps[m], BaseAt(base, m), [m], hit)
  }

  /** pruneParameterProperties: the members of p, each after its own. */
  method PruneProperties(p: Parameter, base: Declarations, path: seq<string>, refs: set<string>) returns (q: Parameter)
    requires p.typ == "object"
    ensures q == PrunedMember(p, base, path, HitOf(refs))
    decreases p
  {
    q := p;
    if p.properties == map[] {
      return;
    }
    ghost var hit := HitOf(refs);
    ghost var want := PrunedProperties(p, base, path, hit);
    var todo := p.properties.Keys;
    var left: Declarations := map[];
    while todo != {}
      invariant todo <= p.properties.Keys
      invariant forall m :: m in left <==> m in want && m !in todo
      invariant forall m :: m in left ==> left[m] == want[m]
      decreases |todo|
    {
      var m :| m in todo;
      var child := p.properties[m];
      if child.typ == "object" && child.properties != map[] {
        child := PruneProperties(child, BaseAt(base, m), path + [m], refs);
      }
      assert child == PrunedMember(p.properties[m], BaseAt(base, m), path + [m], hit);
      var keep := m in base;
      if !keep {
        var referenced := IsReferenced(refs, path + [m]);
        keep := referenced || (child.typ == "object" && child.properties != map[]);
      }
      if keep {
        left := left[m := child];
      }
      todo := todo - {m};
    }
    assert left == want;
    q := p.(properties := left);
  }

  method PruneOrphanedParameters(ps: Declarations, base: Declarations, refs: set<string>) returns (out: Declarations)
    ensures out == Pruned(ps, base, HitOf(refs))
  {
    ghost var hit := HitOf(refs);
    ghost var want := Pruned(ps, base, hit);
    var todo := ps.Keys;
    out := map[];
    while todo != {}
      invariant todo <= ps.Keys
      invariant forall m :: m in out <==> m in want && m !in todo
      invariant forall m :: m in out ==> out[m] == want[m]
      decreases |todo|
    {
      var m :| m in todo;
      if m == "providerName" {
        out := out[m := ps[m]];
      } else {
        var p := ps[m];
        if p.typ == "object" && p.properties != map[] {
          p := PruneProperties(p, BaseAt(base, m), [m], refs);
        }
        assert p == PrunedMember(ps[m], BaseAt(base, m), [m], hit);
        var keep := m in base;
        if !keep {
          var referenced := IsReferenced(refs, [m]);
          keep := referenced || (p.typ == "object" && p.properties != map[]);
        }
        if keep {
          out := out[m := p];
        }
      }
      todo := todo - {m};
    }
    assert out == want;
  }

  // ----- references survive -----

  /** Every prefix of the reference from the given length on is a hit. */
  ghost predicate Leads(hit: Hit, rs: seq<string>, from: nat) {
    forall k :: from <= k <= |rs| && k > 0 ==> hit(rs[..k])
  }

  lemma {:induction false} MemberKeeps(p: Parameter, base: Declarations, rs: seq<string>, k: nat, hit: Hit)
    requires k < |rs| && Leads(hit, rs, k + 1)
    requires p.typ == "object" && Resolve(p.properties, rs[k..]).Some?
    ensures Resolve(PrunedMember(p, base, rs[..k], hit).properties, rs[k..]).Some?
    ensures PrunedMember(p, base, rs[..k], hit).typ == "object"
            && PrunedMember(p, base, rs[..k], hit).properties != map[]
    decreases |rs| - k
  {
    var m, q := rs[k], PrunedMember(p, base, rs[..k], hit);
    assert rs[k..][0] == m && rs[k..][1..] == rs[k + 1..] && rs[..k] + [m] == rs[..k + 1];
    assert m in p.properties;
    var child := PrunedMember(p.properties[m], BaseAt(base, m), rs[..k + 1], hit);
    assert hit(rs[..k + 1]);
    MemberIn(p, base, rs[..k], hit, m);
    if k + 1 < |rs| {
      MemberKeeps(p.properties[m], BaseAt(base, m), rs, k + 1, hit);
    }
  }

  /** Pruning never breaks a reference: what leads to it or is it stays. */
  lemma PruneKeeps(ps: Declarations, base: Declarations, rs: seq<string>, hit: Hit)
    requires Resolve(ps, rs).Some? && Leads(hit, rs, 1)
    ensures Resolve(Pruned(ps, base, hit), rs).Some?
  {
    var m, out := rs[0], Pruned(ps, base, hit);
    assert rs[..1] == [m] && hit(rs[..1]);
    assert m in out;
    if |rs| > 1 && m != "providerName" {
      MemberKeeps(ps[m], BaseAt(base, m), rs, 1, hit);
    }
  }

  lemma TargetsMatch(p: seq<string>, q: seq<string>)
    requires Segments(p) && Segments(q)
    ensures MatchesFrom(Target(p), Target(q)) <==> Related(p, q)
  {
    DottedPrefix(p, q);
    DottedPrefix(q, p);
    var x, y := Join(p, '.'), Join(q, '.');
    Assoc(PARAMS, x, ".");
    Assoc(PARAMS, y, ".");
    PrefixBehind(PARAMS, x + ".", y);
    PrefixBehind(PARAMS, y + ".", x);
    PrefixBehind(PARAMS, x, y);
    if x == y {
      SplitJoin(p, '.');
      SplitJoin(q, '.');
    }
    Ordered(p, q);
  }

  lemma Ordered(p: seq<string>, q: seq<string>)
    ensures Related(p, q) <==> p == q || p < q || q < p
  {
    assert p <= q ==> p == q || p < q;
    assert q <= p ==> p == q || q < p;
  }

  lemma PrefixSegments(p: seq<string>, k: nat)
    requires Segments(p) && 0 < k <= |p|
    ensures Segments(p[..k]) && p[..k] <= p
  {
    assert forall s :: s in p[..k] ==> s in p;
  }

  /** Every reference that resolved before the pruning resolves after it. */
  lemma ReferencesSurvive(ps: Declarations, base: Declarations, refs: set<string>, rs: seq<string>)
    requires Segments(rs) && Target(rs) in refs && Resolve(ps, rs).Some?
    ensures Resolve(Pruned(ps, base, HitOf(refs)), rs).Some?
  {
    var hit := HitOf(refs);
    forall k | 1 <= k <= |rs| ensures hit(rs[..k]) {
      PrefixSegments(rs, k);
      TargetsMatch(rs, rs[..k]);
      assert MatchesFrom(Target(rs), Target(rs[..k]));
    }
    PruneKeeps(ps, base, rs, hit);
  }

  // ----- nothing unrelated is left -----

  /** Parameter references are written over undotted segments. */
  ghost predicate Written(refs: set<string>) {
    forall r :: r in refs ==> PARAMS <= r ==> exists q :: Segments(q) && r == Target(q)
  }

  lemma RelatedUp(q: seq<string>, p: seq<string>, m: string)
    requires Related(q, p + [m])
    ensures Related(q, p)
  {
    if q <= p + [m] && q != p + [m] {
      assert q == (p + [m])[..|q|] == p[..|q|];
    } else if p + [m] <= q {
      assert p == (p + [m])[..|p|] == q[..|p|];
    }
  }

  /** With references over undotted segments, every path of undotted names that
      still resolves is related to some reference. */
  lemma {:induction false} MemberRelated(p: Parameter, path: seq<string>, refs: set<string>)
    requires Written(refs) && Segments(path) && Plain(p)
    requires Stays(PrunedMember(p, map[], path, HitOf(refs)), false, path, HitOf(refs))
    ensures Referenced(refs, path)
    decreases p
  {
    var hit := HitOf(refs);
    var q := PrunedMember(p, map[], path, hit);
    if !hit(path) {
      assert q.properties != map[];
      var m :| m in q.properties;
      MemberIn(p, map[], path, hit, m);
      assert BaseAt(map[], m) == map[];
      MemberRelated(p.properties[m], path + [m], refs);
      ReferencedUp(refs, path, m);
    }
  }

  /** Declared names carry no dots. */
  predicate Plain(p: Parameter)
    decreases p
  {
    forall m :: m in p.properties ==> '.' !in m && Plain(p.properties[m])
  }

  lemma ReferencedUp(refs: set<string>, path: seq<string>, m: string)
    requires Written(refs) && Segments(path) && '.' !in m && Referenced(refs, path + [m])
    ensures Referenced(refs, path)
  {
    var r :| r in refs && MatchesFrom(r, Target(path + [m]));
    var q :| Segments(q) && r == Target(q);
    TargetsMatch(q, path + [m]);
    RelatedUp(q, path, m);
    TargetsMatch(q, path);
  }

  lemma {:induction false} MembersRelated(p: Parameter, path: seq<string>, rs: seq<string>, refs: set<string>)
    requires Written(refs) && Segments(path) && Plain(p) && p.typ == "object"
    requires Resolve(PrunedMember(p, map[], path, HitOf(refs)).properties, rs).Some?
    ensures Referenced(refs, path + rs)
    decreases |rs|
  {
    var hit := HitOf(refs);
    var q := PrunedMember(p, map[], path, hit);
    var m := rs[0];
    MemberIn(p, map[], path, hit, m);
    assert m in q.properties && BaseAt(map[], m) == map[];
    if |rs| == 1 {
      MemberRelated(p.properties[m], path + [m], refs);
      assert path + rs == path + [m];
    } else {
      MembersRelated(p.properties[m], path + [m], rs[1..], refs);
      assert path + rs == path + [m] + rs[1..];
    }
  }

  /** Without a base blueprint, nothing is left but providerName and what some
      reference names, leads through or goes below. */
  lemma OnlyRelatedLeft(ps: Declarations, refs: set<string>, rs: seq<string>)
    requires Written(refs) && (forall m :: m in ps ==> '.' !in m && Plain(ps[m]))
    requires Resolve(Pruned(ps, map[], HitOf(refs)), rs).Some? && rs[0] != "providerName"
    ensures Referenced(refs, rs)
  {
    var hit := HitOf(refs);
    var m, out := rs[0], Pruned(ps, map[], hit);
    assert m in out && BaseAt(map[], m) == map[];
    if |rs| == 1 {
      MemberRelated(ps[m], [m], refs);
      assert rs == [m];
    } else {
      MembersRelated(ps[m], [m], rs[1..], refs);
      assert rs == [m] + rs[1..];
    }
  }

  // ----- pruning again changes nothing -----

  lemma {:induction false} MemberStable(p: Parameter, base: Declarations, path: seq<string>, hit: Hit)
    ensures var q := PrunedMember(p, base, path, hit); PrunedMember(q, base, path, hit) == q
    decreases p
  {
    var q := PrunedMember(p, base, path, hit);
    if p.typ == "object" && q.properties != map[] {
      forall m | m in q.properties
        ensures PrunedMember(q.properties[m], BaseAt(base, m), path + [m], hit) == q.properties[m]
        ensures Stays(q.properties[m], m in base, path + [m], hit)
      {
        MemberIn(p, base, path, hit, m);
        MemberStable(p.properties[m], BaseAt(base, m), path + [m], hit);
      }
      assert PrunedProperties(q, base, path, hit) == q.properties;
    }
  }

  lemma PruneStable(ps: Declarations, base: Declarations, hit: Hit)
    ensures Pruned(Pruned(ps, base, hit), base, hit) == Pruned(ps, base, hit)
  {
    var out := Pruned(ps, base, hit);
    forall m | m in out && m != "providerName" ensures PrunedMember(out[m], BaseAt(base, m), [m], hit) == out[m] {
      MemberStable(ps[m], BaseAt(base, m), [m], hit);
    }
    assert Pruned(out, base, hit) == out;
  }
}
