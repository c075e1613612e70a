/** Laws of sequences that proofs about appended texts, lines and paths share. */
module Seqs {

  lemma Assoc<T>(a: seq<T>, b: seq<T>, c: seq<T>)
    ensures (a + b) + c == a + (b + c)
  {
  }

  lemma Grown<T>(s: seq<T>, i: nat)
    requires i < |s|
    ensures s[..i + 1] == s[..i] + [s[i]]
  {
  }

  lemma PrefixCons<T>(p: seq<T>, q: seq<T>)
    requires p != [] && q != []
    ensures p <= q <==> p[0] == q[0] && p[1..] <= q[1..]
    ensures p < q <==> p[0] == q[0] && p[1..] < q[1..]
  {
    assert p == [p[0]] + p[1..] && q == [q[0]] + q[1..];
    if p <= q {
      assert forall i :: 0 <= i < |p| - 1 ==> p[1..][i] == p[i + 1] == q[i + 1] == q[1..][i];
    }
  }

  predicate Distinct<T(==)>(s: seq<T>) {
    forall i, j :: 0 <= i < j < |s| ==> s[i] != s[j]
  }

  function Flatten<T>(parts: seq<seq<T>>): seq<T> {
    if parts == [] then [] else Flatten(parts[..|parts| - 1]) + parts[|parts| - 1]
  }

  lemma {:induction false} FlattenMembers<T>(parts: seq<seq<T>>, x: T)
    ensures x in Flatten(parts) <==> exists i :: 0 <= i < |parts| && x in parts[i]
  {
    if parts != [] {
      FlattenMembers(parts[..|parts| - 1], x);
      assert parts == parts[..|parts| - 1] + [parts[|parts| - 1]];
    }
  }

  lemma DistinctAppend<T>(a: seq<T>, b: seq<T>)
    ensures Distinct(a + b) <==> Distinct(a) && Distinct(b) && forall x :: x in a ==> x !in b
  {
    var all := a + b;
    if Distinct(all) {
      forall i, j | 0 <= i < j < |a| ensures a[i] != a[j] {
        assert all[i] == a[i] && all[j] == a[j];
      }
      forall i, j | 0 <= i < j < |b| ensures b[i] != b[j] {
        assert all[|a| + i] == b[i] && all[|a| + j] == b[j];
      }
      forall x | x in a ensures x !in b {
        var i :| 0 <= i < |a| && a[i] == x;
        assert forall j :: 0 <= j < |b| ==> all[|a| + j] == b[j] && all[i] == x;
      }
    }
    if Distinct(a) && Distinct(b) && forall x :: x in a ==> x !in b {
      forall i, j | 0 <= i < j < |all| ensures all[i] != all[j] {
        if i < |a| && j >= |a| {
          assert all[i] in a && all[j] in b;
        }
      }
    }
  }

  ghost predicate NothingShared<T>(parts: seq<seq<T>>) {
    forall i, j, x :: 0 <= i < j < |parts| && x in parts[i] ==> x !in parts[j]
  }

  /** A flattened sequence repeats nothing when no part does and no two parts
      share anything. */
  lemma {:induction false} FlattenDistinct<T>(parts: seq<seq<T>>)
    ensures Distinct(Flatten(parts)) <==> (forall i :: 0 <= i < |parts| ==> Distinct(parts[i])) && NothingShared(parts)
  {
    if parts != [] {
      var front, last := parts[..|parts| - 1], parts[|parts| - 1];
      assert parts == front + [last];
      FlattenDistinct(front);
      DistinctAppend(Flatten(front), last);
      forall x ensures x in Flatten(front) <==> exists i :: 0 <= i < |front| && x in front[i] {
        FlattenMembers(front, x);
      }
    }
  }

  /** The places at which test holds, in order. */
  ghost predicate Picks<T>(s: seq<T>, test: T -> bool, at: seq<nat>) {
    && (forall k :: 0 <= k < |at| ==> at[k] < |s|)
    && (forall k, l :: 0 <= k < l < |at| ==> at[k] < at[l])
    && forall i :: 0 <= i < |s| ==> (i in at <==> test(s[i]))
  }

  lemma PicksSnoc<T>(s: seq<T>, test: T -> bool, front: seq<nat>)
    requires s != [] && Picks(s[..|s| - 1], test, front)
    ensures var last := |s| - 1; Picks(s, test, if test(s[last]) then front + [last] else front)
    ensures forall k :: 0 <= k < |front| ==> front[k] < |s| - 1 && s[..|s| - 1][front[k]] == s[front[k]]
  {
    var last := |s| - 1;
    var at := if test(s[last]) then front + [last] else front;
    assert forall i :: 0 <= i < last ==> s[..last][i] == s[i];
    forall i | 0 <= i < |s| ensures i in at <==> test(s[i]) {
      assert i in at <==> i in front || (test(s[last]) && i == last);
    }
  }
}
