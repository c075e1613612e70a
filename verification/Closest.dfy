/** Nearest-name suggestions (internal/blueprint/closest.go): the one-row edit
    distance and the choice among candidates. */
module Closest {
  import opened Template
  import opened Text

  function Min(a: int, b: int): int {
    if a < b then a else b
  }

  function Min3(a: int, b: int, c: int): int {
    Min(a, Min(b, c))
  }

  function Init(s: string): string
    requires s != ""
  {
    s[..|s| - 1]
  }

  function Tip(s: string): char
    requires s != ""
  {
    s[|s| - 1]
  }

  function Cost(a: string, b: string): int
    requires a != "" && b != ""
  {
    if Tip(a) == Tip(b) then 0 else 1
  }

  function Distance(a: string, b: string): (d: nat)
    decreases |a| + |b|
  {
    if a == "" then |b|
    else if b == "" then |a|
    else Min3(Distance(Init(a), b) + 1, Distance(a, Init(b)) + 1, Distance(Init(a), Init(b)) + Cost(a, b))
  }

  // ----- the distance is the least cost of an edit script -----

  datatype Edit = Keep | Replace(c: char) | Insert(c: char) | Delete

  /** What a script makes of s, worked off from the end; None if it does not fit. */
  function Apply(es: seq<Edit>, s: string): Option<string> {
    if es == [] then (if s == "" then Some("") else None)
    else
      var rest := es[..|es| - 1];
      match es[|es| - 1]
      case Keep => if s == "" then None else Then(Apply(rest, Init(s)), [Tip(s)])
      case Replace(c) => if s == "" then None else Then(Apply(rest, Init(s)), [c])
      case Insert(c) => Then(Apply(rest, s), [c])
      case Delete => if s == "" then None else Apply(rest, Init(s))
  }

  function Then(o: Option<string>, t: string): Option<string> {
    if o.None? then None else Some(o.value + t)
  }

  function Price(es: seq<Edit>): nat {
    if es == [] then 0 else Price(es[..|es| - 1]) + if es[|es| - 1].Keep? then 0 else 1
  }

  lemma InitTip(s: string, c: char)
    ensures Init(s + [c]) == s && Tip(s + [c]) == c
  {
  }

  /** Any script from a to b costs at least the distance. */
  lemma {:induction false} DistanceLeast(es: seq<Edit>, a: string, b: string)
    requires Apply(es, a) == Some(b)
    ensures Price(es) >= Distance(a, b)
    decreases |es|
  {
    if es != [] {
      var rest, e := es[..|es| - 1], es[|es| - 1];
      match e
      case Keep =>
        var x := Apply(rest, Init(a)).value;
        InitTip(x, Tip(a));
        DistanceLeast(rest, Init(a), x);
      case Replace(c) =>
        var x := Apply(rest, Init(a)).value;
        InitTip(x, c);
        DistanceLeast(rest, Init(a), x);
      case Insert(c) =>
        var x := Apply(rest, a).value;
        InitTip(x, c);
        DistanceLeast(rest, a, x);
        InsertStep(a, x, c);
      case Delete =>
        DistanceLeast(rest, Init(a), b);
        DeleteStep(a, b);
    }
  }

  lemma InsertStep(a: string, x: string, c: char)
    ensures Distance(a, x + [c]) <= Distance(a, x) + 1
  {
    InitTip(x, c);
  }

  lemma DeleteStep(a: string, b: string)
    requires a != ""
    ensures Distance(a, b) <= Distance(Init(a), b) + 1
  {
  }

  lemma Extended(es: seq<Edit>, e: Edit)
    ensures (es + [e])[..|es|] == es && Price(es + [e]) == Price(es) + if e.Keep? then 0 else 1
  {
    assert (es + [e])[..|es|] == es;
  }

  /** And some script costs exactly that. */
  lemma {:induction false} DistanceReached(a: string, b: string) returns (es: seq<Edit>)
    ensures Apply(es, a) == Some(b) && Price(es) == Distance(a, b)
    decreases |a| + |b|
  {
    if a == "" && b == "" {
      es := [];
    } else if a == "" || (b != "" && Distance(a, b) == Distance(a, Init(b)) + 1) {
      var rest := DistanceReached(a, Init(b));
      es := rest + [Insert(Tip(b))];
      Extended(rest, Insert(Tip(b)));
      assert Init(b) + [Tip(b)] == b;
    } else if b == "" || Distance(a, b) == Distance(Init(a), b) + 1 {
      var rest := DistanceReached(Init(a), b);
      es := rest + [Delete];
      Extended(rest, Delete);
    } else {
      var rest := DistanceReached(Init(a), Init(b));
      var e := if Tip(a) == Tip(b) then Keep else Replace(Tip(b));
      es := rest + [e];
      Extended(rest, e);
      assert Init(b) + [Tip(b)] == b;
    }
  }

  // ----- the facts the fast form rests on -----

  lemma {:induction false} DistanceSymmetric(a: string, b: string)
    ensures Distance(a, b) == Distance(b, a)
    decreases |a| + |b|
  {
    if a != "" && b != "" {
      DistanceSymmetric(Init(a), b);
      DistanceSymmetric(a, Init(b));
      DistanceSymmetric(Init(a), Init(b));
    }
  }

  lemma {:induction false} DistanceSame(a: string)
    ensures Distance(a, a) == 0
    decreases |a|
  {
    if a != "" {
      DistanceSame(Init(a));
    }
  }

  lemma Prefixes(s: string, i: nat)
    requires 0 < i <= |s|
    ensures s[..i] != "" && Init(s[..i]) == s[..i - 1] && Tip(s[..i]) == s[i - 1]
  {
  }

  /** The matrix over the prefixes of the two strings. */
  function Entry(ar: string, br: string, i: nat, j: nat): nat
    requires i <= |ar| && j <= |br|
  {
    Distance(ar[..i], br[..j])
  }

  /** One cell of the matrix from its three neighbours. */
  lemma Cell(ar: string, br: string, i: nat, j: nat)
    requires 0 < i <= |ar| && 0 < j <= |br|
    ensures Entry(ar, br, i, j) ==
            Min3(Entry(ar, br, i - 1, j) + 1, Entry(ar, br, i, j - 1) + 1,
                 Entry(ar, br, i - 1, j - 1) + if ar[i - 1] == br[j - 1] then 0 else 1)
  {
    Prefixes(ar, i);
    Prefixes(br, j);
  }

  lemma Border(ar: string, br: string, i: nat, j: nat)
    requires i <= |ar| && j <= |br|
    ensures Entry(ar, br, i, 0) == i && Entry(ar, br, 0, j) == j
  {
    assert br[..0] == "" && ar[..0] == "" && |ar[..i]| == i && |br[..j]| == j;
  }

  ghost predicate RowIs(row: seq<int>, ar: string, br: string, i: nat)
    requires i <= |ar|
  {
    |row| == |br| + 1 && forall j :: 0 <= j <= |br| ==> row[j] == Entry(ar, br, i, j)
  }

  /** The value that overwrites row[j], from the entries around it. */
  method NextCell(ar: string, br: string, i: nat, j: nat, above: int, left: int, corner: int) returns (v: int)
    requires 0 < i <= |ar| && 0 < j <= |br|
    requires above == Entry(ar, br, i - 1, j) && left == Entry(ar, br, i, j - 1)
             && corner == Entry(ar, br, i - 1, j - 1)
    ensures v == Entry(ar, br, i, j)
  {
    var cost := 1;
    if ar[i - 1] == br[j - 1] {
      cost := 0;
    }
    Cell(ar, br, i, j);
    v := Min3(above + 1, left + 1, corner + cost);
  }

  /** The inner loop: from the matrix row above to the next one, in place. */
  method NextRow(ar: string, br: string, row: array<int>, i: nat)
    requires 0 < i <= |ar| && row.Length == |br| + 1 && RowIs(row[..], ar, br, i - 1)
    modifies row
    ensures RowIs(row[..], ar, br, i)
  {
    ghost var was := row[..];
    var prevCorner := row[0];
    row[0] := i;
    Border(ar, br, i, 0);
    for j := 1 to |br| + 1
      invariant prevCorner == was[j - 1]
      invariant forall k :: 0 <= k < j ==> row[k] == Entry(ar, br, i, k)
      invariant forall k :: j <= k <= |br| ==> row[k] == was[k]
    {
      var prevAbove := row[j];
      row[j] := NextCell(ar, br, i, j, prevAbove, row[j - 1], prevCorner);
      prevCorner := prevAbove;
    }
  }

  /** Two rows of the matrix in one buffer, the longer string down the side. */
  method EditDistance(a: string, b: string) returns (d: int)
    ensures d == Distance(a, b)
  {
    if a == b {
      DistanceSame(a);
      return 0;
    }
    var ar, br := a, b;
    if |ar| == 0 {
      return |br|;
    }
    if |br| == 0 {
      return |ar|;
    }
    if |br| > |ar| {
      ar, br := br, ar;
      DistanceSymmetric(a, b);
    }
    var row := new int[|br| + 1];
    for j := 0 to row.Length
      invariant forall k :: 0 <= k < j ==> row[k] == k
    {
      row[j] := j;
    }
    FirstRow(ar, br, row[..]);
    for i := 1 to |ar| + 1
      invariant RowIs(row[..], ar, br, i - 1)
    {
      NextRow(ar, br, row, i);
    }
    assert ar[..|ar|] == ar && br[..|br|] == br;
    d := row[|br|];
  }

  lemma FirstRow(ar: string, br: string, row: seq<int>)
    requires |row| == |br| + 1 && forall k :: 0 <= k <= |br| ==> row[k] == k
    ensures RowIs(row, ar, br, 0)
  {
    forall j | 0 <= j <= |br| ensures row[j] == Entry(ar, br, 0, j) {
      Border(ar, br, 0, j);
    }
  }

  // ----- ClosestPath -----

  /** isCloseMatch; the length is counted in bytes. */
  predicate CloseMatch(bytes: nat, dist: int) {
    dist <= 0 || (dist <= 3 && ((bytes >= 3 && dist <= 2) || dist * 2 < bytes))
  }

  /** The first of the nearest candidates. */
  ghost predicate Nearest(target: string, candidates: seq<string>, r: string) {
    exists i :: 0 <= i < |candidates| && NearestAt(target, candidates, i) && r == candidates[i]
  }

  predicate NearestAt(target: string, candidates: seq<string>, i: nat)
    requires i < |candidates|
  {
    && (forall j :: 0 <= j < i ==> Distance(target, candidates[i]) < Distance(target, candidates[j]))
    && forall j :: 0 <= j < |candidates| ==> Distance(target, candidates[i]) <= Distance(target, candidates[j])
  }

  lemma NearestOnce(target: string, candidates: seq<string>, a: string, b: string)
    requires Nearest(target, candidates, a) && Nearest(target, candidates, b)
    ensures a == b
  {
    var i :| 0 <= i < |candidates| && NearestAt(target, candidates, i) && a == candidates[i];
    var j :| 0 <= j < |candidates| && NearestAt(target, candidates, j) && b == candidates[j];
    assert Distance(target, candidates[i]) == Distance(target, candidates[j]);
  }

  /** The scan of the candidates: the nearest, the first of equals. */
  method Scan(target: string, candidates: seq<string>) returns (best: string, bestDist: int)
    ensures best == "" || (best in candidates && bestDist == Distance(target, best))
    ensures "" !in candidates && candidates != [] ==> best != "" && Nearest(target, candidates, best)
    ensures candidates == [] ==> best == ""
  {
    best, bestDist := "", 0;
    ghost var at := 0;
    for i := 0 to |candidates|
      invariant best == "" || (best in candidates && bestDist == Distance(target, best))
      invariant "" !in candidates && i > 0 ==>
                best != "" && at < i && best == candidates[at]
                && (forall j :: 0 <= j < at ==> Distance(target, best) < Distance(target, candidates[j]))
                && forall j :: 0 <= j < i ==> Distance(target, best) <= Distance(target, candidates[j])
      invariant i == 0 ==> best == ""
    {
      var d := EditDistance(target, candidates[i]);
      if best == "" || d < bestDist {
        best, bestDist := candidates[i], d;
        at := i;
      }
    }
    if "" !in candidates && candidates != [] {
      assert NearestAt(target, candidates, at);
    }
  }

  /** The candidates behind a prefix, in order, without it. */
  function LeavesOf(prefixDot: string, candidates: seq<string>): (leaves: seq<string>)
    ensures forall l :: l in leaves <==> prefixDot + l in candidates
  {
    if candidates == [] then []
    else
      var front, c := candidates[..|candidates| - 1], candidates[|candidates| - 1];
      assert candidates == front + [c];
      assert prefixDot <= c ==> prefixDot + c[|prefixDot|..] == c;
      assert forall l :: prefixDot + l == c ==> l == c[|prefixDot|..] && prefixDot <= c;
      LeavesOf(prefixDot, front) + if prefixDot <= c then [c[|prefixDot|..]] else []
  }

  method LeavesUnder(prefixDot: string, candidates: seq<string>) returns (leaves: seq<string>)
    ensures leaves == LeavesOf(prefixDot, candidates)
  {
    leaves := [];
    for i := 0 to |candidates|
      invariant leaves == LeavesOf(prefixDot, candidates[..i])
    {
      var c := candidates[i];
      assert candidates[..i + 1][..i] == candidates[..i];
      if prefixDot <= c {
        leaves := leaves + [c[|prefixDot|..]];
      }
    }
    assert candidates[..|candidates|] == candidates;
  }

  /** What is suggested: the first nearest candidate if it is close enough; else
      of the candidates with the target's parent the one whose last part is
      suggested, and so on down; else nothing. */
  ghost predicate Suggests(target: string, candidates: seq<string>, bytes: string -> nat, r: string)
    decreases |target|
  {
    if exists c :: Nearest(target, candidates, c) && CloseMatch(bytes(target), Distance(target, c)) then
      Nearest(target, candidates, r)
    else
      var idx := LastIndex(target, '.');
      && idx != -1 && target[..idx + 1] <= r
      && Suggests(target[idx + 1..], LeavesOf(target[..idx + 1], candidates), bytes, r[idx + 1..])
  }

  /** No candidate is empty or ends in a dot. */
  predicate Whole(candidates: seq<string>) {
    forall c :: c in candidates ==> c != "" && c[|c| - 1] != '.'
  }

  lemma LeavesWhole(prefixDot: string, candidates: seq<string>)
    requires Whole(candidates) && prefixDot != "" && prefixDot[|prefixDot| - 1] == '.'
    ensures Whole(LeavesOf(prefixDot, candidates))
  {
    forall l | l in LeavesOf(prefixDot, candidates) ensures l != "" && l[|l| - 1] != '.' {
      var c := prefixDot + l;
      assert c in candidates;
      assert prefixDot !in candidates;
      assert l == "" ==> c == prefixDot;
      assert c[|c| - 1] == l[|l| - 1];
    }
  }

  /** A suggestion is always a candidate; it is the one that is suggested, and
      none is given exactly when nothing is. */
  method ClosestPath(target: string, candidates: seq<string>, bytes: string -> nat) returns (r: string)
    ensures r != "" ==> r in candidates
    ensures Whole(candidates) && r != "" ==> Suggests(target, candidates, bytes, r)
    ensures Whole(candidates) && r == "" ==> forall c :: !Suggests(target, candidates, bytes, c)
    decreases |target|
  {
    var best, bestDist := Scan(target, candidates);
    if best != "" && CloseMatch(bytes(target), bestDist) {
      return best;
    }
    if Whole(candidates) {
      forall c | Nearest(target, candidates, c) ensures !CloseMatch(bytes(target), Distance(target, c)) {
        NearestOnce(target, candidates, c, best);
      }
    }
    var idx := LastIndex(target, '.');
    if idx != -1 {
      var prefix, leaf := target[..idx], target[idx + 1..];
      assert prefix + "." == target[..idx + 1];
      var leafCandidates := LeavesUnder(prefix + ".", candidates);
      if Whole(candidates) {
        LeavesWhole(prefix + ".", candidates);
      }
      if |leafCandidates| > 0 {
        var bestLeaf := ClosestPath(leaf, leafCandidates, bytes);
        if bestLeaf != "" {
          r := prefix + "." + bestLeaf;
          assert r[idx + 1..] == bestLeaf;
          return;
        }
      } else {
        NothingSuggested(leaf, bytes);
      }
    }
    return "";
  }

  lemma {:induction false} NothingSuggested(target: string, bytes: string -> nat)
    ensures forall c :: !Suggests(target, [], bytes, c)
    decreases |target|
  {
    var idx := LastIndex(target, '.');
    if idx != -1 {
      assert LeavesOf(target[..idx + 1], []) == [];
      NothingSuggested(target[idx + 1..], bytes);
    }
  }
}
