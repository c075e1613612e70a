/** The composition-resource-name of every composed document is its identity
    (internal/emit/composition.go:370-380); when are all of them distinct? */
module Names {
  import opened Template
  import opened Text
  import opened Refs
  import opened Params
  import opened Blueprint
  import Numbers

  const DIGITS: string := "0123456789"

  function DecimalNat(n: nat): (s: string)
    ensures s != "" && forall c :: c in s ==> Digit(c)
  {
    if n < 10 then [DIGITS[n]] else DecimalNat(n / 10) + [DIGITS[n % 10]]
  }

  /** fmt's %d. */
  function Decimal(i: int): string {
    if i < 0 then "-" + DecimalNat(-i) else DecimalNat(i)
  }

  lemma DigitsDiffer(i: nat, j: nat)
    requires i < 10 && j < 10 && DIGITS[i] == DIGITS[j]
    ensures i == j
  {
  }

  lemma {:induction false} DecimalInjective(a: nat, b: nat)
    requires DecimalNat(a) == DecimalNat(b)
    ensures a == b
    decreases a
  {
    var s, t := DecimalNat(a), DecimalNat(b);
    assert s[|s| - 1] == DIGITS[a % 10] && t[|t| - 1] == DIGITS[b % 10];
    DigitsDiffer(a % 10, b % 10);
    if a >= 10 && b >= 10 {
      assert s[..|s| - 1] == DecimalNat(a / 10) && t[..|t| - 1] == DecimalNat(b / 10);
      DecimalInjective(a / 10, b / 10);
    }
  }

  /** The digits are those of the number, without leading zeros. */
  lemma {:induction false} DecimalReads(n: nat)
    ensures Numbers.InBase(DecimalNat(n), 10) == n
    ensures |DecimalNat(n)| > 1 ==> DecimalNat(n)[0] != '0'
  {
    var s := DecimalNat(n);
    DigitReads(n % 10);
    if n < 10 {
      assert s[..0] == "";
    } else {
      DecimalReads(n / 10);
      assert s[..|s| - 1] == DecimalNat(n / 10);
      assert n >= 10 ==> n / 10 > 0;
      if |DecimalNat(n / 10)| == 1 {
        assert DecimalNat(n / 10)[0] == DIGITS[n / 10];
        DigitReads(n / 10);
      }
    }
  }

  lemma DigitReads(i: nat)
    requires i < 10
    ensures Numbers.DigitValue(DIGITS[i]) == i && (DIGITS[i] == '0' <==> i == 0)
  {
  }

  /** The name of a composed document: indexed inside a loop. */
  function ComposedName(r: Resource, i: int): string {
    if r.forEach == "" then r.name else r.name + "-" + Decimal(i)
  }

  /** No two composed documents share a name, whatever indices the loops run over. */
  ghost predicate NamesDistinct(d: Document) {
    forall r, s, i: int, j: int ::
      r in d.resources && s in d.resources && ComposedName(r, i) == ComposedName(s, j) ==>
        r == s && (r.forEach != "" ==> i == j)
  }

  /** An unlooped resource has the name of an iteration of a looped one. */
  ghost predicate Shadowed(d: Document) {
    exists r, s, i: int :: r in d.resources && s in d.resources && r.forEach != "" && s.forEach == ""
        && s.name == r.name + "-" + Decimal(i)
  }

  /** A string is cut at its last dash in one way. */
  lemma LastDash(a: string, x: string, b: string, y: string)
    requires '-' !in x && '-' !in y
    requires a + "-" + x == b + "-" + y
    ensures a == b && x == y
  {
    var w := a + "-" + x;
    assert w[|a|] == '-' && w[|b|] == '-';
    assert forall i :: 0 <= i < |x| ==> w[|a| + 1 + i] == x[i];
    assert forall i :: 0 <= i < |y| ==> w[|b| + 1 + i] == y[i];
    assert |a| == |b|;
    assert a == w[..|a|] == w[..|b|] == b;
    assert x == w[|a| + 1..] == w[|b| + 1..] == y;
  }

  lemma EndsNoDash(a: string, b: string)
    requires DnsLabel(b)
    ensures a + "-" != b
  {
    assert (a + "-")[|a + "-"| - 1] == '-';
  }

  lemma NoDash(n: nat)
    ensures '-' !in DecimalNat(n)
  {
  }

  function Abs(i: int): nat {
    if i < 0 then -i else i
  }

  function Stem(a: string, i: int): string {
    if i < 0 then a + "-" else a
  }

  lemma AtLastDash(a: string, i: int)
    ensures a + "-" + Decimal(i) == Stem(a, i) + "-" + DecimalNat(Abs(i))
  {
  }

  lemma StemsDiffer(a: string, i: int, b: string, j: int)
    requires DnsLabel(a) && DnsLabel(b) && Stem(a, i) == Stem(b, j)
    ensures a == b && (i < 0 <==> j < 0)
  {
    EndsNoDash(a, b);
    EndsNoDash(b, a);
    assert (a + "-")[..|a|] == a && (b + "-")[..|b|] == b;
  }

  lemma LoopedApart(a: string, i: int, b: string, j: int)
    requires DnsLabel(a) && DnsLabel(b) && a + "-" + Decimal(i) == b + "-" + Decimal(j)
    ensures a == b && i == j
  {
    AtLastDash(a, i);
    AtLastDash(b, j);
    NoDash(Abs(i));
    NoDash(Abs(j));
    LastDash(Stem(a, i), DecimalNat(Abs(i)), Stem(b, j), DecimalNat(Abs(j)));
    StemsDiffer(a, i, b, j);
    DecimalInjective(Abs(i), Abs(j));
  }

  lemma SameResource(rs: seq<Resource>, r: Resource, s: Resource)
    requires UniqueNames(rs) && r in rs && s in rs && r.name == s.name
    ensures r == s
  {
    var i :| 0 <= i < |rs| && rs[i] == r;
    var j :| 0 <= j < |rs| && rs[j] == s;
  }

  /** In a validated document the composed names are distinct exactly when no
      unlooped resource is named like an iteration: validation does not ask. */
  lemma DistinctIff(d: Document)
    requires ResourcesOk(d)
    ensures NamesDistinct(d) <==> !Shadowed(d)
  {
    if !Shadowed(d) {
      forall r, s, i: int, j: int | r in d.resources && s in d.resources && ComposedName(r, i) == ComposedName(s, j)
        ensures r == s && (r.forEach != "" ==> i == j)
      {
        Apart(d, r, i, s, j);
      }
    }
    if Shadowed(d) {
      var r, s, i: int :| r in d.resources && s in d.resources && r.forEach != "" && s.forEach == ""
          && s.name == r.name + "-" + Decimal(i);
      assert ComposedName(r, i) == ComposedName(s, 0);
    }
  }

  lemma Apart(d: Document, r: Resource, i: int, s: Resource, j: int)
    requires ResourcesOk(d) && !Shadowed(d) && r in d.resources && s in d.resources
             && ComposedName(r, i) == ComposedName(s, j)
    ensures r == s && (r.forEach != "" ==> i == j)
  {
    assert ResourceOk(d, r) && ResourceOk(d, s);
    if r.forEach != "" && s.forEach != "" {
      LoopedApart(r.name, i, s.name, j);
    }
    SameResource(d.resources, r, s);
  }
}
