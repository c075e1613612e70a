/** Dotted paths: their byte order is the order of their segments, and a sorted
    list shows every prefix conflict between neighbours
    (internal/blueprint/envelope.go). */
module Paths {
  import opened Seqs
  import opened Text

  /** A path whose segments are camelCase identifiers. */
  predicate CamelPath(p: seq<string>) {
    p != [] && forall s :: s in p ==> Camel(s)
  }

  /** Only the last segment may be something else than an identifier: the keys
      of a flow map are any text. */
  predicate LeafPath(p: seq<string>) {
    p != [] && Camel(p[0]) && forall i :: 0 <= i < |p| - 1 ==> Camel(p[i])
  }

  predicate CamelDotted(s: string) {
    forall p :: p in Split(s, '.') ==> Camel(p)
  }

  /** Segment by segment; a path sorts before everything it is a prefix of. */
  predicate PathLess(p: seq<string>, q: seq<string>) {
    q != [] && (p == [] || Less(p[0], q[0]) || (p[0] == q[0] && PathLess(p[1..], q[1..])))
  }

  /** Every character of a camelCase identifier sorts above the dot. */
  predicate AboveDot(s: string) {
    forall i :: 0 <= i < |s| ==> s[i] > '.'
  }

  lemma CamelAbove(s: string)
    requires Camel(s)
    ensures AboveDot(s)
  {
    forall i | 0 <= i < |s| ensures s[i] > '.' {
      assert s[i] in s;
    }
  }

  predicate DotOrEnd(s: string) {
    s == "" || s[0] == '.'
  }

  lemma {:induction false} HeadDecides(a: string, x: string, b: string, y: string)
    requires AboveDot(a) && AboveDot(b) && DotOrEnd(x) && DotOrEnd(y)
    ensures a == b ==> (Less(a + x, b + y) <==> Less(x, y))
    ensures a != b ==> (Less(a + x, b + y) <==> Less(a, b))
  {
    if a == "" || b == "" {
      assert a == "" ==> a + x == x;
      assert b == "" ==> b + y == y;
      if a != "" {
        assert (a + x)[0] == a[0];
      }
      if b != "" {
        assert (b + y)[0] == b[0];
      }
    } else {
      assert (a + x)[1..] == a[1..] + x && (b + y)[1..] == b[1..] + y;
      HeadDecides(a[1..], x, b[1..], y);
      assert a == [a[0]] + a[1..] && b == [b[0]] + b[1..];
    }
  }

  /** Where the paths part, either both end or both segments are above the dot. */
  predicate Aligned(p: seq<string>, q: seq<string>)
    requires p != [] && q != []
  {
    |p| == |q| == 1
    || (AboveDot(p[0]) && AboveDot(q[0]) && (p[0] == q[0] && |p| > 1 && |q| > 1 ==> Aligned(p[1..], q[1..])))
  }

  /** Sorting the joined strings sorts the paths. */
  lemma {:induction false} DottedOrder(p: seq<string>, q: seq<string>)
    requires p != [] && q != [] && Aligned(p, q)
    ensures Less(Join(p, '.'), Join(q, '.')) <==> PathLess(p, q)
    decreases |p|
  {
    var x := if |p| == 1 then "" else ['.'] + Join(p[1..], '.');
    var y := if |q| == 1 then "" else ['.'] + Join(q[1..], '.');
    assert Join(p, '.') == p[0] + x;
    assert Join(q, '.') == q[0] + y;
    LessTrichotomy(p[0], q[0]);
    if |p| > 1 || |q| > 1 {
      HeadDecides(p[0], x, q[0], y);
      if p[0] == q[0] && |p| > 1 && |q| > 1 {
        DottedOrder(p[1..], q[1..]);
        assert x[1..] == Join(p[1..], '.') && y[1..] == Join(q[1..], '.');
      }
    }
  }

  lemma {:induction false} AlignedSiblings(p: seq<string>, a: string, b: string)
    requires forall s :: s in p ==> Camel(s)
    ensures Aligned(p + [a], p + [b])
    decreases |p|
  {
    if p != [] {
      CamelAbove(p[0]);
      AlignedSiblings(p[1..], a, b);
      assert (p + [a])[1..] == p[1..] + [a] && (p + [b])[1..] == p[1..] + [b];
    }
  }

  /** Paths that part before either ends stay aligned and apart however they
      go on. */
  lemma {:induction false} AlignedApart(p: seq<string>, x: seq<string>, q: seq<string>, y: seq<string>)
    requires CamelPath(p) && CamelPath(q) && !(p <= q) && !(q <= p)
    ensures Aligned(p + x, q + y) && !(p + x <= q + y)
    decreases |p|
  {
    CamelAbove(p[0]);
    CamelAbove(q[0]);
    PrefixCons(p, q);
    PrefixCons(q, p);
    PrefixCons(p + x, q + y);
    if p[0] == q[0] {
      assert p[1..] != [] && q[1..] != [];
      AlignedApart(p[1..], x, q[1..], y);
      assert (p + x)[1..] == p[1..] + x && (q + y)[1..] == q[1..] + y;
    }
  }

  /** Only the last segment of a path may be misaligned with one of two identifiers. */
  lemma AlignedWithPair(p: seq<string>, a: string, b: string)
    requires LeafPath(p) && Camel(a) && Camel(b)
    ensures Aligned(p, [a, b]) && Aligned([a, b], p)
  {
    CamelAbove(a);
    CamelAbove(b);
    CamelAbove(p[0]);
    var q := [a, b];
    assert q[1..] == [b];
    if |p| > 2 {
      CamelAbove(p[1]);
      assert p[1..][0] == p[1];
    }
  }

  // ----- neighbours -----

  predicate StrictlySorted(paths: seq<string>) {
    forall i, j :: 0 <= i < j < |paths| ==> Less(paths[i], paths[j])
  }

  // ----- sorted keys -----

  ghost predicate Lists(ks: seq<string>, keys: set<string>) {
    StrictlySorted(ks) && forall k :: k in ks <==> k in keys
  }

  function InsertKey(ks: seq<string>, k: string): (r: seq<string>)
    requires StrictlySorted(ks) && k !in ks
    ensures StrictlySorted(r) && forall x :: x in r <==> x == k || x in ks
  {
    if ks == [] then [k]
    else if Less(k, ks[0]) then
      InsertedFirst(k, ks);
      [k] + ks
    else
      assert ks == [ks[0]] + ks[1..];
      var r := InsertKey(ks[1..], k);
      InsertedLater(ks, k, r);
      [ks[0]] + r
  }

  lemma InsertedFirst(k: string, ks: seq<string>)
    requires StrictlySorted(ks) && ks != [] && Less(k, ks[0])
    ensures StrictlySorted([k] + ks) && forall x :: x in [k] + ks <==> x == k || x in ks
  {
    forall j | 0 < j < |ks| ensures Less(k, ks[j]) {
      LessTransitive(k, ks[0], ks[j]);
    }
  }

  lemma InsertedLater(ks: seq<string>, k: string, r: seq<string>)
    requires StrictlySorted(ks) && ks != [] && k !in ks && !Less(k, ks[0]) && StrictlySorted(r)
    requires forall x :: x in r <==> x == k || x in ks[1..]
    ensures StrictlySorted([ks[0]] + r) && forall x :: x in [ks[0]] + r <==> x == k || x in ks
  {
    assert ks == [ks[0]] + ks[1..];
    LessTrichotomy(k, ks[0]);
    forall j | 0 <= j < |r| ensures Less(ks[0], r[j]) {
      assert r[j] in r;
      if r[j] != k {
        var i :| 0 <= i < |ks| - 1 && ks[1..][i] == r[j];
      }
    }
  }

  /** The keys in byte order, each once. */
  ghost function KeysOf(keys: set<string>): (ks: seq<string>)
    ensures Lists(ks, keys)
    decreases |keys|
  {
    if keys == {} then []
    else
      var k :| k in keys;
      InsertKey(KeysOf(keys - {k}), k)
  }

  method SortedKeys(keys: set<string>) returns (ks: seq<string>)
    ensures Lists(ks, keys) && ks == KeysOf(keys)
  {
    ks := [];
    var todo := keys;
    while todo != {}
      invariant todo <= keys && StrictlySorted(ks)
      invariant forall k :: k in ks <==> k in keys && k !in todo
      decreases |todo|
    {
      var k :| k in todo;
      ks := InsertKey(ks, k);
      todo := todo - {k};
    }
    ListedOnce(ks, KeysOf(keys), keys);
  }

  /** A set of keys has only one sorted list. */
  lemma {:induction false} ListedOnce(a: seq<string>, b: seq<string>, keys: set<string>)
    requires Lists(a, keys) && Lists(b, keys)
    ensures a == b
    decreases |a|
  {
    assert forall i :: 0 <= i < |a| ==> a[i] in keys;
    assert forall i :: 0 <= i < |b| ==> b[i] in keys;
    if a != [] && b != [] {
      FirstLeast(a, keys, b[0]);
      FirstLeast(b, keys, a[0]);
      LessTrichotomy(a[0], b[0]);
      RestListed(a, keys);
      RestListed(b, keys);
      ListedOnce(a[1..], b[1..], keys - {a[0]});
      assert a == [a[0]] + a[1..] && b == [b[0]] + b[1..];
    }
  }

  lemma FirstLeast(ks: seq<string>, keys: set<string>, k: string)
    requires Lists(ks, keys) && ks != [] && k in keys
    ensures ks[0] in keys && (ks[0] == k || Less(ks[0], k))
  {
    assert ks[0] in ks;
    var i :| 0 <= i < |ks| && ks[i] == k;
  }

  lemma RestListed(ks: seq<string>, keys: set<string>)
    requires Lists(ks, keys) && ks != []
    ensures Lists(ks[1..], keys - {ks[0]})
  {
    assert ks == [ks[0]] + ks[1..];
    LessTrichotomy(ks[0], ks[0]);
    forall k ensures k in ks[1..] <==> k in keys - {ks[0]} {
      if k in ks[1..] {
        var i :| 0 <= i < |ks| - 1 && ks[1..][i] == k;
        assert ks[i + 1] == k && k in ks;
      }
    }
  }

  /** One of the two sets a node the other sets a child of. */
  predicate Covers(p: string, q: string) {
    p + "." <= q
  }

  predicate PrefixFree(paths: seq<string>) {
    forall i, j :: 0 <= i < |paths| && 0 <= j < |paths| ==> !Covers(paths[i], paths[j])
  }

  predicate DotCamelChars(s: string) {
    forall i :: 0 <= i < |s| ==> s[i] >= '.'
  }

  lemma {:induction false} CamelDottedChars(s: string)
    requires CamelDotted(s)
    ensures DotCamelChars(s)
  {
    CharsFromPieces(s, '.');
    forall i | 0 <= i < |s| && s[i] != '.' ensures s[i] >= '.' {
      assert s[i] in s;
      var p :| p in Split(s, '.') && s[i] in p;
    }
  }

  lemma {:induction false} CharsFromPieces(s: string, sep: char)
    ensures forall c :: c in s ==> c == sep || exists p :: p in Split(s, sep) && c in p
  {
    if s != "" {
      CharsFromPieces(s[1..], sep);
      var rest := Split(s[1..], sep);
      var parts := Split(s, sep);
      forall c | c in s && c != sep ensures exists p :: p in parts && c in p {
        if c == s[0] {
          assert parts[0] in parts && c in parts[0];
        } else {
          assert c in s[1..];
          var p :| p in rest && c in p;
          if p == rest[0] && s[0] != sep {
            assert parts[0] == [s[0]] + rest[0] && parts[0] in parts;
          } else {
            assert p in parts;
          }
        }
      }
    }
  }

  lemma CoversCons(p: string, q: string)
    requires p != ""
    ensures Covers(p, q) <==> q != "" && p[0] == q[0] && Covers(p[1..], q[1..])
  {
    var dotted := p + ".";
    assert dotted[0] == p[0] && dotted[1..] == p[1..] + ".";
    if q != "" {
      PrefixCons(dotted, q);
    }
  }

  /** What sorts strictly between p and an extension of p by a dot extends p by a dot too. */
  lemma {:induction false} Between(p: string, m: string, q: string)
    requires Less(p, m) && Less(m, q) && Covers(p, q)
    requires DotCamelChars(m)
    ensures Covers(p, m)
  {
    if p == "" {
      assert q[0] == (p + ".")[0] == '.';
      assert m[0] == '.';
    } else {
      CoversCons(p, q);
      CoversCons(p, m);
      Between(p[1..], m[1..], q[1..]);
    }
  }

  lemma {:induction false} CoveredSortsAfter(p: string, q: string)
    requires Covers(p, q)
    ensures Less(p, q)
  {
    if p != "" {
      assert (p + ".")[1..] == p[1..] + ".";
      CoveredSortsAfter(p[1..], q[1..]);
    }
  }

  /** The conflict check of validateResourceEnvelope: looking at neighbours of
      the sorted paths finds a conflict exactly when any two paths conflict. */
  method CheckConflicts(paths: seq<string>) returns (ok: bool)
    requires StrictlySorted(paths)
    requires forall p :: p in paths ==> CamelDotted(p)
    ensures ok <==> PrefixFree(paths)
  {
    var i := 0;
    while i + 1 < |paths|
      invariant 0 <= i <= |paths|
      invariant forall k :: 0 <= k < i && k + 1 < |paths| ==> !Covers(paths[k], paths[k + 1])
    {
      if paths[i] + "." <= paths[i + 1] {
        return false;
      }
      i := i + 1;
    }
    forall k, l | 0 <= k < |paths| && 0 <= l < |paths|
      ensures !Covers(paths[k], paths[l])
    {
      NoCover(paths, k, l);
    }
    return true;
  }

  lemma NoCover(paths: seq<string>, k: nat, l: nat)
    requires StrictlySorted(paths)
    requires forall p :: p in paths ==> CamelDotted(p)
    requires forall i :: 0 <= i && i + 1 < |paths| ==> !Covers(paths[i], paths[i + 1])
    requires k < |paths| && l < |paths|
    ensures !Covers(paths[k], paths[l])
  {
    if Covers(paths[k], paths[l]) {
      CoveredSortsAfter(paths[k], paths[l]);
      LessTrichotomy(paths[k], paths[l]);
      assert k < l;
      if k + 1 < l {
        assert paths[k + 1] in paths;
        CamelDottedChars(paths[k + 1]);
        Between(paths[k], paths[k + 1], paths[l]);
      }
      assert false;
    }
  }

  /** Covering is being a proper prefix, segment by segment. */
  lemma {:induction false} CoversIsPrefix(p: seq<string>, q: seq<string>)
    requires CamelPath(p) && CamelPath(q)
    ensures Covers(Join(p, '.'), Join(q, '.')) <==> p < q
    decreases |p|
  {
    var x := if |p| == 1 then "" else ['.'] + Join(p[1..], '.');
    var y := if |q| == 1 then "" else ['.'] + Join(q[1..], '.');
    assert Join(p, '.') == p[0] + x;
    assert Join(q, '.') == q[0] + y;
    CamelAbove(p[0]);
    CamelAbove(q[0]);
    assert (p[0] + x) + "." == p[0] + (x + ".");
    assert DotOrEnd(x + ".");
    PrefixHead(p[0], x + ".", q[0], y);
    if |p| > 1 && |q| > 1 {
      CoversIsPrefix(p[1..], q[1..]);
      var jp, jq := Join(p[1..], '.'), Join(q[1..], '.');
      assert x + "." == ['.'] + (jp + ".");
      PrefixCons(['.'] + (jp + "."), y);
      assert (x + ".")[1..] == jp + "." && y[1..] == jq;
    }
    PrefixCons(p, q);
  }

  lemma {:induction false} PrefixHead(a: string, x: string, b: string, y: string)
    requires AboveDot(a) && AboveDot(b) && DotOrEnd(x) && DotOrEnd(y) && x != ""
    ensures a + x <= b + y <==> a == b && x <= y
  {
    if a == "" || b == "" {
      assert a == "" ==> a + x == x;
      assert b == "" ==> b + y == y;
      if a != "" {
        assert (a + x)[0] == a[0];
      }
      if b != "" {
        assert (b + y)[0] == b[0];
      }
    } else {
      PrefixHead(a[1..], x, b[1..], y);
      assert a + x == [a[0]] + (a[1..] + x) && b + y == [b[0]] + (b[1..] + y);
      assert a == [a[0]] + a[1..] && b == [b[0]] + b[1..];
      if a + x <= b + y {
        assert (a + x)[1..] <= (b + y)[1..];
        assert (a + x)[1..] == a[1..] + x && (b + y)[1..] == b[1..] + y;
      }
    }
  }
}
