/** Strings the way Go's strings package cuts them. */
module Text {

  /** strings.Split(s, sep) for a one-character separator. */
  function Split(s: string, sep: char): (parts: seq<string>)
    ensures parts != []
  {
    if s == "" then [""]
    else
      var rest := Split(s[1..], sep);
      if s[0] == sep then [""] + rest else [[s[0]] + rest[0]] + rest[1..]
  }

  /** strings.Join(parts, sep) for a one-character separator. */
  function Join(parts: seq<string>, sep: char): string {
    if parts == [] then ""
    else if |parts| == 1 then parts[0]
    else parts[0] + [sep] + Join(parts[1..], sep)
  }

  lemma {:induction false} JoinSplit(s: string, sep: char)
    ensures Join(Split(s, sep), sep) == s
  {
    if s != "" {
      JoinSplit(s[1..], sep);
      var rest := Split(s[1..], sep);
      var parts := Split(s, sep);
      if s[0] == sep {
        assert parts[1..] == rest;
        assert [sep] + s[1..] == s;
      } else {
        assert parts[1..] == rest[1..];
        assert s == [s[0]] + s[1..];
        if |rest| > 1 {
          assert s[1..] == rest[0] + ([sep] + Join(rest[1..], sep));
        }
      }
    }
  }

  /** A first piece without the separator is cut off whole. */
  lemma {:induction false} SplitHead(p: string, rest: string, sep: char)
    requires sep !in p
    ensures Split(p + [sep] + rest, sep) == [p] + Split(rest, sep)
  {
    if p == "" {
      assert (p + [sep] + rest)[1..] == rest;
    } else {
      var s := p + [sep] + rest;
      assert s[1..] == p[1..] + [sep] + rest;
      SplitHead(p[1..], rest, sep);
      assert [p[0]] + p[1..] == p;
    }
  }

  lemma {:induction false} SplitPlain(p: string, sep: char)
    requires sep !in p
    ensures Split(p, sep) == [p]
  {
    if p != "" {
      SplitPlain(p[1..], sep);
      assert [p[0]] + p[1..] == p;
    }
  }

  lemma {:induction false} SplitJoin(parts: seq<string>, sep: char)
    requires parts != []
    requires forall p :: p in parts ==> sep !in p
    ensures Split(Join(parts, sep), sep) == parts
  {
    if |parts| == 1 {
      SplitPlain(parts[0], sep);
    } else {
      SplitJoin(parts[1..], sep);
      SplitHead(parts[0], Join(parts[1..], sep), sep);
    }
  }

  lemma {:induction false} SplitPieces(s: string, sep: char)
    ensures forall p :: p in Split(s, sep) ==> sep !in p
  {
    if s != "" {
      SplitPieces(s[1..], sep);
      var rest := Split(s[1..], sep);
      assert rest[0] in rest;
    }
  }

  /** Where pat first occurs in s (strings.Index), or -1. */
  function Find(s: string, pat: string): (r: int)
    ensures -1 <= r && (r >= 0 ==> r + |pat| <= |s| && pat <= s[r..])
    ensures forall i :: 0 <= i < (if r < 0 then |s| + 1 else r) ==> !(pat <= s[i..])
  {
    if pat <= s then
      assert s[0..] == s;
      0
    else if s == "" then -1
    else
      var r := Find(s[1..], pat);
      FindLater(s, pat, r);
      if r < 0 then -1 else r + 1
  }

  lemma TailAgain(s: string, i: nat)
    requires 0 < i <= |s|
    ensures s[i..] == s[1..][i - 1..]
  {
  }

  lemma FindLater(s: string, pat: string, r: int)
    requires s != "" && !(pat <= s) && -1 <= r && (r >= 0 ==> r + |pat| <= |s| - 1 && pat <= s[1..][r..])
    requires forall i :: 0 <= i < (if r < 0 then |s| else r) ==> !(pat <= s[1..][i..])
    ensures r >= 0 ==> pat <= s[r + 1..]
    ensures forall i :: 0 <= i < (if r < 0 then |s| + 1 else r + 1) ==> !(pat <= s[i..])
  {
    forall i | 0 <= i < (if r < 0 then |s| + 1 else r + 1) ensures !(pat <= s[i..]) {
      if i > 0 {
        TailAgain(s, i);
      } else {
        assert s[0..] == s;
      }
    }
    if r >= 0 {
      TailAgain(s, r + 1);
    }
  }

  lemma FoundAt(s: string, pat: string)
    requires Find(s, pat) >= 0
    ensures var r := Find(s, pat); s[r..r + |pat|] == pat
  {
    var r := Find(s, pat);
    assert s[r..r + |pat|] == s[r..][..|pat|];
  }

  predicate EndsWith(s: string, suffix: string) {
    |suffix| <= |s| && s[|s| - |suffix|..] == suffix
  }

  /** Byte order on strings, the order sort.Strings sorts by. */
  predicate Less(a: string, b: string) {
    b != "" && (a == "" || a[0] < b[0] || (a[0] == b[0] && Less(a[1..], b[1..])))
  }

  lemma {:induction false} LessTrichotomy(a: string, b: string)
    ensures Less(a, b) || a == b || Less(b, a)
    ensures !(Less(a, b) && Less(b, a)) && !Less(a, a)
  {
    if a != "" {
      LessTrichotomy(a[1..], a[1..]);
    }
    if a != "" && b != "" && a[0] == b[0] {
      LessTrichotomy(a[1..], b[1..]);
      assert a == [a[0]] + a[1..] && b == [b[0]] + b[1..];
    }
  }

  lemma {:induction false} LessTransitive(a: string, b: string, c: string)
    requires Less(a, b) && Less(b, c)
    ensures Less(a, c)
  {
    if a != "" && a[0] == b[0] && b[0] == c[0] {
      LessTransitive(a[1..], b[1..], c[1..]);
    }
  }

  predicate Letter(c: char) {
    'a' <= c <= 'z' || 'A' <= c <= 'Z'
  }

  predicate Digit(c: char) {
    '0' <= c <= '9'
  }

  /** ^[a-zA-Z][a-zA-Z0-9]*$ (paramNameRE, internal/blueprint/load.go). */
  predicate Camel(s: string) {
    s != "" && Letter(s[0]) && forall c :: c in s ==> Letter(c) || Digit(c)
  }

  /** ^[a-z0-9]([-a-z0-9]*[a-z0-9])?$ (resourceNameRE, internal/blueprint/load.go). */
  predicate DnsLabel(s: string) {
    && s != ""
    && LowerDigit(s[0]) && LowerDigit(s[|s| - 1])
    && forall c :: c in s ==> LowerDigit(c) || c == '-'
  }

  predicate LowerDigit(c: char) {
    'a' <= c <= 'z' || Digit(c)
  }

  /** strings.LastIndexByte(s, c). */
  function LastIndex(s: string, c: char): (i: int)
    ensures -1 <= i < |s|
    ensures i >= 0 ==> s[i] == c && c !in s[i + 1..]
    ensures i < 0 ==> c !in s
  {
    if s == "" then -1 else if s[|s| - 1] == c then |s| - 1
    else
      var i := LastIndex(s[..|s| - 1], c);
      assert s == s[..|s| - 1] + [s[|s| - 1]];
      assert i >= 0 ==> s[i + 1..] == s[..|s| - 1][i + 1..] + [s[|s| - 1]];
      i
  }

  /** pat stands in s at p. */
  predicate At(s: string, p: nat, pat: string) {
    p + |pat| <= |s| && forall i :: 0 <= i < |pat| ==> s[p + i] == pat[i]
  }

  // ----- lines -----

  /** A stretch of a text. */
  datatype Extent = Extent(from: nat, to: nat)

  /** White space as far as ASCII goes. */
  predicate White(c: char) {
    c == ' ' || c == '\t' || c == '\r' || c == '\n' || c == 11 as char || c == 12 as char
  }

  /** Where the line that p lies in ends: at its newline or at the end. */
  function LineEnd(s: string, p: nat): (n: nat)
    requires p <= |s|
    ensures p <= n <= |s| && (n < |s| ==> s[n] == '\n')
    decreases |s| - p
  {
    if p == |s| || s[p] == '\n' then p else LineEnd(s, p + 1)
  }

  /** It is the first such place. */
  lemma {:induction false} LineEndFirst(s: string, p: nat, n: nat)
    requires p <= n < |s| && s[n] == '\n'
    ensures LineEnd(s, p) <= n
    decreases n - p
  {
    if p < n && s[p] != '\n' {
      LineEndFirst(s, p + 1, n);
    }
  }

  lemma {:induction false} LineEndPast(s: string, p: nat, i: nat)
    requires p <= |s| && p <= i <= LineEnd(s, p)
    ensures LineEnd(s, i) == LineEnd(s, p)
    decreases i - p
  {
    if p < i {
      LineEndPast(s, p + 1, i);
    }
  }
}
