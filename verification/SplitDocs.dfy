/** Splitting a YAML stream into documents (internal/blueprint/split.go). */
module SplitDocs {
  import opened Seqs
  import opened Text

  // ----- lines -----

  predicate Blank(c: char) {
    c == ' ' || c == '\t' || c == '\r'
  }

  predicate Dashes(s: string, p: nat) {
    p + 3 <= |s| && s[p] == '-' && s[p + 1] == '-' && s[p + 2] == '-'
  }

  /** The line at p is `---` and nothing behind it but blanks. */
  predicate SepAt(s: string, p: nat)
    requires p <= |s|
  {
    Dashes(s, p) && forall i :: p + 3 <= i < LineEnd(s, p) ==> Blank(s[i])
  }

  // ----- the plain splitter: line by line -----

  /** The stretches of text between separator lines; the current one begins at
      start, the next line to read at p. */
  function Stretches(s: string, start: nat, p: nat): seq<Extent>
    requires start <= p <= |s|
    decreases |s| - p
  {
    var e := LineEnd(s, p);
    if SepAt(s, p) then [Extent(start, p)] + (if e < |s| then Stretches(s, e + 1, e + 1) else [])
    else if e < |s| then Stretches(s, start, e + 1)
    else [Extent(start, |s|)]
  }

  // ----- one document -----

  function TrimLeft(s: string): string {
    if s != "" && White(s[0]) then TrimLeft(s[1..]) else s
  }

  function TrimRight(s: string): string {
    if s != "" && White(s[|s| - 1]) then TrimRight(s[..|s| - 1]) else s
  }

  function Trim(s: string): string {
    TrimRight(TrimLeft(s))
  }

  /** Every \r\n becomes \n. */
  function Unix(s: string): string {
    if |s| >= 2 && s[0] == '\r' && s[1] == '\n' then "\n" + Unix(s[2..])
    else if s == "" then ""
    else [s[0]] + Unix(s[1..])
  }

  function TrimReturns(s: string): string {
    if s != "" && s[|s| - 1] == '\r' then TrimReturns(s[..|s| - 1]) else s
  }

  /** A stretch becomes a trimmed document with plain newlines, or nothing. */
  function Clean(raw: string): string {
    var t := Trim(raw);
    if '\r' in t then TrimReturns(Unix(t)) else t
  }

  function Emit(raw: string): seq<string> {
    if Clean(raw) == "" then [] else [Clean(raw)]
  }

  function Raw(s: string, x: Extent): string {
    if x.from <= x.to <= |s| then s[x.from..x.to] else ""
  }

  function Cleaned(s: string, spans: seq<Extent>): seq<string> {
    if spans == [] then [] else Emit(Raw(s, spans[0])) + Cleaned(s, spans[1..])
  }

  function Docs(s: string): seq<string> {
    Cleaned(s, Stretches(s, 0, 0))
  }

  // ----- the scanning splitter -----

  method IsSeparator(input: string, sepStart: nat) returns (ok: bool, lineEnd: nat)
    requires sepStart <= |input|
    ensures ok <==> SepAt(input, sepStart)
    ensures ok ==> lineEnd == LineEnd(input, sepStart)
  {
    if sepStart + 3 > |input| || input[sepStart] != '-' || input[sepStart + 1] != '-' || input[sepStart + 2] != '-' {
      return false, 0;
    }
    var i := sepStart + 3;
    var isSep := true;
    LinePast(input, sepStart);
    while i < |input| && input[i] != '\n'
      invariant sepStart + 3 <= i <= LineEnd(input, sepStart)
      invariant isSep <==> forall k :: sepStart + 3 <= k < i ==> Blank(input[k])
    {
      if !Blank(input[i]) {
        isSep := false;
      }
      LineEndPast(input, sepStart, i);
      i := i + 1;
    }
    LineEndPast(input, sepStart, i);
    return isSep, i;
  }

  lemma LinePast(s: string, p: nat)
    requires Dashes(s, p)
    ensures LineEnd(s, p) >= p + 3
  {
    assert LineEnd(s, p) == LineEnd(s, p + 1);
    assert LineEnd(s, p + 1) == LineEnd(s, p + 2);
    assert LineEnd(s, p + 2) == LineEnd(s, p + 3);
  }

  predicate MarkAt(s: string, k: nat) {
    k < |s| && s[k] == '\n' && Dashes(s, k + 1)
  }

  predicate Unmarked(s: string, from: nat, to: nat) {
    forall k :: from <= k < to ==> !MarkAt(s, k)
  }

  lemma NextLine(s: string, start: nat, p: nat)
    requires start <= p <= |s| && !SepAt(s, p) && LineEnd(s, p) < |s|
    ensures Stretches(s, start, p) == Stretches(s, start, LineEnd(s, p) + 1)
  {
  }

  lemma NoMark(s: string, k: nat)
    requires k < |s| && s[k] == '\n' && !MarkAt(s, k)
    ensures !SepAt(s, k + 1)
  {
  }

  /** Lines in front of the next mark belong to the stretch. */
  lemma {:induction false} SkipLines(s: string, start: nat, p: nat, n: nat)
    requires start <= p <= n < |s| && s[n] == '\n' && !SepAt(s, p) && Unmarked(s, p, n)
    ensures Stretches(s, start, p) == Stretches(s, start, n + 1)
    decreases n - p
  {
    var e := LineEnd(s, p);
    LineEndFirst(s, p, n);
    NextLine(s, start, p);
    if e < n {
      NoMark(s, e);
      SkipLines(s, start, e + 1, n);
    }
  }

  lemma {:induction false} SkipAll(s: string, start: nat, p: nat)
    requires start <= p <= |s| && !SepAt(s, p) && Unmarked(s, p, |s|)
    ensures Stretches(s, start, p) == [Extent(start, |s|)]
    decreases |s| - p
  {
    var e := LineEnd(s, p);
    if e < |s| {
      NextLine(s, start, p);
      NoMark(s, e);
      SkipAll(s, start, e + 1);
    }
  }

  /** What is left to read, seen from the line that starts at q; the search goes
      on from q, past its line, or from the newline in front of it. */
  ghost predicate Reading(s: string, done: seq<Extent>, docStart: nat, searchPos: nat, q: nat) {
    && docStart <= q <= |s| && searchPos <= |s|
    && Stretches(s, 0, 0) == done + Stretches(s, docStart, q)
    && (|| (q == searchPos && !SepAt(s, q))
        || (q == searchPos + 1 && s[searchPos] == '\n' && q == docStart))
  }

  /** The next mark is at n; the line behind it is the next to look at. */
  lemma ToMark(s: string, done: seq<Extent>, docStart: nat, searchPos: nat, q: nat, n: nat)
    requires Reading(s, done, docStart, searchPos, q) && searchPos <= n < |s| && s[n] == '\n'
             && Unmarked(s, searchPos, n)
    ensures docStart <= n + 1 && Stretches(s, 0, 0) == done + Stretches(s, docStart, n + 1)
  {
    if n + 1 != q {
      assert q == searchPos + 1 ==> !MarkAt(s, searchPos);
      SkipLines(s, docStart, q, n);
    }
  }

  /** There is no further mark. */
  lemma ToEnd(s: string, done: seq<Extent>, docStart: nat, searchPos: nat, q: nat)
    requires Reading(s, done, docStart, searchPos, q) && Unmarked(s, searchPos, |s|)
    ensures Stretches(s, 0, 0) == done + [Extent(docStart, |s|)]
  {
    assert q == searchPos + 1 ==> !MarkAt(s, searchPos);
    SkipAll(s, docStart, q);
  }

  /** A separator closes a stretch. */
  lemma AtSeparator(s: string, start: nat, p: nat)
    requires start <= p <= |s| && SepAt(s, p)
    ensures Stretches(s, start, p) == [Extent(start, p)] + Rest(s, LineEnd(s, p))
  {
  }

  lemma AtEnd(s: string)
    ensures !SepAt(s, |s|) && Stretches(s, |s|, |s|) == [Extent(|s|, |s|)]
  {
  }

  lemma {:induction false} CleanedSnoc(s: string, spans: seq<Extent>, x: Extent)
    ensures Cleaned(s, spans + [x]) == Cleaned(s, spans) + Emit(Raw(s, x))
    decreases |spans|
  {
    if spans == [] {
      CleanedHead(s, x, []);
      assert [] + [x] == [x] + [];
    } else {
      assert (spans + [x])[0] == spans[0] && (spans + [x])[1..] == spans[1..] + [x];
      CleanedSnoc(s, spans[1..], x);
      Assoc(Emit(Raw(s, spans[0])), Cleaned(s, spans[1..]), Emit(Raw(s, x)));
    }
  }

  lemma CleanedHead(s: string, x: Extent, rest: seq<Extent>)
    ensures Cleaned(s, [x] + rest) == Emit(Raw(s, x)) + Cleaned(s, rest)
  {
    assert ([x] + rest)[1..] == rest;
  }

  /** The document cut out at a separator or at the end, appended if not empty. */
  method Cut(docs: seq<string>, rawDoc: string) returns (r: seq<string>)
    ensures r == docs + Emit(rawDoc)
  {
    var docBytes := Trim(rawDoc);
    if '\r' in docBytes {
      docBytes := Unix(docBytes);
      docBytes := TrimReturns(docBytes);
    }
    r := docs;
    if |docBytes| > 0 {
      r := r + [docBytes];
    }
  }

  /** Behind a separator whose line ends at e reading starts over; at the end of
      the input there is no stretch left. */
  ghost predicate Behind(s: string, done: seq<Extent>, e: nat) {
    && e <= |s| && (e < |s| ==> s[e] == '\n')
    && Stretches(s, 0, 0) == done + if e < |s| then Stretches(s, e + 1, e + 1) else []
  }

  /** The state of the scan: reading a stretch, or finished at the end. */
  ghost predicate State(s: string, done: seq<Extent>, docStart: nat, searchPos: nat, q: nat) {
    || Reading(s, done, docStart, searchPos, q)
    || (docStart == searchPos == |s| && Stretches(s, 0, 0) == done)
  }

  method Advance(input: string, ghost done: seq<Extent>, lineEnd: nat) returns (docStart: nat, searchPos: nat)
    requires Behind(input, done, lineEnd)
    ensures State(input, done, docStart, searchPos, docStart) && lineEnd <= searchPos <= |input|
  {
    if lineEnd < |input| {
      docStart, searchPos := lineEnd + 1, lineEnd;
    } else {
      docStart, searchPos := |input|, |input|;
      assert done + [] == done;
    }
  }

  lemma SeparatorBehind(s: string, done: seq<Extent>, start: nat, p: nat)
    requires start <= p <= |s| && SepAt(s, p)
    requires Stretches(s, 0, 0) == done + Stretches(s, start, p)
    ensures Behind(s, done + [Extent(start, p)], LineEnd(s, p))
  {
    AtSeparator(s, start, p);
    var e := LineEnd(s, p);
    Assoc(done, [Extent(start, p)], if e < |s| then Stretches(s, e + 1, e + 1) else []);
  }

  /** The prologue: a stream may open with a separator. */
  method Start(input: string) returns (docStart: nat, searchPos: nat, ghost q: nat, ghost done: seq<Extent>)
    ensures State(input, done, docStart, searchPos, q) && Cleaned(input, done) == []
  {
    var ok, lineEnd := IsSeparator(input, 0);
    if ok {
      assert [] + Stretches(input, 0, 0) == Stretches(input, 0, 0);
      SeparatorBehind(input, [], 0, 0);
      done := [] + [Extent(0, 0)];
      CleanedSnoc(input, [], Extent(0, 0));
      docStart, searchPos := Advance(input, done, lineEnd);
      q := docStart;
    } else {
      docStart, searchPos, q, done := 0, 0, 0, [];
      assert [] + Stretches(input, 0, 0) == Stretches(input, 0, 0);
    }
  }

  /** A separator at sepStart closes the document that begins at docStart. */
  method Close(input: string, docs: seq<string>, ghost done: seq<Extent>, docStart: nat, sepStart: nat, lineEnd: nat)
      returns (docs2: seq<string>, ghost done2: seq<Extent>, docStart2: nat, searchPos: nat)
    requires docStart <= sepStart <= |input| && SepAt(input, sepStart) && lineEnd == LineEnd(input, sepStart)
    requires Stretches(input, 0, 0) == done + Stretches(input, docStart, sepStart) && docs == Cleaned(input, done)
    ensures State(input, done2, docStart2, searchPos, docStart2) && docs2 == Cleaned(input, done2)
            && sepStart <= searchPos <= |input|
  {
    SeparatorBehind(input, done, docStart, sepStart);
    CleanedSnoc(input, done, Extent(docStart, sepStart));
    done2 := done + [Extent(docStart, sepStart)];
    docs2 := Cut(docs, input[docStart..sepStart]);
    docStart2, searchPos := Advance(input, done2, lineEnd);
  }

  const MARK: string := "\n---"

  /** One round of the scan, at a mark that was found at newlinePos. */
  method Step(input: string, docs: seq<string>, ghost done: seq<Extent>, docStart: nat, searchPos: nat, ghost q: nat,
      newlinePos: nat)
      returns (docs2: seq<string>, ghost done2: seq<Extent>, docStart2: nat, searchPos2: nat, ghost q2: nat)
    requires Reading(input, done, docStart, searchPos, q) && docs == Cleaned(input, done)
    requires searchPos <= newlinePos < |input| && MarkAt(input, newlinePos) && Unmarked(input, searchPos, newlinePos)
    ensures State(input, done2, docStart2, searchPos2, q2) && docs2 == Cleaned(input, done2)
            && newlinePos < searchPos2 <= |input|
  {
    var sepStart := newlinePos + 1;
    ToMark(input, done, docStart, searchPos, q, newlinePos);
    var ok, lineEnd := IsSeparator(input, sepStart);
    if !ok {
      docs2, done2, docStart2, searchPos2, q2 := docs, done, docStart, sepStart, sepStart;
    } else {
      docs2, done2, docStart2, searchPos2 := Close(input, docs, done, docStart, sepStart, lineEnd);
      q2 := docStart2;
    }
  }

  /** SplitDocs: the scan finds exactly the documents the plain splitter finds. */
  method Split(input: string) returns (docs: seq<string>)
    ensures docs == Docs(input)
  {
    var docStart: nat, searchPos: nat;
    ghost var q: nat, done: seq<Extent>;
    docs := [];
    docStart, searchPos, q, done := Start(input);
    var found := true;
    while searchPos < |input| && found
      invariant State(input, done, docStart, searchPos, q) && docs == Cleaned(input, done)
      invariant !found ==> Unmarked(input, searchPos, |input|)
      decreases |input| - searchPos, found
    {
      var idx := Find(input[searchPos..], MARK);
      Found(input, searchPos);
      if idx == -1 {
        found := false;
      } else {
        docs, done, docStart, searchPos, q := Step(input, docs, done, docStart, searchPos, q, searchPos + idx);
      }
    }
    docs := Finish(input, docs, done, docStart, searchPos, q);
  }

  /** The rest of the input is the last document. */
  method Finish(input: string, docs: seq<string>, ghost done: seq<Extent>, docStart: nat, searchPos: nat,
      ghost q: nat) returns (r: seq<string>)
    requires State(input, done, docStart, searchPos, q) && docs == Cleaned(input, done)
             && Unmarked(input, searchPos, |input|)
    ensures r == Docs(input)
  {
    r := docs;
    if Reading(input, done, docStart, searchPos, q) {
      ToEnd(input, done, docStart, searchPos, q);
      CleanedSnoc(input, done, Extent(docStart, |input|));
    }
    if docStart < |input| {
      r := Cut(docs, input[docStart..]);
      assert input[docStart..] == input[docStart..|input|];
    } else {
      EmitEmpty(input);
    }
  }

  lemma EmitEmpty(s: string)
    ensures Emit(s[|s|..|s|]) == []
  {
    assert s[|s|..|s|] == "";
  }

  lemma MarkIs(s: string, from: nat, k: nat)
    requires from + k <= |s|
    ensures MARK <= s[from..][k..] <==> MarkAt(s, from + k)
  {
    var t := s[from..][k..];
    assert t == s[from + k..];
    assert MARK[0] == '\n' && MARK[1] == '-' && MARK[2] == '-' && MARK[3] == '-';
    if MarkAt(s, from + k) {
      assert t[0] == '\n' && t[1] == '-' && t[2] == '-' && t[3] == '-';
    }
  }

  /** What bytes.Index says about marks. */
  lemma Found(s: string, from: nat)
    requires from <= |s|
    ensures var idx := Find(s[from..], MARK);
            if idx < 0 then Unmarked(s, from, |s|) else Unmarked(s, from, from + idx) && MarkAt(s, from + idx)
  {
    var idx := Find(s[from..], MARK);
    forall k | from <= k < (if idx < 0 then |s| else from + idx) ensures !MarkAt(s, k) {
      MarkIs(s, from, k - from);
    }
    if idx >= 0 {
      FoundAt(s[from..], MARK);
      MarkIs(s, from, idx);
    }
  }

  // ----- joining and splitting -----

  /** No line of s from p on is a separator. */
  predicate NoSep(s: string, p: nat)
    requires p <= |s|
    decreases |s| - p
  {
    !SepAt(s, p) && (LineEnd(s, p) < |s| ==> NoSep(s, LineEnd(s, p) + 1))
  }

  predicate Blanks(s: string) {
    forall c :: c in s ==> Blank(c)
  }

  /** A separator line between two texts. */
  function Gap(blanks: string): string {
    "\n---" + blanks + "\n"
  }

  /** Texts with separator lines between them, each with blanks behind its dashes. */
  function JoinRaw(raws: seq<string>, blanks: seq<string>): string
    requires |raws| == |blanks| + 1
    decreases |raws|
  {
    if |raws| == 1 then raws[0] else raws[0] + Gap(blanks[0]) + JoinRaw(raws[1..], blanks[1..])
  }

  /** s stands in t from position at on. */
  predicate Inside(s: string, t: string, at: nat) {
    at + |s| <= |t| && forall i :: 0 <= i < |s| ==> t[at + i] == s[i]
  }

  lemma {:induction false} LineInside(s: string, t: string, at: nat, p: nat)
    requires Inside(s, t, at) && p <= |s| && (at + |s| == |t| || t[at + |s|] == '\n')
    ensures LineEnd(t, at + p) == at + LineEnd(s, p)
    decreases |s| - p
  {
    if p < |s| && s[p] != '\n' {
      LineInside(s, t, at, p + 1);
    }
  }

  lemma SepInside(s: string, t: string, at: nat, p: nat)
    requires Inside(s, t, at) && p <= |s| && (at + |s| == |t| || t[at + |s|] == '\n')
    ensures SepAt(t, at + p) <==> SepAt(s, p)
  {
    LineInside(s, t, at, p);
    if SepAt(t, at + p) {
      LinePast(t, at + p);
    }
    if SepAt(s, p) {
      LinePast(s, p);
      forall i | at + p + 3 <= i < LineEnd(t, at + p) ensures Blank(t[i]) {
        assert t[at + (i - at)] == s[i - at];
      }
    }
  }

  /** A text without separators is read through, whatever it stands in. */
  lemma {:induction false} ReadThrough(s: string, t: string, at: nat, p: nat)
    requires Inside(s, t, at) && p <= |s| && NoSep(s, p) && (at + |s| == |t| || t[at + |s|] == '\n')
    ensures Stretches(t, at, at + p) == if at + |s| == |t| then [Extent(at, |t|)] else Stretches(t, at, at + |s| + 1)
    decreases |s| - p
  {
    LineInside(s, t, at, p);
    SepInside(s, t, at, p);
    if LineEnd(s, p) < |s| {
      ReadThrough(s, t, at, LineEnd(s, p) + 1);
    }
  }

  /** At the gap the stretch ends, and reading starts over behind it. */
  lemma AtGap(t: string, start: nat, at: nat, e: nat)
    requires start <= at && at + 4 <= e < |t| && MarkAt(t, at) && t[e] == '\n'
    requires forall i :: at + 4 <= i < e ==> Blank(t[i])
    ensures Stretches(t, start, at + 1) == [Extent(start, at + 1)] + Stretches(t, e + 1, e + 1)
  {
    GapEnd(t, at + 1, e);
    AtSeparator(t, start, at + 1);
  }

  lemma GapEnd(t: string, p: nat, e: nat)
    requires p + 3 <= e < |t| && Dashes(t, p) && t[e] == '\n'
    requires forall i :: p + 3 <= i < e ==> Blank(t[i])
    ensures LineEnd(t, p) == e && SepAt(t, p)
  {
    LinePast(t, p);
    LineEndFirst(t, p, e);
  }

  /** What is behind a separator whose line ends at e. */
  function Rest(s: string, e: nat): seq<Extent>
    requires e <= |s|
  {
    if e < |s| then Stretches(s, e + 1, e + 1) else []
  }

  /** Both texts have a separator here, and read alike behind it. */
  lemma AlikeAtSeparator(s: string, t: string, at: nat, start: nat, p: nat, e: nat)
    requires at + |s| == |t| && start <= p <= e <= |s| && SepAt(s, p) && SepAt(t, at + p)
    requires LineEnd(s, p) == e && LineEnd(t, at + p) == at + e
    requires Rest(t, at + e) == Shifted(Rest(s, e), at)
    ensures Stretches(t, at + start, at + p) == Shifted(Stretches(s, start, p), at)
  {
    AtSeparator(s, start, p);
    AtSeparator(t, at + start, at + p);
    ShiftedHead(Extent(start, p), Rest(s, e), at);
    assert Moved(Extent(start, p), at) == Extent(at + start, at + p);
  }

  lemma AlikeAtLine(s: string, t: string, at: nat, start: nat, p: nat, e: nat)
    requires at + |s| == |t| && start <= p <= e < |s| && !SepAt(s, p) && !SepAt(t, at + p)
    requires LineEnd(s, p) == e && LineEnd(t, at + p) == at + e
    requires Stretches(t, at + start, at + (e + 1)) == Shifted(Stretches(s, start, e + 1), at)
    ensures Stretches(t, at + start, at + p) == Shifted(Stretches(s, start, p), at)
  {
    NextLine(s, start, p);
    NextLine(t, at + start, at + p);
  }

  lemma AlikeAtEnd(s: string, t: string, at: nat, start: nat, p: nat)
    requires at + |s| == |t| && start <= p <= |s| && !SepAt(s, p) && !SepAt(t, at + p)
    requires LineEnd(s, p) == |s| && LineEnd(t, at + p) == |t|
    ensures Stretches(t, at + start, at + p) == Shifted(Stretches(s, start, p), at)
  {
    ShiftedHead(Extent(start, |s|), [], at);
    assert [Extent(start, |s|)] + [] == [Extent(start, |s|)];
  }

  /** Two texts read alike from corresponding places on. */
  lemma {:induction false} ReadAlike(s: string, t: string, at: nat, start: nat, p: nat)
    requires Inside(s, t, at) && at + |s| == |t| && start <= p <= |s|
    ensures Stretches(t, at + start, at + p) == Shifted(Stretches(s, start, p), at)
    decreases |s| - p
  {
    LineInside(s, t, at, p);
    SepInside(s, t, at, p);
    var e := LineEnd(s, p);
    if SepAt(s, p) {
      RestAlike(s, t, at, p, e);
      AlikeAtSeparator(s, t, at, start, p, e);
    } else if e < |s| {
      ReadAlike(s, t, at, start, e + 1);
      AlikeAtLine(s, t, at, start, p, e);
    } else {
      AlikeAtEnd(s, t, at, start, p);
    }
  }

  lemma {:induction false} RestAlike(s: string, t: string, at: nat, p: nat, e: nat)
    requires Inside(s, t, at) && at + |s| == |t| && p <= e <= |s|
    ensures Rest(t, at + e) == Shifted(Rest(s, e), at)
    decreases |s| - p, 0
  {
    if e < |s| {
      var n := e + 1;
      ReadAlike(s, t, at, n, n);
      RestFrom(s, e, n);
      RestFrom(t, at + e, at + n);
    } else {
      RestNone(s, e);
      RestNone(t, at + e);
    }
  }

  lemma RestFrom(s: string, e: nat, n: nat)
    requires e < |s| && n == e + 1
    ensures Rest(s, e) == Stretches(s, n, n)
  {
  }

  lemma RestNone(s: string, e: nat)
    requires e == |s|
    ensures Rest(s, e) == []
  {
  }

  lemma WholeAlike(s: string, t: string, at: nat, start: nat)
    requires Inside(s, t, at) && at + |s| == |t| && start == 0
    ensures Stretches(t, at, at) == Shifted(Stretches(s, start, start), at)
  {
    ReadAlike(s, t, at, start, start);
  }

  function Moved(x: Extent, at: nat): Extent {
    Extent(x.from + at, x.to + at)
  }

  function Shifted(spans: seq<Extent>, at: nat): seq<Extent> {
    if spans == [] then [] else [Moved(spans[0], at)] + Shifted(spans[1..], at)
  }

  lemma ShiftedHead(x: Extent, rest: seq<Extent>, at: nat)
    ensures Shifted([x] + rest, at) == [Moved(x, at)] + Shifted(rest, at)
  {
    assert ([x] + rest)[1..] == rest;
  }

  predicate Within(s: string, spans: seq<Extent>) {
    forall i :: 0 <= i < |spans| ==> spans[i].from <= spans[i].to <= |s|
  }

  lemma {:induction false} StretchesWithin(s: string, start: nat, p: nat)
    requires start <= p <= |s|
    ensures Within(s, Stretches(s, start, p))
    decreases |s| - p
  {
    var e := LineEnd(s, p);
    if e < |s| {
      if SepAt(s, p) {
        StretchesWithin(s, e + 1, e + 1);
        AtSeparator(s, start, p);
      } else {
        StretchesWithin(s, start, e + 1);
        NextLine(s, start, p);
      }
    }
  }

  lemma SameText(s: string, t: string, at: nat, x: Extent)
    requires Inside(s, t, at) && x.from <= x.to <= |s|
    ensures Raw(s, x) == Raw(t, Moved(x, at))
  {
    var a, b := s[x.from..x.to], t[x.from + at..x.to + at];
    forall i | 0 <= i < |a| ensures a[i] == b[i] {
      var k := x.from + i;
      assert a[i] == s[k] && b[i] == t[at + k];
    }
  }

  lemma {:induction false} CleanedAlike(s: string, t: string, at: nat, spans: seq<Extent>)
    requires Inside(s, t, at) && Within(s, spans)
    ensures Cleaned(t, Shifted(spans, at)) == Cleaned(s, spans)
  {
    if spans != [] {
      SameText(s, t, at, spans[0]);
      CleanedAlike(s, t, at, spans[1..]);
      CleanedHead(t, Moved(spans[0], at), Shifted(spans[1..], at));
    }
  }

  // ----- cleaning -----

  lemma {:induction false} TrimRightNewline(s: string)
    ensures TrimRight(s + "\n") == TrimRight(s)
  {
    assert (s + "\n")[..|s|] == s;
  }

  lemma {:induction false} TrimNewline(s: string)
    ensures Trim(s + "\n") == Trim(s)
  {
    if s == "" {
      assert "" + "\n" == "\n" && "\n"[1..] == "";
    } else if White(s[0]) {
      assert (s + "\n")[1..] == s[1..] + "\n" && (s + "\n")[0] == s[0];
      TrimNewline(s[1..]);
    } else {
      assert (s + "\n")[0] == s[0];
      TrimRightNewline(s);
    }
  }

  predicate AllWhite(s: string) {
    forall c :: c in s ==> White(c)
  }

  /** No white space at either end. */
  predicate Tight(s: string) {
    s != "" && !White(s[0]) && !White(s[|s| - 1])
  }

  lemma {:induction false} LeftTrimmed(a: string, s: string)
    requires AllWhite(a) && (s != "" ==> !White(s[0]))
    ensures TrimLeft(a + s) == s
    decreases |a|
  {
    if a == "" {
      assert a + s == s;
    } else {
      assert a[0] in a && (a + s)[0] == a[0] && (a + s)[1..] == a[1..] + s;
      assert forall c :: c in a[1..] ==> c in a;
      LeftTrimmed(a[1..], s);
    }
  }

  lemma {:induction false} RightTrimmed(s: string, b: string)
    requires AllWhite(b) && (s != "" ==> !White(s[|s| - 1]))
    ensures TrimRight(s + b) == s
    decreases |b|
  {
    if b == "" {
      assert s + b == s;
    } else {
      var n := |b| - 1;
      assert b[n] in b && (s + b)[|s + b| - 1] == b[n] && (s + b)[..|s + b| - 1] == s + b[..n];
      assert forall c :: c in b[..n] ==> c in b;
      RightTrimmed(s, b[..n]);
    }
  }

  /** The text with Windows line ends. */
  function Windows(s: string): string {
    if s == "" then "" else (if s[0] == '\n' then "\r\n" else [s[0]]) + Windows(s[1..])
  }

  lemma {:induction false} UnixAgain(s: string)
    requires '\r' !in s
    ensures Unix(Windows(s)) == s
  {
    if s != "" {
      var w := Windows(s);
      UnixAgain(s[1..]);
      assert s == [s[0]] + s[1..];
      if s[0] == '\n' {
        assert w[0] == '\r' && w[1] == '\n' && w[2..] == Windows(s[1..]);
      } else {
        assert w[0] == s[0] && w[1..] == Windows(s[1..]);
      }
    }
  }

  lemma {:induction false} WindowsEnds(s: string)
    requires s != "" && s[|s| - 1] != '\n'
    ensures Windows(s) != "" && Windows(s)[|Windows(s)| - 1] == s[|s| - 1]
  {
    if |s| > 1 {
      WindowsEnds(s[1..]);
    } else {
      assert Windows(s[1..]) == "";
    }
  }

  /** A document comes out as it is, whatever white space is around it and
      whichever line ends it is written with. */
  lemma CleanText(a: string, doc: string, b: string)
    requires AllWhite(a) && AllWhite(b) && Tight(doc) && '\r' !in doc
    ensures Emit(a + doc + b) == [doc] && Emit(a + Windows(doc) + b) == [doc]
  {
    TextTrimmed(a, doc, b);
    WindowsEnds(doc);
    assert doc[0] != '\n' ==> Windows(doc)[0] == doc[0];
    TextTrimmed(a, Windows(doc), b);
    UnixAgain(doc);
    assert '\r' !in Windows(doc) ==> Unix(Windows(doc)) == Windows(doc) by {
      NoReturns(Windows(doc));
    }
    assert doc[|doc| - 1] in doc;
  }

  lemma {:induction false} NoReturns(s: string)
    ensures '\r' !in s ==> Unix(s) == s
  {
    if s != "" {
      NoReturns(s[1..]);
      assert s == [s[0]] + s[1..];
    }
  }

  lemma TextTrimmed(a: string, s: string, b: string)
    requires AllWhite(a) && AllWhite(b) && Tight(s)
    ensures Trim(a + s + b) == s
  {
    assert a + s + b == a + (s + b) && (s + b)[0] == s[0];
    LeftTrimmed(a, s + b);
    RightTrimmed(s, b);
  }

  // ----- joined and split again -----

  lemma LastText(raw: string)
    requires NoSep(raw, 0)
    ensures Docs(raw) == Emit(raw)
  {
    ReadThrough(raw, raw, 0, 0);
    CleanedSnoc(raw, [], Extent(0, |raw|));
    assert [] + [Extent(0, |raw|)] == [Extent(0, |raw|)];
    assert raw[0..|raw|] == raw;
  }

  /** t is raw, a separator line that ends at e, and rest. */
  predicate Gapped(t: string, raw: string, e: nat, rest: string) {
    && Inside(raw, t, 0) && MarkAt(t, |raw|) && |raw| + 4 <= e < |t| && t[e] == '\n'
    && (forall i :: |raw| + 4 <= i < e ==> Blank(t[i]))
    && Inside(rest, t, e + 1) && e + 1 + |rest| == |t| && t[0..|raw| + 1] == raw + "\n"
  }

  lemma GapParts(raw: string, blanks: string, rest: string)
    requires Blanks(blanks)
    ensures Gapped(raw + Gap(blanks) + rest, raw, |raw| + 4 + |blanks|, rest)
  {
    var g := Gap(blanks);
    var t, e := raw + g + rest, |raw| + 4 + |blanks|;
    assert g[0] == '\n' && g[1] == '-' && g[2] == '-' && g[3] == '-' && g[4 + |blanks|] == '\n';
    assert forall i :: 0 <= i < |g| ==> t[|raw| + i] == g[i];
    assert t[|raw| + 0] == '\n' && t[|raw| + 1] == '-' && t[|raw| + 2] == '-' && t[|raw| + 3] == '-';
    forall i | |raw| + 4 <= i < e ensures Blank(t[i]) {
      assert t[|raw| + (i - |raw|)] == g[i - |raw|] == blanks[i - |raw| - 4];
    }
    assert t[|raw| + (4 + |blanks|)] == '\n';
  }

  lemma UpToGap(t: string, raw: string, at: nat)
    requires NoSep(raw, 0) && Inside(raw, t, at) && at + |raw| < |t| && t[at + |raw|] == '\n'
    ensures Stretches(t, at, at) == Stretches(t, at, at + |raw| + 1)
  {
    ReadThrough(raw, t, at, 0);
  }

  /** In front of a gap a text is read whole, and what follows as if alone. */
  lemma FirstStretch(t: string, raw: string, e: nat, rest: string, start: nat)
    requires start == 0 && NoSep(raw, start) && Gapped(t, raw, e, rest)
    ensures Stretches(t, start, start) ==
            [Extent(start, |raw| + 1)] + Shifted(Stretches(rest, start, start), e + 1)
  {
    UpToGap(t, raw, start);
    AtGap(t, start, |raw|, e);
    WholeAlike(rest, t, e + 1, start);
  }

  lemma EmitNewline(raw: string)
    ensures Emit(raw + "\n") == Emit(raw)
  {
    TrimNewline(raw);
  }

  lemma FirstText(t: string, raw: string, e: nat, rest: string)
    requires NoSep(raw, 0) && Gapped(t, raw, e, rest)
    ensures Docs(t) == Emit(raw) + Docs(rest)
  {
    FirstStretch(t, raw, e, rest, 0);
    BehindFirst(t, rest, |raw| + 1, e + 1);
    EmitNewline(raw);
  }

  lemma BehindFirst(t: string, rest: string, n: nat, at: nat)
    requires Inside(rest, t, at) && n <= |t|
    requires Stretches(t, 0, 0) == [Extent(0, n)] + Shifted(Stretches(rest, 0, 0), at)
    ensures Docs(t) == Emit(t[0..n]) + Docs(rest)
  {
    StretchesWithin(rest, 0, 0);
    CleanedAlike(rest, t, at, Stretches(rest, 0, 0));
    CleanedHead(t, Extent(0, n), Shifted(Stretches(rest, 0, 0), at));
  }

  /** A separator that opens the stream adds nothing. */
  lemma Opened(blanks: string, rest: string)
    requires Blanks(blanks)
    ensures Docs("---" + blanks + "\n" + rest) == Docs(rest)
  {
    var t, e := "---" + blanks + "\n" + rest, 3 + |blanks|;
    assert t[0] == '-' && t[1] == '-' && t[2] == '-' && t[e] == '\n';
    forall i | 3 <= i < e ensures Blank(t[i]) {
      assert t[i] == blanks[i - 3];
    }
    GapEnd(t, 0, e);
    AtSeparator(t, 0, 0);
    assert Inside(rest, t, e + 1);
    WholeAlike(rest, t, e + 1, 0);
    BehindFirst(t, rest, 0, e + 1);
    assert t[0..0] == "";
  }

  function Emitted(raws: seq<string>): seq<string> {
    if raws == [] then [] else Emit(raws[0]) + Emitted(raws[1..])
  }

  /** Splitting undoes joining with separator lines: what comes out is each text,
      cleaned, in order, without those of nothing but white space. */
  lemma {:induction false} SplitJoined(raws: seq<string>, blanks: seq<string>)
    requires |raws| == |blanks| + 1
    requires (forall r :: r in raws ==> NoSep(r, 0)) && forall b :: b in blanks ==> Blanks(b)
    ensures Docs(JoinRaw(raws, blanks)) == Emitted(raws)
    decreases |raws|
  {
    assert raws[0] in raws;
    if |raws| == 1 {
      LastText(raws[0]);
      assert raws[1..] == [];
      assert Emit(raws[0]) + [] == Emit(raws[0]);
    } else {
      assert blanks[0] in blanks;
      assert forall r :: r in raws[1..] ==> r in raws;
      assert forall b :: b in blanks[1..] ==> b in blanks;
      SplitJoined(raws[1..], blanks[1..]);
      GapParts(raws[0], blanks[0], JoinRaw(raws[1..], blanks[1..]));
      FirstText(JoinRaw(raws, blanks), raws[0], |raws[0]| + 4 + |blanks[0]|, JoinRaw(raws[1..], blanks[1..]));
    }
  }
}
