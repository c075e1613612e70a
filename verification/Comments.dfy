/** Removing the comments of a template, right to left
    (internal/adopt/adopt.go:2267-2338). */
module Comments {
  import opened Seqs
  import opened Text

  // ----- where the comment pattern matches -----

  /** The class \s of the pattern, which is without the vertical tab. */
  predicate Space(c: char) {
    c == ' ' || c == '\t' || c == '\r' || c == '\n' || c == 12 as char
  }

  function SkipSpace(s: string, p: nat): (n: nat)
    requires p <= |s|
    ensures p <= n <= |s|
    decreases |s| - p
  {
    if p < |s| && Space(s[p]) then SkipSpace(s, p + 1) else p
  }

  function SkipDash(s: string, p: nat): (n: nat)
    requires p <= |s|
    ensures p <= n <= |s|
  {
    if p < |s| && s[p] == '-' then p + 1 else p
  }

  /** Where the opening of a comment at p ends, or -1: braces, a dash if there
      is one, white space, slash and star. */
  function OpenEnd(s: string, p: nat): (e: int)
    requires p <= |s|
    ensures e == -1 || p + 4 <= e <= |s|
  {
    if !At(s, p, "{{") then -1
    else
      var q := SkipSpace(s, SkipDash(s, p + 2));
      if At(s, q, "/*") then q + 2 else -1
  }

  /** Where a closing at p ends, or -1: star and slash, white space, a dash if
      there is one, braces. */
  function CloseEnd(s: string, p: nat): (e: int)
    requires p <= |s|
    ensures e == -1 || (p + 4 <= e <= |s| && s[e - 1] == '}')
  {
    if !At(s, p, "*/") then -1
    else
      var q := SkipDash(s, SkipSpace(s, p + 2));
      if At(s, q, "}}") then assert s[q + 1] == "}}"[1]; q + 2 else -1
  }

  /** The end of the first closing from p on, or -1. */
  function FirstClose(s: string, p: nat): (e: int)
    requires p <= |s|
    ensures e == -1 || (p + 4 <= e <= |s| && s[e - 1] == '}')
    decreases |s| - p
  {
    if CloseEnd(s, p) != -1 then CloseEnd(s, p) else if p == |s| then -1 else FirstClose(s, p + 1)
  }

  /** The shortest match of the pattern at p, or -1. */
  function MatchEnd(s: string, p: nat): (e: int)
    requires p <= |s|
    ensures e == -1 || (p < e <= |s| && s[e - 1] == '}')
  {
    var open := OpenEnd(s, p);
    if open == -1 then -1 else FirstClose(s, open)
  }

  lemma {:induction false} SkipsTo(s: string, p: nat, q: nat)
    requires p <= q <= |s| && (forall i :: p <= i < q ==> Space(s[i])) && (q < |s| ==> !Space(s[q]))
    ensures SkipSpace(s, p) == q
    decreases q - p
  {
    if p < q {
      SkipsTo(s, p + 1, q);
    }
  }

  lemma {:induction false} ClosesAt(s: string, p: nat, q: nat)
    requires p <= q <= |s| && (forall i :: p <= i < q ==> CloseEnd(s, i) == -1) && CloseEnd(s, q) != -1
    ensures FirstClose(s, p) == CloseEnd(s, q)
    decreases q - p
  {
    if p < q {
      ClosesAt(s, p + 1, q);
    }
  }

  lemma OpensTo(s: string, p: nat, q: nat)
    requires p + 2 <= q && At(s, p, "{{") && At(s, q, "/*")
    requires var d := if s[p + 2] == '-' then p + 3 else p + 2; d <= q && forall i :: d <= i < q ==> Space(s[i])
    ensures OpenEnd(s, p) == q + 2
  {
    assert s[q] == "/*"[0];
    SkipsTo(s, SkipDash(s, p + 2), q);
  }

  lemma ClosesTo(s: string, p: nat, q: nat, dashed: bool)
    requires At(s, p, "*/") && p + 2 <= q < |s| && forall i :: p + 2 <= i < q ==> Space(s[i])
    requires if dashed then s[q] == '-' && At(s, q + 1, "}}") else At(s, q, "}}")
    ensures CloseEnd(s, p) == if dashed then q + 3 else q + 2
  {
    assert !dashed ==> s[q] == "}}"[0];
    SkipsTo(s, p + 2, q);
  }

  /** A comment is matched whole: braces, a dash and white space or neither, the
      text up to its first closing, and the same in reverse. */
  lemma CommentMatched(s: string, p: nat, open: nat, close: nat, q: nat, dashed: bool)
    requires p + 2 <= open && At(s, p, "{{") && At(s, open, "/*")
    requires var d := if s[p + 2] == '-' then p + 3 else p + 2; d <= open && forall i :: d <= i < open ==> Space(s[i])
    requires open + 2 <= close && At(s, close, "*/")
    requires close + 2 <= q < |s| && forall i :: close + 2 <= i < q ==> Space(s[i])
    requires if dashed then s[q] == '-' && At(s, q + 1, "}}") else At(s, q, "}}")
    requires forall i :: open + 2 <= i < close ==> CloseEnd(s, i) == -1
    ensures MatchEnd(s, p) == if dashed then q + 3 else q + 2
  {
    OpensTo(s, p, open);
    ClosesTo(s, close, q, dashed);
    ClosesAt(s, open + 2, close);
  }

  /** The leftmost matches from p on that do not overlap. */
  function Matches(s: string, p: nat): (spans: seq<Extent>)
    requires p <= |s|
    ensures CommentsOf(s, spans) && forall x :: x in spans ==> p <= x.from
    decreases |s| - p
  {
    if p == |s| then []
    else
      var e := MatchEnd(s, p);
      if e == -1 then Matches(s, p + 1) else MatchFirst(s, p, e, Matches(s, e))
  }

  function MatchFirst(s: string, p: nat, e: nat, rest: seq<Extent>): (spans: seq<Extent>)
    requires p < e <= |s| && s[e - 1] == '}' && CommentsOf(s, rest) && forall x :: x in rest ==> e <= x.from
    ensures spans == [Extent(p, e)] + rest && CommentsOf(s, spans) && forall x :: x in spans ==> p <= x.from
  {
    [Extent(p, e)] + rest
  }

  /** The comments of t: in order, apart, each up to a closing brace. */
  predicate CommentsOf(t: string, spans: seq<Extent>) {
    && (forall i :: 0 <= i < |spans| ==> spans[i].from < spans[i].to <= |t| && t[spans[i].to - 1] == '}')
    && (forall i, j :: 0 <= i < j < |spans| ==> spans[i].to <= spans[j].from)
  }

  method FindAll(s: string) returns (spans: seq<Extent>)
    ensures spans == Matches(s, 0)
  {
    spans := [];
    var p := 0;
    while p < |s|
      invariant p <= |s| && Matches(s, 0) == spans + Matches(s, p)
      decreases |s| - p
    {
      var e := MatchEnd(s, p);
      if e == -1 {
        p := p + 1;
      } else {
        Assoc(spans, [Extent(p, e)], Matches(s, e));
        spans := spans + [Extent(p, e)];
        p := e;
      }
    }
  }

  function Solid(s: string): string {
    if s == "" then "" else Solid(s[..|s| - 1]) + if White(s[|s| - 1]) then "" else [s[|s| - 1]]
  }

  lemma {:induction false} SolidTwo(a: string, b: string)
    ensures Solid(a + b) == Solid(a) + Solid(b)
  {
    if b == "" {
      assert a + b == a;
    } else {
      var init := b[..|b| - 1];
      assert (a + b)[..|a + b| - 1] == a + init && (a + b)[|a + b| - 1] == b[|b| - 1];
      SolidTwo(a, init);
    }
  }

  predicate Blank(s: string, from: nat, to: nat) {
    to <= |s| && forall i :: from <= i < to ==> White(s[i])
  }

  lemma {:induction false} BlankIsNothing(s: string)
    requires Blank(s, 0, |s|)
    ensures Solid(s) == ""
  {
    if s != "" {
      BlankIsNothing(s[..|s| - 1]);
    }
  }

  // ----- the line around a comment -----

  /** Where the line that p lies in starts. */
  function LineStart(s: string, p: nat): (n: nat)
    requires p <= |s|
    ensures n <= p && (n > 0 ==> s[n - 1] == '\n')
  {
    if p == 0 || s[p - 1] == '\n' then p else LineStart(s, p - 1)
  }

  /** Where the blanks and tabs in front of p, back to lo, begin. */
  function TrimBack(s: string, lo: nat, p: nat): (n: nat)
    requires lo <= p <= |s|
    ensures lo <= n <= p && forall i :: n <= i < p ==> s[i] == ' ' || s[i] == '\t'
    ensures n > lo ==> s[n - 1] != ' ' && s[n - 1] != '\t'
  {
    if p > lo && (s[p - 1] == ' ' || s[p - 1] == '\t') then TrimBack(s, lo, p - 1) else p
  }

  predicate LineBlank(s: string, from: nat, to: nat) {
    to <= |s| && forall i :: from <= i < to ==> s[i] == ' ' || s[i] == '\t' || s[i] == '\r'
  }

  /** Cutting from a to b takes the comment and nothing but white space around
      it, and nothing in front of floor. */
  ghost predicate CleanCut(s: string, start: nat, end: nat, floor: nat, a: nat, b: nat) {
    floor <= a <= start <= end <= b <= |s| && Blank(s, a, start) && Blank(s, end, b)
  }

  /** In front of the line break that ends at p. */
  function BeforeBreak(s: string, p: nat): (n: nat)
    requires p <= |s|
    ensures n <= p
  {
    if p == 0 || s[p - 1] != '\n' then p
    else if p > 1 && s[p - 2] == '\r' then p - 2
    else p - 1
  }

  /** What goes with the comment from start to end: its whole line when it has
      it for itself, the blanks in front of it when it ends its line. */
  function CutAt(s: string, start: nat, end: nat): (x: Extent)
    requires start <= end <= |s|
    ensures x.from <= start && end <= x.to <= |s|
  {
    var lineStart, lineEnd := LineStart(s, start), LineEnd(s, end);
    var trimmed := TrimBack(s, lineStart, start);
    if !LineBlank(s, end, lineEnd) then Extent(start, end)
    else if trimmed > lineStart then Extent(trimmed, end)
    else if lineEnd < |s| then Extent(lineStart, lineEnd + 1)
    else Extent(BeforeBreak(s, lineStart), lineEnd)
  }

  function CutOut(s: string, start: nat, end: nat): string
    requires start <= end <= |s|
  {
    var x := CutAt(s, start, end);
    s[..x.from] + s[x.to..]
  }

  method CutPoints(s: string, start: nat, end: nat) returns (a: nat, b: nat)
    requires start <= end <= |s|
    ensures Extent(a, b) == CutAt(s, start, end)
  {
    var lineStart, lineEnd := LineStart(s, start), LineEnd(s, end);
    var trimmed := TrimBack(s, lineStart, start);
    var isBeforeBlank := trimmed == lineStart;
    var isAfterBlank := LineBlank(s, end, lineEnd);
    if isBeforeBlank && isAfterBlank {
      a, b := lineStart, lineEnd;
      if lineEnd < |s| {
        b := b + 1;
      } else if a > 0 && s[a - 1] == '\n' {
        a := a - 1;
        if a > 0 && s[a - 1] == '\r' {
          a := a - 1;
        }
      }
    } else {
      a, b := start, end;
      if isAfterBlank {
        a := trimmed;
      }
    }
  }

  /** A cut takes the comment and nothing but white space around it. */
  lemma CutClean(s: string, start: nat, end: nat, floor: nat)
    requires floor <= start < end <= |s| && (floor > 0 ==> !White(s[floor - 1]))
    ensures var x := CutAt(s, start, end); CleanCut(s, start, end, floor, x.from, x.to)
  {
    var lineStart := LineStart(s, start);
    if TrimBack(s, lineStart, start) == lineStart {
      assert lineStart >= floor by {
        assert forall i :: lineStart <= i < start ==> s[i] == ' ' || s[i] == '\t';
      }
    }
  }

  // ----- what a cut leaves of the lines -----

  lemma {:induction false} LineStartIs(s: string, n: nat, p: nat)
    requires n <= p <= |s| && (n == 0 || s[n - 1] == '\n') && forall i :: n <= i < p ==> s[i] != '\n'
    ensures LineStart(s, p) == n
    decreases p
  {
    if p > n {
      LineStartIs(s, n, p - 1);
    }
  }

  lemma {:induction false} LineEndIs(s: string, p: nat, n: nat)
    requires p <= n <= |s| && (n == |s| || s[n] == '\n') && forall i :: p <= i < n ==> s[i] != '\n'
    ensures LineEnd(s, p) == n
    decreases n - p
  {
    if p < n {
      LineEndIs(s, p + 1, n);
    }
  }

  predicate Blanks(s: string) {
    forall c :: c in s ==> c == ' ' || c == '\t'
  }

  predicate BlanksOrReturn(s: string) {
    forall c :: c in s ==> c == ' ' || c == '\t' || c == '\r'
  }

  /** The text so far ends a line. */
  predicate AtLine(s: string) {
    s == "" || s[|s| - 1] == '\n'
  }

  predicate BreakNext(s: string) {
    s == "" || s[0] == '\n'
  }

  /** What stands around the comment from start to end: whole lines, the rest of
      its line in front of it, the rest of its line behind it, what follows. */
  predicate Around(s: string, start: nat, end: nat, pre: string, front: string, back: string, post: string) {
    && start == |pre| + |front| && start <= end && end + |back| + |post| == |s|
    && s[..|pre|] == pre && s[|pre|..start] == front && s[end..end + |back|] == back && s[end + |back|..] == post
    && AtLine(pre) && '\n' !in front && '\n' !in back && BreakNext(post)
  }

  lemma LineIs(s: string, start: nat, end: nat, pre: string, front: string, back: string, post: string)
    requires Around(s, start, end, pre, front, back, post)
    ensures LineStart(s, start) == |pre| && LineEnd(s, end) == end + |back|
  {
    forall i | |pre| <= i < start ensures s[i] != '\n' {
      assert s[i] == front[i - |pre|];
    }
    forall i | end <= i < end + |back| ensures s[i] != '\n' {
      assert s[i] == back[i - end];
    }
    assert pre != "" ==> s[|pre| - 1] == pre[|pre| - 1];
    LineStartIs(s, |pre|, start);
    assert post != "" ==> s[end + |back|] == post[0];
    LineEndIs(s, end, end + |back|);
  }

  lemma BlankBack(s: string, end: nat, back: string)
    requires end + |back| <= |s| && s[end..end + |back|] == back
    ensures LineBlank(s, end, end + |back|) <==> BlanksOrReturn(back)
  {
    assert forall i :: 0 <= i < |back| ==> back[i] == s[end + i];
    if BlanksOrReturn(back) {
      forall i | end <= i < end + |back| ensures s[i] == ' ' || s[i] == '\t' || s[i] == '\r' {
        assert s[i] == back[i - end] && back[i - end] in back;
      }
    }
  }

  lemma TrimIs(s: string, lo: nat, n: nat, p: nat)
    requires lo <= n <= p <= |s| && (forall i :: n <= i < p ==> s[i] == ' ' || s[i] == '\t')
    requires n > lo ==> s[n - 1] != ' ' && s[n - 1] != '\t'
    ensures TrimBack(s, lo, p) == n
  {
  }

  lemma BlankFront(s: string, at: nat, x: string, blanks: string)
    requires at + |x| + |blanks| <= |s| && s[at..at + |x| + |blanks|] == x + blanks && Blanks(blanks)
    requires x != "" ==> !Blanks(x[|x| - 1..])
    ensures TrimBack(s, at, at + |x| + |blanks|) == at + |x|
  {
    var n := at + |x|;
    forall i | n <= i < n + |blanks| ensures s[i] == ' ' || s[i] == '\t' {
      assert s[i] == (x + blanks)[i - at] == blanks[i - n] && blanks[i - n] in blanks;
    }
    if x != "" {
      assert s[n - 1] == (x + blanks)[|x| - 1] == x[|x| - 1];
      assert x[|x| - 1..] == [x[|x| - 1]];
    }
    TrimIs(s, at, n, n + |blanks|);
  }

  /** A comment with a line, or lines, for itself goes with all of them. */
  lemma OwnLineGone(s: string, start: nat, end: nat, pre: string, front: string, back: string, post: string)
    requires Around(s, start, end, pre, front, back, post) && post != ""
    requires Blanks(front) && BlanksOrReturn(back)
    ensures CutOut(s, start, end) == pre + post[1..]
  {
    LineIs(s, start, end, pre, front, back, post);
    BlankBack(s, end, back);
    assert "" + front == front;
    BlankFront(s, |pre|, "", front);
  }

  /** On the last line it goes with the line break in front. */
  lemma LastLineGone(s: string, start: nat, end: nat, head: string, br: string, front: string, back: string)
    requires Around(s, start, end, head + br, front, back, "")
    requires br == "\n" || br == "\r\n" || (br == "" && head == "")
    requires br == "\n" && head != "" ==> head[|head| - 1] != '\r'
    requires Blanks(front) && BlanksOrReturn(back)
    ensures CutOut(s, start, end) == head
  {
    var pre := head + br;
    LineIs(s, start, end, pre, front, back, "");
    BlankBack(s, end, back);
    assert "" + front == front;
    BlankFront(s, |pre|, "", front);
    assert s[..|head|] == head by {
      assert s[..|pre|][..|head|] == head;
    }
    BreakFront(s, head, br);
  }

  lemma BreakFront(s: string, head: string, br: string)
    requires head + br <= s
    requires br == "\n" || br == "\r\n" || (br == "" && head == "")
    requires br == "\n" && head != "" ==> head[|head| - 1] != '\r'
    ensures BeforeBreak(s, |head + br|) == |head|
  {
    var pre := head + br;
    assert forall i :: 0 <= i < |pre| ==> s[i] == pre[i];
    assert forall i :: 0 <= i < |br| ==> pre[|head| + i] == br[i];
  }

  /** At the end of a line it goes with the blanks in front of it. */
  lemma TailGone(s: string, start: nat, end: nat, pre: string, x: string, blanks: string, back: string, post: string)
    requires Around(s, start, end, pre, x + blanks, back, post)
    requires x != "" && !Blanks(x[|x| - 1..]) && Blanks(blanks) && BlanksOrReturn(back)
    ensures CutOut(s, start, end) == pre + x + (back + post)
  {
    LineIs(s, start, end, pre, x + blanks, back, post);
    BlankBack(s, end, back);
    BlankFront(s, |pre|, x, blanks);
    assert s[end..] == back + post;
    assert s[..|pre| + |x|] == pre + x by {
      assert s[|pre|..start][..|x|] == x;
    }
  }

  /** In front of something on its line only the comment goes. */
  lemma OnlyCommentGone(s: string, start: nat, end: nat, pre: string, front: string, back: string, post: string)
    requires Around(s, start, end, pre, front, back, post) && !BlanksOrReturn(back)
    ensures CutOut(s, start, end) == pre + front + (back + post)
  {
    LineIs(s, start, end, pre, front, back, post);
    BlankBack(s, end, back);
    assert s[end..] == back + post && s[..start] == pre + front;
  }

  // ----- what is kept -----

  /** The gap in front of comment i; the last gap is behind all comments. */
  function Gap(t: string, spans: seq<Extent>, i: nat): Extent
    requires i <= |spans|
  {
    Extent(if i == 0 then 0 else spans[i - 1].to, if i == |spans| then |t| else spans[i].from)
  }

  /** A part of a gap that has lost only white space at its ends. */
  predicate Trims(t: string, gap: Extent, keep: Extent) {
    && gap.from <= keep.from <= keep.to <= gap.to <= |t|
    && Blank(t, gap.from, keep.from) && Blank(t, keep.to, gap.to)
  }

  /** One kept part for each gap from i on. */
  predicate KeepsFrom(t: string, spans: seq<Extent>, i: nat, keeps: seq<Extent>)
    requires i <= |spans|
    decreases |keeps|
  {
    && keeps != [] && Trims(t, Gap(t, spans, i), keeps[0])
    && if i == |spans| then |keeps| == 1 && keeps[0].to == |t| else KeepsFrom(t, spans, i + 1, keeps[1..])
  }

  function Part(t: string, x: Extent): string {
    if x.from <= x.to <= |t| then t[x.from..x.to] else ""
  }

  function Kept(t: string, keeps: seq<Extent>): string {
    if keeps == [] then "" else Part(t, keeps[0]) + Kept(t, keeps[1..])
  }

  lemma TrimFront(t: string, gap: Extent, k: Extent, n: nat)
    requires Trims(t, gap, k) && n <= |Part(t, k)| && Blank(Part(t, k), 0, n)
    ensures Trims(t, gap, Extent(k.from + n, k.to))
    ensures Part(t, Extent(k.from + n, k.to)) == Part(t, k)[n..]
  {
    assert forall j :: 0 <= j < n ==> t[k.from + j] == Part(t, k)[j];
  }

  lemma BlankParts(a: string, b: string, n: nat)
    requires n <= |a + b| && Blank(a + b, 0, n)
    ensures if n <= |a| then Blank(a, 0, n) && (a + b)[n..] == a[n..] + b
            else Blank(a, 0, |a|) && Blank(b, 0, n - |a|) && (a + b)[n..] == b[n - |a|..]
  {
    assert forall j :: 0 <= j < |a| ==> (a + b)[j] == a[j];
    assert forall j :: 0 <= j < |b| ==> (a + b)[|a| + j] == b[j];
  }

  /** Taking white space off the front trims the kept parts further. */
  lemma {:induction false} DropBlank(t: string, spans: seq<Extent>, i: nat, keeps: seq<Extent>, n: nat)
      returns (rest: seq<Extent>)
    requires i <= |spans| && KeepsFrom(t, spans, i, keeps)
    requires n <= |Kept(t, keeps)| && Blank(Kept(t, keeps), 0, n)
    ensures KeepsFrom(t, spans, i, rest) && Kept(t, rest) == Kept(t, keeps)[n..]
    decreases |keeps|
  {
    var k, tail := keeps[0], keeps[1..];
    BlankParts(Part(t, k), Kept(t, tail), n);
    if n <= |Part(t, k)| {
      TrimFront(t, Gap(t, spans, i), k, n);
      rest := [Extent(k.from + n, k.to)] + tail;
      assert rest[1..] == tail;
    } else {
      var more := DropBlank(t, spans, i + 1, tail, n - |Part(t, k)|);
      TrimFront(t, Gap(t, spans, i), k, |Part(t, k)|);
      rest := [Extent(k.to, k.to)] + more;
      assert rest[1..] == more;
    }
  }

  /** Up to the comments still to be removed the text is untouched. */
  ghost predicate Stripped(t: string, spans: seq<Extent>, i: nat, cur: string, keeps: seq<Extent>)
    requires i <= |spans|
  {
    && KeepsFrom(t, spans, i, keeps) && keeps[0].from == Gap(t, spans, i).from
    && cur == t[..keeps[0].from] + Kept(t, keeps)
  }

  lemma StrippedStep(t: string, spans: seq<Extent>, i: nat, cur: string, keeps: seq<Extent>, a: nat, b: nat)
      returns (more: seq<Extent>)
    requires CommentsOf(t, spans) && 0 < i <= |spans| && Stripped(t, spans, i, cur, keeps)
    requires CleanCut(cur, spans[i - 1].from, spans[i - 1].to, Gap(t, spans, i - 1).from, a, b)
    ensures Stripped(t, spans, i - 1, cur[..a] + cur[b..], more)
  {
    var floor, end := Gap(t, spans, i - 1).from, spans[i - 1].to;
    CutTail(t, end, cur, Kept(t, keeps), b);
    var rest := DropBlank(t, spans, i, keeps, b - end);
    more := [Extent(floor, a)] + rest;
    CutHead(t, end, cur, Kept(t, keeps), floor, a, spans[i - 1].from);
    KeepsCons(t, spans, i, a, rest);
    Assoc(t[..floor], t[floor..a], Kept(t, rest));
  }

  lemma KeepsCons(t: string, spans: seq<Extent>, i: nat, a: nat, rest: seq<Extent>)
    requires CommentsOf(t, spans) && 0 < i <= |spans| && KeepsFrom(t, spans, i, rest)
    requires Gap(t, spans, i - 1).from <= a <= spans[i - 1].from && Blank(t, a, spans[i - 1].from)
    ensures var k := Extent(Gap(t, spans, i - 1).from, a);
            KeepsFrom(t, spans, i - 1, [k] + rest) && Kept(t, [k] + rest) == t[k.from..a] + Kept(t, rest)
  {
    var k := Extent(Gap(t, spans, i - 1).from, a);
    assert ([k] + rest)[1..] == rest && ([k] + rest)[0] == k;
    assert Trims(t, Gap(t, spans, i - 1), k);
  }

  lemma CutTail(t: string, end: nat, cur: string, tail: string, b: nat)
    requires end <= |t| && cur == t[..end] + tail && end <= b <= |cur| && Blank(cur, end, b)
    ensures cur[b..] == tail[b - end..] && Blank(tail, 0, b - end)
  {
    assert forall j :: 0 <= j < |tail| ==> cur[end + j] == tail[j];
  }

  lemma CutHead(t: string, end: nat, cur: string, tail: string, floor: nat, a: nat, start: nat)
    requires floor <= a <= start <= end <= |t| && cur == t[..end] + tail && Blank(cur, a, start)
    ensures cur[..a] == t[..floor] + t[floor..a] && Blank(t, a, start)
  {
    assert forall j :: 0 <= j < end ==> cur[j] == t[j];
  }

  lemma FloorSolid(t: string, spans: seq<Extent>, i: nat, cur: string, keeps: seq<Extent>)
    requires CommentsOf(t, spans) && 0 < i <= |spans| && Stripped(t, spans, i, cur, keeps)
    ensures var floor := Gap(t, spans, i - 1).from;
            floor <= spans[i - 1].from < spans[i - 1].to <= |cur| && (floor > 0 ==> !White(cur[floor - 1]))
  {
    var floor, end := Gap(t, spans, i - 1).from, spans[i - 1].to;
    assert forall j :: 0 <= j < end ==> cur[j] == t[j];
    if i > 1 {
      assert spans[i - 2].to <= spans[i - 1].from && t[floor - 1] == '}';
    }
  }

  ghost predicate Reached(t: string, spans: seq<Extent>, i: nat, cur: string)
    requires i <= |spans|
  {
    exists keeps :: Stripped(t, spans, i, cur, keeps)
  }

  /** One round: the last comment still there is cut out of the text. */
  lemma CutReached(t: string, spans: seq<Extent>, i: nat, cur: string)
    requires CommentsOf(t, spans) && 0 < i <= |spans| && Reached(t, spans, i, cur)
    ensures spans[i - 1].from <= spans[i - 1].to <= |cur|
    ensures Reached(t, spans, i - 1, CutOut(cur, spans[i - 1].from, spans[i - 1].to))
  {
    var keeps :| Stripped(t, spans, i, cur, keeps);
    FloorSolid(t, spans, i, cur, keeps);
    CutClean(cur, spans[i - 1].from, spans[i - 1].to, Gap(t, spans, i - 1).from);
    var x := CutAt(cur, spans[i - 1].from, spans[i - 1].to);
    var more := StrippedStep(t, spans, i, cur, keeps, x.from, x.to);
  }

  /** The text with its comments from the i-th on cut out, the last one first. */
  function Uncommented(t: string, spans: seq<Extent>, i: nat): (r: string)
    requires CommentsOf(t, spans) && i <= |spans|
    ensures Reached(t, spans, i, r)
    decreases |spans| - i
  {
    if i == |spans| then
      Untouched(t, spans);
      t
    else
      var cur := Uncommented(t, spans, i + 1);
      CutReached(t, spans, i + 1, cur);
      CutOut(cur, spans[i].from, spans[i].to)
  }

  lemma Untouched(t: string, spans: seq<Extent>)
    requires CommentsOf(t, spans)
    ensures Reached(t, spans, |spans|, t)
  {
    var keeps := [Gap(t, spans, |spans|)];
    assert keeps[1..] == [] && Kept(t, keeps) == t[keeps[0].from..] + "";
    assert t[..keeps[0].from] + t[keeps[0].from..] == t;
    assert Stripped(t, spans, |spans|, t, keeps);
  }

  /** What is left has lost only white space beside comments. */
  ghost predicate Leaves(t: string, spans: seq<Extent>, r: string) {
    exists keeps: seq<Extent> :: KeepsFrom(t, spans, 0, keeps) && keeps[0].from == 0 && r == Kept(t, keeps)
  }

  /** Of the text around the comments nothing goes but white space beside them. */
  lemma StripLeaves(t: string)
    ensures Leaves(t, Matches(t, 0), Uncommented(t, Matches(t, 0), 0))
  {
    var spans := Matches(t, 0);
    var cur := Uncommented(t, spans, 0);
    var keeps :| Stripped(t, spans, 0, cur, keeps);
    assert cur == Kept(t, keeps);
  }

  /** stripGoTemplateComments: every comment is cut out, the last one first; what
      is only white space then goes altogether. */
  method Strip(t: string) returns (r: string)
    ensures var left := Uncommented(t, Matches(t, 0), 0);
            r == if Matches(t, 0) != [] && Blank(left, 0, |left|) then "" else left
  {
    var spans := FindAll(t);
    if |spans| == 0 {
      return t;
    }
    var tmpl := t;
    var i := |spans|;
    while i > 0
      invariant 0 <= i <= |spans| && tmpl == Uncommented(t, spans, i)
    {
      i := i - 1;
      CutReached(t, spans, i + 1, tmpl);
      var a, b := CutPoints(tmpl, spans[i].from, spans[i].to);
      tmpl := tmpl[..a] + tmpl[b..];
    }
    r := tmpl;
    var white := AllWhite(r);
    if white {
      r := "";
    }
  }

  method AllWhite(s: string) returns (white: bool)
    ensures white <==> Blank(s, 0, |s|)
  {
    for i := 0 to |s|
      invariant forall j :: 0 <= j < i ==> White(s[j])
    {
      if !White(s[i]) {
        return false;
      }
    }
    return true;
  }

  // ----- what that means for the characters that are not white space -----

  /** The text of the gaps from i on. */
  function Outside(t: string, spans: seq<Extent>, i: nat): string
    requires CommentsOf(t, spans) && i <= |spans|
    decreases |spans| - i
  {
    var g := Gap(t, spans, i);
    t[g.from..g.to] + if i == |spans| then "" else Outside(t, spans, i + 1)
  }

  /** The characters kept that are not white space are exactly those outside the
      comments, in order. */
  lemma {:induction false} KeptSolid(t: string, spans: seq<Extent>, i: nat, keeps: seq<Extent>)
    requires CommentsOf(t, spans) && i <= |spans| && KeepsFrom(t, spans, i, keeps)
    ensures Solid(Kept(t, keeps)) == Solid(Outside(t, spans, i))
    decreases |keeps|
  {
    var g, k := Gap(t, spans, i), keeps[0];
    var rest := if i == |spans| then "" else Outside(t, spans, i + 1);
    assert Solid(rest) == Solid(Kept(t, keeps[1..])) by {
      if i < |spans| {
        KeptSolid(t, spans, i + 1, keeps[1..]);
      } else {
        assert keeps[1..] == [];
      }
    }
    TrimSolid(t, g, k);
    SolidTwo(t[g.from..g.to], rest);
    SolidTwo(Part(t, k), Kept(t, keeps[1..]));
    assert Outside(t, spans, i) == t[g.from..g.to] + rest;
    assert Kept(t, keeps) == Part(t, k) + Kept(t, keeps[1..]);
  }

  lemma TrimSolid(t: string, g: Extent, k: Extent)
    requires Trims(t, g, k)
    ensures Solid(t[g.from..g.to]) == Solid(Part(t, k))
  {
    var front, keep, back := t[g.from..k.from], t[k.from..k.to], t[k.to..g.to];
    assert t[g.from..g.to] == front + (keep + back);
    SolidTwo(front, keep + back);
    SolidTwo(keep, back);
    BlankIsNothing(front);
    BlankIsNothing(back);
  }

  /** The same of what Strip leaves. */
  lemma LeavesSolid(t: string, r: string)
    requires Leaves(t, Matches(t, 0), r)
    ensures Solid(r) == Solid(Outside(t, Matches(t, 0), 0))
  {
    var spans := Matches(t, 0);
    var keeps: seq<Extent> :| KeepsFrom(t, spans, 0, keeps) && keeps[0].from == 0 && r == Kept(t, keeps);
    KeptSolid(t, spans, 0, keeps);
  }
}
