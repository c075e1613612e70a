/** Template actions are hidden behind numbered placeholders while a chunk is
    read as YAML (internal/adopt/adopt.go:2839-2847, 4263-4276). */
module Masking {
  import opened Seqs
  import opened Text
  import opened Numbers
  import opened Template
  import Comments
  import Names

  /** A text as leftmost matching of actions cuts it: plain text first, then
      each action with the plain text behind it. */
  datatype Chunk = Chunk(action: string, text: string)

  function Source(first: string, chunks: seq<Chunk>): string
    decreases |chunks|
  {
    if chunks == [] then first else first + chunks[0].action + Source(chunks[0].text, chunks[1..])
  }

  const OPEN: string := "__CF_EXPR_"
  const CLOSE: string := "__"

  function Placeholder(i: nat): string {
    OPEN + Names.DecimalNat(i) + CLOSE
  }

  /** The masked text; placeholders are numbered from i. */
  function Masked(first: string, chunks: seq<Chunk>, i: nat): string
    decreases |chunks|
  {
    if chunks == [] then first else first + Placeholder(i) + Masked(chunks[0].text, chunks[1..], i + 1)
  }

  function Actions(chunks: seq<Chunk>): (r: seq<string>)
    ensures |r| == |chunks| && forall i :: 0 <= i < |r| ==> r[i] == chunks[i].action
  {
    seq(|chunks|, i requires 0 <= i < |chunks| => chunks[i].action)
  }

  // ----- where the actions are -----

  datatype Pieces = Pieces(first: string, chunks: seq<Chunk>)

  /** Where the first action of s begins and ends, if there is one: the leftmost
      opening braces and the nearest closing ones behind them. */
  function FirstAction(s: string): (x: Option<Extent>)
    ensures x.Some? ==> x.value.from + 4 <= x.value.to <= |s|
  {
    var i := Find(s, "{{");
    if i < 0 then None
    else
      var j := Find(s[i + 2..], "}}");
      if j < 0 then None else Some(Extent(i, i + j + 4))
  }

  /** The text as the pattern for actions cuts it. */
  function Cut(s: string): Pieces
    decreases |s|
  {
    var x := FirstAction(s);
    if x.None? then Pieces(s, [])
    else
      var rest := Cut(s[x.value.to..]);
      Pieces(s[..x.value.from], [Chunk(s[x.value.from..x.value.to], rest.first)] + rest.chunks)
  }

  /** The pieces put together again are the text. */
  lemma {:induction false} CutWhole(s: string)
    ensures Source(Cut(s).first, Cut(s).chunks) == s
    decreases |s|
  {
    var x := FirstAction(s);
    if x.Some? {
      CutWhole(s[x.value.to..]);
      var c := Cut(s);
      assert c.chunks[1..] == Cut(s[x.value.to..]).chunks;
      assert s == s[..x.value.from] + s[x.value.from..x.value.to] + s[x.value.to..];
    }
  }

  predicate IsComment(action: string) {
    Comments.Matches(action, 0) != []
  }

  /** Comments go; the text around them grows together. */
  function WithoutComments(p: Pieces): Pieces
    decreases |p.chunks|
  {
    if p.chunks == [] then p
    else
      var rest := WithoutComments(Pieces(p.chunks[0].text, p.chunks[1..]));
      if IsComment(p.chunks[0].action) then Pieces(p.first + rest.first, rest.chunks)
      else Pieces(p.first, [Chunk(p.chunks[0].action, rest.first)] + rest.chunks)
  }

  lemma {:induction false} NoComments(p: Pieces)
    requires forall c :: c in p.chunks ==> !IsComment(c.action)
    ensures WithoutComments(p) == p
    decreases |p.chunks|
  {
    if p.chunks != [] {
      assert p.chunks[0] in p.chunks;
      NoComments(Pieces(p.chunks[0].text, p.chunks[1..]));
      assert p.chunks == [p.chunks[0]] + p.chunks[1..];
    }
  }

  /** What is masked of s. */
  function Actual(s: string): Pieces {
    WithoutComments(Cut(s))
  }

  /** The text and table that masking the rest would give, put behind what there is. */
  function Ahead(p: Pieces, masked: string, table: seq<string>): (string, seq<string>) {
    (masked + Masked(p.first, p.chunks, |table|), table + Actions(p.chunks))
  }

  /** One match: a comment goes, any other action becomes a numbered placeholder. */
  method MaskAction(s: string, x: Extent, masked: string, table: seq<string>)
      returns (masked2: string, table2: seq<string>)
    requires FirstAction(s) == Some(x)
    ensures Ahead(Actual(s), masked, table) == Ahead(Actual(s[x.to..]), masked2, table2)
  {
    OneAction(s, masked, table);
    masked2, table2 := masked + s[..x.from], table;
    if !IsComment(s[x.from..x.to]) {
      masked2 := masked2 + Placeholder(|table|);
      table2 := table + [s[x.from..x.to]];
    }
  }

  /** ReplaceAllStringFunc over the actions. */
  method Mask(s: string) returns (masked: string, table: seq<string>)
    ensures masked == Masked(Actual(s).first, Actual(s).chunks, 0) && table == Actions(Actual(s).chunks)
  {
    table := [];
    masked := "";
    var rest := s;
    ghost var goal := Ahead(Actual(s), "", []);
    AllAhead(Actual(s));
    var x := FirstAction(rest);
    while x.Some?
      invariant x == FirstAction(rest)
      invariant Ahead(Actual(rest), masked, table) == goal
      decreases |rest|
    {
      masked, table := MaskAction(rest, x.value, masked, table);
      rest := rest[x.value.to..];
      x := FirstAction(rest);
    }
    NothingAhead(rest, masked, table);
    masked := masked + rest;
  }

  lemma AllAhead(p: Pieces)
    ensures Ahead(p, "", []) == (Masked(p.first, p.chunks, 0), Actions(p.chunks))
  {
    var masked, table := Masked(p.first, p.chunks, 0), Actions(p.chunks);
    assert "" + masked == masked && [] + table == table;
  }

  lemma NothingAhead(rest: string, masked: string, table: seq<string>)
    requires FirstAction(rest).None?
    ensures Ahead(Actual(rest), masked, table) == (masked + rest, table)
  {
    assert Actual(rest) == Pieces(rest, []);
    assert table + [] == table;
  }

  /** What is left to mask of s, after its first action. */
  lemma OneAction(s: string, masked: string, table: seq<string>)
    requires FirstAction(s).Some?
    ensures var x, was := FirstAction(s).value, Actual(s);
            var now, action := Actual(s[x.to..]), s[x.from..x.to];
            var k := |table|;
            if IsComment(action) then
              && masked + Masked(was.first, was.chunks, k) == (masked + s[..x.from]) + Masked(now.first, now.chunks, k)
              && table + Actions(was.chunks) == table + Actions(now.chunks)
            else
              && masked + Masked(was.first, was.chunks, k)
                 == (masked + s[..x.from] + Placeholder(k)) + Masked(now.first, now.chunks, k + 1)
              && table + Actions(was.chunks) == (table + [action]) + Actions(now.chunks)
  {
    var x, was := FirstAction(s).value, Actual(s);
    var now, action := Actual(s[x.to..]), s[x.from..x.to];
    var c := Cut(s);
    assert c.chunks[1..] == Cut(s[x.to..]).chunks;
    if IsComment(action) {
      MaskedTail(s[..x.from] + now.first, now.chunks, |table|);
      MaskedTail(now.first, now.chunks, |table|);
      Assoc(s[..x.from], now.first, Tail(now.chunks, |table|));
      Assoc(masked, s[..x.from], Masked(now.first, now.chunks, |table|));
    } else {
      assert was.chunks[1..] == now.chunks;
      FourParts(masked, s[..x.from], Placeholder(|table|), Masked(now.first, now.chunks, |table| + 1));
      assert Actions(was.chunks) == [action] + Actions(now.chunks);
      Assoc(table, [action], Actions(now.chunks));
    }
  }

  lemma FourParts(a: string, b: string, c: string, d: string)
    ensures a + (b + c + d) == (a + b + c) + d
  {
  }

  /** The masked chunks without the text in front. */
  function Tail(chunks: seq<Chunk>, i: nat): string {
    if chunks == [] then "" else Placeholder(i) + Masked(chunks[0].text, chunks[1..], i + 1)
  }

  lemma MaskedTail(first: string, chunks: seq<Chunk>, i: nat)
    ensures Masked(first, chunks, i) == first + Tail(chunks, i)
  {
    if chunks != [] {
      var x, y := Placeholder(i), Masked(chunks[0].text, chunks[1..], i + 1);
      assert first + x + y == first + (x + y);
    } else {
      assert first + "" == first;
    }
  }

  // ----- finding placeholders again -----

  /** The end of the run of digits at p. */
  function Digits(s: string, p: nat): (n: nat)
    requires p <= |s|
    ensures p <= n <= |s|
    decreases |s| - p
  {
    if p < |s| && Digit(s[p]) then Digits(s, p + 1) else p
  }

  /** Where a placeholder that starts at p ends, or -1: the opening, at least one
      digit, as many as there are, and the closing. */
  function MatchEnd(s: string, p: nat): (e: int)
    requires p <= |s|
    ensures e == -1 || p + |OPEN| + |CLOSE| <= e <= |s|
  {
    if !At(s, p, OPEN) then -1
    else
      var n := Digits(s, p + |OPEN|);
      if n > p + |OPEN| && At(s, n, CLOSE) then n + |CLOSE| else -1
  }

  /** unmaskString: leftmost non-overlapping placeholders are looked up, all
      other text stays; a number beyond the table stays as well. */
  function Unmasked(s: string, p: nat, table: seq<string>): string
    requires p <= |s|
    decreases |s| - p
  {
    if p == |s| then ""
    else
      var e := MatchEnd(s, p);
      if e == -1 then [s[p]] + Unmasked(s, p + 1, table) else Piece(s, p, e, table) + Unmasked(s, e, table)
  }

  /** What a placeholder from p to e is replaced by. */
  function Piece(s: string, p: nat, e: nat, table: seq<string>): string
    requires p + |OPEN| + |CLOSE| <= e <= |s|
  {
    var idx := InBase(s[p + |OPEN|..e - |CLOSE|], 10);
    if idx < |table| then table[idx] else s[p..e]
  }

  method Unmask(s: string, table: seq<string>) returns (r: string)
    ensures r == if table == [] then s else Unmasked(s, 0, table)
  {
    if |table| == 0 {
      return s;
    }
    r := "";
    var p := 0;
    while p < |s|
      invariant p <= |s|
      invariant Unmasked(s, 0, table) == r + Unmasked(s, p, table)
      decreases |s| - p
    {
      var e := MatchEnd(s, p);
      if e == -1 {
        Assoc(r, [s[p]], Unmasked(s, p + 1, table));
        r := r + [s[p]];
        p := p + 1;
      } else {
        var piece := Piece(s, p, e, table);
        Assoc(r, piece, Unmasked(s, e, table));
        r := r + piece;
        p := e;
      }
    }
    assert r + "" == r;
  }

  // ----- the round trip -----

  predicate Free(s: string) {
    forall p :: 0 <= p <= |s| ==> !At(s, p, OPEN)
  }

  lemma {:induction false} NumberOf(i: nat)
    ensures InBase(Names.DecimalNat(i), 10) == i
    decreases i
  {
    var s := Names.DecimalNat(i);
    if i < 10 {
      assert s[..0] == "" && InBase("", 10) == 0;
      DigitOf(i);
    } else {
      assert s[..|s| - 1] == Names.DecimalNat(i / 10) && s[|s| - 1] == Names.DIGITS[i % 10];
      NumberOf(i / 10);
      DigitOf(i % 10);
    }
  }

  lemma DigitOf(i: nat)
    requires i < 10
    ensures DigitValue(Names.DIGITS[i]) == i
  {
    assert Names.DIGITS[0] == '0' && Names.DIGITS[1] == '1' && Names.DIGITS[2] == '2' && Names.DIGITS[3] == '3'
        && Names.DIGITS[4] == '4';
    assert Names.DIGITS[5] == '5' && Names.DIGITS[6] == '6' && Names.DIGITS[7] == '7' && Names.DIGITS[8] == '8'
        && Names.DIGITS[9] == '9';
  }

  lemma {:induction false} DigitsEnd(s: string, p: nat, n: nat)
    requires p <= n <= |s| && (forall i :: p <= i < n ==> Digit(s[i])) && (n == |s| || !Digit(s[n]))
    ensures Digits(s, p) == n
    decreases n - p
  {
    if p < n {
      DigitsEnd(s, p + 1, n);
    }
  }

  lemma Letters()
    ensures |OPEN| == 10 && OPEN[0] == '_' && OPEN[1] == '_' && OPEN[2] == 'C' && OPEN[3] == 'F' && OPEN[4] == '_'
    ensures OPEN[5] == 'E' && OPEN[6] == 'X' && OPEN[7] == 'P' && OPEN[8] == 'R' && OPEN[9] == '_'
    ensures |CLOSE| == 2 && CLOSE[0] == '_' && CLOSE[1] == '_'
  {
  }

  /** Where a placeholder stands it is matched whole. */
  lemma PlaceholderMatches(s: string, p: nat, i: nat)
    requires At(s, p, Placeholder(i))
    ensures MatchEnd(s, p) == p + |Placeholder(i)|
    ensures s[p + |OPEN|..MatchEnd(s, p) - |CLOSE|] == Names.DecimalNat(i)
  {
    var d, whole := Names.DecimalNat(i), Placeholder(i);
    var n := p + |OPEN| + |d|;
    assert whole[..|OPEN|] == OPEN && whole[|OPEN|..|OPEN| + |d|] == d && whole[|OPEN| + |d|..] == CLOSE;
    forall k | 0 <= k < |OPEN| ensures s[p + k] == OPEN[k] {
      assert s[p + k] == whole[k] == whole[..|OPEN|][k];
    }
    forall k | 0 <= k < |d| ensures s[p + |OPEN| + k] == d[k] {
      assert s[p + (|OPEN| + k)] == whole[|OPEN| + k] == whole[|OPEN|..|OPEN| + |d|][k];
    }
    forall k | 0 <= k < |CLOSE| ensures s[n + k] == CLOSE[k] {
      assert s[p + (|OPEN| + |d| + k)] == whole[|OPEN| + |d| + k] == whole[|OPEN| + |d|..][k];
    }
    Letters();
    forall k | p + |OPEN| <= k < n ensures Digit(s[k]) {
      assert s[k] == d[k - p - |OPEN|] && d[k - p - |OPEN|] in d;
    }
    assert s[n] == CLOSE[0];
    DigitsEnd(s, p + |OPEN|, n);
    assert s[p + |OPEN|..n] == d;
  }

  /** No placeholder begins in free text, not even one that would run on into
      what follows, whether the text ends there or a placeholder begins. */
  lemma NoneInside(s: string, text: string, a: nat, p: nat)
    requires At(s, a, text) && Free(text) && a <= p < a + |text|
    requires a + |text| == |s| || At(s, a + |text|, OPEN)
    ensures MatchEnd(s, p) == -1
  {
    Letters();
    var e := a + |text|;
    if p + |OPEN| <= e {
      Within(s, text, a, p);
    } else if e < |s| {
      Straddle(s, p, e);
    }
  }

  lemma Within(s: string, text: string, a: nat, p: nat)
    requires At(s, a, text) && Free(text) && a <= p && p + |OPEN| <= a + |text|
    ensures !At(s, p, OPEN)
  {
    if At(s, p, OPEN) {
      forall k | 0 <= k < |OPEN| ensures text[(p - a) + k] == OPEN[k] {
        assert s[p + k] == OPEN[k] && s[a + ((p - a) + k)] == text[(p - a) + k];
      }
      assert At(text, p - a, OPEN);
    }
  }

  lemma OpensWith(s: string, e: nat, i: nat)
    requires At(s, e, Placeholder(i))
    ensures At(s, e, OPEN)
  {
    var whole := Placeholder(i);
    forall k | 0 <= k < |OPEN| ensures s[e + k] == OPEN[k] {
      assert s[e + k] == whole[k];
    }
  }

  /** The opening cannot overlap itself and still be followed by a digit. */
  lemma Straddle(s: string, p: nat, e: nat)
    requires At(s, e, OPEN) && p < e < p + |OPEN| && p <= |s|
    ensures MatchEnd(s, p) == -1
  {
    Letters();
    if At(s, p, OPEN) {
      assert s[e + 0] == '_' && s[e + 1] == '_' && s[e + 2] == 'C';
      assert s[p + (e - p)] == OPEN[e - p];
      assert e - p == 1 || e - p == 4 || e - p == 9;
      assert e - p != 1 by {
        assert s[p + 2] == OPEN[2] == 'C';
        assert s[e + 1] == OPEN[1];
      }
      assert e - p != 4 by {
        assert s[p + 5] == OPEN[5] == 'E';
        assert s[e + 1] == OPEN[1];
      }
      assert Digits(s, p + |OPEN|) == p + |OPEN| by {
        assert p + |OPEN| == e + 1 && !Digit('_');
      }
    }
  }

  lemma CharStays(s: string, p: nat, table: seq<string>)
    requires p < |s| && MatchEnd(s, p) == -1
    ensures Unmasked(s, p, table) == [s[p]] + Unmasked(s, p + 1, table)
  {
  }

  /** Free text stays; tail is what the rest is unmasked to. */
  lemma {:induction false} TextStays(s: string, text: string, a: nat, p: nat, table: seq<string>, tail: string)
    requires At(s, a, text) && Free(text) && a <= p <= a + |text|
    requires a + |text| == |s| || At(s, a + |text|, OPEN)
    requires Unmasked(s, a + |text|, table) == tail
    ensures Unmasked(s, p, table) == text[p - a..] + tail
    decreases a + |text| - p
  {
    if p < a + |text| {
      TextStays(s, text, a, p + 1, table, tail);
      NoneInside(s, text, a, p);
      CharStays(s, p, table);
      CharAhead(s, text, a, p, tail);
    } else {
      assert text[p - a..] == "" && "" + tail == tail;
    }
  }

  lemma CharAhead(s: string, text: string, a: nat, p: nat, tail: string)
    requires At(s, a, text) && a <= p < a + |text|
    ensures [s[p]] + (text[p + 1 - a..] + tail) == text[p - a..] + tail
  {
    assert s[a + (p - a)] == text[p - a];
    assert text[p - a..] == [text[p - a]] + text[p + 1 - a..];
    Assoc([s[p]], text[p + 1 - a..], tail);
  }

  lemma TextWhole(s: string, text: string, a: nat, table: seq<string>, tail: string)
    requires At(s, a, text) && Free(text) && Unmasked(s, a + |text|, table) == tail
    requires a + |text| == |s| || At(s, a + |text|, OPEN)
    ensures Unmasked(s, a, table) == text + tail
  {
    TextStays(s, text, a, a, table, tail);
    assert text[0..] == text;
  }

  predicate AllFree(first: string, chunks: seq<Chunk>) {
    Free(first) && forall i :: 0 <= i < |chunks| ==> Free(chunks[i].text)
  }

  lemma HeadParts(s: string, first: string, chunks: seq<Chunk>, a: nat, i: nat)
    requires chunks != [] && At(s, a, Masked(first, chunks, i)) && a + |Masked(first, chunks, i)| == |s|
    ensures At(s, a, first) && At(s, a + |first|, Placeholder(i))
    ensures var b := a + |first| + |Placeholder(i)|;
            At(s, b, Masked(chunks[0].text, chunks[1..], i + 1))
                && b + |Masked(chunks[0].text, chunks[1..], i + 1)| == |s|
  {
    var x, y := Placeholder(i), Masked(chunks[0].text, chunks[1..], i + 1);
    var whole := first + x + y;
    forall k | 0 <= k < |first| ensures s[a + k] == first[k] {
      assert s[a + k] == whole[k];
    }
    forall k | 0 <= k < |x| ensures s[a + |first| + k] == x[k] {
      assert s[a + (|first| + k)] == whole[|first| + k];
    }
    forall k | 0 <= k < |y| ensures s[a + |first| + |x| + k] == y[k] {
      assert s[a + (|first| + |x| + k)] == whole[|first| + |x| + k];
    }
  }

  lemma PlaceholderBack(s: string, b: nat, next: nat, i: nat, table: seq<string>)
    requires At(s, b, Placeholder(i)) && i < |table| && next == b + |Placeholder(i)|
    ensures Unmasked(s, b, table) == table[i] + Unmasked(s, next, table)
  {
    PlaceholderMatches(s, b, i);
    MatchReplaced(s, b, next, i, table);
  }

  lemma MatchReplaced(s: string, p: nat, e: nat, i: nat, table: seq<string>)
    requires p < |s| && MatchEnd(s, p) == e && s[p + |OPEN|..e - |CLOSE|] == Names.DecimalNat(i) && i < |table|
    ensures Unmasked(s, p, table) == table[i] + Unmasked(s, e, table)
  {
    NumberOf(i);
    assert Piece(s, p, e, table) == table[i];
  }

  /** The text in front of a placeholder, and the action behind it. */
  lemma ChunkBack(s: string, first: string, a: nat, next: nat, i: nat, table: seq<string>, rest: string)
    requires At(s, a, first) && Free(first) && At(s, a + |first|, Placeholder(i)) && i < |table|
    requires next == a + |first| + |Placeholder(i)| && Unmasked(s, next, table) == rest
    ensures Unmasked(s, a, table) == first + table[i] + rest
  {
    PlaceholderBack(s, a + |first|, next, i, table);
    OpensWith(s, a + |first|, i);
    TextWhole(s, first, a, table, table[i] + rest);
    Assoc(first, table[i], rest);
  }

  lemma LastText(s: string, first: string, a: nat, table: seq<string>)
    requires At(s, a, first) && Free(first) && a + |first| == |s|
    ensures Unmasked(s, a, table) == first
  {
    TextWhole(s, first, a, table, "");
    assert first + "" == first;
  }

  /** From any masked chunk on, unmasking gives back the source text. */
  lemma {:induction false} UnmaskFrom(s: string, first: string, chunks: seq<Chunk>, a: nat, i: nat, table: seq<string>)
    requires At(s, a, Masked(first, chunks, i)) && a + |Masked(first, chunks, i)| == |s| && AllFree(first, chunks)
    requires i <= |table| && table[i..] == Actions(chunks)
    ensures Unmasked(s, a, table) == Source(first, chunks)
    decreases |chunks|
  {
    if chunks == [] {
      LastText(s, first, a, table);
    } else {
      HeadParts(s, first, chunks, a, i);
      ActionsFrom(chunks, i, table);
      var next := a + |first| + |Placeholder(i)|;
      UnmaskFrom(s, chunks[0].text, chunks[1..], next, i + 1, table);
      ChunkBack(s, first, a, next, i, table, Source(chunks[0].text, chunks[1..]));
    }
  }

  lemma ActionsFrom(chunks: seq<Chunk>, i: nat, table: seq<string>)
    requires chunks != [] && i <= |table| && table[i..] == Actions(chunks)
    ensures i < |table| && table[i] == chunks[0].action && table[i + 1..] == Actions(chunks[1..])
  {
    assert table[i] == table[i..][0];
    assert table[i + 1..] == table[i..][1..];
  }

  /** Unmasking undoes masking whatever the actions contain, when the text
      around them is free of the placeholder's opening. */
  lemma UnmaskMasked(first: string, chunks: seq<Chunk>)
    requires AllFree(first, chunks)
    ensures var s, table := Masked(first, chunks, 0), Actions(chunks);
            (if table == [] then s else Unmasked(s, 0, table)) == Source(first, chunks)
  {
    if chunks != [] {
      assert Actions(chunks)[0..] == Actions(chunks);
      UnmaskFrom(Masked(first, chunks, 0), first, chunks, 0, 0, Actions(chunks));
    }
  }

  /** Masking a text and unmasking it gives back the text without its comments,
      and the text itself when there are none. */
  lemma UnmaskText(s: string)
    requires AllFree(Actual(s).first, Actual(s).chunks)
    ensures var p := Actual(s);
            var masked, table := Masked(p.first, p.chunks, 0), Actions(p.chunks);
            (if table == [] then masked else Unmasked(masked, 0, table)) == Source(p.first, p.chunks)
    ensures (forall c :: c in Cut(s).chunks ==> !IsComment(c.action)) ==> Source(Actual(s).first, Actual(s).chunks) == s
  {
    UnmaskMasked(Actual(s).first, Actual(s).chunks);
    if forall c :: c in Cut(s).chunks ==> !IsComment(c.action) {
      NoComments(Cut(s));
      CutWhole(s);
    }
  }
}
