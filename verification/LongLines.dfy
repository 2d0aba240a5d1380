/** How many lines a text with long lines counts: a line for every newline and one more for every 78 bytes between
    two, but where a blank line follows after a line was wrapped. */
module LongLines {
  import opened Streams
  import opened TextExtraction

  /** The lengths of the pieces between newlines. */
  function Pieces(text: seq<byte>): (ps: seq<nat>)
    ensures ps != []
  {
    if text == [] then [0]
    else
      var ps := Pieces(text[..|text| - 1]);
      if text[|text| - 1] == NEWLINE then ps + [0] else ps[..|ps| - 1] + [ps[|ps| - 1] + 1]
  }

  function Sum(ps: seq<nat>): nat {
    if ps == [] then 0 else Sum(ps[..|ps| - 1]) + ps[|ps| - 1]
  }

  /** How often pieces are wrapped at 78 bytes. */
  function WrapsOf(ps: seq<nat>): nat {
    if ps == [] then 0 else WrapsOf(ps[..|ps| - 1]) + ps[|ps| - 1] / 78
  }

  function Wraps(text: seq<byte>): nat {
    WrapsOf(Pieces(text))
  }

  function LastPiece(text: seq<byte>): nat {
    Pieces(text)[|Pieces(text)| - 1]
  }

  /** The pieces and the newlines between them are the text. */
  lemma {:induction false} PiecesFill(text: seq<byte>)
    ensures |Pieces(text)| == Newlines(text) + 1
    ensures Sum(Pieces(text)) + Newlines(text) == |text|
  {
    if text == [] {
      assert [0][..0] == [];
    } else {
      PiecesFill(text[..|text| - 1]);
      var ps := Pieces(text[..|text| - 1]);
      assert (ps + [0])[..|ps|] == ps;
      assert (ps[..|ps| - 1] + [ps[|ps| - 1] + 1])[..|ps| - 1] == ps[..|ps| - 1];
    }
  }

  lemma OneMorePiece(ps: seq<nat>, last: nat)
    ensures WrapsOf(ps + [last]) == WrapsOf(ps) + last / 78
  {
    assert (ps + [last])[..|ps|] == ps;
  }

  lemma OneMoreByteWraps(text: seq<byte>, c: byte)
    ensures LastPiece(text + [c]) == if c == NEWLINE then 0 else LastPiece(text) + 1
    ensures Wraps(text + [c])
         == Wraps(text) + if c != NEWLINE && (LastPiece(text) + 1) % 78 == 0 then 1 else 0
  {
    assert (text + [c])[..|text|] == text;
    var ps := Pieces(text);
    var n := |ps| - 1;
    if c == NEWLINE {
      OneMorePiece(ps, 0);
    } else {
      assert ps == ps[..n] + [ps[n]];
      OneMorePiece(ps[..n], ps[n]);
      OneMorePiece(ps[..n], ps[n] + 1);
      OneMoreWrap(ps[n]);
    }
  }

  lemma OneMoreWrap(piece: nat)
    ensures (piece + 1) / 78 == piece / 78 + if (piece + 1) % 78 == 0 then 1 else 0
  {
  }

  /** No newline is seen behind a newline, be it that there are no blank lines or that the lookahead misses them. */
  predicate NoBlankSeen(text: seq<byte>, peeks: seq<byte>) {
    forall k :: 0 <= k < |text| && k < |peeks| && text[k] == NEWLINE ==> peeks[k] != NEWLINE
  }

  lemma LineOfSpan(chars: nat, piece: nat)
    requires chars == piece % 78
    ensures chars + 1 >= 78 <==> (piece + 1) % 78 == 0
    ensures chars + 1 < 78 ==> (piece + 1) % 78 == chars + 1
  {
  }

  /** As long as no blank line is seen, a text counts a line for each newline and one for each 78 bytes of the pieces
      between them; a wrap is remembered from the first one on. */
  lemma {:induction false} CountsNewlinesAndWraps(text: seq<byte>, peeks: seq<byte>)
    requires |text| == |peeks| && NoBlankSeen(text, peeks)
    ensures var l := CountLines(text, peeks);
            && l.total == Newlines(text) + Wraps(text)
            && l.chars == LastPiece(text) % 78
            && (l.forcedWrap <==> Wraps(text) > 0)
  {
    if text == [] {
      OneMorePiece([], 0);
      assert [] + [0] == [0];
    } else {
      var front, c := text[..|text| - 1], text[|text| - 1];
      assert text == front + [c];
      CountsNewlinesAndWraps(front, peeks[..|text| - 1]);
      OneMoreByteWraps(front, c);
      LineOfSpan(CountLines(front, peeks[..|text| - 1]).chars, LastPiece(front));
    }
  }

  // ----- blank lines -----

  lemma TwoMoreBytes(text: seq<byte>, peeks: seq<byte>, c: byte, d: byte, p: byte, q: byte)
    requires |text| == |peeks|
    ensures CountLines(text + [c, d], peeks + [p, q]) == CountByte(CountByte(CountLines(text, peeks), c, p), d, q)
  {
    var n := |text|;
    assert (text + [c, d])[..n + 1] == text + [c] && (peeks + [p, q])[..n + 1] == peeks + [p];
    assert (text + [c])[..n] == text && (peeks + [p])[..n] == peeks;
  }

  /** Of the two newlines in front of a blank line only the second counts if a line has been wrapped before; and either
      way the count goes on as at the start. */
  lemma BlankLineCounts(text: seq<byte>, peeks: seq<byte>, q: byte)
    requires |text| == |peeks| && NoBlankSeen(text, peeks) && LastPiece(text) % 78 < 77
    ensures CountLines(text + [NEWLINE, NEWLINE], peeks + [NEWLINE, q])
         == Lines(Newlines(text) + Wraps(text) + if Wraps(text) > 0 then 1 else 2, 0, false)
  {
    CountsNewlinesAndWraps(text, peeks);
    TwoMoreBytes(text, peeks, NEWLINE, NEWLINE, NEWLINE, q);
  }

  lemma {:induction false} CountGoesOn(a: seq<byte>, pa: seq<byte>, b: seq<byte>, pb: seq<byte>, total: nat)
    requires |a| == |pa| && |b| == |pb| && CountLines(a, pa) == Lines(total, 0, false)
    ensures var l := CountLines(b, pb);
            CountLines(a + b, pa + pb) == l.(total := total + l.total)
  {
    if b == [] {
      assert a + b == a && pa + pb == pa;
    } else {
      var n := |b| - 1;
      CountGoesOn(a, pa, b[..n], pb[..n], total);
      assert (a + b)[..|a + b| - 1] == a + b[..n] && (pa + pb)[..|a + b| - 1] == pa + pb[..n];
    }
  }

  /** So a text falls into parts at its blank lines, each counted on its own. */
  lemma BlankLinesSplit(text: seq<byte>, peeks: seq<byte>, q: byte, rest: seq<byte>, restPeeks: seq<byte>)
    requires |text| == |peeks| && NoBlankSeen(text, peeks) && LastPiece(text) % 78 < 77 && |rest| == |restPeeks|
    ensures CountLines(text + [NEWLINE, NEWLINE] + rest, peeks + [NEWLINE, q] + restPeeks).total
         == Newlines(text) + Wraps(text) + (if Wraps(text) > 0 then 1 else 2) + CountLines(rest, restPeeks).total
  {
    BlankLineCounts(text, peeks, q);
    CountGoesOn(text + [NEWLINE, NEWLINE], peeks + [NEWLINE, q], rest, restPeeks,
                Newlines(text) + Wraps(text) + if Wraps(text) > 0 then 1 else 2);
  }

  // ----- when such a text comes out whole -----

  /** The bytes seen, and some byte that is no newline where nothing was seen. */
  function Filled(peeks: seq<byte>, n: nat): (all: seq<byte>)
    ensures |all| == n && forall k :: 0 <= k < n ==> all[k] == if k < |peeks| then peeks[k] else 0
  {
    seq(n, k requires 0 <= k < n => if k < |peeks| then peeks[k] else 0)
  }

  lemma PrefixCounts(text: seq<byte>, peeks: seq<byte>, n: nat)
    requires NoBlankSeen(text, peeks) && n <= |text| && n <= |peeks|
    ensures CountLines(text[..n], peeks[..n]).total == Newlines(text[..n]) + Wraps(text[..n])
  {
    CountsNewlinesAndWraps(text[..n], peeks[..n]);
  }

  /** The byte the copy stops in front of makes the lines 1024. */
  lemma CutBefore(text: seq<byte>, peeks: seq<byte>, n: nat)
    requires StopsAt(text, peeks, n) && n < |text|
    ensures CountLines(text[..n], peeks[..n]).total == 1023
    ensures CountLines(text[..n + 1], peeks[..n + 1]).total == 1024
  {
    CountStep(text, peeks[..n], peeks[n]);
    assert peeks[..n] + [peeks[n]] == peeks[..n + 1];
  }

  lemma FilledSees(text: seq<byte>, peeks: seq<byte>)
    requires NoBlankSeen(text, peeks)
    ensures CountLines(text, Filled(peeks, |text|)).total == Newlines(text) + Wraps(text)
  {
    CountsNewlinesAndWraps(text, Filled(peeks, |text|));
  }

  lemma CutCounts(text: seq<byte>, peeks: seq<byte>, n: nat)
    requires StopsAt(text, peeks, n) && NoBlankSeen(text, peeks) && n < |text|
    ensures Newlines(text[..n]) + Wraps(text[..n]) == 1023
    ensures Newlines(text[..n + 1]) + Wraps(text[..n + 1]) == 1024
  {
    CutBefore(text, peeks, n);
    PrefixCounts(text, peeks, n);
    PrefixCounts(text, peeks, n + 1);
  }

  /** A text in which no blank line is seen is extracted whole if and only if its newlines and wraps are fewer than
      1024; otherwise, by CutCounts, the copy stops right before the byte that makes them 1024. */
  lemma WholeIffFewWraps(text: seq<byte>, peeks: seq<byte>, n: nat)
    requires StopsAt(text, peeks, n) && NoBlankSeen(text, peeks)
    ensures n == |text| <==> Newlines(text) + Wraps(text) < 1024
  {
    WholeExactly(text, peeks, n, Filled(peeks, |text|));
    FilledSees(text, peeks);
  }

  /** The lookahead sees the blank line between two texts, and none in them. */
  predicate OneBlankSeen(text: seq<byte>, rest: seq<byte>, peeks: seq<byte>) {
    && |text| < |peeks| && peeks[|text|] == NEWLINE && NoBlankSeen(text, peeks)
    && (forall k :: |text| + 2 <= k < |text| + 2 + |rest| && k < |peeks| && rest[k - |text| - 2] == NEWLINE ==>
          peeks[k] != NEWLINE)
  }

  lemma OneBlankCounts(text: seq<byte>, rest: seq<byte>, all: seq<byte>)
    requires |all| == |text| + 2 + |rest| && OneBlankSeen(text, rest, all)
    requires LastPiece(text) % 78 < 77 && Wraps(text) > 0
    ensures CountLines(text + [NEWLINE, NEWLINE] + rest, all).total
         == Newlines(text) + Wraps(text) + 1 + Newlines(rest) + Wraps(rest)
  {
    var m := |text|;
    assert all == all[..m] + [NEWLINE, all[m + 1]] + all[m + 2..];
    BlankLinesSplit(text, all[..m], all[m + 1], rest, all[m + 2..]);
    assert NoBlankSeen(rest, all[m + 2..]);
    CountsNewlinesAndWraps(rest, all[m + 2..]);
  }

  lemma FilledSeesOne(text: seq<byte>, rest: seq<byte>, peeks: seq<byte>)
    requires OneBlankSeen(text, rest, peeks)
    ensures OneBlankSeen(text, rest, Filled(peeks, |text| + 2 + |rest|))
  {
  }

  /** With a blank line behind a wrapped line the limit is reached one line later. */
  lemma WholeWithBlankLine(text: seq<byte>, rest: seq<byte>, peeks: seq<byte>, n: nat)
    requires OneBlankSeen(text, rest, peeks) && LastPiece(text) % 78 < 77 && Wraps(text) > 0
    requires StopsAt(text + [NEWLINE, NEWLINE] + rest, peeks, n)
    ensures n == |text| + 2 + |rest| <==> Newlines(text) + Wraps(text) + 1 + Newlines(rest) + Wraps(rest) < 1024
  {
    var all := Filled(peeks, |text| + 2 + |rest|);
    WholeExactly(text + [NEWLINE, NEWLINE] + rest, peeks, n, all);
    FilledSeesOne(text, rest, peeks);
    OneBlankCounts(text, rest, all);
  }
}
