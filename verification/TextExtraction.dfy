/** Extracting the plain text of a message body: a copy in chunks that stops at a number of lines, where
    long lines count as if they were wrapped. */
module TextExtraction {
  import opened Streams

  const LINE_WRAP: nat := 78
  const MAX_BODY_LINES: nat := 1024
  const MAX_BODY_LENGTH: nat := 1024 * 128
  const NEWLINE: byte := 10

  datatype Lines = Lines(total: nat, chars: nat, forcedWrap: bool)

  /** One byte and the byte after it: the second newline after a forced wrap is the one that counts. */
  function CountByte(l: Lines, c: byte, next: byte): Lines {
    if c == NEWLINE && !(l.forcedWrap && next == NEWLINE) then Lines(l.total + 1, 0, l.forcedWrap)
    else
      var forced := l.forcedWrap && c != NEWLINE;
      if l.chars + 1 >= LINE_WRAP then Lines(l.total + 1, 0, true)
      else Lines(l.total, l.chars + 1, forced)
  }

  /** The count over a text, where peeks[k] is the byte seen behind the k-th one. */
  function CountLines(text: seq<byte>, peeks: seq<byte>): Lines
    requires |text| == |peeks|
  {
    if text == [] then Lines(0, 0, false)
    else
      var n := |text| - 1;
      CountByte(CountLines(text[..n], peeks[..n]), text[n], peeks[n])
  }

  function Newlines(text: seq<byte>): nat {
    if text == [] then 0
    else Newlines(text[..|text| - 1]) + if text[|text| - 1] == NEWLINE then 1 else 0
  }

  /** Whatever bytes the lookahead shows, a line is never more than 78 bytes, every newline is paid for by
      a line, and only full lines are added to the newlines. */
  lemma {:induction false} LineBounds(text: seq<byte>, peeks: seq<byte>)
    requires |text| == |peeks|
    ensures var l := CountLines(text, peeks);
            && l.chars < 78
            && Newlines(text) + (if l.forcedWrap then 1 else 0) <= l.total
            && |text| <= 78 * l.total + l.chars
            && 78 * l.total + l.chars <= |text| + 78 * Newlines(text)
  {
    if text != [] {
      LineBounds(text[..|text| - 1], peeks[..|text| - 1]);
    }
  }

  lemma CountStep(text: seq<byte>, peeks: seq<byte>, next: byte)
    requires |peeks| < |text|
    ensures var n := |peeks|;
            CountLines(text[..n + 1], peeks + [next]) == CountByte(CountLines(text[..n], peeks), text[n], next)
  {
    var n := |peeks|;
    assert text[..n + 1][..n] == text[..n] && (peeks + [next])[..n] == peeks;
  }

  /** The copy of the text stops after n bytes: the count stays below the limit up to there, and either
      that is everything, or the next byte reaches the limit. */
  ghost predicate StopsAt(text: seq<byte>, peeks: seq<byte>, n: nat) {
    && n <= |text| && n <= |peeks|
    && CountLines(text[..n], peeks[..n]).total < MAX_BODY_LINES
    && (n == |text| || (n < |peeks| && CountLines(text[..n + 1], peeks[..n + 1]).total == MAX_BODY_LINES))
  }

  /** The lookahead saw the next byte of the text, except behind the last byte of a read. */
  ghost predicate Peeked(text: seq<byte>, peeks: seq<byte>, ends: set<nat>) {
    forall k: nat :: k < |peeks| && k + 1 < |text| && k !in ends ==> peeks[k] == text[k + 1]
  }

  lemma PeekedMore(text: seq<byte>, peeks: seq<byte>, ends: set<nat>, next: byte)
    requires Peeked(text, peeks, ends)
    requires |peeks| in ends || |text| <= |peeks| + 1 || next == text[|peeks| + 1]
    ensures Peeked(text, peeks + [next], ends)
  {
  }

  /** So many bytes of the text have been counted. */
  ghost predicate Counted(text: seq<byte>, peeks: seq<byte>, ends: set<nat>, l: Lines) {
    |peeks| <= |text| && l == CountLines(text[..|peeks|], peeks) && Peeked(text, peeks, ends)
  }

  /** One more byte is counted, and the byte behind it seen. */
  lemma OneMoreByte(text: seq<byte>, peeks: seq<byte>, ends: set<nat>, l: Lines, c: byte, next: byte)
    requires Counted(text, peeks, ends, l) && |peeks| < |text| && c == text[|peeks|]
    requires |peeks| in ends || (|peeks| + 1 < |text| && next == text[|peeks| + 1])
    ensures Counted(text, peeks + [next], ends, CountByte(l, c, next))
    ensures l.total < MAX_BODY_LINES <= CountByte(l, c, next).total ==> StopsAt(text, peeks + [next], |peeks|)
  {
    CountStep(text, peeks, next);
    PeekedMore(text, peeks, ends, next);
    assert (peeks + [next])[..|peeks|] == peeks && (peeks + [next])[..|peeks| + 1] == peeks + [next];
  }

  /** Scans a chunk of the text that starts at pos, up to the byte that reaches the line limit. */
  method ScanChunk(buffer: array<byte>, nRead: nat, beyond: byte, l0: Lines, ghost text: seq<byte>, ghost pos: nat,
                   ghost peeks0: seq<byte>, ghost ends0: set<nat>)
    returns (offset: nat, l: Lines, ghost peeks: seq<byte>, ghost ends: set<nat>)
    requires 0 < nRead <= buffer.Length && pos + nRead <= |text|
    requires forall k :: 0 <= k < nRead ==> buffer[k] == text[pos + k]
    requires |peeks0| == pos && Counted(text, peeks0, ends0, l0) && l0.total < MAX_BODY_LINES
    ensures offset <= nRead && Peeked(text, peeks, ends)
    ensures l.total < MAX_BODY_LINES ==> offset == nRead && |peeks| == pos + nRead && Counted(text, peeks, ends, l)
    ensures l.total >= MAX_BODY_LINES ==> StopsAt(text, peeks, pos + offset)
  {
    offset, l, peeks, ends := 0, l0, peeks0, ends0 + {pos + nRead - 1};
    while offset < nRead
      invariant offset <= nRead && |peeks| == pos + offset
      invariant Counted(text, peeks, ends, l) && l.total < MAX_BODY_LINES
      invariant pos + nRead - 1 in ends
    {
      var next := if offset + 1 < buffer.Length then buffer[offset + 1] else beyond;
      OneMoreByte(text, peeks, ends, l, buffer[offset], next);
      l := ScanByte(l, buffer[offset], next);
      peeks := peeks + [next];
      if l.total >= MAX_BODY_LINES {
        break;
      }
      offset := offset + 1;
    }
  }

  method ScanByte(l: Lines, c: byte, next: byte) returns (l': Lines)
    ensures l' == CountByte(l, c, next)
    ensures l'.total <= l.total + 1
  {
    l' := l;
    if c == NEWLINE && !(l'.forcedWrap && next == NEWLINE) {
      l' := l'.(total := l'.total + 1, chars := 0);
    } else {
      if c == NEWLINE {
        l' := l'.(forcedWrap := false);
      }
      l' := l'.(chars := l'.chars + 1);
      if l'.chars >= LINE_WRAP {
        l' := l'.(total := l'.total + 1, chars := 0, forcedWrap := true);
      }
    }
  }

  /** Reads into a fresh buffer, whose bytes beyond the ones read are arbitrary. */
  method ReadSome(stream: Stream, count: nat) returns (buffer: array<byte>, nRead: int)
    requires stream.Valid() && 0 < count <= 128
    modifies stream
    ensures stream.Valid() && fresh(buffer) && buffer.Length == 128
    ensures if old(stream.pos) < |stream.text| then 1 <= nRead <= count && stream.pos == old(stream.pos) + nRead
            else stream.pos == old(stream.pos) && nRead == (if stream.fails then -1 else 0)
                 && stream.eos == !stream.fails
    ensures forall k :: 0 <= k < nRead ==> buffer[k] == stream.text[old(stream.pos) + k]
  {
    buffer := new byte[128];
    nRead := stream.Read(buffer, 0, count);
    forall k | 0 <= k < nRead ensures buffer[k] == stream.text[old(stream.pos) + k] {
      assert buffer[k] == stream.text[old(stream.pos) + (k - 0)];
    }
  }

  lemma PrefixGrows(text: seq<byte>, pos: nat, piece: seq<byte>)
    requires pos + |piece| <= |text| && forall k :: 0 <= k < |piece| ==> piece[k] == text[pos + k]
    ensures text[..pos] + piece == text[..pos + |piece|]
  {
  }

  /** One turn of the outer loop: reads a chunk and scans it; the piece is what is written of it. */
  method CopyChunk(stream: Stream, nextRead: nat, beyond: byte, l0: Lines,
                   ghost peeks0: seq<byte>, ghost ends0: set<nat>)
    returns (piece: seq<byte>, l: Lines, done: bool, ghost peeks: seq<byte>, ghost ends: set<nat>)
    requires stream.Valid() && !stream.eos && 0 < nextRead <= 128 && |peeks0| == stream.pos
    requires Counted(stream.text, peeks0, ends0, l0) && l0.total < MAX_BODY_LINES
    modifies stream
    ensures stream.Valid() && Peeked(stream.text, peeks, ends)
    ensures var end := old(stream.pos) + |piece|;
            && end <= |stream.text| && stream.text[..old(stream.pos)] + piece == stream.text[..end]
            && (done ==> StopsAt(stream.text, peeks, end))
            && (!done ==>
                  |peeks| == stream.pos == end && Counted(stream.text, peeks, ends, l) && l.total < MAX_BODY_LINES)
    ensures !done ==> stream.pos > old(stream.pos) || stream.eos
  {
    piece, l, done, peeks, ends := [], l0, false, peeks0, ends0;
    ghost var text, pos := stream.text, stream.pos;
    var buffer, nRead := ReadSome(stream, nextRead);
    if nRead < 0 {
      WholeText(text, peeks);
      done := true;
    } else if nRead > 0 {
      var offset: nat;
      offset, l, peeks, ends := ScanChunk(buffer, nRead, beyond, l, text, pos, peeks, ends);
      piece := buffer[..offset];
      PrefixGrows(text, pos, piece);
      done := l.total >= MAX_BODY_LINES;
    }
  }

  lemma WholeText(text: seq<byte>, peeks: seq<byte>)
    requires |peeks| == |text| && CountLines(text[..|peeks|], peeks).total < MAX_BODY_LINES
    ensures text[..|text|] == text && StopsAt(text, peeks, |text|)
  {
    assert peeks[..|peeks|] == peeks && text[..|text|] == text;
  }

  /** extract_text up to the text buffer. The result is a prefix of the text; the lookahead saw the next
      byte of the text except behind the last byte of a read, where it saw anything. */
  method ExtractText(stream: Stream) returns (written: seq<byte>, ghost peeks: seq<byte>, ghost ends: set<nat>)
    requires stream.Valid() && stream.pos == 0
    modifies stream
    ensures written <= stream.text && StopsAt(stream.text, peeks, |written|)
    ensures Peeked(stream.text, peeks, ends)
  {
    written, peeks, ends := [], [], {};
    var l := Lines(0, 0, false);
    var done := false;
    while !done && !stream.eos
      invariant stream.Valid() && written <= stream.text && Peeked(stream.text, peeks, ends)
      invariant if done then StopsAt(stream.text, peeks, |written|)
                else && |written| == |peeks| == stream.pos
                     && Counted(stream.text, peeks, ends, l) && l.total < MAX_BODY_LINES
      decreases !done, |stream.text| - stream.pos, !stream.eos
    {
      assert written == stream.text[..|peeks|];
      LineBounds(written, peeks);
      var beyond: byte := *;
      var nextRead := Min(128, MAX_BODY_LENGTH - |written|);
      if nextRead == 0 {
        break;
      }
      var piece;
      piece, l, done, peeks, ends := CopyChunk(stream, nextRead, beyond, l, peeks, ends);
      written := written + piece;
    }
    if !done {
      WholeText(stream.text, peeks);
    }
  }

  lemma {:induction false} NewlinesOfPrefix(text: seq<byte>, n: nat)
    requires n <= |text|
    ensures Newlines(text[..n]) <= Newlines(text)
  {
    if n < |text| {
      assert text[..|text| - 1][..n] == text[..n];
      NewlinesOfPrefix(text[..|text| - 1], n);
    } else {
      assert text[..n] == text;
    }
  }

  lemma CutIsLong(text: seq<byte>, peeks: seq<byte>, n: nat)
    requires StopsAt(text, peeks, n) && n < |text|
    ensures MAX_BODY_LINES * LINE_WRAP <= |text| + 78 * Newlines(text)
  {
    LineBounds(text[..n + 1], peeks[..n + 1]);
    NewlinesOfPrefix(text, n + 1);
  }

  /** The extracted text has less than 1024 newlines and less than 1024 * 78 bytes, so the limit of 131072
      bytes never stops it; and a text that is short enough, counting 78 bytes for every newline, is
      extracted whole. All this holds for any lookahead and any way the stream splits its reads. */
  lemma ExtractedBounds(text: seq<byte>, peeks: seq<byte>, n: nat)
    requires StopsAt(text, peeks, n)
    ensures Newlines(text[..n]) < MAX_BODY_LINES
    ensures n < MAX_BODY_LINES * LINE_WRAP < MAX_BODY_LENGTH
    ensures |text| + 78 * Newlines(text) < MAX_BODY_LINES * LINE_WRAP ==> n == |text|
  {
    LineBounds(text[..n], peeks[..n]);
    if n < |text| {
      CutIsLong(text, peeks, n);
    }
  }

  // ----- when a body comes out whole -----

  lemma {:induction false} CountGrows(text: seq<byte>, peeks: seq<byte>, n: nat)
    requires |text| == |peeks| && n <= |text|
    ensures CountLines(text[..n], peeks[..n]).total <= CountLines(text, peeks).total
  {
    if n < |text| {
      var m := |text| - 1;
      assert text[..m][..n] == text[..n] && peeks[..m][..n] == peeks[..n];
      CountGrows(text[..m], peeks[..m], n);
    } else {
      assert text[..n] == text && peeks[..n] == peeks;
    }
  }

  /** A body is extracted whole if and only if it counts fewer than 1024 lines, whatever bytes the lookahead would show
      behind the point where the copy stopped. */
  lemma WholeExactly(text: seq<byte>, peeks: seq<byte>, n: nat, all: seq<byte>)
    requires StopsAt(text, peeks, n) && |all| == |text|
    requires forall k :: 0 <= k < |peeks| && k < |text| ==> all[k] == peeks[k]
    ensures n == |text| <==> CountLines(text, all).total < MAX_BODY_LINES
  {
    if n == |text| {
      assert text[..n] == text && peeks[..n] == all;
    } else {
      assert all[..n + 1] == peeks[..n + 1];
      CountGrows(text, all, n + 1);
    }
  }

  /** No line is long enough to be counted as wrapped. */
  ghost predicate ShortLines(text: seq<byte>) {
    forall i, j :: 0 <= i <= j <= |text| && NEWLINE !in text[i..j] ==> j - i < LINE_WRAP
  }

  lemma ShortLinesBefore(text: seq<byte>, n: nat)
    requires ShortLines(text) && n <= |text|
    ensures ShortLines(text[..n])
  {
    forall i, j | 0 <= i <= j <= n && NEWLINE !in text[..n][i..j] ensures j - i < LINE_WRAP {
      assert text[..n][i..j] == text[i..j];
    }
  }

  /** So many bytes at the end are behind the last newline. */
  predicate LineHas(text: seq<byte>, chars: nat) {
    chars <= |text| && NEWLINE !in text[|text| - chars..]
  }

  lemma LineGrows(text: seq<byte>, c: byte, chars: nat)
    requires LineHas(text, chars) && c != NEWLINE && ShortLines(text + [c])
    ensures LineHas(text + [c], chars + 1) && chars + 1 < LINE_WRAP
  {
    var more := text + [c];
    assert more[|text| - chars..|more|] == more[|text| - chars..] == text[|text| - chars..] + [c];
  }

  /** Without long lines the count is that of the newlines. */
  lemma {:induction false} CountsNewlines(text: seq<byte>, peeks: seq<byte>)
    requires |text| == |peeks| && ShortLines(text)
    ensures var l := CountLines(text, peeks);
            l.total == Newlines(text) && !l.forcedWrap && LineHas(text, l.chars)
  {
    if text != [] {
      var m := |text| - 1;
      assert text == text[..m] + [text[m]];
      ShortLinesBefore(text, m);
      CountsNewlines(text[..m], peeks[..m]);
      if text[m] != NEWLINE {
        LineGrows(text[..m], text[m], CountLines(text[..m], peeks[..m]).chars);
      }
    }
  }

  /** A body without long lines is extracted whole if and only if it has fewer than 1024 newlines, for any lookahead;
      otherwise the copy ends before the 1024th of them, which is dropped. */
  lemma WholeIffFewLines(text: seq<byte>, peeks: seq<byte>, n: nat)
    requires StopsAt(text, peeks, n) && ShortLines(text)
    ensures n == |text| <==> Newlines(text) < MAX_BODY_LINES
    ensures n < |text| ==> text[n] == NEWLINE && Newlines(text[..n]) == MAX_BODY_LINES - 1
  {
    ShortLinesBefore(text, n);
    CountsNewlines(text[..n], peeks[..n]);
    if n < |text| {
      ShortLinesBefore(text, n + 1);
      CountsNewlines(text[..n + 1], peeks[..n + 1]);
      assert text[..n + 1][..n] == text[..n];
      NewlinesOfPrefix(text, n + 1);
    } else {
      assert text[..n] == text;
    }
  }

  lemma {:induction false} OnlyNewlines(n: nat)
    ensures Newlines(seq(n, _ => NEWLINE)) == n
  {
    if n > 0 {
      OnlyNewlines(n - 1);
      assert seq(n, _ => NEWLINE)[..n - 1] == seq(n - 1, _ => NEWLINE);
    }
  }

  /** So a body of 1024 newlines or more comes out as 1023 of them. */
  lemma LastNewlineIsLost(size: nat, peeks: seq<byte>, n: nat)
    requires size >= 1024 && StopsAt(seq(size, _ => NEWLINE), peeks, n)
    ensures n == 1023
  {
    var text := seq(size, _ => NEWLINE);
    forall i, j | 0 <= i < j <= |text| ensures NEWLINE in text[i..j] {
      assert text[i..j][0] == NEWLINE;
    }
    WholeIffFewLines(text, peeks, n);
    OnlyNewlines(size);
    OnlyNewlines(n);
    assert text[..n] == seq(n, _ => NEWLINE);
  }
}
