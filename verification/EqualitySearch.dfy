/** What the body search finds with the comparison the code calls, which asks for equality up to case. */
module EqualitySearch {
  import opened Streams
  import opened BodySearch
  import opened BodySearchTheorems

  function Lower(b: byte): byte {
    if 65 <= b <= 90 then b + 32 else b
  }

  function Lowered(s: seq<byte>): (r: seq<byte>)
    ensures |r| == |s| && forall k :: 0 <= k < |s| ==> r[k] == Lower(s[k])
  {
    seq(|s|, k requires 0 <= k < |s| => Lower(s[k]))
  }

  /** modest_text_utils_utf8_strcmp answers 0 for equal texts of any case, not for substrings. */
  predicate SameText(a: seq<byte>, b: seq<byte>) {
    Lowered(a) == Lowered(b)
  }

  /** That is: byte by byte they are equal, or one is the other's small letter. */
  lemma SameTextExactly(a: seq<byte>, b: seq<byte>)
    ensures SameText(a, b) <==>
            && |a| == |b|
            && forall k :: 0 <= k < |a| ==>
                 || a[k] == b[k]
                 || ('A' as int <= a[k] as int <= 'Z' as int && b[k] as int == a[k] as int + 32)
                 || ('A' as int <= b[k] as int <= 'Z' as int && a[k] as int == b[k] as int + 32)
  {
    if SameText(a, b) {
      forall k | 0 <= k < |a| ensures Lower(a[k]) == Lower(b[k]) {
        assert Lowered(a)[k] == Lowered(b)[k];
      }
    }
  }

  /** So the search misses a term in the middle of a body. */
  lemma PartOfABodyIsMissed()
    ensures var term, text := [97 as byte], [97 as byte, 98];
            Occurs(term, text) && !SomeWindow(SameText, term, text, false)
  {
    var term, text := [97 as byte], [97 as byte, 98];
    assert text[0..0 + |term|] == term;
    assert OccursAt(term, text, 0);
    forall j: nat | j < Windows(|text|, false) ensures !Hit(SameText, term, text, j) {
      assert Window(text, j) == text;
      CStringIsPrefix(text);
      assert |Lowered(text)| != |Lowered(term)|;
    }
  }

  lemma LoweredPiece(s: seq<byte>, lo: nat, hi: nat)
    requires lo <= hi <= |s|
    ensures Lowered(s)[lo..hi] == Lowered(s[lo..hi])
  {
  }

  /** A body of one chunk is searched as promised, up to case, if and only if the term is not a proper part
      of it: it does not occur, or is at least as long as the body. */
  lemma OneChunkExactly(text: seq<byte>, term: seq<byte>)
    requires |text| <= CHUNK && 0 !in text
    ensures (SomeWindow(SameText, term, text, false) <==> Occurs(Lowered(term), Lowered(text)))
       <==> (!Occurs(Lowered(term), Lowered(text)) || |text| <= |term|)
  {
    CStringIsPrefix(text);
    assert forall j: nat :: j < Windows(|text|, false) ==> Window(text, j) == text;
    assert 0 < Windows(|text|, false);
    if SameText(term, text) {
      assert Hit(SameText, term, text, 0);
    }
    assert SomeWindow(SameText, term, text, false) <==> SameText(term, text);
    if SameText(term, text) {
      assert OccursAt(Lowered(term), Lowered(text), 0);
      assert |Lowered(text)| == |Lowered(term)|;
    }
    if |text| <= |term| && Occurs(Lowered(term), Lowered(text)) {
      var k: nat :| k <= |text| && OccursAt(Lowered(term), Lowered(text), k);
      assert Lowered(text)[0..|text|] == Lowered(text);
    }
  }

  lemma LoweredOccurs(text: seq<byte>, lo: nat, w: seq<byte>, seen: seq<byte>, term: seq<byte>)
    requires lo + |w| <= |text| && w == text[lo..lo + |w|] && seen <= w && SameText(term, seen)
    ensures Occurs(Lowered(term), Lowered(text))
  {
    assert seen == w[..|seen|] == text[lo..lo + |seen|];
    LoweredPiece(text, lo, lo + |seen|);
    assert |Lowered(term)| == |Lowered(seen)|;
    assert OccursAt(Lowered(term), Lowered(text), lo);
  }

  lemma FoundInPiece(text: seq<byte>, lo: nat, w: seq<byte>, term: seq<byte>)
    requires lo + |w| <= |text| && w == text[lo..lo + |w|] && SameText(term, CString(w))
    ensures Occurs(Lowered(term), Lowered(text))
  {
    CStringIsPrefix(w);
    LoweredOccurs(text, lo, w, CString(w), term);
  }

  lemma FoundInWindow(text: seq<byte>, fails: bool, term: seq<byte>, j: nat)
    requires j < Windows(|text|, fails) && SameText(term, CString(Window(text, j)))
    ensures Occurs(Lowered(term), Lowered(Searched(text, fails)))
  {
    WindowIsPiece(text, fails, j);
    FoundInPiece(Searched(text, fails), WindowStart(j), Window(text, j), term);
  }

  lemma OccursInLonger(term: seq<byte>, piece: seq<byte>, text: seq<byte>)
    requires piece <= text && Occurs(term, piece)
    ensures Occurs(term, text)
  {
    var k: nat :| k <= |piece| && OccursAt(term, piece, k);
    assert text[k..k + |term|] == piece[k..k + |term|];
    assert OccursAt(term, text, k);
  }

  /** Whatever the comparison finds does occur, up to case, in the text covered, and so in the text. */
  lemma FoundOccurs(text: seq<byte>, fails: bool, term: seq<byte>)
    requires SomeWindow(SameText, term, text, fails)
    ensures Occurs(Lowered(term), Lowered(Searched(text, fails))) && Occurs(Lowered(term), Lowered(text))
  {
    var j: nat :| j < Windows(|text|, fails) && Hit(SameText, term, text, j);
    FoundInWindow(text, fails, term, j);
    OccursInLonger(Lowered(term), Lowered(Searched(text, fails)), Lowered(text));
  }

  // ----- which terms are found -----

  /** The last border between chunks with text behind it. */
  function LastBorder(length: nat): (border: nat)
    requires CHUNK < length
    ensures CHUNK <= border < length
  {
    ChunkStart((length - 1) / 4096)
  }

  /** The part of the text behind the last border. */
  function LastChunk(text: seq<byte>): seq<byte> {
    if |text| <= CHUNK then text else text[LastBorder(|text|)..]
  }

  /** The part behind the last border but one. */
  function LastTwo(text: seq<byte>): seq<byte> {
    if |text| <= CHUNK then text else text[LastBorder(|text|) - CHUNK..]
  }

  /** A comparison with this piece of the body succeeds: its text up to the first NUL is the term. */
  predicate Shows(piece: seq<byte>, term: seq<byte>) {
    SameText(term, CString(piece))
  }

  predicate IsTwoChunks(term: seq<byte>, text: seq<byte>, k: nat) {
    ChunkStart(k + 2) <= |text| && Shows(text[ChunkStart(k)..ChunkStart(k + 2)], term)
  }

  /** Up to a first NUL, the term is the first chunk, two neighbouring chunks or, unless the stream ends in an error,
      one of the two ends of the text that start at a border. */
  ghost predicate IsPiece(term: seq<byte>, text: seq<byte>, fails: bool) {
    var searched := Searched(text, fails);
    && (fails ==> searched != [])
    && (|| Shows(searched[..Min(CHUNK, |searched|)], term)
        || (!fails && (Shows(LastChunk(searched), term) || Shows(LastTwo(searched), term)))
        || exists k: nat :: k <= |searched| && IsTwoChunks(term, searched, k))
  }

  lemma FirstWindow(text: seq<byte>, fails: bool)
    requires 0 < Windows(|text|, fails)
    ensures var s := Searched(text, fails); Window(text, 0) == s[..Min(CHUNK, |s|)]
  {
    WindowIsPiece(text, fails, 0);
    assert ChunkStart(1) == CHUNK;
  }

  /** A window that is not two whole chunks starts at one of the last two borders. */
  lemma LastStart(length: nat, j: nat)
    requires CHUNK < length < ChunkStart(j + 1) && 0 < j < Windows(length, false)
    ensures ChunkStart(j - 1) == LastBorder(length) || ChunkStart(j - 1) == LastBorder(length) - CHUNK
  {
  }

  lemma ToTheEnd(text: seq<byte>, lo: nat)
    requires lo <= |text|
    ensures text[lo..|text|] == text[lo..]
  {
  }

  /** A later window is two chunks of the text, or reaches its end. */
  lemma LaterWindow(text: seq<byte>, fails: bool, j: nat)
    requires 0 < j < Windows(|text|, fails)
    ensures var s, w := Searched(text, fails), Window(text, j);
            if ChunkStart(j + 1) <= |s| then w == s[ChunkStart(j - 1)..ChunkStart(j + 1)]
            else !fails && (w == LastChunk(text) || w == LastTwo(text))
  {
    WindowIsPiece(text, fails, j);
    if fails {
      WholeChunks(|text|, j);
    } else if |text| < ChunkStart(j + 1) {
      ToTheEnd(text, ChunkStart(j - 1));
      if |text| > CHUNK {
        LastStart(|text|, j);
      }
    }
  }

  lemma FoundIsPiece(text: seq<byte>, fails: bool, term: seq<byte>, j: nat)
    requires j < Windows(|text|, fails) && Hit(SameText, term, text, j)
    ensures IsPiece(term, text, fails)
  {
    WindowIsPiece(text, fails, j);
    assert Shows(Window(text, j), term);
    if j == 0 {
      FirstWindow(text, fails);
    } else {
      LaterWindow(text, fails, j);
      if ChunkStart(j + 1) <= |Searched(text, fails)| {
        assert IsTwoChunks(term, Searched(text, fails), j - 1);
      }
    }
  }

  lemma WindowIsFound(text: seq<byte>, fails: bool, term: seq<byte>, j: nat)
    requires j < Windows(|text|, fails) && Shows(Window(text, j), term)
    ensures SomeWindow(SameText, term, text, fails)
  {
    assert Hit(SameText, term, text, j);
  }

  lemma TwoChunksAreWindow(text: seq<byte>, fails: bool, k: nat)
    requires var s := Searched(text, fails); ChunkStart(k + 2) <= |s|
    ensures var s := Searched(text, fails);
            k + 1 < Windows(|text|, fails) && Window(text, k + 1) == s[ChunkStart(k)..ChunkStart(k + 2)]
  {
    LaterWindow(text, fails, k + 1);
  }

  lemma LastChunkIsWindow(text: seq<byte>) returns (j: nat)
    ensures j < Windows(|text|, false) && Window(text, j) == LastChunk(text)
  {
    j := if |text| <= CHUNK then 0 else (|text| - 1) / 4096 + 1;
    WindowIsPiece(text, false, j);
  }

  lemma LastTwoIsWindow(text: seq<byte>) returns (j: nat)
    ensures j < Windows(|text|, false) && Window(text, j) == LastTwo(text)
  {
    j := if |text| <= CHUNK then 0 else (|text| - 1) / 4096;
    WindowIsPiece(text, false, j);
  }

  lemma PieceIsFound(text: seq<byte>, fails: bool, term: seq<byte>)
    requires IsPiece(term, text, fails)
    ensures SomeWindow(SameText, term, text, fails)
  {
    var s := Searched(text, fails);
    var j: nat;
    if Shows(s[..Min(CHUNK, |s|)], term) {
      FirstWindow(text, fails);
      j := 0;
    } else if !fails && Shows(LastChunk(s), term) {
      j := LastChunkIsWindow(text);
    } else if !fails && Shows(LastTwo(s), term) {
      j := LastTwoIsWindow(text);
    } else {
      var k: nat :| k <= |s| && IsTwoChunks(term, s, k);
      TwoChunksAreWindow(text, fails, k);
      j := k + 1;
    }
    WindowIsFound(text, fails, term, j);
  }

  /** Which terms the search finds in a text of any length: those that are one of a few pieces of it. */
  lemma FindsExactlyPieces(text: seq<byte>, fails: bool, term: seq<byte>)
    ensures SomeWindow(SameText, term, text, fails) <==> IsPiece(term, text, fails)
  {
    if IsPiece(term, text, fails) {
      PieceIsFound(text, fails, term);
    }
    if SomeWindow(SameText, term, text, fails) {
      var j: nat :| j < Windows(|text|, fails) && Hit(SameText, term, text, j);
      FoundIsPiece(text, fails, term, j);
    }
  }

  /** So the search meets its promise, to find a term if and only if it occurs in the text covered, exactly for the
      terms that do not occur and those that are one of the pieces: for every text, every term, and with or without an
      error at the end of the stream. */
  lemma SearchIsRightExactly(text: seq<byte>, fails: bool, term: seq<byte>)
    ensures var occurs := Occurs(Lowered(term), Lowered(Searched(text, fails)));
            (SomeWindow(SameText, term, text, fails) <==> occurs) <==> (!occurs || IsPiece(term, text, fails))
  {
    FindsExactlyPieces(text, fails, term);
    if SomeWindow(SameText, term, text, fails) {
      FoundOccurs(text, fails, term);
    }
  }

  lemma PieceWithoutNul(text: seq<byte>, lo: nat, hi: nat, term: seq<byte>)
    requires lo <= hi <= |text| && 0 !in text
    ensures Shows(text[lo..hi], term) <==> SameText(term, text[lo..hi])
    ensures Shows(text[lo..hi], term) ==> |term| == hi - lo
  {
    CStringIsPrefix(text[lo..hi]);
    assert |Lowered(term)| == |term| && |Lowered(text[lo..hi])| == hi - lo;
  }

  /** For a short term and a NUL-free text, no whole chunk is the term. */
  lemma NoWholeChunk(text: seq<byte>, term: seq<byte>)
    requires 0 !in text && |term| < CHUNK
    ensures CHUNK <= |text| ==> !Shows(text[..CHUNK], term)
    ensures forall k: nat :: !IsTwoChunks(term, text, k)
  {
    if CHUNK <= |text| {
      PieceWithoutNul(text, 0, CHUNK, term);
    }
    forall k: nat ensures !IsTwoChunks(term, text, k) {
      if ChunkStart(k + 2) <= |text| {
        PieceWithoutNul(text, ChunkStart(k), ChunkStart(k + 2), term);
      }
    }
  }

  lemma ShortPiece(text: seq<byte>, term: seq<byte>)
    requires 0 !in text && |term| < CHUNK
    ensures IsPiece(term, text, false) <==> SameText(term, LastChunk(text))
  {
    NoWholeChunk(text, term);
    var n := |text|;
    assert text[..n] == text[0..n] == text;
    if n <= CHUNK {
      PieceWithoutNul(text, 0, n, term);
    } else {
      var border := LastBorder(n);
      ToTheEnd(text, border);
      ToTheEnd(text, border - CHUNK);
      PieceWithoutNul(text, border, n, term);
      PieceWithoutNul(text, border - CHUNK, n, term);
    }
  }

  /** For a NUL-free text and a term shorter than a chunk that is: it does not occur, or it is all there is behind the
      last border. */
  lemma ShortTermExactly(text: seq<byte>, term: seq<byte>)
    requires 0 !in text && |term| < CHUNK
    ensures var occurs := Occurs(Lowered(term), Lowered(text));
            (SomeWindow(SameText, term, text, false) <==> occurs) <==> (!occurs || SameText(term, LastChunk(text)))
  {
    SearchIsRightExactly(text, false, term);
    ShortPiece(text, term);
  }

  /** When the stream ends in an error, only whole chunks are compared: no term shorter than a chunk is found. */
  lemma ErrorHidesShortTerms(text: seq<byte>, term: seq<byte>)
    requires 0 !in text && |term| < CHUNK
    ensures !SomeWindow(SameText, term, text, true)
  {
    FindsExactlyPieces(text, true, term);
    NoWholeChunk(Searched(text, true), term);
  }
}
