/** What the sliding window can and cannot find. */
module BodySearchTheorems {
  import opened Streams
  import opened BodySearch

  predicate OccursAt(term: seq<byte>, text: seq<byte>, k: nat) {
    k + |term| <= |text| && text[k..k + |term|] == term
  }

  predicate Occurs(term: seq<byte>, text: seq<byte>) {
    exists k: nat :: k <= |text| && OccursAt(term, text, k)
  }

  /** The text a search covers: all of it, or only whole chunks if the stream ends in an error. */
  function Searched(text: seq<byte>, fails: bool): seq<byte> {
    if fails then text[..ChunkStart(|text| / 4096)] else text
  }

  /** Where the j-th window starts in the text. */
  function WindowStart(j: nat): nat {
    if j == 0 then 0 else ChunkStart(j - 1)
  }

  lemma WholeChunks(length: nat, j: nat)
    requires j < length / 4096
    ensures ChunkStart(j + 1) <= ChunkStart(length / 4096) <= length
  {
  }

  lemma PieceOfPrefix(text: seq<byte>, n: nat, lo: nat, hi: nat)
    requires lo <= hi <= n <= |text|
    ensures text[..n][lo..hi] == text[lo..hi]
  {
  }

  lemma LaterStart(length: nat, j: nat)
    requires 0 < j < Windows(length, false)
    ensures ChunkStart(j - 1) <= length
  {
  }

  /** A window is a piece of the searched text. */
  lemma WindowIsPiece(text: seq<byte>, fails: bool, j: nat)
    requires j < Windows(|text|, fails)
    ensures var searched := Searched(text, fails);
            && WindowStart(j) <= |searched|
            && Window(text, j) == searched[WindowStart(j)..Min(ChunkStart(j + 1), |searched|)]
  {
    if fails {
      WholeChunks(|text|, j);
      PieceOfPrefix(text, ChunkStart(|text| / 4096), WindowStart(j), ChunkStart(j + 1));
    } else if j > 0 {
      LaterStart(|text|, j);
    }
  }

  lemma PieceOccurs(term: seq<byte>, text: seq<byte>, lo: nat, hi: nat, k: nat)
    requires lo <= hi <= |text|
    ensures OccursAt(term, text[lo..hi], k) <==> OccursAt(term, text, lo + k) && lo + k + |term| <= hi
  {
    if lo + k + |term| <= hi {
      var piece, direct := text[lo..hi][k..k + |term|], text[lo + k..lo + k + |term|];
      forall i | 0 <= i < |term| ensures piece[i] == direct[i] {
        assert piece[i] == text[lo..hi][k + i];
      }
      assert piece == direct;
    }
  }

  // ----- what a substring comparison sees -----

  /** A NUL in front of an occurrence hides it, and nothing else does. */
  lemma {:induction false} CStringOccurs(term: seq<byte>, w: seq<byte>, k: nat)
    requires term != [] && 0 !in term
    ensures OccursAt(term, CString(w), k) <==> OccursAt(term, w, k) && 0 !in w[..k]
    decreases |w|
  {
    CStringIsPrefix(w);
    if w != [] && k <= |w| {
      if k > 0 && w[0] != 0 {
        CStringOccurs(term, w[1..], k - 1);
        OccursBehind(term, w[0], w[1..], k - 1);
        OccursBehind(term, w[0], CString(w[1..]), k - 1);
        assert w == [w[0]] + w[1..] && w[..k] == [w[0]] + w[1..][..k - 1];
      } else if k > 0 {
        assert w[0] in w[..k];
      } else {
        CStringStarts(term, w);
      }
    }
  }

  lemma OccursBehind(term: seq<byte>, first: byte, rest: seq<byte>, k: nat)
    ensures OccursAt(term, [first] + rest, k + 1) <==> OccursAt(term, rest, k)
  {
    if k + |term| <= |rest| {
      assert ([first] + rest)[k + 1..k + 1 + |term|] == rest[k..k + |term|];
    }
  }

  lemma {:induction false} CStringStarts(term: seq<byte>, w: seq<byte>)
    requires 0 !in term
    ensures OccursAt(term, CString(w), 0) <==> OccursAt(term, w, 0)
    decreases |w|
  {
    if term != [] && w != [] && w[0] == term[0] {
      CStringStarts(term[1..], w[1..]);
      assert w == [w[0]] + w[1..] && term == [term[0]] + term[1..];
      StartsWith(term, w);
      StartsWith(term, CString(w));
    } else if term != [] && w != [] {
      StartsWith(term, w);
      if w[0] != 0 {
        StartsWith(term, CString(w));
      }
    }
  }

  lemma StartsWith(term: seq<byte>, w: seq<byte>)
    requires term != [] && w != []
    ensures OccursAt(term, w, 0) <==> w[0] == term[0] && OccursAt(term[1..], w[1..], 0)
  {
    if |term| <= |w| {
      assert w[0..|term|] == [w[0]] + w[1..][0..|term| - 1];
      assert term == [term[0]] + term[1..];
    }
  }

  /** The last window that holds the k-th byte: the one that starts with its chunk, unless an error comes first. */
  function LastWindowOf(length: nat, fails: bool, k: nat): (j: nat)
    ensures WindowStart(j) <= k
  {
    if fails && k / 4096 + 1 == length / 4096 then k / 4096 else k / 4096 + 1
  }

  /** The term is at k; the last window that holds its start also holds its end, and no NUL in front of it. */
  predicate IsSeen(term: seq<byte>, text: seq<byte>, fails: bool, k: nat) {
    var s, j := Searched(text, fails), LastWindowOf(|text|, fails, k);
    && OccursAt(term, s, k) && j < Windows(|text|, fails) && k + |term| <= ChunkStart(j + 1)
    && 0 !in s[WindowStart(j)..k]
  }

  lemma WindowExists(text: seq<byte>, fails: bool, k: nat)
    requires k < |Searched(text, fails)|
    ensures LastWindowOf(|text|, fails, k) < Windows(|text|, fails)
    ensures k + CHUNK + 1 <= ChunkStart(LastWindowOf(|text|, fails, k) + 1)
            || (fails && |Searched(text, fails)| == ChunkStart(LastWindowOf(|text|, fails, k) + 1))
  {
  }

  lemma LastWindowIsLast(text: seq<byte>, fails: bool, k: nat, j: nat)
    requires j < Windows(|text|, fails) && WindowStart(j) <= k < |Searched(text, fails)| && k < ChunkStart(j + 1)
    ensures var l := LastWindowOf(|text|, fails, k);
            l < Windows(|text|, fails) && WindowStart(j) <= WindowStart(l) && ChunkStart(j + 1) <= ChunkStart(l + 1)
  {
  }

  lemma StartIsSeen(text: seq<byte>, fails: bool)
    requires 0 < Windows(|text|, fails)
    ensures IsSeen([], text, fails, 0)
  {
  }

  /** What a comparison with a piece of the text shows of the text. */
  lemma PieceShows(term: seq<byte>, s: seq<byte>, lo: nat, hi: nat, k: nat)
    requires term != [] && 0 !in term && lo <= k <= hi <= |s|
    ensures OccursAt(term, CString(s[lo..hi]), k - lo)
       <==> OccursAt(term, s, k) && k + |term| <= hi && 0 !in s[lo..k]
  {
    PieceOccurs(term, s, lo, hi, k - lo);
    assert s[lo..hi][..k - lo] == s[lo..k];
    CStringOccurs(term, s[lo..hi], k - lo);
  }

  lemma SeenIsFound(text: seq<byte>, fails: bool, term: seq<byte>, k: nat)
    requires term != [] && 0 !in term && IsSeen(term, text, fails, k)
    ensures SomeWindow(Occurs, term, text, fails)
  {
    var s, j := Searched(text, fails), LastWindowOf(|text|, fails, k);
    WindowIsPiece(text, fails, j);
    PieceShows(term, s, WindowStart(j), Min(ChunkStart(j + 1), |s|), k);
    assert OccursAt(term, CString(Window(text, j)), k - WindowStart(j));
    assert Hit(Occurs, term, text, j);
  }

  lemma PlaceInPiece(term: seq<byte>, s: seq<byte>, lo: nat, hi: nat) returns (k: nat)
    requires term != [] && 0 !in term && lo <= hi <= |s| && Occurs(term, CString(s[lo..hi]))
    ensures lo <= k && OccursAt(term, s, k) && k + |term| <= hi && 0 !in s[lo..k]
  {
    CStringIsPrefix(s[lo..hi]);
    var n: nat :| n <= |CString(s[lo..hi])| && OccursAt(term, CString(s[lo..hi]), n);
    k := lo + n;
    PieceShows(term, s, lo, hi, k);
  }

  lemma FoundIsSeen(text: seq<byte>, fails: bool, term: seq<byte>, j: nat) returns (k: nat)
    requires term != [] && 0 !in term && j < Windows(|text|, fails) && Hit(Occurs, term, text, j)
    ensures k <= |Searched(text, fails)| && IsSeen(term, text, fails, k)
  {
    var s := Searched(text, fails);
    WindowIsPiece(text, fails, j);
    k := PlaceInPiece(term, s, WindowStart(j), Min(ChunkStart(j + 1), |s|));
    LastWindowIsLast(text, fails, k, j);
    StillNoNul(s, WindowStart(j), WindowStart(LastWindowOf(|text|, fails, k)), k);
  }

  lemma StillNoNul(s: seq<byte>, lo: nat, later: nat, k: nat)
    requires lo <= later <= k <= |s| && 0 !in s[lo..k]
    ensures 0 !in s[later..k]
  {
    assert s[later..k] == s[lo..k][later - lo..];
  }

  /** What the window finds with a comparison that looks for a substring, for every text and every term that is a C
      string: it finds the term exactly if some occurrence in the text covered is seen, and so is right exactly if there
      is none or one that is seen. */
  lemma FindsExactlySeen(text: seq<byte>, fails: bool, term: seq<byte>)
    requires 0 !in term
    ensures SomeWindow(Occurs, term, text, fails)
       <==> exists k: nat :: k <= |Searched(text, fails)| && IsSeen(term, text, fails, k)
    ensures (SomeWindow(Occurs, term, text, fails) <==> Occurs(term, Searched(text, fails)))
       <==> (|| !Occurs(term, Searched(text, fails))
             || exists k: nat :: k <= |Searched(text, fails)| && IsSeen(term, text, fails, k))
  {
    if SomeWindow(Occurs, term, text, fails) {
      var j: nat :| j < Windows(|text|, fails) && Hit(Occurs, term, text, j);
      if term == [] {
        StartIsSeen(text, fails);
      } else {
        var k := FoundIsSeen(text, fails, term, j);
      }
    }
    if k: nat :| k <= |Searched(text, fails)| && IsSeen(term, text, fails, k) {
      if term == [] {
        assert OccursAt([], CString(Window(text, 0)), 0);
        assert Hit(Occurs, term, text, 0);
      } else {
        SeenIsFound(text, fails, term, k);
      }
    }
  }

  /** The term is at k, and no NUL is between the border in front of it and k. */
  predicate IsVisible(term: seq<byte>, text: seq<byte>, k: nat) {
    OccursAt(term, text, k) && 0 !in text[ChunkStart(k / 4096)..k]
  }

  lemma VisibleIsSeen(term: seq<byte>, text: seq<byte>, k: nat)
    requires 0 < |term| <= CHUNK + 1
    ensures IsSeen(term, text, false, k) <==> IsVisible(term, text, k)
  {
    if k < |text| {
      WindowExists(text, false, k);
    }
  }

  /** So a body that may hold NULs is searched right for terms of up to one chunk and one byte if and only if the term
      does not occur, or occurs with no NUL between the border in front of it and itself. */
  lemma NulHidesExactly(text: seq<byte>, term: seq<byte>)
    requires 0 !in term && 0 < |term| <= CHUNK + 1
    ensures SomeWindow(Occurs, term, text, false) <==> exists k: nat :: k <= |text| && IsVisible(term, text, k)
    ensures (SomeWindow(Occurs, term, text, false) <==> Occurs(term, text))
       <==> (!Occurs(term, text) || exists k: nat :: k <= |text| && IsVisible(term, text, k))
  {
    FindsExactlySeen(text, false, term);
    forall k: nat ensures IsSeen(term, text, false, k) <==> IsVisible(term, text, k) {
      VisibleIsSeen(term, text, k);
    }
  }

  lemma NulOccurs(term: seq<byte>, text: seq<byte>)
    requires 0 in term && Occurs(term, text)
    ensures 0 in text
  {
    var k: nat :| k <= |text| && OccursAt(term, text, k);
    var i :| 0 <= i < |term| && term[i] == 0;
    assert text[k..k + |term|][i] == text[k + i];
  }

  lemma WithoutNulSeen(text: seq<byte>, fails: bool, term: seq<byte>, k: nat)
    requires 0 < |term| <= CHUNK + 1 && 0 !in text && OccursAt(term, Searched(text, fails), k)
    ensures IsSeen(term, text, fails, k)
  {
    WindowExists(text, fails, k);
  }

  lemma WindowWithoutNul(text: seq<byte>, j: nat)
    requires 0 !in text
    ensures CString(Window(text, j)) == Window(text, j)
  {
    CStringIsPrefix(Window(text, j));
  }

  lemma NulIsNotFound(text: seq<byte>, fails: bool, term: seq<byte>)
    requires 0 !in text && 0 in term
    ensures !SomeWindow(Occurs, term, text, fails) && !Occurs(term, Searched(text, fails))
  {
    if Occurs(term, Searched(text, fails)) {
      NulOccurs(term, Searched(text, fails));
    }
    forall j: nat | j < Windows(|text|, fails) ensures !Hit(Occurs, term, text, j) {
      WindowWithoutNul(text, j);
      if Occurs(term, Window(text, j)) {
        NulOccurs(term, Window(text, j));
      }
    }
  }

  /** With a comparison that looks for a substring, the search is right for every NUL-free text and every
      term of up to one chunk and one byte: it finds the term exactly if it occurs in the text covered,
      wherever the chunk borders lie. */
  lemma FindsEveryOccurrence(text: seq<byte>, fails: bool, term: seq<byte>)
    requires |term| <= CHUNK + 1 && 0 !in text
    ensures SomeWindow(Occurs, term, text, fails)
       <==> (fails ==> CHUNK <= |text|) && Occurs(term, Searched(text, fails))
  {
    var s := Searched(text, fails);
    if 0 in term {
      NulIsNotFound(text, fails, term);
    } else {
      FindsExactlySeen(text, fails, term);
      if term == [] {
        assert OccursAt(term, s, 0);
        if 0 < Windows(|text|, fails) {
          StartIsSeen(text, fails);
        }
      } else if Occurs(term, s) {
        var k: nat :| k <= |s| && OccursAt(term, s, k);
        WithoutNulSeen(text, fails, term, k);
      }
    }
  }

  /** That bound is sharp: every longer term occurs in some text without being found. */
  lemma LongerTermsAreMissed(term: seq<byte>) returns (text: seq<byte>)
    requires CHUNK + 1 < |term| && 0 !in term
    ensures 0 !in text && Occurs(term, text) && !SomeWindow(Occurs, term, text, false)
  {
    var filler: byte := if term[0] == 1 then 2 else 1;
    text := seq(CHUNK - 1, _ => filler) + term;
    assert OccursAt(term, text, CHUNK - 1);
    forall k: nat | OccursAt(term, text, k) ensures k == CHUNK - 1 {
      assert text[k] == text[k..k + |term|][0] == term[0];
    }
    FindsExactlySeen(text, false, term);
  }

  lemma BehindNul(term: seq<byte>, text: seq<byte>)
    requires |text| > 0 && text[0] == 0
    ensures !IsSeen(term, text, false, 1)
  {
    assert 0 in text[0..1] by {
      assert text[0..1][0] == 0;
    }
  }

  /** A NUL in the body ends what a comparison sees: every term right behind one at the start of a body is missed. */
  lemma TextAfterNulIsMissed(term: seq<byte>)
    requires term != [] && 0 !in term
    ensures var text := [0 as byte] + term;
            Occurs(term, text) && !SomeWindow(Occurs, term, text, false)
  {
    var text := [0 as byte] + term;
    assert text[1..1 + |term|] == term;
    assert OccursAt(term, text, 1);
    forall k: nat | OccursAt(term, text, k) ensures k == 1 {
      assert text[k] == text[k..k + |term|][0] == term[0];
    }
    BehindNul(term, text);
    FindsExactlySeen(text, false, term);
  }
}
