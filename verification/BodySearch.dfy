/** Searching a message body for a term through a window of two chunks that slides over the stream. */
module BodySearch {

  import opened Streams

  /** Half of the 8193-byte buffer, without the byte for the final NUL. */
  const CHUNK: nat := 4096

  /** Where the i-th chunk starts in the text. */
  function ChunkStart(i: nat): nat {
    4096 * i
  }

  /** read_chunk: fills count bytes unless the stream ends before; false on an error. */
  method ReadChunk(stream: Stream, buffer: array<byte>, offset: nat, count: nat) returns (ok: bool, nread: nat)
    requires stream.Valid() && offset + count <= buffer.Length
    modifies stream, buffer
    ensures stream.Valid()
    ensures nread == Min(count, |stream.text| - old(stream.pos)) && stream.pos == old(stream.pos) + nread
    ensures ok <==> nread == count || !stream.fails
    ensures forall k :: 0 <= k < buffer.Length ==>
              buffer[k] == if offset <= k < offset + nread then stream.text[old(stream.pos) + (k - offset)]
                           else old(buffer[k])
  {
    nread := 0;
    while nread < count
      invariant nread <= count && stream.Valid() && stream.pos == old(stream.pos) + nread
      invariant forall k :: 0 <= k < buffer.Length ==>
                  buffer[k] == if offset <= k < offset + nread then stream.text[old(stream.pos) + (k - offset)]
                               else old(buffer[k])
      decreases count - nread
    {
      var res := stream.Read(buffer, offset + nread, count - nread);
      if res == -1 {
        return false, nread;
      }
      nread := nread + res;
      if res == 0 {
        return true, nread;
      }
    }
    return true, nread;
  }

  /** What a C string function sees of a buffer. */
  function CString(s: seq<byte>): seq<byte> {
    if s == [] || s[0] == 0 then [] else [s[0]] + CString(s[1..])
  }

  /** A NUL after w hides whatever follows it. */
  lemma {:induction false} CStringEndsAtNul(s: seq<byte>, w: seq<byte>)
    requires |w| < |s| && s[..|w|] == w && s[|w|] == 0
    ensures CString(s) == CString(w)
  {
    if w != [] {
      assert s[0] == w[0];
      assert s[1..][..|w| - 1] == s[..|w|][1..];
      CStringEndsAtNul(s[1..], w[1..]);
    }
  }

  lemma {:induction false} CStringIsPrefix(s: seq<byte>)
    ensures CString(s) <= s
    ensures 0 !in s ==> CString(s) == s
  {
    if s != [] && s[0] != 0 {
      CStringIsPrefix(s[1..]);
      assert s == [s[0]] + s[1..];
    }
  }

  /** What lies in the buffer at the i-th comparison: the first chunk, and then two neighbours. */
  function Window(text: seq<byte>, i: nat): seq<byte> {
    if i == 0 then text[..Min(CHUNK, |text|)]
    else text[Min(ChunkStart(i - 1), |text|)..Min(ChunkStart(i + 1), |text|)]
  }

  /** How many comparisons there are if none succeeds: up to the first read that brings nothing, or up
      to the last chunk read without an error. */
  function Windows(length: nat, fails: bool): nat {
    if fails then length / 4096
    else if length <= CHUNK then 2
    else (length + 4095) / 4096 + 1
  }

  /** The j-th comparison succeeds. */
  ghost predicate Hit(matches: (seq<byte>, seq<byte>) -> bool, term: seq<byte>, text: seq<byte>, j: nat) {
    matches(term, CString(Window(text, j)))
  }

  /** Some comparison of a search over the text succeeds. */
  ghost predicate SomeWindow(matches: (seq<byte>, seq<byte>) -> bool, term: seq<byte>, text: seq<byte>, fails: bool) {
    exists j: nat :: j < Windows(|text|, fails) && Hit(matches, term, text, j)
  }

  /** The comparisons before the i-th have all failed. */
  ghost predicate NoneBefore(matches: (seq<byte>, seq<byte>) -> bool, term: seq<byte>, text: seq<byte>, i: nat) {
    forall j: nat :: j < i ==> !Hit(matches, term, text, j)
  }

  /** The search is about to read the chunk for the i-th comparison. */
  ghost predicate Reading(length: nat, fails: bool, i: nat) {
    1 <= i && ChunkStart(i - 1) <= length && (i < Windows(length, fails) || (fails && i == length / 4096))
  }

  lemma NextWindow(length: nat, fails: bool, i: nat, nread: nat)
    requires Reading(length, fails, i) && nread == Min(CHUNK, length - Min(ChunkStart(i), length))
    ensures fails && nread < CHUNK ==> Windows(length, fails) == i
    ensures !fails || nread == CHUNK ==> i < Windows(length, fails)
    ensures !fails && nread == 0 ==> Windows(length, fails) == i + 1
    ensures 0 < nread && (!fails || nread == CHUNK) ==> Reading(length, fails, i + 1)
  {
  }

  /** The first half of the buffer holds the last chunk read, ended by a NUL if it is short. */
  ghost predicate Loaded(shown: seq<byte>, text: seq<byte>, i: nat, nread: nat) {
    && |shown| == 8193 && 1 <= i && nread <= CHUNK
    && ChunkStart(i - 1) + nread == Min(ChunkStart(i), |text|)
    && shown[..nread] == text[ChunkStart(i - 1)..ChunkStart(i - 1) + nread]
    && (nread < CHUNK ==> shown[nread] == 0)
  }

  /** Two neighbouring chunks in the buffer, ended by a NUL, show the window of the i-th comparison. */
  lemma ShowsWindow(text: seq<byte>, i: nat, before: nat, nread: nat, shown: seq<byte>)
    requires Loaded(shown, text, i, before) && nread <= CHUNK
    requires Min(ChunkStart(i), |text|) + nread == Min(ChunkStart(i + 1), |text|)
    requires shown[CHUNK..CHUNK + nread] == text[Min(ChunkStart(i), |text|)..Min(ChunkStart(i + 1), |text|)]
    requires shown[CHUNK + nread] == 0
    ensures CString(shown) == CString(Window(text, i))
  {
    var w, lo, mid := Window(text, i), ChunkStart(i - 1), Min(ChunkStart(i), |text|);
    assert w == text[lo..mid] + text[mid..mid + nread];
    assert before < CHUNK ==> nread == 0;
    assert shown[..|w|] == w && shown[|w|] == 0;
    CStringEndsAtNul(shown, w);
  }

  /** Reads the i-th chunk behind the last one and compares the term with both. */
  method CompareNext(stream: Stream, buffer: array<byte>, ghost i: nat, ghost before: nat, term: seq<byte>,
                     matches: (seq<byte>, seq<byte>) -> bool)
    returns (res: bool, nread: nat, found: bool)
    requires stream.Valid() && Loaded(buffer[..], stream.text, i, before)
    requires stream.pos == Min(ChunkStart(i), |stream.text|)
    modifies stream, buffer
    ensures stream.Valid() && stream.pos == Min(ChunkStart(i + 1), |stream.text|) == old(stream.pos) + nread
    ensures nread <= CHUNK && (res <==> nread == CHUNK || !stream.fails)
    ensures found <==> res && Hit(matches, term, stream.text, i)
    ensures res ==> |buffer[..]| == 8193 && buffer[CHUNK + nread] == 0
                    && buffer[CHUNK..CHUNK + nread] == stream.text[old(stream.pos)..stream.pos]
  {
    found := false;
    res, nread := ReadChunk(stream, buffer, CHUNK, CHUNK);
    if res {
      buffer[CHUNK + nread] := 0;
      assert buffer[..][..before] == old(buffer[..][..before]) && (before < CHUNK ==> nread == 0);
      assert buffer[..][CHUNK..CHUNK + nread] == buffer[CHUNK..CHUNK + nread];
      ShowsWindow(stream.text, i, before, nread, buffer[..]);
      found := matches(term, CString(buffer[..]));
    }
  }

  /** Moves the second half, with its NUL, onto the first. */
  method MoveChunk(buffer: array<byte>, ghost chunk: seq<byte>)
    requires buffer.Length == 8193 && |chunk| <= CHUNK
    requires buffer[CHUNK..CHUNK + |chunk|] == chunk && buffer[CHUNK + |chunk|] == 0
    modifies buffer
    ensures buffer[..|chunk|] == chunk && buffer[|chunk|] == 0
  {
    ghost var second := buffer[CHUNK..];
    forall k | 0 <= k <= CHUNK {
      buffer[k] := buffer[CHUNK + k];
    }
    assert buffer[..CHUNK + 1] == second;
    assert second[..|chunk|] == chunk;
    assert buffer[..|chunk|] == second[..|chunk|];
  }

  /** Reads the first chunk into the zeroed buffer and compares the term with it. */
  method CompareFirst(stream: Stream, buffer: array<byte>, term: seq<byte>, matches: (seq<byte>, seq<byte>) -> bool)
    returns (res: bool, nread: nat, found: bool)
    requires stream.Valid() && stream.pos == 0 && buffer.Length == 8193
    requires forall k :: 0 <= k < buffer.Length ==> buffer[k] == 0
    modifies stream, buffer
    ensures stream.Valid() && stream.pos == Min(ChunkStart(1), |stream.text|)
    ensures Loaded(buffer[..], stream.text, 1, nread)
    ensures if res then Reading(|stream.text|, stream.fails, 1) else Windows(|stream.text|, stream.fails) == 0
    ensures found <==> res && Hit(matches, term, stream.text, 0)
  {
    found := false;
    res, nread := ReadChunk(stream, buffer, 0, CHUNK);
    assert buffer[..nread] == Window(stream.text, 0);
    if res {
      CStringEndsAtNul(buffer[..], Window(stream.text, 0));
      found := matches(term, CString(buffer[..]));
    }
  }

  /** The comparisons before the i-th have failed, and the next chunk is about to be read. */
  ghost predicate Undecided(matches: (seq<byte>, seq<byte>) -> bool, term: seq<byte>, text: seq<byte>,
                            fails: bool, pos: nat,
                            shown: seq<byte>, i: nat, nread: nat)
  {
    && NoneBefore(matches, term, text, i) && Reading(|text|, fails, i) && pos == Min(ChunkStart(i), |text|)
    && Loaded(shown, text, i, nread)
  }

  /** The comparisons have come to an end: the last one succeeded, or there are no more. */
  lemma Decided(matches: (seq<byte>, seq<byte>) -> bool, term: seq<byte>, text: seq<byte>,
                fails: bool, i: nat, res: bool)
    requires NoneBefore(matches, term, text, i)
    requires if res then i < Windows(|text|, fails) else Windows(|text|, fails) == i
    requires !res || Hit(matches, term, text, i) || Windows(|text|, fails) == i + 1
    ensures SomeWindow(matches, term, text, fails) <==> res && Hit(matches, term, text, i)
  {
  }

  /** One turn of the loop. */
  method SearchChunk(stream: Stream, buffer: array<byte>, ghost i: nat, ghost before: nat, term: seq<byte>,
                     matches: (seq<byte>, seq<byte>) -> bool)
    returns (done: bool, nread: nat, found: bool)
    requires stream.Valid() && Undecided(matches, term, stream.text, stream.fails, stream.pos, buffer[..], i, before)
    modifies stream, buffer
    ensures stream.Valid()
    ensures done ==> (found <==> SomeWindow(matches, term, stream.text, stream.fails))
    ensures !done ==> !found && old(stream.pos) < stream.pos <= |stream.text|
                      && Undecided(matches, term, stream.text, stream.fails, stream.pos, buffer[..], i + 1, nread)
  {
    var res;
    res, nread, found := CompareNext(stream, buffer, i, before, term, matches);
    NextWindow(|stream.text|, stream.fails, i, nread);
    done := !res || found || nread == 0;
    if done {
      Decided(matches, term, stream.text, stream.fails, i, res);
    } else {
      MoveChunk(buffer, stream.text[ChunkStart(i)..ChunkStart(i) + nread]);
    }
  }

  /** search_mime_part_strcmp, for any comparison of the term with a C string: it finds exactly what the
      comparison finds in one of the windows, and never writes outside its buffer. */
  method SearchMimePart(stream: Stream, term: seq<byte>, matches: (seq<byte>, seq<byte>) -> bool) returns (found: bool)
    requires stream.Valid() && stream.pos == 0
    modifies stream
    ensures found <==> SomeWindow(matches, term, stream.text, stream.fails)
  {
    var buffer := new byte[8193](_ => 0);
    var res, nread;
    res, nread, found := CompareFirst(stream, buffer, term, matches);
    if !res || found {
      Decided(matches, term, stream.text, stream.fails, 0, res);
      return;
    }
    ghost var i: nat := 1;
    var done := false;
    while !done
      invariant stream.Valid()
      invariant if done then found <==> SomeWindow(matches, term, stream.text, stream.fails)
                else Undecided(matches, term, stream.text, stream.fails, stream.pos, buffer[..], i, nread)
      decreases !done, |stream.text| - stream.pos
    {
      done, nread, found := SearchChunk(stream, buffer, i, nread, term, matches);
      i := i + 1;
    }
  }
}
