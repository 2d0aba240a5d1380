/** Byte streams as the mail code reads them. */
module Streams {

  newtype byte = x: int | 0 <= x < 256

  function Min(a: nat, b: nat): nat {
    if a < b then a else b
  }

  /** A stream that hands out its text in pieces of any size, and then reports its end, or an error. */
  class Stream {
    const text: seq<byte>
    const fails: bool
    var pos: nat
    var eos: bool

    ghost predicate Valid()
      reads this
    {
      pos <= |text| && (eos ==> pos == |text| && !fails)
    }

    constructor (text: seq<byte>, fails: bool)
      ensures Valid() && this.text == text && this.fails == fails && pos == 0
    {
      this.text, this.fails, pos, eos := text, fails, 0, false;
    }

    /** tny_stream_read: at least one byte while there are any, 0 at the end, -1 on an error. The end may be
        noticed with the last byte or only by the read after it. */
    method Read(buffer: array<byte>, offset: nat, count: nat) returns (res: int)
      requires Valid() && 0 < count && offset + count <= buffer.Length
      modifies this, buffer
      ensures Valid()
      ensures if old(pos) < |text| then 1 <= res <= count && pos == old(pos) + res
              else pos == old(pos) && res == (if fails then -1 else 0) && eos == !fails
      ensures forall k :: 0 <= k < buffer.Length ==>
                buffer[k] == if offset <= k < offset + (pos - old(pos)) then text[old(pos) + (k - offset)]
                             else old(buffer[k])
    {
      if pos == |text| {
        eos := !fails;
        return if fails then -1 else 0;
      }
      var most := Min(count, |text| - pos);
      var n: nat :| 1 <= n <= most;
      var k := 0;
      while k < n
        invariant k <= n && pos == old(pos) && Valid()
        invariant forall j :: 0 <= j < buffer.Length ==>
                    buffer[j] == if offset <= j < offset + k then text[pos + (j - offset)] else old(buffer[j])
      {
        buffer[offset + k] := text[pos + k];
        k := k + 1;
      }
      pos := pos + n;
      var noticed: bool := *;
      eos := noticed && pos == |text| && !fails;
      res := n;
    }
  }
}
