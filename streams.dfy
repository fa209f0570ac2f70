/**
 * The in-memory byte streams a session writes into.  A .NET MemoryStream
 * is a growable byte array with a cursor: `Write` stores bytes at the
 * cursor (overwriting what is there and extending the stream when it runs
 * past the end) and advances the cursor; `Seek(0, Begin)` moves the cursor
 * back without discarding anything.  The session only ever sends, and only
 * ever treats as queued, the bytes in front of the cursor.
 */
module Streams {

  /** An unsigned 8-bit value, the element of every buffer the session moves. */
  type byte = x: int | 0 <= x < 0x100

  /**
   * A MemoryStream: `data` holds the stream's Length bytes and `position`
   * is its cursor.  Bytes at or past the cursor are left over from earlier
   * writes and are never sent.
   */
  datatype MemoryStream = MemoryStream(data: seq<byte>, position: nat)
  {
    predicate Valid() {
      position <= |data|
    }

    /** The bytes in front of the cursor: what `GetBuffer()[0..Position)` yields. */
    function Contents(): seq<byte>
      requires Valid()
    {
      data[..position]
    }
  }

  function Max(a: nat, b: nat): nat {
    if a < b then b else a
  }

  /**
   * `Write(buffer, 0, count)`: the first `count` bytes of `buffer` land at
   * the cursor, overwriting or extending the stream, and the cursor moves
   * past them.
   */
  function Write(s: MemoryStream, buffer: seq<byte>, count: nat): (r: MemoryStream)
    requires s.Valid()
    requires count <= |buffer|
    ensures r.Valid() && r.position == s.position + count
  {
    var end := s.position + count;
    var rest := if end < |s.data| then s.data[end..] else [];
    MemoryStream(s.data[..s.position] + buffer[..count] + rest, end)
  }

  /**
   * The bytes in front of the cursor grow by exactly the bytes written; the
   * stream's length becomes the larger of its old length and the new
   * cursor; stale bytes behind the new cursor are not disturbed.
   */
  lemma WriteAppends(s: MemoryStream, buffer: seq<byte>, count: nat)
    requires s.Valid()
    requires count <= |buffer|
    ensures Write(s, buffer, count).Contents() == s.Contents() + buffer[..count]
    ensures |Write(s, buffer, count).data| == Max(|s.data|, s.position + count)
    ensures forall i :: s.position + count <= i < |s.data| ==> Write(s, buffer, count).data[i] == s.data[i]
  {
    var r := Write(s, buffer, count);
    assert r.data[..r.position] == s.data[..s.position] + buffer[..count];
  }

  /** `Seek(0, SeekOrigin.Begin)`: the cursor goes back to the start. */
  function Rewind(s: MemoryStream): (r: MemoryStream)
    requires s.Valid()
    ensures r.Valid() && r.position == 0
  {
    s.(position := 0)
  }

  /** After a rewind nothing is queued any more, yet every byte of the stream is still there. */
  lemma RewindEmpties(s: MemoryStream)
    requires s.Valid()
    ensures Rewind(s).Contents() == []
    ensures Rewind(s).data == s.data
  {
  }
}
