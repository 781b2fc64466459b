/**
 * System.IO.BinaryReader over a MemoryStream holding a byte buffer: a read cursor that
 * the caller may move anywhere at or after 0, including past the end of the buffer.
 *
 * - A fixed-width integer read that does not fit fails (EndOfStreamException) and leaves
 *   the cursor at the end of the buffer (MemoryStream.InternalReadSpan sets the position to
 *   the length before throwing).
 * - ReadByte past the end fails and leaves the cursor where it was.
 * - ReadBytes never fails: it returns the bytes that exist, possibly none.
 */
module BinaryReaders {
  import opened Wrappers
  import opened Bytes

  class BinaryReader {
    const data: seq<Byte>
    var pos: nat

    constructor (data: seq<Byte>)
      ensures this.data == data && pos == 0
    {
      this.data := data;
      pos := 0;
    }

    /** Stream.Position = p. */
    method Seek(p: nat)
      modifies this
      ensures pos == p
    {
      pos := p;
    }

    method ReadBytes(n: nat) returns (bs: seq<Byte>)
      modifies this
      ensures bs == Available(data, old(pos), n)
      ensures pos == old(pos) + |bs|
    {
      if pos < |data| {
        var end := Min(pos + n, |data|);
        bs := data[pos..end];
        pos := end;
      } else {
        bs := [];
      }
    }

    method ReadByte() returns (r: Option<Byte>)
      modifies this
      ensures old(pos) < |data| ==> r == Some(data[old(pos)]) && pos == old(pos) + 1
      ensures old(pos) >= |data| ==> r == None && pos == old(pos)
    {
      if pos < |data| {
        r := Some(data[pos]);
        pos := pos + 1;
      } else {
        r := None;
      }
    }

    method ReadUInt16() returns (r: Option<nat>)
      modifies this
      ensures old(pos) + 2 <= |data| ==> r == Some(U16At(data, old(pos))) && pos == old(pos) + 2
      ensures old(pos) + 2 > |data| ==> r == None && pos == |data|
    {
      if pos + 2 <= |data| {
        r := Some(U16At(data, pos));
        pos := pos + 2;
      } else {
        r := None;
        pos := |data|;
      }
    }

    method ReadUInt32() returns (r: Option<nat>)
      modifies this
      ensures old(pos) + 4 <= |data| ==> r == Some(U32At(data, old(pos))) && pos == old(pos) + 4
      ensures old(pos) + 4 > |data| ==> r == None && pos == |data|
    {
      if pos + 4 <= |data| {
        r := Some(U32At(data, pos));
        pos := pos + 4;
      } else {
        r := None;
        pos := |data|;
      }
    }

    method ReadInt32() returns (r: Option<int>)
      modifies this
      ensures old(pos) + 4 <= |data| ==> r == Some(I32At(data, old(pos))) && pos == old(pos) + 4
      ensures old(pos) + 4 > |data| ==> r == None && pos == |data|
    {
      if pos + 4 <= |data| {
        r := Some(I32At(data, pos));
        pos := pos + 4;
      } else {
        r := None;
        pos := |data|;
      }
    }

    method ReadUInt64() returns (r: Option<nat>)
      modifies this
      ensures old(pos) + 8 <= |data| ==> r == Some(U64At(data, old(pos))) && pos == old(pos) + 8
      ensures old(pos) + 8 > |data| ==> r == None && pos == |data|
    {
      if pos + 8 <= |data| {
        r := Some(U64At(data, pos));
        pos := pos + 8;
      } else {
        r := None;
        pos := |data|;
      }
    }
  }
}
