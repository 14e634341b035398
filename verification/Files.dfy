/** Files as byte sequences with a current offset, for programs that read, write and seek. */
module Files {

  type Byte = x: int | 0 <= x < 256
  const NEWLINE: Byte := 10
  const NUL: Byte := 0

  /** A file opened for reading. */
  class Source {
    const content: seq<Byte>
    var offset: nat

    constructor (content: seq<Byte>)
      ensures this.content == content && offset == 0
    {
      this.content := content;
      offset := 0;
    }

    method Seek(position: nat)
      modifies this
      ensures offset == position
    {
      offset := position;
    }

    /** How many bytes are left to read. */
    function Left(): nat
      reads this
    {
      if offset < |content| then |content| - offset else 0
    }

    /** Reads the bytes asked for, or what is left of them. */
    method Read(buffer: array<Byte>, count: nat) returns (nread: nat)
      requires count <= buffer.Length
      modifies this, buffer
      ensures nread == (if count <= old(Left()) then count else old(Left()))
      ensures offset == old(offset) + nread
      ensures nread > 0 ==> buffer[..nread] == content[old(offset)..offset]
    {
      nread := if count <= Left() then count else Left();
      var i := 0;
      while i < nread
        invariant 0 <= i <= nread && offset == old(offset)
        invariant nread > 0 ==> buffer[..i] == content[offset..offset + i]
      {
        buffer[i] := content[offset + i];
        i := i + 1;
      }
      offset := offset + nread;
    }

    /** As Read, but may stop earlier, at least one byte on while any are left. */
    method ReadSome(buffer: array<Byte>, count: nat) returns (nread: nat)
      requires 0 < count <= buffer.Length
      modifies this, buffer
      ensures nread <= count && nread <= old(Left()) && (old(Left()) > 0 ==> nread > 0)
      ensures offset == old(offset) + nread
      ensures nread > 0 ==> buffer[..nread] == content[old(offset)..offset]
    {
      var most :| 1 <= most <= count;
      nread := Read(buffer, most);
    }
  }

  function Zeros(n: nat): seq<Byte> { seq(n, _ => NUL) }

  /** What writing `bytes` at `at` makes of a file: a gap up to there reads as NUL bytes. */
  function Written(data: seq<Byte>, at: nat, bytes: seq<Byte>): seq<Byte> {
    if bytes == [] then data
    else if at >= |data| then data + Zeros(at - |data|) + bytes
    else data[..at] + bytes + (if at + |bytes| <= |data| then data[at + |bytes|..] else [])
  }

  /** A file opened for writing. */
  class Destination {
    var data: seq<Byte>
    var offset: nat

    constructor (data: seq<Byte>)
      ensures this.data == data && offset == 0
    {
      this.data := data;
      offset := 0;
    }

    method Write(bytes: seq<Byte>)
      modifies this
      ensures data == Written(old(data), old(offset), bytes) && offset == old(offset) + |bytes|
    {
      data := Written(data, offset, bytes);
      offset := offset + |bytes|;
    }

    method SeekForward(distance: nat)
      modifies this`offset
      ensures offset == old(offset) + distance
    {
      offset := offset + distance;
    }
  }
}
