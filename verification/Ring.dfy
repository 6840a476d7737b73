/**
 The circular buffer of the serial port: a fixed array with read and write indices and a count.
 */
module Ring {
  import opened Words

  const LENGTH: nat := 64

  class Buffer {
    var read: nat
    var write: nat
    var count: nat
    const data: array<byte>

    /** The bytes in the buffer, oldest first. */
    ghost var contents: seq<byte>

    /** The index `i` places after the read index. */
    ghost function Slot(i: nat): (k: nat)
      requires read < LENGTH && i <= LENGTH
      reads this
      ensures k < LENGTH
    {
      if read + i < LENGTH then read + i else read + i - LENGTH
    }

    ghost predicate Valid()
      reads this, data
    {
      && data.Length == LENGTH && read < LENGTH && count <= LENGTH && write == Slot(count)
      && |contents| == count && forall i | 0 <= i < count :: contents[i] == data[Slot(i)]
    }

    constructor ()
      ensures Valid() && contents == [] && fresh(data)
    {
      read, write, count, contents := 0, 0, 0, [];
      data := new byte[LENGTH](_ => 0);
    }

    method Init()
      requires data.Length == LENGTH
      modifies this
      ensures Valid() && contents == []
    {
      read, write, count, contents := 0, 0, 0, [];
    }

    predicate IsFull()
      reads this
    {
      count == LENGTH
    }

    predicate IsEmpty()
      reads this
    {
      count == 0
    }

    method Push(c: byte) returns (failed: bool)
      requires Valid()
      modifies this, data
      ensures Valid() && failed == (|old(contents)| == LENGTH)
      ensures contents == if failed then old(contents) else old(contents) + [c]
    {
      if IsFull() {
        return true;
      }
      data[write] := c;
      write := write + 1;
      if write == LENGTH {
        write := 0;
      }
      count := count + 1;
      contents := contents + [c];
      failed := false;
    }

    method Pop() returns (failed: bool, c: byte)
      requires Valid()
      modifies this
      ensures Valid() && failed == (old(contents) == [])
      ensures failed ==> contents == []
      ensures !failed ==> c == old(contents)[0] && contents == old(contents)[1..]
    {
      c := 0;
      if IsEmpty() {
        return true, c;
      }
      c := data[read];
      read := read + 1;
      if read == LENGTH {
        read := 0;
      }
      count := count - 1;
      contents := contents[1..];
      failed := false;
    }

    method Peek() returns (failed: bool, c: byte)
      requires Valid()
      ensures failed == (contents == []) && (!failed ==> c == contents[0])
    {
      if IsEmpty() {
        return true, 0;
      }
      return false, data[read];
    }

    /** The byte that was read last, if the buffer was never reset since. */
    method PeekPrevious() returns (c: byte)
      requires Valid()
      ensures c == data[if read == 0 then LENGTH - 1 else read - 1]
    {
      var i: int := read - 1;
      if i < 0 {
        i := LENGTH - 1;
      }
      return data[i];
    }
  }
}
