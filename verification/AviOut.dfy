/** The buffered output of the AVI multiplexer: out_write, out_seek and out_flush over a stream
    that can be written at any position. */
module AviOut {
  import opened Riff

  const BUF_BYTES: nat := 65536

  function Max(a: nat, b: nat): nat { if a > b then a else b }

  /** Byte i of a file after data was written at a position of it; a gap is filled with zeros. */
  function ByteAt(file: seq<byte>, at: nat, data: seq<byte>, i: nat): byte {
    if at <= i < at + |data| then data[i - at] else if i < |file| then file[i] else 0
  }

  function Overlay(file: seq<byte>, at: nat, data: seq<byte>): (r: seq<byte>)
    ensures |r| == if data == [] then |file| else Max(|file|, at + |data|)
    ensures forall i :: 0 <= i < |r| ==> r[i] == ByteAt(file, at, data, i)
  {
    var n := if data == [] then |file| else Max(|file|, at + |data|);
    seq(n, i requires 0 <= i => ByteAt(file, at, data, i))
  }

  /** Writing two pieces one after the other is writing them together. */
  lemma {:induction false} OverlayTwice(file: seq<byte>, at: nat, a: seq<byte>, b: seq<byte>)
    ensures Overlay(Overlay(file, at, a), at + |a|, b) == Overlay(file, at, a + b)
  {
    var mid := Overlay(file, at, a);
    var l, r := Overlay(mid, at + |a|, b), Overlay(file, at, a + b);
    assert |l| == |r|;
    forall i | 0 <= i < |r| ensures l[i] == r[i] {
      assert r[i] == ByteAt(file, at, a + b, i);
      assert l[i] == ByteAt(mid, at + |a|, b, i);
      if i < |mid| {
        assert mid[i] == ByteAt(file, at, a, i);
      }
    }
  }

  /** The stream behind the interface: contents and position. */
  class OutStream {
    var file: seq<byte>
    var pos: nat
    const buf: array<byte>
    var bufPos: nat
    var outPos: nat
    var size: nat

    ghost predicate Valid()
      reads this, buf
    {
      && buf.Length == BUF_BYTES && bufPos <= BUF_BYTES
      && pos + bufPos == outPos <= size
    }

    /** What the file holds once the buffer is flushed. */
    ghost function Contents(): seq<byte>
      requires Valid()
      reads this, buf
    {
      Overlay(file, pos, buf[..bufPos])
    }

    constructor ()
      ensures Valid() && fresh(buf) && Contents() == [] && outPos == size == 0
    {
      file := [];
      pos, bufPos, outPos, size := 0, 0, 0, 0;
      buf := new byte[BUF_BYTES](_ => 0);
    }

    /** A new file: nothing is written yet, but a size is reserved for headers and first indexes. */
    method Open(reserved: nat)
      requires Valid()
      modifies this
      ensures Valid() && Contents() == [] && outPos == 0 && size == reserved
    {
      file := [];
      pos, bufPos, outPos, size := 0, 0, 0, reserved;
      assert buf[..bufPos] == [];
    }

    /** A place at the end of the file is reserved. */
    method Reserve(n: nat)
      requires Valid()
      modifies this`size
      ensures Valid() && size == old(size) + n && Contents() == old(Contents())
    {
      size := size + n;
    }

    method Flush()
      requires Valid()
      modifies this
      ensures Valid() && bufPos == 0 && outPos == old(outPos) && size == old(size)
      ensures Contents() == old(Contents())
    {
      if bufPos == 0 {
        return;
      }
      file := Overlay(file, pos, buf[..bufPos]);
      pos := pos + bufPos;
      bufPos := 0;
      assert buf[..bufPos] == [];
    }

    method Seek(to: nat)
      requires Valid()
      modifies this
      ensures Valid() && outPos == to && size == Max(old(size), to)
      ensures Contents() == old(Contents())
    {
      Flush();
      pos := to;
      outPos := to;
      if outPos > size {
        size := outPos;
      }
      assert buf[..bufPos] == [];
    }

    /** memcpy of one piece into the room left in the buffer. */
    method Fill(piece: seq<byte>)
      requires Valid() && bufPos + |piece| <= BUF_BYTES
      modifies this, buf
      ensures Valid() && bufPos == old(bufPos) + |piece|
      ensures outPos == old(outPos) + |piece| && size == Max(old(size), outPos)
      ensures Contents() == Overlay(old(Contents()), old(outPos), piece)
    {
      ghost var before := buf[..bufPos];
      forall i | 0 <= i < |piece| {
        buf[bufPos + i] := piece[i];
      }
      bufPos := bufPos + |piece|;
      outPos := outPos + |piece|;
      if outPos > size {
        size := outPos;
      }
      assert buf[..bufPos] == before + piece;
      OverlayTwice(file, pos, before, piece);
    }

    /** However it is cut into buffers, a write puts the data at the current position. */
    method Write(data: seq<byte>)
      requires Valid()
      modifies this, buf
      ensures Valid() && outPos == old(outPos) + |data| && size == Max(old(size), outPos)
      ensures Contents() == Overlay(old(Contents()), old(outPos), data)
    {
      ghost var start := Contents();
      ghost var from := outPos;
      var done := 0;
      assert Overlay(start, from, data[..0]) == start;
      while true
        invariant 0 <= done <= |data| && Valid()
        invariant outPos == from + done && size == Max(old(size), outPos)
        invariant Contents() == Overlay(start, from, data[..done])
        decreases |data| - done, bufPos
      {
        var room := BUF_BYTES - bufPos;
        var chunk := if |data| - done > room then room else |data| - done;
        ghost var front, piece := data[..done], data[done..done + chunk];
        assert front + piece == data[..done + chunk];
        OverlayTwice(start, from, front, piece);
        Fill(data[done..done + chunk]);
        done := done + chunk;
        if done == |data| {
          break;
        }
        Flush();
      }
      assert data[..done] == data;
    }
  }
}
