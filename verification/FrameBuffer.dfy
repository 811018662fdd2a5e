/**
  The frame buffer: a deque of fragments read from the front through a lazy offset.
  An exhausted front fragment stays until the next read and fragments may be empty;
  seen from outside, the buffer is one flat byte string.
 */
module FrameBuffers {
  import opened Bytes

  /** What fits in the address space of the source's 64-bit `size_t`, generously. */
  const ADDRESSABLE := 0x8000_0000_0000_0000

  class FrameBuffer {
    var data: seq<bytes>
    var offset: nat

    ghost predicate Valid()
      reads this
    {
      if data == [] then offset == 0 else offset <= |data[0]|
    }

    /** The bytes that are still to be read. */
    ghost function Contents(): bytes
      requires Valid()
      reads this
    {
      Flatten(data)[offset..]
    }

    /** All the bytes the deque holds on to, consumed ones included. */
    ghost function Retained(): nat
      reads this
    {
      |Flatten(data)|
    }

    constructor ()
      ensures Valid() && Contents() == [] && offset == 0 && data == []
    {
      data, offset := [], 0;
    }

    constructor From(buf: bytes)
      ensures Valid() && Contents() == buf && offset == 0
    {
      data, offset := [buf], 0;
      new;
      assert [] + [buf] == [buf];
      FlattenSnoc([], buf);
    }

    /**
      The size is accumulated in a 32-bit int and converted back to 64 bits, so it is the number
      of readable bytes exactly while the deque retains less than 2^31.
     */
    method Size() returns (n: nat)
      requires Valid() && Retained() < ADDRESSABLE
      ensures n == |Contents()| <==> Retained() < 0x8000_0000
    {
      var acc: int32 := 0;
      for i := 0 to |data|
        invariant acc == ToInt32(|Flatten(data[..i])|)
      {
        FlattenSnoc(data[..i], data[i]);
        assert data[..i + 1] == data[..i] + [data[i]];
        NarrowedSum(|Flatten(data[..i])|, |data[i]|);
        acc := ToInt32(acc + |data[i]|);
      }
      assert data[..|data|] == data;
      n := (acc - offset) % 0x1_0000_0000_0000_0000;
      WidenedSize(Retained(), offset);
    }

    method Write(buf: bytes)
      requires Valid()
      modifies this
      ensures Valid() && Contents() == old(Contents()) + buf
      ensures offset == old(offset) && Retained() == old(Retained()) + |buf|
    {
      FlattenSnoc(data, buf);
      data := data + [buf];
    }

    /** The body of the read loop once the front fragment is settled: copy and advance. */
    method Take(count: nat) returns (part: bytes)
      requires Valid() && data != [] && offset + count <= |data[0]|
      modifies this`offset
      ensures Valid() && count <= |old(Contents())| && offset == old(offset) + count
      ensures part == old(Contents())[..count] && Contents() == old(Contents())[count..]
    {
      TakeFront(data, offset, count);
      part := data[0][offset..offset + count];
      offset := offset + count;
    }

    /** An exhausted fragment at the front goes. */
    method PopFront()
      requires Valid() && data != [] && offset == |data[0]|
      modifies this
      ensures Valid() && Contents() == old(Contents())
      ensures offset == 0 && data == old(data)[1..] && Retained() <= old(Retained())
    {
      TakeFront(data, offset, 0);
      data := data[1..];
      offset := 0;
    }

    method Read(len: nat) returns (buf: bytes)
      requires Valid() && len <= |Contents()|
      modifies this
      ensures Valid()
      ensures buf == old(Contents())[..len] && Contents() == old(Contents())[len..]
      ensures Retained() <= old(Retained())
    {
      hide Flatten;
      buf := [];
      ghost var all := Contents();
      while |buf| < len
        invariant Valid() && |buf| <= len <= |all|
        invariant buf == all[..|buf|] && Contents() == all[|buf|..]
        invariant Retained() <= old(Retained())
        decreases len - |buf|, |data|
      {
        SomethingLeft(data);
        var available := |data[0]| - offset;
        if available == 0 {
          PopFront();
          SomethingLeft(data);
        }
        var count := if len - |buf| < available then len - |buf| else available;
        MoveCut(all, |buf|, count);
        var part := Take(count);
        buf := buf + part;
      }
    }

    /** The framed bytes: the size in front, then every fragment whole. */
    method ToVector() returns (buf: bytes)
      requires Valid() && offset == 0 && Retained() < 0x8000_0000
      ensures buf == U32ToBytes(|Contents()|) + Contents()
      ensures |buf| == 4 + |Contents()| && buf[4..] == Contents()
      ensures buf[0] as int * 0x100_0000 + buf[1] as int * 0x1_0000 + buf[2] as int * 0x100 + buf[3] as int
        == |Contents()|
    {
      hide U32ToBytes, Flatten;
      var size := Size();
      buf := U32ToBytes(size);
      NoFragments();
      assert buf + [] == buf && data[..0] == [];
      for i := 0 to |data|
        invariant buf == U32ToBytes(size) + Flatten(data[..i])
      {
        FlattenSnoc(data[..i], data[i]);
        assert data[..i + 1] == data[..i] + [data[i]];
        buf := buf + data[i];
      }
      assert data[..|data|] == data;
      Headed(size, Contents());
    }
  }

  /** Taking `count` bytes of the front fragment takes them from the flat byte string. */
  lemma TakeFront(data: seq<bytes>, offset: nat, count: nat)
    requires data != [] && offset + count <= |data[0]|
    ensures Flatten(data) == data[0] + Flatten(data[1..])
    ensures data[0][offset..offset + count] + Flatten(data)[offset + count..] == Flatten(data)[offset..]
    ensures offset == |data[0]| ==> Flatten(data)[offset..] == Flatten(data[1..])
  {
  }

  lemma SomethingLeft(data: seq<bytes>)
    ensures Flatten(data) != [] ==> data != []
  {
  }

  lemma NoFragments()
    ensures Flatten([]) == []
  {
  }

  /** A length in front of a byte string, by the weights of its four bytes. */
  lemma Headed(n: uint32, s: bytes)
    ensures var buf := U32ToBytes(n) + s;
      && |buf| == 4 + |s| && buf[4..] == s
      && buf[0] as int * 0x100_0000 + buf[1] as int * 0x1_0000 + buf[2] as int * 0x100 + buf[3] as int == n
  {
    BigEndian(n);
  }

  lemma NarrowedSum(total: nat, more: nat)
    ensures ToInt32(ToInt32(total) + more) == ToInt32(total + more)
  {
    var k := Narrowed(total);
    var j := Narrowed(ToInt32(total) + more);
    var h := Narrowed(total + more);
    assert (k + j - h) * 0x1_0000_0000 == ToInt32(ToInt32(total) + more) - ToInt32(total + more);
  }

  lemma WidenedSize(total: nat, offset: nat)
    requires offset <= total < ADDRESSABLE
    ensures (ToInt32(total) - offset) % 0x1_0000_0000_0000_0000 == total - offset <==> total < 0x8000_0000
  {
    var k := Narrowed(total);
    var n := (ToInt32(total) - offset) % 0x1_0000_0000_0000_0000;
    var q := (ToInt32(total) - offset) / 0x1_0000_0000_0000_0000;
    assert n == total - offset + k * 0x1_0000_0000 - q * 0x1_0000_0000_0000_0000;
    if total >= 0x8000_0000 {
      assert -0x1_0000_0000 < k < 0;
    }
  }
}
