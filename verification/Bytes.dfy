/** Bytes, byte strings and the fixed-width integers the wire format is made of. */
module Bytes {

  type byte = b: int | 0 <= b < 0x100

  type bytes = seq<byte>

  type uint32 = n: int | 0 <= n < 0x1_0000_0000

  type int32 = n: int | -0x8000_0000 <= n < 0x8000_0000

  datatype Option<+T> = None | Some(value: T)

  /** The source's exceptions, as values: `:-` plays the part of stack unwinding. */
  datatype Result<+T, +E> = Ok(value: T) | Err(error: E) {
    predicate IsFailure() { Err? }
    function PropagateFailure<U>(): Result<U, E>
      requires Err?
    {
      Err(error)
    }
    function Extract(): T
      requires Ok?
    {
      value
    }
  }

  /** Narrowing to a 32-bit int (two's complement). */
  function ToInt32(n: int): int32 {
    var m := n % 0x1_0000_0000;
    if m < 0x8000_0000 then m else m - 0x1_0000_0000
  }

  /** Narrowing changes a number by a multiple of 2^32. */
  lemma Narrowed(n: int) returns (k: int)
    ensures ToInt32(n) == n + k * 0x1_0000_0000
  {
    var q := n / 0x1_0000_0000;
    k := if n - q * 0x1_0000_0000 < 0x8000_0000 then -q else -q - 1;
  }

  /** Four bytes, most significant first. */
  function U32ToBytes(n: uint32): (s: bytes)
    ensures |s| == 4
  {
    [n / 0x100_0000, n / 0x1_0000 % 0x100, n / 0x100 % 0x100, n % 0x100]
  }

  function U32FromBytes(s: bytes): uint32
    requires |s| == 4
  {
    var b0: int, b1: int, b2: int, b3: int := s[0], s[1], s[2], s[3];
    ((b0 * 0x100 + b1) * 0x100 + b2) * 0x100 + b3
  }

  /** The first byte weighs most. */
  lemma BigEndian(n: uint32)
    ensures var s := U32ToBytes(n);
      s[0] as int * 0x100_0000 + s[1] as int * 0x1_0000 + s[2] as int * 0x100 + s[3] as int == n
  {
    var h := n / 0x100;
    var g := h / 0x100;
    assert n / 0x1_0000 == g && n / 0x100_0000 == g / 0x100;
  }

  lemma BigEndianRead(s: bytes)
    requires |s| == 4
    ensures U32FromBytes(s) ==
      s[0] as int * 0x100_0000 + s[1] as int * 0x1_0000 + s[2] as int * 0x100 + s[3] as int
  {
  }

  lemma U32RoundTrip(n: uint32)
    ensures U32FromBytes(U32ToBytes(n)) == n
  {
    var h := n / 0x100;
    var g := h / 0x100;
    assert n / 0x1_0000 == g && n / 0x100_0000 == g / 0x100;
  }

  lemma U32BytesRoundTrip(s: bytes)
    requires |s| == 4
    ensures U32ToBytes(U32FromBytes(s)) == s
  {
    var n := U32FromBytes(s);
    var b0: int, b1: int, b2: int, b3: int := s[0], s[1], s[2], s[3];
    var g := b0 * 0x100 + b1;
    var h := g * 0x100 + b2;
    assert n / 0x100 == h && n % 0x100 == b3;
    assert h / 0x100 == g && h % 0x100 == b2;
    assert g / 0x100 == b0 && g % 0x100 == b1;
    assert n / 0x1_0000 == h / 0x100 && n / 0x100_0000 == g / 0x100;
  }

  /** The concatenation of a list of fragments. */
  function Flatten(fragments: seq<bytes>): bytes
  {
    if fragments == [] then [] else fragments[0] + Flatten(fragments[1..])
  }

  lemma {:induction false} FlattenConcat(a: seq<bytes>, b: seq<bytes>)
    ensures Flatten(a + b) == Flatten(a) + Flatten(b)
  {
    if a == [] {
      assert a + b == b;
    } else {
      assert (a + b)[0] == a[0] && (a + b)[1..] == a[1..] + b;
      FlattenConcat(a[1..], b);
    }
  }

  lemma FlattenSnoc(a: seq<bytes>, x: bytes)
    ensures Flatten(a + [x]) == Flatten(a) + x
  {
    FlattenConcat(a, [x]);
    assert [x][1..] == [];
    assert Flatten([x]) == x + Flatten([]);
  }

  lemma Associative<T>(a: seq<T>, b: seq<T>, c: seq<T>)
    ensures a + b + c == a + (b + c)
  {
  }

  lemma DropOfConcat<T>(a: seq<T>, b: seq<T>, k: nat)
    requires k <= |a|
    ensures (a + b)[k..] == a[k..] + b
  {
  }

  /** Moving a cut in a string `count` places to the right. */
  lemma MoveCut(s: bytes, i: nat, count: nat)
    requires i + count <= |s|
    ensures s[..i] + s[i..][..count] == s[..i + count]
    ensures s[i..][count..] == s[i + count..]
  {
  }
}
