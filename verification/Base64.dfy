/**
  Base64 (section 4 of RFC 4648) as two loops over a 32-bit accumulator that wraps,
  against the definition by groups of three bytes.
 */
module Base64 {
  import opened Bytes

  const UPPER := "ABCDEFGHIJKLMNOPQRSTUVWXYZ"
  const LOWER := "abcdefghijklmnopqrstuvwxyz"
  const ALPHABET := UPPER + LOWER + "0123456789+/"

  const PAD: byte := 61

  type sextet = v: int | 0 <= v < 64

  /** The symbol of a six-bit value. */
  function Symbol(v: sextet): byte {
    if v < 26 then 65 + v
    else if v < 52 then 71 + v
    else if v < 62 then v - 4
    else if v == 62 then 43
    else 47
  }

  /** The six-bit value of a symbol, or -1. */
  function SymbolValue(c: byte): int {
    if 65 <= c <= 90 then c - 65
    else if 97 <= c <= 122 then c - 71
    else if 48 <= c <= 57 then c + 4
    else if c == 43 then 62
    else if c == 47 then 63
    else -1
  }

  /** The two functions above are the table of the source and its inverse. */
  lemma AlphabetIsSymbol(v: sextet)
    ensures |ALPHABET| == 64 && ALPHABET[v] as int == Symbol(v)
    ensures SymbolValue(Symbol(v)) == v
  {
    if v < 26 {
      assert ALPHABET[v] == UPPER[v];
    } else if v < 52 {
      assert ALPHABET[v] == LOWER[v - 26];
    } else {
      assert ALPHABET[v] == "0123456789+/"[v - 52];
    }
  }

  /** Powers of two up to the largest shift either loop performs. */
  function Pow2(b: nat): (p: nat)
    requires b <= 8
    ensures p >= 1
  {
    [1, 2, 4, 8, 16, 32, 64, 128, 256][b]
  }

  /** `a << b` on a 32-bit int. */
  function ShiftLeft(a: int32, b: nat): int32
    requires b <= 8
  {
    ToInt32(a * Pow2(b))
  }

  /** `a >> b` on a 32-bit int (arithmetic). */
  function ShiftRight(a: int32, b: nat): int
    requires b <= 8
  {
    a / Pow2(b)
  }

  // ---- The definition by groups ----

  /** The symbols that byte `c` completes, as byte `phase` of its group and after byte `p`. */
  function Completed(p: byte, c: byte, phase: nat): (s: bytes)
    requires phase < 3
    ensures |s| == if phase < 2 then 1 else 2
  {
    var p': int, c': int := p, c;
    if phase == 0 then [Symbol(c' / 4)]
    else if phase == 1 then [Symbol(p' % 4 * 16 + c' / 16)]
    else [Symbol(p' % 16 * 4 + c' / 64), Symbol(c' % 64)]
  }

  /** What ends a group of which `phase` bytes have arrived, `p` last: missing bytes are zero. */
  function Closing(p: byte, phase: nat): (s: bytes)
    requires phase < 3
  {
    if phase == 0 then []
    else if phase == 1 then Completed(p, 0, 1) + [PAD, PAD]
    else [Completed(p, 0, 2)[0], PAD]
  }

  /** The groups of three bytes from left to right, the last one zero-filled and padded. */
  function Encoded(x: bytes): bytes {
    if x == [] then []
    else if |x| == 1 then Completed(0, x[0], 0) + Closing(x[0], 1)
    else if |x| == 2 then Completed(0, x[0], 0) + Completed(x[0], x[1], 1) + Closing(x[1], 2)
    else Completed(0, x[0], 0) + Completed(x[0], x[1], 1) + Completed(x[1], x[2], 2) + Encoded(x[3..])
  }

  /** The byte that symbol value `v` completes, as symbol `phase` of its four and after value `p`. */
  function CompletedByte(p: sextet, v: sextet, phase: nat): byte
    requires 1 <= phase < 4
  {
    var p': int, v': int := p, v;
    if phase == 1 then p' * 4 + v' / 16
    else if phase == 2 then p' % 16 * 16 + v' / 4
    else p' % 4 * 64 + v'
  }

  /** The bytes completed by the symbols up to the first character that is none. */
  function Unpacked(p: sextet, phase: nat, s: bytes): bytes
    requires phase < 4
    decreases |s|
  {
    if s == [] || SymbolValue(s[0]) < 0 then [] else
      var v := SymbolValue(s[0]);
      (if phase == 0 then [] else [CompletedByte(p, v, phase)]) +
      Unpacked(v, if phase == 3 then 0 else phase + 1, s[1..])
  }

  function Decoded(s: bytes): bytes {
    Unpacked(0, 0, s)
  }

  // ---- The loops ----

  // Division by the powers of two that occur, each as one linear fact.

  lemma Quotients(a: int, w: int, r: nat)
    ensures a == w * 4 + r && r < 4 ==> a / 4 == w
    ensures a == w * 16 + r && r < 16 ==> a / 16 == w
    ensures a == w * 64 + r && r < 64 ==> a / 64 == w
  {
  }

  lemma RemainderSextet(w: int, h: int, r: nat)
    requires w == h * 64 + r && r < 64
    ensures w % 64 == r
  {
  }

  lemma RemainderByte(w: int, h: int, r: nat)
    requires w == h * 0x100 + r && r < 0x100
    ensures w % 0x100 == r
  {
  }

  lemma RemainderTwelve(w: int, h: int, r: nat)
    requires w == h * 0x1000 + r && r < 0x1000
    ensures w % 0x1000 == r
  {
  }

  lemma RemainderSixteen(w: int, h: int, r: nat)
    requires w == h * 0x1_0000 + r && r < 0x1_0000
    ensures w % 0x1_0000 == r
  {
  }

  /** A shift and a mask pick out one six-bit field, whatever lies above it and below it. */
  lemma FieldAt(a: int, b: nat, high: int, field: sextet, low: nat)
    requires b == 0 ==> a == high * 0x40 + field && low == 0
    requires b == 2 ==> a == high * 0x100 + field * 4 + low && low < 4
    requires b == 4 ==> a == high * 0x400 + field * 16 + low && low < 16
    requires b == 6 ==> a == high * 0x1000 + field * 64 + low && low < 64
    requires b == 0 || b == 2 || b == 4 || b == 6
    ensures a / Pow2(b) % 64 == field
  {
    var w := high * 64 + field;
    RemainderSextet(w, high, field);
    Quotients(a, w, low);
    assert Pow2(0) == 1 && Pow2(2) == 4 && Pow2(4) == 16 && Pow2(6) == 64;
  }

  /** Shifting in a byte: wrapping loses only bits above the sixteen kept here. */
  lemma ShiftInByte(a: int32, p: byte, c: byte)
    requires a % 0x100 == p
    ensures -0x8000_0000 <= ShiftLeft(a, 8) + c < 0x8000_0000
    ensures (ShiftLeft(a, 8) + c) % 0x1_0000 == p as int * 0x100 + c
    ensures (ShiftLeft(a, 8) + c) % 0x100 == c
  {
    hide ToInt32;
    var k := Narrowed(a * 0x100);
    assert Pow2(8) == 0x100;
    ByteShiftedIn(ShiftLeft(a, 8), a / 0x100, k, p, c);
  }

  lemma ByteShiftedIn(w: int32, q: int, k: int, p: byte, c: byte)
    requires w == (q * 0x100 + p) * 0x100 + k * 0x1_0000_0000
    ensures w as int + c as int < 0x8000_0000
    ensures (w as int + c as int) % 0x1_0000 == p as int * 0x100 + c
    ensures (w as int + c as int) % 0x100 == c
  {
    var h := q + k * 0x1_0000;
    assert w == (h * 0x100 + p) * 0x100;
    RemainderSixteen(w + c, h, p as int * 0x100 + c);
    RemainderByte(w + c, h * 0x100 + p, c);
  }

  /** What the inner loop pushes for an accumulator `a` and a shift that starts at `2 * phase + 2`. */
  function Pushed(a: int, phase: nat): bytes
    requires phase < 3
  {
    if phase == 0 then [Symbol(a / 4 % 64)]
    else if phase == 1 then [Symbol(a / 16 % 64)]
    else [Symbol(a / 64 % 64), Symbol(a % 64)]
  }

  lemma SecondField(q: int, p: int, c: int)
    requires 0 <= p < 0x100 && 0 <= c < 0x100
    ensures (q * 0x1_0000 + p * 0x100 + c) / 16 % 64 == p % 4 * 16 + c / 16
  {
    FieldAt(q * 0x1_0000 + p * 0x100 + c, 4, q * 0x40 + p / 4, p % 4 * 16 + c / 16, c % 16);
  }

  lemma ThirdField(q: int, p: int, c: int)
    requires 0 <= p < 0x100 && 0 <= c < 0x100
    ensures (q * 0x1_0000 + p * 0x100 + c) / 64 % 64 == p % 16 * 4 + c / 64
  {
    FieldAt(q * 0x1_0000 + p * 0x100 + c, 6, q * 0x10 + p / 16, p % 16 * 4 + c / 64, c % 64);
  }

  lemma OuterFields(q: int, p: int, c: int)
    requires 0 <= p < 0x100 && 0 <= c < 0x100
    ensures (q * 0x1_0000 + p * 0x100 + c) / 4 % 64 == c / 4
    ensures (q * 0x1_0000 + p * 0x100 + c) % 64 == c % 64
  {
    FieldAt(q * 0x1_0000 + p * 0x100 + c, 2, q * 0x100 + p, c / 4, c % 4);
    FieldAt(q * 0x1_0000 + p * 0x100 + c, 0, q * 0x400 + p * 4 + c / 64, c % 64, 0);
  }

  lemma PushedIsCompleted(a: int, p: byte, c: byte, phase: nat)
    requires phase < 3 && a % 0x1_0000 == p as int * 0x100 + c
    ensures Pushed(a, phase) == Completed(p, c, phase)
  {
    var q := a / 0x1_0000;
    assert a == q * 0x1_0000 + p as int * 0x100 + c;
    if phase == 0 {
      OuterFields(q, p, c);
    } else if phase == 1 {
      SecondField(q, p, c);
    } else {
      ThirdField(q, p, c);
      OuterFields(q, p, c);
    }
  }

  /** What is still to be written after byte `p`, with `phase` bytes of a group in and `s` to come. */
  ghost function Remaining(p: byte, phase: nat, s: bytes): bytes
    requires phase < 3
    decreases |s|
  {
    if s == [] then Closing(p, phase)
    else Completed(p, s[0], phase) + Remaining(s[0], if phase == 2 then 0 else phase + 1, s[1..])
  }

  /** Byte by byte is group by group, whatever byte went before. */
  lemma {:induction false} RemainingIsEncoded(p: byte, x: bytes)
    ensures Remaining(p, 0, x) == Encoded(x)
    decreases |x|
  {
    if x != [] {
      assert Completed(p, x[0], 0) == Completed(0, x[0], 0);
      RemainingAfterOne(x);
    }
  }

  lemma {:induction false} RemainingAfterOne(x: bytes)
    requires x != []
    ensures Completed(0, x[0], 0) + Remaining(x[0], 1, x[1..]) == Encoded(x)
    decreases |x|, 0
  {
    if |x| == 2 {
      assert x[1..][1..] == [];
    } else if |x| > 2 {
      assert x[1..][1..] == x[2..] && x[2..][1..] == x[3..];
      assert Remaining(x[1], 2, x[2..]) == Completed(x[1], x[2], 2) + Remaining(x[2], 0, x[3..]);
      RemainingIsEncoded(x[2], x[3..]);
    }
  }

  /** Four symbols for every group begun. */
  lemma {:induction false} EncodedLength(x: bytes)
    ensures |Encoded(x)| == (|x| + 2) / 3 * 4
  {
    if |x| >= 3 {
      EncodedLength(x[3..]);
      var groups := (|x| - 1) / 3;
      assert (|x| + 2) / 3 == groups + 1;
    }
  }

  /** The inner loop of the encoder: every six-bit field that is complete. */
  method PushSymbols(a: int32, b0: int, ghost phase: nat, out0: bytes) returns (out: bytes, b: int)
    requires phase < 3 && b0 == 2 * phase + 2
    ensures out == out0 + Pushed(a, phase)
    ensures b == if phase == 2 then -6 else 2 * phase - 4
  {
    out, b := out0, b0;
    while b >= 0
      invariant b == b0 || b == b0 - 6 || (b0 == 6 && b == -6)
      invariant b == b0 ==> out == out0
      invariant b == b0 - 6 ==> out == out0 + Pushed(a, phase)[..1]
      invariant b == -6 ==> out == out0 + Pushed(a, phase)
    {
      out := out + [Symbol(ShiftRight(a, b) % 64)];
      b := b - 6;
    }
  }

  /** The last lines of the encoder: a zero-filled symbol and padding. */
  method Close(a: int32, b: int, ghost p: byte, ghost phase: nat, ghost quads: nat, out0: bytes)
    returns (out: bytes)
    requires phase < 3 && b == 2 * phase - 6 && a % 0x100 == p && |out0| == 4 * quads + phase
    ensures out == out0 + Closing(p, phase)
  {
    out := out0;
    if b > -6 {
      ShiftInByte(a, p, 0);
      PushedIsCompleted(ShiftLeft(a, 8), p, 0, phase);
      out := out + [Symbol(ShiftRight(ShiftLeft(a, 8), b + 8) % 64)];
    }
    ghost var target := out0 + Closing(p, phase);
    assert |target| == if phase == 0 then 4 * quads else 4 * quads + 4;
    while |out| % 4 != 0
      invariant out <= target && |out| >= |target| - 2 && (phase == 2 ==> |out| >= |target| - 1)
      decreases |target| - |out|
    {
      out := out + [PAD];
    }
  }

  lemma RemainingStep(out: bytes, p: byte, phase: nat, x: bytes, i: nat)
    requires phase < 3 && i < |x|
    ensures out + Remaining(p, phase, x[i..]) ==
      out + Completed(p, x[i], phase) + Remaining(x[i], if phase == 2 then 0 else phase + 1, x[i + 1..])
  {
    assert x[i..][1..] == x[i + 1..];
  }

  method Encode(x: bytes) returns (out: bytes)
    ensures out == Encoded(x)
  {
    out := [];
    var a: int32, b := 0, -6;
    ghost var phase := 0;
    ghost var p: byte := 0;
    ghost var quads := 0;
    RemainingIsEncoded(0, x);
    for i := 0 to |x|
      invariant 0 <= phase < 3 && b == 2 * phase - 6
      invariant a % 0x100 == p
      invariant |out| == 4 * quads + phase
      invariant out + Remaining(p, phase, x[i..]) == Encoded(x)
    {
      ShiftInByte(a, p, x[i]);
      a := ShiftLeft(a, 8) + x[i];
      b := b + 8;
      PushedIsCompleted(a, p, x[i], phase);
      RemainingStep(out, p, phase, x, i);
      out, b := PushSymbols(a, b, phase, out);
      p := x[i];
      quads := if phase == 2 then quads + 1 else quads;
      phase := if phase == 2 then 0 else phase + 1;
    }
    out := Close(a, b, p, phase, quads, out);
  }

  // ---- Decoding ----

  /** The byte that a symbol completes, from the low twelve bits of the accumulator. */
  lemma CompletedFromAccumulator(a: int32, b: int, p: sextet, v: sextet, phase: nat)
    requires a % 0x1000 == p as int * 64 + v && 1 <= phase < 4 && b == 6 - 2 * phase
    ensures ShiftRight(a, b) % 0x100 == CompletedByte(p, v, phase)
  {
    var q := a / 0x1000;
    assert a == q * 0x1000 + p as int * 64 + v;
    ByteAt2(q, p, v);
    ByteAt3(q, p, v);
    ByteAt0(q, p, v);
  }

  lemma ByteAt2(q: int, p: int, v: int)
    requires 0 <= p < 64 && 0 <= v < 64
    ensures (q * 0x1000 + p * 64 + v) / 16 % 0x100 == p * 4 + v / 16
  {
    var w := q * 0x100 + (p * 4 + v / 16);
    Quotients(q * 0x1000 + p * 64 + v, w, v % 16);
    RemainderByte(w, q, p * 4 + v / 16);
  }

  lemma ByteAt3(q: int, p: int, v: int)
    requires 0 <= p < 64 && 0 <= v < 64
    ensures (q * 0x1000 + p * 64 + v) / 4 % 0x100 == p % 16 * 16 + v / 4
  {
    ByteOfParts(q, p / 16, p % 16, v / 4, v % 4);
  }

  lemma ByteOfParts(q: int, p1: nat, p0: nat, v1: nat, v0: nat)
    requires p1 < 4 && p0 < 16 && v1 < 16 && v0 < 4
    ensures (q * 0x1000 + (p1 * 16 + p0) * 64 + (v1 * 4 + v0)) / 4 % 0x100 == p0 * 16 + v1
  {
    var w := (q * 4 + p1) * 0x100 + (p0 * 16 + v1);
    Quotients(q * 0x1000 + (p1 * 16 + p0) * 64 + (v1 * 4 + v0), w, v0);
    RemainderByte(w, q * 4 + p1, p0 * 16 + v1);
  }

  lemma ByteAt0(q: int, p: int, v: int)
    requires 0 <= p < 64 && 0 <= v < 64
    ensures (q * 0x1000 + p * 64 + v) % 0x100 == p % 4 * 64 + v
  {
    RemainderByte(q * 0x1000 + p * 64 + v, q * 16 + p / 4, p % 4 * 64 + v);
  }

  /** Shifting in six bits: wrapping loses only bits above the twelve kept here. */
  lemma ShiftInSextet(a: int32, p: sextet, v: sextet)
    requires a % 64 == p
    ensures -0x8000_0000 <= ShiftLeft(a, 6) + v < 0x8000_0000
    ensures (ShiftLeft(a, 6) + v) % 0x1000 == p as int * 64 + v
    ensures (ShiftLeft(a, 6) + v) % 64 == v
  {
    hide ToInt32;
    var k := Narrowed(a * 64);
    assert Pow2(6) == 64;
    SextetShiftedIn(ShiftLeft(a, 6), a / 64, k, p, v);
  }

  lemma SextetShiftedIn(w: int32, q: int, k: int, p: sextet, v: sextet)
    requires w == (q * 64 + p) * 64 + k * 0x1_0000_0000
    ensures w as int + v as int < 0x8000_0000
    ensures (w as int + v as int) % 0x1000 == p as int * 64 + v
    ensures (w as int + v as int) % 64 == v
  {
    var h := q + k * 0x10_0000;
    assert w == (h * 64 + p) * 64;
    RemainderTwelve(w + v, h, p as int * 64 + v);
    RemainderSextet(w + v, h * 64 + p, v);
  }

  lemma ValueIsSymbol(c: byte)
    ensures -1 <= SymbolValue(c) < 64
    ensures SymbolValue(c) >= 0 ==> Symbol(SymbolValue(c)) == c
  {
  }

  /** The inverse table of the decoder: -1 where a character is no symbol. */
  method InverseTable() returns (table: seq<int>)
    ensures |table| == 0x100
    ensures forall c: byte :: table[c] == SymbolValue(c)
  {
    table := seq(0x100, _ => -1);
    for v := 0 to 64
      invariant |table| == 0x100
      invariant forall c: byte :: table[c] == if SymbolValue(c) < v then SymbolValue(c) else -1
    {
      AlphabetIsSymbol(v);
      forall c: byte | SymbolValue(c) == v
        ensures c == Symbol(v)
      {
        ValueIsSymbol(c);
      }
      table := table[ALPHABET[v] as int := v];
    }
    forall c: byte
      ensures SymbolValue(c) < 64
    {
      ValueIsSymbol(c);
    }
  }

  method Decode(s: bytes) returns (out: bytes)
    ensures out == Decoded(s)
  {
    out := [];
    var table := InverseTable();
    var a: int32, b := 0, -8;
    ghost var phase := 0;
    ghost var p: sextet := 0;
    var i := 0;
    while i < |s|
      invariant i <= |s| && 0 <= phase < 4 && b == if phase == 0 then -8 else -2 * phase
      invariant a % 64 == p
      invariant out + Unpacked(p, phase, s[i..]) == Decoded(s)
    {
      var c: byte := s[i];
      ValueIsSymbol(c);
      var v := table[c];
      if v == -1 { break; }
      ShiftInSextet(a, p, v);
      a := ShiftLeft(a, 6) + v;
      b := b + 6;
      UnpackedStep(out, p, phase, s, i);
      if b >= 0 {
        CompletedFromAccumulator(a, b, p, v, phase);
        out := out + [ShiftRight(a, b) % 0x100];
        b := b - 8;
      }
      p := v;
      phase := if phase == 3 then 0 else phase + 1;
      i := i + 1;
    }
  }

  lemma UnpackedStep(out: bytes, p: sextet, phase: nat, s: bytes, i: nat)
    requires phase < 4 && i < |s| && SymbolValue(s[i]) >= 0
    ensures var v := SymbolValue(s[i]);
      out + Unpacked(p, phase, s[i..]) ==
      (if phase == 0 then out else out + [CompletedByte(p, v, phase)]) +
      Unpacked(v, if phase == 3 then 0 else phase + 1, s[i + 1..])
  {
    assert s[i..][1..] == s[i + 1..];
  }

  // ---- Decoding undoes encoding ----

  lemma FirstByte(x: byte, y: byte)
    ensures CompletedByte(x / 4, x % 4 * 16 + y / 16, 1) == x
  {
  }

  lemma SecondByte(x: byte, y: byte, z: byte)
    ensures CompletedByte(x % 4 * 16 + y / 16, y % 16 * 4 + z / 64, 2) == y
  {
    var x': int, y': int, z': int := x, y, z;
    assert (y' % 16 * 4 + z' / 64) / 4 == y' % 16;
    assert (x' % 4 * 16 + y' / 16) % 16 == y' / 16;
  }

  lemma ThirdByte(y: byte, z: byte)
    ensures CompletedByte(y % 16 * 4 + z / 64, z % 64, 3) == z
  {
  }

  lemma UnpackedCons(p: sextet, phase: nat, v: sextet, s: bytes)
    requires phase < 4
    ensures Unpacked(p, phase, [Symbol(v)] + s) ==
      (if phase == 0 then [] else [CompletedByte(p, v, phase)]) +
      Unpacked(v, if phase == 3 then 0 else phase + 1, s)
  {
    AlphabetIsSymbol(v);
    assert ([Symbol(v)] + s)[1..] == s;
  }

  /** Four symbols carry three bytes. */
  lemma UnpackedGroup(x: byte, y: byte, z: byte, rest: bytes)
    ensures Unpacked(0, 0, Completed(0, x, 0) + Completed(x, y, 1) + Completed(y, z, 2) + rest)
         == [x, y, z] + Unpacked(0, 0, rest)
  {
    var x': int, y': int, z': int := x, y, z;
    var v0, v1, v2, v3 := x' / 4, x' % 4 * 16 + y' / 16, y' % 16 * 4 + z' / 64, z' % 64;
    assert Completed(0, x, 0) + Completed(x, y, 1) + Completed(y, z, 2) + rest
        == [Symbol(v0)] + ([Symbol(v1)] + ([Symbol(v2)] + ([Symbol(v3)] + rest)));
    UnpackedCons(v2, 3, v3, rest);
    UnpackedCons(v1, 2, v2, [Symbol(v3)] + rest);
    UnpackedCons(v0, 1, v1, [Symbol(v2)] + ([Symbol(v3)] + rest));
    UnpackedCons(0, 0, v0, [Symbol(v1)] + ([Symbol(v2)] + ([Symbol(v3)] + rest)));
    FirstByte(x, y);
    SecondByte(x, y, z);
    ThirdByte(y, z);
    assert Unpacked(v3, 0, rest) == Unpacked(0, 0, rest);
  }

  lemma UnpackedOne(x: byte)
    ensures Unpacked(0, 0, Completed(0, x, 0) + Closing(x, 1)) == [x]
  {
    var v0, v1 := x as int / 4, x as int % 4 * 16;
    assert Completed(0, x, 0) + Closing(x, 1) == [Symbol(v0)] + ([Symbol(v1)] + [PAD, PAD]);
    UnpackedCons(v0, 1, v1, [PAD, PAD]);
    UnpackedCons(0, 0, v0, [Symbol(v1)] + [PAD, PAD]);
    FirstByte(x, 0);
  }

  lemma UnpackedTwo(x: byte, y: byte)
    ensures Unpacked(0, 0, Completed(0, x, 0) + Completed(x, y, 1) + Closing(y, 2)) == [x, y]
  {
    var x': int, y': int := x, y;
    var v0, v1, v2 := x' / 4, x' % 4 * 16 + y' / 16, y' % 16 * 4;
    assert Completed(0, x, 0) + Completed(x, y, 1) + Closing(y, 2)
        == [Symbol(v0)] + ([Symbol(v1)] + ([Symbol(v2)] + [PAD]));
    UnpackedCons(v1, 2, v2, [PAD]);
    UnpackedCons(v0, 1, v1, [Symbol(v2)] + [PAD]);
    UnpackedCons(0, 0, v0, [Symbol(v1)] + ([Symbol(v2)] + [PAD]));
    FirstByte(x, y);
    SecondByte(x, y, 0);
  }

  lemma {:induction false} RoundTrip(x: bytes)
    ensures Decoded(Encoded(x)) == x
  {
    if |x| == 1 {
      UnpackedOne(x[0]);
    } else if |x| == 2 {
      UnpackedTwo(x[0], x[1]);
    } else if |x| > 2 {
      UnpackedGroup(x[0], x[1], x[2], Encoded(x[3..]));
      RoundTrip(x[3..]);
      assert x == [x[0], x[1], x[2]] + x[3..];
    }
  }

  // ---- RFC 4648 in its own terms ----

  /** The symbols of table 1: letters, digits, plus and slash, by their codes. */
  lemma SymbolCodes(v: sextet)
    ensures v < 26 ==> Symbol(v) == 65 + v
    ensures 26 <= v < 52 ==> Symbol(v) == 97 + (v - 26)
    ensures 52 <= v < 62 ==> Symbol(v) == 48 + (v - 52)
    ensures v == 62 ==> Symbol(v) == 43
    ensures v == 63 ==> Symbol(v) == 47
  {
  }

  /** A group of 24 bits as four symbols, from the left. */
  function Quad(n: nat): (q: bytes)
    requires n < 0x100_0000
    ensures |q| == 4
  {
    [Symbol(n / 0x4_0000), Symbol(n / 0x1000 % 64), Symbol(n / 0x40 % 64), Symbol(n % 64)]
  }

  /** Three bytes at a time make a group of 24 bits. */
  lemma EncodedGroup(a: byte, b: byte, c: byte, rest: bytes)
    ensures Encoded([a, b, c] + rest) == Quad(a as int * 0x1_0000 + b as int * 0x100 + c as int) + Encoded(rest)
  {
    QuadIsCompleted(a, b, c);
    EncodedThree(a, b, c, rest);
  }

  lemma EncodedThree(a: byte, b: byte, c: byte, rest: bytes)
    ensures Encoded([a, b, c] + rest) ==
      Completed(0, a, 0) + Completed(a, b, 1) + Completed(b, c, 2) + Encoded(rest)
  {
    hide Completed, Closing;
    assert ([a, b, c] + rest)[3..] == rest;
  }

  /**
    Of two bytes left over three symbols and one "=" are written, of one byte two symbols and two "=", and
    of none nothing.
   */
  lemma EncodedEnd(a: byte, b: byte)
    ensures Encoded([a, b]) == Quad(a as int * 0x1_0000 + b as int * 0x100)[..3] + [61]
    ensures Encoded([a]) == Quad(a as int * 0x1_0000)[..2] + [61, 61]
    ensures Encoded([]) == []
  {
    OneLeft(a);
    TwoLeft(a, b);
  }

  lemma OneLeft(a: byte)
    ensures Encoded([a]) == Quad(a as int * 0x1_0000)[..2] + [61, 61]
  {
    hide Symbol, Quad;
    QuadIsCompleted(a, 0, 0);
  }

  lemma TwoLeft(a: byte, b: byte)
    ensures Encoded([a, b]) == Quad(a as int * 0x1_0000 + b as int * 0x100)[..3] + [61]
  {
    hide Symbol, Quad;
    QuadIsCompleted(a, b, 0);
  }

  /** The character "=" (code 61) fills up the last four, and stands nowhere else. */
  lemma {:induction false} Padding(x: bytes)
    ensures var s := Encoded(x);
      forall i :: 0 <= i < |s| ==> (s[i] == 61 <==> i >= |s| - (3 - |x| % 3) % 3)
  {
    hide Encoded, Quad, Symbol;
    if |x| >= 3 {
      var q := Quad(x[0] as int * 0x1_0000 + x[1] as int * 0x100 + x[2] as int);
      assert x == [x[0], x[1], x[2]] + x[3..];
      EncodedGroup(x[0], x[1], x[2], x[3..]);
      NoPadding(x[0] as int * 0x1_0000 + x[1] as int * 0x100 + x[2] as int);
      Padding(x[3..]);
      EncodedLength(x[3..]);
      var rest, pad := Encoded(x[3..]), (3 - |x| % 3) % 3;
      assert pad == (3 - |x[3..]| % 3) % 3 && |rest| >= pad;
      forall i | 0 <= i < 4 + |rest|
        ensures (q + rest)[i] == 61 <==> i >= 4 + |rest| - pad
      {
        assert i >= 4 ==> (q + rest)[i] == rest[i - 4];
      }
    } else {
      EncodedEnd(if x == [] then 0 else x[0], if |x| < 2 then 0 else x[1]);
      NoPadding(if |x| == 2 then x[0] as int * 0x1_0000 + x[1] as int * 0x100
                else if |x| == 1 then x[0] as int * 0x1_0000 else 0);
      assert x == (if x == [] then [] else if |x| == 1 then [x[0]] else [x[0], x[1]]);
    }
  }

  lemma NoPadding(n: nat)
    requires n < 0x100_0000
    ensures forall i :: 0 <= i < 4 ==> Quad(n)[i] != 61
  {
  }

  lemma QuadIsCompleted(a: byte, b: byte, c: byte)
    ensures var n := a as int * 0x1_0000 + b as int * 0x100 + c as int;
      n < 0x100_0000 && Quad(n) == Completed(0, a, 0) + Completed(a, b, 1) + Completed(b, c, 2)
  {
    hide Symbol;
    QuadFields(a, b, c);
  }

  lemma QuadFields(a: nat, b: nat, c: nat)
    requires a < 0x100 && b < 0x100 && c < 0x100
    ensures var n := a * 0x1_0000 + b * 0x100 + c;
      && n < 0x100_0000 && n / 0x4_0000 == a / 4 && n / 0x1000 % 64 == a % 4 * 16 + b / 16
      && n / 0x40 % 64 == b % 16 * 4 + c / 64 && n % 64 == c % 64
  {
    FieldsOfParts(a / 4, a % 4, b / 16, b % 16, c / 64, c % 64);
  }

  lemma FieldsOfParts(a1: nat, a0: nat, b1: nat, b0: nat, c1: nat, c0: nat)
    requires a1 < 64 && a0 < 4 && b1 < 16 && b0 < 16 && c1 < 4 && c0 < 64
    ensures var n := (a1 * 4 + a0) * 0x1_0000 + (b1 * 16 + b0) * 0x100 + (c1 * 64 + c0);
      && n / 0x4_0000 == a1 && n / 0x1000 % 64 == a0 * 16 + b1
      && n / 0x40 % 64 == b0 * 4 + c1 && n % 64 == c0
  {
    var v1, v2 := a0 * 16 + b1, b0 * 4 + c1;
    var n := ((a1 * 64 + v1) * 64 + v2) * 64 + c0;
    assert n == (a1 * 4 + a0) * 0x1_0000 + (b1 * 16 + b0) * 0x100 + (c1 * 64 + c0);
    Quotients(n, (a1 * 64 + v1) * 64 + v2, c0);
    Quotients((a1 * 64 + v1) * 64 + v2, a1 * 64 + v1, v2);
    WideQuotients(n, a1 * 64 + v1, v2 * 64 + c0, a1, v1 * 0x1000 + (v2 * 64 + c0));
    RemainderSextet(a1 * 64 + v1, a1, v1);
    RemainderSextet((a1 * 64 + v1) * 64 + v2, a1 * 64 + v1, v2);
    RemainderSextet(n, (a1 * 64 + v1) * 64 + v2, c0);
  }

  lemma WideQuotients(n: int, w: int, r: nat, w': int, r': nat)
    requires n == w * 0x1000 + r && r < 0x1000 && n == w' * 0x4_0000 + r' && r' < 0x4_0000
    ensures n / 0x1000 == w && n / 0x4_0000 == w'
  {
  }

  /** Every character is read as a symbol by its code, or is none. */
  lemma SymbolValues(c: byte)
    ensures 65 <= c <= 90 ==> SymbolValue(c) == c - 65
    ensures 97 <= c <= 122 ==> SymbolValue(c) == 26 + (c - 97)
    ensures 48 <= c <= 57 ==> SymbolValue(c) == 52 + (c - 48)
    ensures c == 43 ==> SymbolValue(c) == 62
    ensures c == 47 ==> SymbolValue(c) == 63
    ensures SymbolValue(c) >= 0 <==> 65 <= c <= 90 || 97 <= c <= 122 || 48 <= c <= 57 || c == 43 || c == 47
  {
  }

  /** Reading stops at the first character that is no symbol, padding included. */
  lemma {:induction false} DecodingStops(s: bytes, i: nat, p: sextet, phase: nat)
    requires i < |s| && SymbolValue(s[i]) < 0 && phase < 4
    ensures Unpacked(p, phase, s) == Unpacked(p, phase, s[..i])
    ensures Decoded(s) == Decoded(s[..i])
    decreases i
  {
    if i > 0 {
      assert s[1..][..i - 1] == s[..i][1..];
      if SymbolValue(s[0]) >= 0 {
        DecodingStops(s[1..], i - 1, SymbolValue(s[0]), if phase == 3 then 0 else phase + 1);
        DecodingStops(s[1..], i - 1, SymbolValue(s[0]), 1);
      }
    }
  }

  /** Four symbols are three bytes, three are two, two are one, and a single one is nothing. */
  lemma DecodedByGroups(v0: sextet, v1: sextet, v2: sextet, v3: sextet, rest: bytes)
    ensures var n := ((v0 as int * 64 + v1 as int) * 64 + v2 as int) * 64 + v3 as int;
      && Decoded([Symbol(v0), Symbol(v1), Symbol(v2), Symbol(v3)] + rest) ==
           [n / 0x1_0000, n / 0x100 % 0x100, n % 0x100] + Decoded(rest)
      && Decoded([Symbol(v0), Symbol(v1), Symbol(v2)]) ==
           [v0 as int * 4 + v1 as int / 16, v1 as int % 16 * 16 + v2 as int / 4]
      && Decoded([Symbol(v0), Symbol(v1)]) == [v0 as int * 4 + v1 as int / 16]
      && Decoded([Symbol(v0)]) == [] && Decoded([]) == []
  {
    hide Symbol, Unpacked;
    UnpackedTail(v0, v1, v2);
    UnpackedFour(v0, v1, v2, v3, rest);
    BytesOfParts(v0, v1 as int / 16, v1 as int % 16, v2 as int / 4, v2 as int % 4, v3);
  }

  lemma BytesOfParts(v0: nat, b1: nat, b0: nat, c1: nat, c0: nat, v3: nat)
    requires v0 < 64 && b1 < 4 && b0 < 16 && c1 < 16 && c0 < 4 && v3 < 64
    ensures var n := ((v0 * 64 + (b1 * 16 + b0)) * 64 + (c1 * 4 + c0)) * 64 + v3;
      && n / 0x1_0000 == v0 * 4 + b1 && n / 0x100 % 0x100 == b0 * 16 + c1 && n % 0x100 == c0 * 64 + v3
  {
    var x, y, z := v0 * 4 + b1, b0 * 16 + c1, c0 * 64 + v3;
    var n := (x * 0x100 + y) * 0x100 + z;
    assert n == ((v0 * 64 + (b1 * 16 + b0)) * 64 + (c1 * 4 + c0)) * 64 + v3;
    ByteQuotients(n, x * 0x100 + y, z, x, y * 0x100 + z);
    RemainderByte(n, x * 0x100 + y, z);
    RemainderByte(x * 0x100 + y, x, y);
  }

  lemma ByteQuotients(n: int, w: int, r: nat, w': int, r': nat)
    requires n == w * 0x100 + r && r < 0x100 && n == w' * 0x1_0000 + r' && r' < 0x1_0000
    ensures n / 0x100 == w && n / 0x1_0000 == w'
  {
  }

  lemma UnpackedFour(v0: sextet, v1: sextet, v2: sextet, v3: sextet, rest: bytes)
    ensures Unpacked(0, 0, [Symbol(v0), Symbol(v1), Symbol(v2), Symbol(v3)] + rest) ==
      [CompletedByte(v0, v1, 1), CompletedByte(v1, v2, 2), CompletedByte(v2, v3, 3)] + Unpacked(0, 0, rest)
  {
    hide Symbol, CompletedByte;
    assert [Symbol(v0), Symbol(v1), Symbol(v2), Symbol(v3)] + rest
        == [Symbol(v0)] + ([Symbol(v1)] + ([Symbol(v2)] + ([Symbol(v3)] + rest)));
    UnpackedCons(v2, 3, v3, rest);
    UnpackedCons(v1, 2, v2, [Symbol(v3)] + rest);
    UnpackedCons(v0, 1, v1, [Symbol(v2)] + ([Symbol(v3)] + rest));
    UnpackedCons(0, 0, v0, [Symbol(v1)] + ([Symbol(v2)] + ([Symbol(v3)] + rest)));
    FirstOfGroup(v3, rest);
  }

  /** What came before a group does not matter. */
  lemma FirstOfGroup(p: sextet, s: bytes)
    ensures Unpacked(p, 0, s) == Unpacked(0, 0, s)
  {
  }

  lemma UnpackedTail(v0: sextet, v1: sextet, v2: sextet)
    ensures Unpacked(0, 0, []) == [] && Unpacked(0, 0, [Symbol(v0)]) == []
    ensures Unpacked(0, 0, [Symbol(v0), Symbol(v1)]) == [CompletedByte(v0, v1, 1)]
    ensures Unpacked(0, 0, [Symbol(v0), Symbol(v1), Symbol(v2)]) ==
      [CompletedByte(v0, v1, 1), CompletedByte(v1, v2, 2)]
  {
    hide Symbol, CompletedByte, Unpacked;
    NothingUnpacked(0, 0);
    LastUnpacked(0, 0, v0);
    LastUnpacked(v0, 1, v1);
    LastUnpacked(v1, 2, v2);
    UnpackedCons(0, 0, v0, [Symbol(v1)]);
    UnpackedCons(v0, 1, v1, [Symbol(v2)]);
    UnpackedCons(0, 0, v0, [Symbol(v1), Symbol(v2)]);
    assert [Symbol(v0)] + [Symbol(v1)] == [Symbol(v0), Symbol(v1)];
    assert [Symbol(v1)] + [Symbol(v2)] == [Symbol(v1), Symbol(v2)];
    assert [Symbol(v0)] + [Symbol(v1), Symbol(v2)] == [Symbol(v0), Symbol(v1), Symbol(v2)];
  }

  lemma NothingUnpacked(p: sextet, phase: nat)
    requires phase < 4
    ensures Unpacked(p, phase, []) == []
  {
  }

  lemma LastUnpacked(p: sextet, phase: nat, v: sextet)
    requires phase < 4
    ensures Unpacked(p, phase, [Symbol(v)]) == if phase == 0 then [] else [CompletedByte(p, v, phase)]
  {
    hide Symbol, CompletedByte, Unpacked;
    UnpackedCons(p, phase, v, []);
    NothingUnpacked(v, if phase == 3 then 0 else phase + 1);
    assert [Symbol(v)] + [] == [Symbol(v)];
  }
}
