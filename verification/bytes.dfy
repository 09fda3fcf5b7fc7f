/**
 Bytes and the big-endian integers of the wire and file formats.

 `PutBE` writes the low-order bytes of an integer, as Go's
 `binary.BigEndian.PutUintN(b, uintN(v))` does for signed and unsigned `v`
 alike (two's complement). `Signed` is the conversion back to `intN`.
 */
module Bytes {

  type Byte = b: int | 0 <= b < 256

  type Int16 = x: int | -0x8000 <= x < 0x8000
  type Int32 = x: int | -0x8000_0000 <= x < 0x8000_0000
  type Int64 = x: int | -0x8000_0000_0000_0000 <= x < 0x8000_0000_0000_0000
  type UInt32 = x: int | 0 <= x < 0x1_0000_0000

  const MAX_INT32: Int32 := 0x7FFF_FFFF
  const MAX_INT64 := 0x7FFF_FFFF_FFFF_FFFF

  predicate In16(x: int) { -0x8000 <= x < 0x8000 }
  predicate In32(x: int) { -0x8000_0000 <= x < 0x8000_0000 }
  predicate In64(x: int) { -0x8000_0000_0000_0000 <= x <= MAX_INT64 }

  function Pow256(n: nat): (p: int)
    ensures p > 0
  {
    if n == 0 then 1 else 256 * Pow256(n - 1)
  }

  function PutBE(width: nat, v: int): (s: seq<Byte>)
    ensures |s| == width
  {
    if width == 0 then [] else PutBE(width - 1, v / 256) + [v % 256]
  }

  function GetBE(s: seq<Byte>): (v: nat)
    ensures v < Pow256(|s|)
  {
    if s == [] then 0 else 256 * GetBE(s[..|s| - 1]) + s[|s| - 1]
  }

  /** Reinterprets a `width`-byte unsigned value as a two's complement one. */
  function Signed(width: nat, u: nat): int
  {
    if 2 * u >= Pow256(width) then u - Pow256(width) else u
  }

  /** What was written is read back, modulo the width: Go's unsigned conversion. */
  lemma {:induction false} GetPut(width: nat, v: int)
    ensures GetBE(PutBE(width, v)) == v % Pow256(width)
  {
    if width > 0 {
      GetPut(width - 1, v / 256);
      var s := PutBE(width, v);
      assert s[..|s| - 1] == PutBE(width - 1, v / 256);
      ModShift(v, Pow256(width - 1));
    }
  }

  lemma ModShift(v: int, p: int)
    requires p > 0
    ensures 256 * (v / 256 % p) + v % 256 == v % (256 * p)
  {
    var q, r := v / 256 / p, v / 256 % p;
    assert v == 256 * (q * p + r) + v % 256 == q * (256 * p) + (256 * r + v % 256);
    ModUnique(v, 256 * p, q, 256 * r + v % 256);
  }

  lemma ModUnique(v: int, m: int, q: int, r: int)
    requires 0 <= r < m && v == q * m + r
    ensures v % m == r
  {
    var d := q - v / m;
    assert d * m == v % m - r;
    Scale(d, m);
  }

  lemma Scale(d: int, m: int)
    requires m > 0
    ensures d >= 1 ==> d * m >= m
    ensures d <= -1 ==> d * m <= -m
  {
  }

  lemma {:induction false} PutGet(s: seq<Byte>)
    ensures PutBE(|s|, GetBE(s)) == s
  {
    if s != [] {
      var front, last := s[..|s| - 1], s[|s| - 1];
      PutGet(front);
      assert GetBE(s) / 256 == GetBE(front) && GetBE(s) % 256 == last;
      hide GetBE;
      assert s == front + [last];
    }
  }

  /** Every `width`-byte signed integer survives a write and a read. */
  lemma SignedGetPut(width: nat, v: int)
    requires -Pow256(width) <= 2 * v < Pow256(width)
    ensures Signed(width, GetBE(PutBE(width, v))) == v
  {
    GetPut(width, v);
    var m := Pow256(width);
    if v < 0 {
      ModUnique(v, m, -1, v + m);
    } else {
      ModUnique(v, m, 0, v);
    }
  }

  /** Most significant byte first: byte `i` of `width` counts 256 to the power of the bytes behind it. */
  lemma {:induction false} BigEndian(width: nat, v: int, i: nat)
    requires i < width
    ensures PutBE(width, v)[i] == v / Pow256(width - 1 - i) % 256
  {
    if i < width - 1 {
      BigEndian(width - 1, v / 256, i);
      DivShift(v, Pow256(width - 2 - i));
    } else {
      assert Pow256(0) == 1;
    }
  }

  lemma DivShift(v: int, p: int)
    requires p > 0
    ensures v / 256 / p == v / (256 * p)
  {
    var q, r := v / 256 / p, v / 256 % p;
    assert v == 256 * (q * p + r) + v % 256 == q * (256 * p) + (256 * r + v % 256);
    var m := 256 * p;
    ModUnique(v, m, q, 256 * r + v % 256);
    assert (v / m - q) * m == 0;
    Scale(v / m - q, m);
  }

  lemma Widths()
    ensures Pow256(1) == 0x100 && Pow256(2) == 0x1_0000 && Pow256(4) == 0x1_0000_0000
    ensures Pow256(8) == 0x1_0000_0000_0000_0000
  {
    assert Pow256(2) == 256 * Pow256(1);
    assert Pow256(4) == 256 * Pow256(3);
    assert Pow256(8) == 256 * Pow256(7);
    assert Pow256(7) == 256 * Pow256(6);
    assert Pow256(6) == 256 * Pow256(5);
    assert Pow256(5) == 256 * Pow256(4);
  }

  /** Go's `uint32(x)`. */
  function Wrap32(x: int): int { x % 0x1_0000_0000 }

  lemma Wrap32Small(x: int)
    requires 0 <= x < 0x1_0000_0000
    ensures Wrap32(x) == x
  {
  }

  function UnsignedAt(s: seq<Byte>, pos: nat, width: nat): (v: nat)
    requires pos + width <= |s|
    ensures v < Pow256(width)
  {
    GetBE(s[pos..pos + width])
  }

  function I16At(s: seq<Byte>, pos: nat): Int16
    requires pos + 2 <= |s|
  {
    Widths();
    Signed(2, UnsignedAt(s, pos, 2))
  }

  function I32At(s: seq<Byte>, pos: nat): Int32
    requires pos + 4 <= |s|
  {
    Widths();
    Signed(4, UnsignedAt(s, pos, 4))
  }

  function I64At(s: seq<Byte>, pos: nat): Int64
    requires pos + 8 <= |s|
  {
    Widths();
    Signed(8, UnsignedAt(s, pos, 8))
  }

  // ---- Reading fields out of a concatenation ----

  /** `piece` stands in `s` at `pos`. */
  predicate At(s: seq<Byte>, pos: nat, piece: seq<Byte>) {
    pos + |piece| <= |s| && s[pos..pos + |piece|] == piece
  }

  lemma AtSplit(s: seq<Byte>, pos: nat, x: seq<Byte>, y: seq<Byte>)
    requires At(s, pos, x + y)
    ensures At(s, pos, x) && At(s, pos + |x|, y)
  {
    assert s[pos..pos + |x|] == s[pos..pos + |x + y|][..|x|] == x;
    assert s[pos + |x|..pos + |x| + |y|] == s[pos..pos + |x + y|][|x|..] == y;
  }

  lemma AtStart(x: seq<Byte>, rest: seq<Byte>)
    ensures At(x + rest, 0, x) && At(x + rest, |x|, rest)
  {
  }

  lemma AtInside(s: seq<Byte>, pos: nat, piece: seq<Byte>, off: nat, sub: seq<Byte>)
    requires At(s, pos, piece) && At(piece, off, sub)
    ensures At(s, pos + off, sub)
  {
    forall k | 0 <= k < |sub| ensures s[pos + off + k] == sub[k] {
      assert s[pos..pos + |piece|][off + k] == piece[off + k] == piece[off..off + |sub|][k];
    }
  }

  lemma AtFits(s: seq<Byte>, pos: nat, piece: seq<Byte>)
    requires At(s, pos, piece)
    ensures pos + |piece| <= |s|
  {
  }

  lemma SignedAt(s: seq<Byte>, pos: nat, width: nat, v: int)
    requires At(s, pos, PutBE(width, v)) && -Pow256(width) <= 2 * v < Pow256(width)
    ensures Signed(width, UnsignedAt(s, pos, width)) == v
  {
    SignedGetPut(width, v);
  }

  lemma UnsignedRead(s: seq<Byte>, pos: nat, width: nat, v: int)
    requires At(s, pos, PutBE(width, v)) && 0 <= v < Pow256(width)
    ensures UnsignedAt(s, pos, width) == v
  {
    GetPut(width, v);
    ModUnique(v, Pow256(width), 0, v);
  }

  lemma Read16(raw: seq<Byte>, pos: nat, v: int)
    requires At(raw, pos, PutBE(2, v)) && In16(v)
    ensures I16At(raw, pos) == v
  {
    Widths();
    SignedAt(raw, pos, 2, v);
  }

  lemma Read32(raw: seq<Byte>, pos: nat, v: int)
    requires At(raw, pos, PutBE(4, v)) && In32(v)
    ensures I32At(raw, pos) == v
  {
    Widths();
    SignedAt(raw, pos, 4, v);
  }

  lemma Read64(raw: seq<Byte>, pos: nat, v: int)
    requires At(raw, pos, PutBE(8, v)) && In64(v)
    ensures I64At(raw, pos) == v
  {
    Widths();
    SignedAt(raw, pos, 8, v);
  }

  lemma ReadByte(raw: seq<Byte>, pos: nat, v: Byte)
    requires At(raw, pos, PutBE(1, v))
    ensures raw[pos] == v
  {
    assert PutBE(1, v)[0] == v;
    assert raw[pos] == raw[pos..pos + 1][0];
  }

  lemma AtWhole(s: seq<Byte>)
    ensures At(s, 0, s)
  {
  }
}
