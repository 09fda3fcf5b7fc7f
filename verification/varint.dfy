/**
 Base-128 varints and zigzag numbers, as `WriteUVarInt`, `ReadUVarInt` and
 their signed forms compute them. Shifts and masks are written as the
 arithmetic they perform on the unsigned value.
 */
module Varints {
  import opened Options
  import opened Bytes

  const TWO_TO_64 := 0x1_0000_0000_0000_0000

  function Pow2(n: nat): (p: nat)
    ensures p > 0
  {
    if n == 0 then 1 else 2 * Pow2(n - 1)
  }

  lemma Pow2Seven(n: nat)
    ensures Pow2(n + 7) == 128 * Pow2(n)
  {
    assert Pow2(n + 7) == 2 * Pow2(n + 6);
    assert Pow2(n + 5) == 2 * Pow2(n + 4);
    assert Pow2(n + 3) == 2 * Pow2(n + 2);
    assert Pow2(n + 1) == 2 * Pow2(n);
  }

  lemma Pow2At63()
    ensures Pow2(63) == 0x8000_0000_0000_0000 && Pow2(70) == 64 * TWO_TO_64
  {
    Pow2Seven(0);
    Pow2Seven(7);
    Pow2Seven(14);
    Pow2Seven(21);
    Pow2Seven(28);
    Pow2Seven(35);
    Pow2Seven(42);
    Pow2Seven(49);
    Pow2Seven(56);
    Pow2Seven(63);
  }

  /** Seven bits at a time, low bits first, all but the last byte marked. */
  function UVarInt(v: nat): (s: seq<Byte>)
    ensures |s| >= 1
  {
    if v < 0x80 then [v] else [v % 0x80 + 0x80] + UVarInt(v / 0x80)
  }

  /** Reads on from `pos` with `shift` bits already in `acc`: the value and the position after it. */
  function UVarIntFrom(s: seq<Byte>, pos: nat, shift: nat, acc: nat): Option<(nat, nat)>
    decreases 64 - shift
  {
    if pos >= |s| || (shift == 63 && s[pos] > 1) then None
    else
      var acc' := acc + s[pos] % 0x80 * Pow2(shift);
      if s[pos] < 0x80 then Some((acc', pos + 1))
      else if shift + 7 >= 64 then None
      else UVarIntFrom(s, pos + 1, shift + 7, acc')
  }

  lemma UVarIntStep(s: seq<Byte>, pos: nat, shift: nat, acc: nat)
    ensures UVarIntFrom(s, pos, shift, acc) ==
            if pos >= |s| || (shift == 63 && s[pos] > 1) then None
            else
              var acc' := acc + s[pos] % 0x80 * Pow2(shift);
              if s[pos] < 0x80 then Some((acc', pos + 1))
              else if shift + 7 >= 64 then None
              else UVarIntFrom(s, pos + 1, shift + 7, acc')
  {
  }

  function UVarIntAt(s: seq<Byte>, pos: nat): Option<(nat, nat)> {
    UVarIntFrom(s, pos, 0, 0)
  }

  lemma {:induction false} UVarIntOn(s: seq<Byte>, pos: nat, shift: nat, acc: nat, v: nat)
    requires At(s, pos, UVarInt(v)) && shift % 7 == 0 && shift <= 63 && acc + v * Pow2(shift) < TWO_TO_64
    ensures UVarIntFrom(s, pos, shift, acc) == Some((acc + v * Pow2(shift), pos + |UVarInt(v)|))
    decreases v
  {
    hide Pow2;
    var p := Pow2(shift);
    assert s[pos] == UVarInt(v)[0];
    FitsAt63(v, shift);
    if v >= 0x80 {
      AtSplit(s, pos, [v % 0x80 + 0x80], UVarInt(v / 0x80));
      Pow2Seven(shift);
      Regroup(v, p);
      UVarIntOn(s, pos + 1, shift + 7, acc + v % 0x80 * p, v / 0x80);
    }
  }

  lemma Regroup(v: nat, p: nat)
    ensures v * p == v / 0x80 * (128 * p) + v % 0x80 * p
  {
    assert v == v / 0x80 * 128 + v % 0x80;
    calc {
      v * p;
      (v / 0x80 * 128 + v % 0x80) * p;
      v / 0x80 * 128 * p + v % 0x80 * p;
    }
  }

  /** The tenth byte has room for one bit. */
  lemma FitsAt63(v: nat, shift: nat)
    requires v * Pow2(shift) < TWO_TO_64
    ensures shift == 63 ==> v <= 1
  {
    Pow2At63();
  }

  /** Every 64-bit value is read back, wherever it stands. */
  lemma UVarIntRoundTrip(s: seq<Byte>, pos: nat, v: nat)
    requires At(s, pos, UVarInt(v)) && v < TWO_TO_64
    ensures UVarIntAt(s, pos) == Some((v, pos + |UVarInt(v)|))
  {
    hide UVarInt, UVarIntFrom;
    assert Pow2(0) == 1;
    UVarIntOn(s, pos, 0, 0, v);
  }

  /** Byte `i` holds the `i`th group of seven bits, the lowest first; all bytes but the last are marked. */
  lemma {:induction false} UVarIntBytes(v: nat, i: nat)
    requires i < |UVarInt(v)|
    ensures UVarInt(v)[i] == v / Pow2(7 * i) % 128 + if i + 1 < |UVarInt(v)| then 128 else 0
    ensures i + 1 == |UVarInt(v)| ==> v < Pow2(7 * i + 7) && (i == 0 || v >= Pow2(7 * i))
    decreases v
  {
    hide Pow2;
    ZeroShift();
    Pow2Seven(0);
    if v >= 0x80 && i > 0 {
      UVarIntBytes(v / 0x80, i - 1);
      Pow2Seven(7 * (i - 1));
      Pow2Seven(7 * i);
      DivSeven(v, Pow2(7 * (i - 1)));
    }
  }

  lemma ZeroShift()
    ensures Pow2(0) == 1
  {
  }

  lemma DivSeven(v: nat, p: nat)
    requires p > 0
    ensures v / 128 / p == v / (128 * p)
    ensures v / 128 < 128 * p ==> v < 128 * (128 * p)
    ensures v / 128 >= p ==> v >= 128 * p
  {
    var q, r := v / 128 / p, v / 128 % p;
    assert v == 128 * (q * p + r) + v % 128 == q * (128 * p) + (128 * r + v % 128);
    DivUnique(v, 128 * p, q, 128 * r + v % 128);
  }

  // ---- Size ----

  /** `bits.Len64`. */
  function BitLen(v: nat): (n: nat)
    ensures v > 0 ==> n > 0
  {
    if v == 0 then 0 else 1 + BitLen(v / 2)
  }

  function UVarIntSize(v: nat): nat {
    if v == 0 then 1 else (BitLen(v) + 6) / 7
  }

  lemma {:induction false} BitLenShift(v: nat, k: nat)
    requires v >= Pow2(k)
    ensures BitLen(v) == k + BitLen(v / Pow2(k))
  {
    if k > 0 {
      assert v / 2 >= Pow2(k - 1);
      BitLenShift(v / 2, k - 1);
      DivTwice(v, Pow2(k - 1));
    }
  }

  lemma DivTwice(v: nat, p: nat)
    requires p > 0
    ensures v / 2 / p == v / (2 * p)
  {
    var q, r := v / 2 / p, v / 2 % p;
    assert v == 2 * (q * p + r) + v % 2 == q * (2 * p) + (2 * r + v % 2);
    DivUnique(v, 2 * p, q, 2 * r + v % 2);
  }

  lemma DivUnique(v: int, m: int, q: int, r: int)
    requires 0 <= r < m && v == q * m + r
    ensures v / m == q
  {
    ModUnique(v, m, q, r);
    assert (v / m - q) * m == 0;
    Scale(v / m - q, m);
  }

  lemma {:induction false} BitLenSmall(v: nat, k: nat)
    requires v < Pow2(k)
    ensures BitLen(v) <= k
  {
    if v > 0 {
      BitLenSmall(v / 2, k - 1);
    }
  }

  /** `UVarIntSize` is the number of bytes written. */
  lemma {:induction false} SizeIsLength(v: nat)
    ensures UVarIntSize(v) == |UVarInt(v)|
  {
    Pow2Seven(0);
    if v < 0x80 {
      BitLenSmall(v, 7);
    } else {
      SizeIsLength(v / 0x80);
      BitLenShift(v, 7);
    }
  }

  // ---- Zigzag ----

  /** `uint64((v << 1) ^ (v >> 63))`. */
  function ZigZag(v: int): nat {
    if v >= 0 then 2 * v else -2 * v - 1
  }

  /** `int64((u >> 1) ^ -(u & 1))`. */
  function UnZigZag(u: nat): int {
    if u % 2 == 0 then u / 2 else -(u / 2) - 1
  }

  function VarInt(v: int): seq<Byte> {
    UVarInt(ZigZag(v))
  }

  function VarIntAt(s: seq<Byte>, pos: nat): Option<(int, nat)> {
    match UVarIntAt(s, pos)
    case None => None
    case Some((u, next)) => Some((UnZigZag(u), next))
  }

  /** Small numbers of either sign get small codes: 0, -1, 1, -2, 2 and so on, without a gap. */
  lemma ZigZagRoundTrip(v: int)
    ensures UnZigZag(ZigZag(v)) == v
    ensures In64(v) <==> ZigZag(v) < TWO_TO_64
    ensures ZigZag(0) == 0 && (ZigZag(v) % 2 == 0 <==> v >= 0)
    ensures v > 0 ==> ZigZag(v) == ZigZag(-v) + 1
    ensures v < 0 ==> ZigZag(v) == ZigZag(-v - 1) + 1
  {
  }

  /** One byte for -64 to 63. */
  lemma SmallVarInt(v: int)
    requires -64 <= v <= 63
    ensures VarInt(v) == [if v >= 0 then 2 * v else -2 * v - 1]
  {
  }

  /** Every int64 is read back. */
  lemma VarIntRoundTrip(s: seq<Byte>, pos: nat, v: int)
    requires At(s, pos, VarInt(v)) && In64(v)
    ensures VarIntAt(s, pos) == Some((v, pos + |VarInt(v)|))
  {
    hide UVarInt, UVarIntAt;
    ZigZagRoundTrip(v);
    UVarIntRoundTrip(s, pos, ZigZag(v));
  }
}
