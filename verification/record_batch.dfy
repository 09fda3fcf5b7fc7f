/**
 The magic-2 record batch as it lies in a log file, and files made of whole
 batches. The header fields sit at fixed offsets (section 5.3.1 of the Apache
 Kafka documentation).

 A `Batch` is its bytes together with the two header values the log works
 with; `Whole` says that the bytes carry exactly those values, so that the
 offset reasoning below never has to look at bytes.
 */
module RecordBatch {
  import opened Bytes

  datatype Batch = Batch(base: int, count: int, raw: seq<Byte>) {
    function NextOffset(): int { base + count }
    function LastOffset(): int { base + count - 1 }
  }

  const LOG_OVERHEAD: nat := 12          // base offset (8) and batch length (4)
  const HEADER_UP_TO_MAGIC: nat := 17
  const HEADER_WITH_DELTA: nat := 27
  const HEADER_WITH_PRODUCER: nat := 57
  const HEADER_SIZE: nat := 61

  function TotalLengthAt(s: seq<Byte>, pos: nat): int
    requires pos + LOG_OVERHEAD <= |s|
  {
    LOG_OVERHEAD + I32At(s, pos + 8)
  }

  /** The bytes at `p` are a complete batch with this base offset and record count. */
  predicate HeaderSays(s: seq<Byte>, p: nat, base: int, count: int, length: int) {
    && p + HEADER_SIZE <= |s|
    && TotalLengthAt(s, p) == length
    && I64At(s, p) == base
    && I32At(s, p + 23) == count - 1
    && I32At(s, p + 57) == count
  }

  predicate Whole(b: Batch) {
    && 0 <= b.base
    && 1 <= b.count
    && HeaderSays(b.raw, 0, b.base, b.count, |b.raw|)
  }

  predicate AllWhole(bs: seq<Batch>) {
    forall k | 0 <= k < |bs| :: Whole(bs[k])
  }

  lemma AllWholeAppend(bs: seq<Batch>, cs: seq<Batch>)
    requires AllWhole(bs) && AllWhole(cs)
    ensures AllWhole(bs + cs)
  {
  }

  /** `AppendRaw` overwrites the base offset field; the CRC does not cover it. */
  function Patch(raw: seq<Byte>, base: int): (r: seq<Byte>)
    requires |raw| >= 8
    ensures |r| == |raw|
  {
    PutBE(8, base) + raw[8..]
  }

  function Rebase(b: Batch, base: int): Batch
    requires |b.raw| >= 8
  {
    Batch(base, b.count, Patch(b.raw, base))
  }

  lemma RebaseWhole(b: Batch, base: Int64)
    requires Whole(b) && 0 <= base
    ensures Whole(Rebase(b, base))
    ensures Rebase(b, base).raw[8..] == b.raw[8..]
  {
    var r := Rebase(b, base).raw;
    assert r[0..8] == PutBE(8, base);
    Widths();
    SignedGetPut(8, base);
    assert r[8..12] == b.raw[8..12] && r[23..27] == b.raw[23..27] && r[57..61] == b.raw[57..61];
  }

  /** Patching a batch with the base offset it already has changes no byte. */
  lemma RebaseToOwnOffset(b: Batch)
    requires Whole(b)
    ensures Rebase(b, b.base) == b
  {
    Widths();
    PutGet(b.raw[0..8]);
    assert b.raw == b.raw[0..8] + b.raw[8..];
  }

  // ---- Files of whole batches ----

  function Flatten(bs: seq<Batch>): seq<Byte> {
    if bs == [] then [] else Flatten(bs[..|bs| - 1]) + bs[|bs| - 1].raw
  }

  /** File position of batch `k`; `Pos(bs, |bs|)` is the file's size. */
  function Pos(bs: seq<Batch>, k: nat): nat
    requires k <= |bs|
  {
    if k == 0 then 0 else Pos(bs, k - 1) + |bs[k - 1].raw|
  }

  lemma {:induction false} PosAgree(bs: seq<Batch>, cs: seq<Batch>, k: nat)
    requires k <= |bs| && k <= |cs| && bs[..k] == cs[..k]
    ensures Pos(bs, k) == Pos(cs, k)
  {
    if k > 0 {
      assert bs[..k][k - 1] == cs[..k][k - 1];
      assert bs[..k - 1] == bs[..k][..k - 1] == cs[..k - 1];
      PosAgree(bs, cs, k - 1);
    }
  }

  lemma {:induction false} PosMonotone(bs: seq<Batch>, i: nat, j: nat)
    requires i <= j <= |bs|
    ensures Pos(bs, i) <= Pos(bs, j)
    ensures AllWhole(bs) ==> Pos(bs, i) + HEADER_SIZE * (j - i) <= Pos(bs, j)
  {
    if i < j {
      PosMonotone(bs, i, j - 1);
    }
  }

  lemma {:induction false} FlattenLength(bs: seq<Batch>)
    ensures |Flatten(bs)| == Pos(bs, |bs|)
  {
    if bs != [] {
      var n := |bs| - 1;
      FlattenLength(bs[..n]);
      PosAgree(bs[..n], bs, n);
    }
  }

  lemma {:induction false} FlattenAppend(bs: seq<Batch>, cs: seq<Batch>)
    ensures Flatten(bs + cs) == Flatten(bs) + Flatten(cs)
  {
    if cs == [] {
      assert bs + cs == bs;
    } else {
      var n := |cs| - 1;
      FlattenAppend(bs, cs[..n]);
      assert (bs + cs)[..|bs + cs| - 1] == bs + cs[..n];
    }
  }

  lemma FlattenTake(bs: seq<Batch>, n: nat)
    requires n <= |bs|
    ensures Pos(bs, n) <= |Flatten(bs)|
    ensures Flatten(bs[..n]) == Flatten(bs)[..Pos(bs, n)]
  {
    hide Flatten, Pos;
    FlattenAppend(bs[..n], bs[n..]);
    assert bs[..n] + bs[n..] == bs;
    FlattenLength(bs[..n]);
    PosAgree(bs[..n], bs, n);
  }

  /** The bytes between two batch positions are those batches. */
  lemma FlattenSlice(bs: seq<Batch>, i: nat, j: nat)
    requires i <= j <= |bs|
    ensures Pos(bs, i) <= Pos(bs, j) <= |Flatten(bs)|
    ensures Flatten(bs)[Pos(bs, i)..Pos(bs, j)] == Flatten(bs[i..j])
  {
    hide Flatten, Pos;
    FlattenTake(bs, i);
    FlattenTake(bs, j);
    PosMonotone(bs, i, j);
    FlattenAppend(bs[..i], bs[i..j]);
    assert bs[..i] + bs[i..j] == bs[..j];
    var whole, p, q := Flatten(bs), Pos(bs, i), Pos(bs, j);
    assert whole[..q][p..] == whole[p..q];
  }

  lemma FlattenEmpty()
    ensures Flatten([]) == []
  {
  }

  lemma FlattenSingle(b: Batch)
    ensures Flatten([b]) == b.raw
  {
    assert [b][..0] == [];
    assert Flatten([]) == [];
  }

  lemma SliceOfSlice<T>(s: seq<T>, t: seq<T>, p: nat, i: nat, n: nat)
    requires p + |t| <= |s| && s[p..p + |t|] == t
    requires i + n <= |t|
    ensures s[p + i..p + i + n] == t[i..i + n]
  {
    assert forall j | 0 <= j < |t| :: t[j] == s[p + j];
  }

  lemma HeaderMoves(s: seq<Byte>, p: nat, b: Batch)
    requires Whole(b)
    requires p + |b.raw| <= |s| && s[p..p + |b.raw|] == b.raw
    ensures HeaderSays(s, p, b.base, b.count, |b.raw|)
  {
    SliceOfSlice(s, b.raw, p, 0, 8);
    SliceOfSlice(s, b.raw, p, 8, 4);
    SliceOfSlice(s, b.raw, p, 23, 4);
    SliceOfSlice(s, b.raw, p, 57, 4);
  }

  /** A header read in a file sees what it would see in the piece that lies there. */
  lemma FieldsMove(s: seq<Byte>, p: nat, t: seq<Byte>)
    requires p + |t| <= |s| && s[p..p + |t|] == t && |t| >= LOG_OVERHEAD
    ensures TotalLengthAt(s, p) == TotalLengthAt(t, 0) && I64At(s, p) == I64At(t, 0)
    ensures |t| >= HEADER_SIZE ==> UnsignedAt(s, p + 57, 4) == UnsignedAt(t, 57, 4)
  {
    SliceOfSlice(s, t, p, 0, 8);
    SliceOfSlice(s, t, p, 8, 4);
    if |t| >= HEADER_SIZE {
      SliceOfSlice(s, t, p, 57, 4);
    }
  }

  lemma HeaderFields(s: seq<Byte>, p: nat, b: Batch)
    requires HeaderSays(s, p, b.base, b.count, |b.raw|)
    ensures p + HEADER_SIZE <= |s|
    ensures TotalLengthAt(s, p) == |b.raw|
    ensures I64At(s, p) == b.base
    ensures I32At(s, p + 23) == b.count - 1
    ensures I32At(s, p + 57) == b.count
  {
  }

  /** What a header read at batch `k`'s position sees, in a file starting with these batches. */
  lemma HeaderAt(file: seq<Byte>, bs: seq<Batch>, k: nat)
    requires AllWhole(bs) && k < |bs|
    requires Flatten(bs) <= file
    ensures Pos(bs, k) + |bs[k].raw| == Pos(bs, k + 1) <= |Flatten(bs)|
    ensures HEADER_SIZE <= |bs[k].raw| && file[Pos(bs, k)..Pos(bs, k + 1)] == bs[k].raw
    ensures HeaderSays(file, Pos(bs, k), bs[k].base, bs[k].count, |bs[k].raw|)
  {
    hide Flatten, HeaderSays;
    PosMonotone(bs, k, k + 1);
    FlattenSlice(bs, k, k + 1);
    assert bs[k..k + 1] == [bs[k]];
    FlattenSingle(bs[k]);
    assert file[..|Flatten(bs)|] == Flatten(bs);
    SliceOfSlice(file, Flatten(bs), 0, Pos(bs, k), |bs[k].raw|);
    HeaderMoves(file, Pos(bs, k), bs[k]);
  }

  // ---- Offsets ----

  /** The offset batch `k` must start at when the run starts at `base`. */
  function OffsetAt(base: int, bs: seq<Batch>, k: nat): int
    requires k <= |bs|
  {
    if k == 0 then base else bs[k - 1].NextOffset()
  }

  /** Batches follow each other without gap or overlap, the first one at `base`. */
  predicate Contiguous(base: int, bs: seq<Batch>) {
    && (forall k | 0 <= k < |bs| :: bs[k].count >= 1)
    && (forall k {:trigger OffsetAt(base, bs, k)} | 0 <= k < |bs| :: bs[k].base == OffsetAt(base, bs, k))
  }

  function EndOffset(base: int, bs: seq<Batch>): int {
    OffsetAt(base, bs, |bs|)
  }

  lemma {:induction false} OffsetsIncrease(base: int, bs: seq<Batch>, i: nat, j: nat)
    requires Contiguous(base, bs) && i <= j <= |bs|
    ensures OffsetAt(base, bs, i) + (j - i) <= OffsetAt(base, bs, j)
  {
    if i < j {
      OffsetsIncrease(base, bs, i, j - 1);
    }
  }

  /** Runs that meet at an offset join. */
  lemma ContiguousAppend(base: int, bs: seq<Batch>, cs: seq<Batch>)
    requires Contiguous(base, bs) && Contiguous(EndOffset(base, bs), cs)
    ensures Contiguous(base, bs + cs)
    ensures EndOffset(base, bs + cs) == EndOffset(EndOffset(base, bs), cs)
  {
    var all := bs + cs;
    forall k | 0 <= k < |all| ensures all[k].base == OffsetAt(base, all, k) {
      if k < |bs| {
        assert bs[k].base == OffsetAt(base, bs, k);
      } else {
        assert cs[k - |bs|].base == OffsetAt(EndOffset(base, bs), cs, k - |bs|);
      }
    }
  }

  lemma ContiguousSlice(base: int, bs: seq<Batch>, i: nat, j: nat)
    requires Contiguous(base, bs) && i <= j <= |bs|
    ensures Contiguous(OffsetAt(base, bs, i), bs[i..j])
    ensures EndOffset(OffsetAt(base, bs, i), bs[i..j]) == OffsetAt(base, bs, j)
  {
    forall k | 0 <= k < j - i ensures bs[i..j][k].base == OffsetAt(OffsetAt(base, bs, i), bs[i..j], k) {
      assert bs[i + k].base == OffsetAt(base, bs, i + k);
    }
  }

  function RecordTotal(bs: seq<Batch>): int {
    if bs == [] then 0 else RecordTotal(bs[..|bs| - 1]) + bs[|bs| - 1].count
  }
}
