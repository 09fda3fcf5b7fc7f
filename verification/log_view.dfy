/**
 The commit log as a value: segments of contiguous batches, with the batches
 each segment's sparse index points at, and the search by offset stated as a
 linear scan over batches. The classes in the other files are proved against
 these definitions.
 */
module LogView {
  import opened RecordBatch

  datatype Seg = Seg(base: int, batches: seq<Batch>, indexed: seq<nat>) {
    function End(): int { EndOffset(base, batches) }
    function Size(): nat { Pos(batches, |batches|) }
  }

  predicate Increasing(xs: seq<nat>) {
    forall i, j | 0 <= i < j < |xs| :: xs[i] < xs[j]
  }

  predicate IndexInRange(s: Seg) {
    forall i | 0 <= i < |s.indexed| :: s.indexed[i] < |s.batches|
  }

  predicate ValidSeg(s: Seg) {
    && 0 <= s.base
    && Contiguous(s.base, s.batches)
    && Increasing(s.indexed)
    && IndexInRange(s)
  }

  // ---- Appending ----

  /** A batch gets an index entry when it is the first since opening or `interval` bytes after the last one. */
  predicate NeedsEntry(s: Seg, interval: int)
    requires IndexInRange(s)
  {
    s.indexed == [] || s.Size() - Pos(s.batches, s.indexed[|s.indexed| - 1]) >= interval
  }

  /** One append: its batches go to the end, and the first of them may be indexed. */
  function SegAppend(s: Seg, bs: seq<Batch>, interval: int): Seg
    requires IndexInRange(s)
  {
    Seg(s.base, s.batches + bs, if NeedsEntry(s, interval) then s.indexed + [|s.batches|] else s.indexed)
  }

  lemma SegAppendValid(s: Seg, bs: seq<Batch>, interval: int)
    requires ValidSeg(s) && bs != [] && Contiguous(s.End(), bs)
    ensures ValidSeg(SegAppend(s, bs, interval))
    ensures SegAppend(s, bs, interval).End() == EndOffset(s.End(), bs)
  {
    ContiguousAppend(s.base, s.batches, bs);
  }

  // ---- The linear scan ----

  /** First batch at or after `k` that reaches `offset`; `|bs|` when there is none. */
  function ScanFrom(bs: seq<Batch>, k: nat, offset: int): (t: nat)
    requires k <= |bs|
    ensures k <= t <= |bs|
    ensures forall j | k <= j < t :: bs[j].LastOffset() < offset
    ensures t < |bs| ==> offset <= bs[t].LastOffset()
    decreases |bs| - k
  {
    if k == |bs| || offset <= bs[k].LastOffset() then k else ScanFrom(bs, k + 1, offset)
  }

  function Target(bs: seq<Batch>, offset: int): (t: nat)
    ensures t <= |bs|
  {
    ScanFrom(bs, 0, offset)
  }

  /** For an offset the segment holds, the target is the batch that contains it, and no other does. */
  lemma TargetContains(s: Seg, offset: int)
    requires ValidSeg(s) && s.base <= offset < s.End()
    ensures Target(s.batches, offset) < |s.batches|
    ensures forall k | 0 <= k < |s.batches| ::
              s.batches[k].base <= offset <= s.batches[k].LastOffset() <==> k == Target(s.batches, offset)
  {
    var bs, t := s.batches, Target(s.batches, offset);
    assert bs[t].base == OffsetAt(s.base, bs, t);
    forall k | t < k < |bs| ensures offset < bs[k].base {
      OffsetsIncrease(s.base, bs, t + 1, k);
    }
  }

  /** The last indexed batch that starts at or below `offset`: where the index lets a search begin. */
  function ScanStart(bs: seq<Batch>, indexed: seq<nat>, offset: int): (k: nat)
    requires forall i | 0 <= i < |indexed| :: indexed[i] < |bs|
    ensures k == 0 || (k < |bs| && bs[k].base <= offset)
  {
    if indexed == [] then 0
    else if bs[indexed[|indexed| - 1]].base <= offset then indexed[|indexed| - 1]
    else ScanStart(bs, indexed[..|indexed| - 1], offset)
  }

  /** Starting at an indexed batch skips nothing the scan from the front would have returned. */
  lemma {:induction false} IndexSkipsNothing(s: Seg, offset: int)
    requires ValidSeg(s)
    ensures ScanStart(s.batches, s.indexed, offset) <= |s.batches|
    ensures ScanFrom(s.batches, ScanStart(s.batches, s.indexed, offset), offset) == Target(s.batches, offset)
  {
    var k := ScanStart(s.batches, s.indexed, offset);
    if k > 0 {
      forall j | 0 <= j < k ensures s.batches[j].LastOffset() < offset {
        OffsetsIncrease(s.base, s.batches, j + 1, k);
      }
      ScanSkips(s.batches, 0, k, offset);
    }
  }

  lemma {:induction false} ScanSkips(bs: seq<Batch>, i: nat, k: nat, offset: int)
    requires i <= k <= |bs| && forall j | i <= j < k :: bs[j].LastOffset() < offset
    ensures ScanFrom(bs, i, offset) == ScanFrom(bs, k, offset)
    decreases k - i
  {
    if i < k {
      ScanSkips(bs, i + 1, k, offset);
    }
  }

  // ---- The region a fetch returns ----

  /**
   The batch a fetch starts with. It is the target, except that a target which
   begins at (or past) the offset and is not where the scan began is entered
   through its predecessor, and that an offset past the segment yields the last batch.
   */
  function RegionStart(s: Seg, offset: int): (k: nat)
    requires IndexInRange(s)
    requires s.batches != []
    ensures k < |s.batches|
  {
    var t := Target(s.batches, offset);
    if t == |s.batches| then t - 1
    else if t > 0 && offset <= s.batches[t].base && ScanStart(s.batches, s.indexed, offset) < t then t - 1
    else t
  }

  /** End of the longest run from `s` of at least `e - s` batches that fits `maxBytes` (no limit when not positive). */
  function RegionEnd(bs: seq<Batch>, s: nat, e: nat, maxBytes: int): (r: nat)
    requires s <= e <= |bs|
    ensures e <= r <= |bs|
    ensures r == e || maxBytes <= 0 || Pos(bs, r) - Pos(bs, s) <= maxBytes
    ensures r == |bs| || (maxBytes > 0 && Pos(bs, r + 1) - Pos(bs, s) > maxBytes)
    decreases |bs| - e
  {
    if e == |bs| || (maxBytes > 0 && Pos(bs, e + 1) - Pos(bs, s) > maxBytes) then e
    else RegionEnd(bs, s, e + 1, maxBytes)
  }

  /** The batches `[first, last)` a fetch at `offset` finds in a segment. */
  function Region(s: Seg, offset: int, maxBytes: int): (r: (nat, nat))
    requires IndexInRange(s)
    ensures r.0 <= r.1 <= |s.batches|
    ensures s.batches != [] ==> r.0 < r.1
  {
    if s.batches == [] then (0, 0)
    else
      var k := RegionStart(s, offset);
      (k, RegionEnd(s.batches, k, k + 1, maxBytes))
  }

  /**
   Region search against the linear scan, for any sound index (the empty one
   after a reopen included): whole consecutive batches that start at the batch
   containing the offset or at its immediate predecessor, and that are one
   batch or fit `maxBytes`. It starts at the containing batch exactly when the
   offset lies inside that batch or the index led straight to it.
   */
  lemma RegionRefinesScan(s: Seg, offset: int, maxBytes: int)
    requires ValidSeg(s) && s.base <= offset < s.End()
    ensures var (first, last) := Region(s, offset, maxBytes);
            var t := Target(s.batches, offset);
            && t < |s.batches|
            && s.batches[t].base <= offset <= s.batches[t].LastOffset()
            && (first == t || first + 1 == t)
            && (first == t <==> s.batches[t].base < offset || t == 0 || t in s.indexed)
            && (last == first + 1 || maxBytes <= 0 || Pos(s.batches, last) - Pos(s.batches, first) <= maxBytes)
            && forall k | 0 <= k < first :: s.batches[k].LastOffset() < offset
  {
    TargetContains(s, offset);
    IndexSkipsNothing(s, offset);
    var t := Target(s.batches, offset);
    ScanStartHits(s, s.indexed, t, offset);
  }

  /** The index leads straight to the containing batch exactly when that batch is indexed. */
  lemma {:induction false} ScanStartHits(s: Seg, indexed: seq<nat>, t: nat, offset: int)
    requires ValidSeg(s) && t < |s.batches| && s.batches[t].base <= offset <= s.batches[t].LastOffset()
    requires Increasing(indexed) && forall i | 0 <= i < |indexed| :: indexed[i] < |s.batches|
    ensures ScanStart(s.batches, indexed, offset) <= t
    ensures ScanStart(s.batches, indexed, offset) == t <==> t == 0 || t in indexed
  {
    if indexed != [] {
      var last := indexed[|indexed| - 1];
      var rest := indexed[..|indexed| - 1];
      assert indexed == rest + [last];
      if t < last {
        OffsetsIncrease(s.base, s.batches, t + 1, last);
        ScanStartHits(s, rest, t, offset);
      } else {
        OffsetsIncrease(s.base, s.batches, last, t);
        assert s.batches[last].base <= offset;
        assert forall i | 0 <= i < |rest| :: rest[i] < last;
      }
    }
  }

  // ---- The index of a segment written in one process lifetime, one batch per append ----

  function IndexPlan(bs: seq<Batch>, interval: int): (plan: seq<nat>)
    ensures forall i | 0 <= i < |plan| :: plan[i] < |bs|
    ensures bs != [] ==> plan != []
  {
    if bs == [] then []
    else
      var n := |bs| - 1;
      var before := Seg(0, bs[..n], IndexPlan(bs[..n], interval));
      if NeedsEntry(before, interval) then before.indexed + [n] else before.indexed
  }

  /** Appending batches one at a time writes exactly the planned entries. */
  lemma PlanFollowsAppends(s: Seg, b: Batch, interval: int)
    requires s.indexed == IndexPlan(s.batches, interval)
    ensures SegAppend(s, [b], interval).indexed == IndexPlan(s.batches + [b], interval)
  {
    var n := |s.batches|;
    assert (s.batches + [b])[..n] == s.batches;
  }

  lemma {:induction false} ScanStartAgrees(bs: seq<Batch>, n: nat, indexed: seq<nat>, offset: int)
    requires n <= |bs| && forall i | 0 <= i < |indexed| :: indexed[i] < n
    ensures ScanStart(bs[..n], indexed, offset) == ScanStart(bs, indexed, offset)
    decreases |indexed|
  {
    if indexed != [] {
      ScanStartAgrees(bs, n, indexed[..|indexed| - 1], offset);
    }
  }

  lemma ScanStartLast(bs: seq<Batch>, indexed: seq<nat>, n: nat, offset: int)
    requires n < |bs| && forall i | 0 <= i < |indexed| :: indexed[i] < |bs|
    ensures ScanStart(bs, indexed + [n], offset) == if bs[n].base <= offset then n else ScanStart(bs, indexed, offset)
  {
    assert (indexed + [n])[..|indexed|] == indexed;
  }

  lemma PlanStep(bs: seq<Batch>, interval: int)
    requires bs != []
    ensures var n := |bs| - 1;
            var plan := IndexPlan(bs[..n], interval);
            IndexPlan(bs, interval) ==
            if plan == [] || Pos(bs, n) - Pos(bs, plan[|plan| - 1]) >= interval then plan + [n] else plan
  {
    var n := |bs| - 1;
    var plan := IndexPlan(bs[..n], interval);
    PosAgree(bs[..n], bs, n);
    if plan != [] {
      var last := plan[|plan| - 1];
      assert bs[..n][..last] == bs[..last];
      PosAgree(bs[..n], bs, last);
    }
  }

  /**
   The sparse index bound: from where the index lets the search of an offset
   begin to the batch that contains it, the distance is zero or less than
   `interval` bytes.
   */
  lemma {:induction false} SparseBound(base: int, bs: seq<Batch>, interval: int, offset: int, t: nat)
    requires Contiguous(base, bs) && t < |bs| && bs[t].base <= offset <= bs[t].LastOffset()
    ensures var k := ScanStart(bs, IndexPlan(bs, interval), offset);
            k == t || (k < t && Pos(bs, t) - Pos(bs, k) < interval)
    decreases |bs|
  {
    hide IndexPlan, ScanStart, Pos;
    var n := |bs| - 1;
    var plan := IndexPlan(bs[..n], interval);
    PlanStep(bs, interval);
    assert bs[n].base == OffsetAt(base, bs, n);
    ScanStartLast(bs, plan, n, offset);
    if t < n {
      OffsetsIncrease(base, bs, t + 1, n);
      SparseBoundBelow(base, bs, interval, offset, t);
    } else if plan != [] {
      var last := plan[|plan| - 1];
      OffsetsIncrease(base, bs, last, n);
      assert bs[last].base == OffsetAt(base, bs, last);
      assert plan == plan[..|plan| - 1] + [last];
      ScanStartLast(bs, plan[..|plan| - 1], last, offset);
    }
  }

  lemma {:induction false} SparseBoundBelow(base: int, bs: seq<Batch>, interval: int, offset: int, t: nat)
    requires Contiguous(base, bs) && t + 1 < |bs| && bs[t].base <= offset <= bs[t].LastOffset()
    ensures var k := ScanStart(bs, IndexPlan(bs[..|bs| - 1], interval), offset);
            k == t || (k < t && Pos(bs, t) - Pos(bs, k) < interval)
    decreases |bs|, 0
  {
    hide IndexPlan, ScanStart, Pos;
    var n := |bs| - 1;
    ContiguousSlice(base, bs, 0, n);
    assert bs[0..n] == bs[..n];
    SparseBound(base, bs[..n], interval, offset, t);
    var k := ScanStart(bs, IndexPlan(bs[..n], interval), offset);
    ScanStartAgrees(bs, n, IndexPlan(bs[..n], interval), offset);
    assert bs[..n][..t] == bs[..t] && bs[..n][..k] == bs[..k];
    PosAgree(bs[..n], bs, t);
    PosAgree(bs[..n], bs, k);
  }

  predicate FarApart(bs: seq<Batch>, a: nat, b: nat, interval: int) {
    a < b < |bs| && Pos(bs, b) - Pos(bs, a) >= interval
  }

  /** The first batch is indexed, and neighbouring entries lie at least `interval` bytes apart. */
  predicate Apart(bs: seq<Batch>, plan: seq<nat>, interval: int) {
    && (plan != [] ==> plan[0] == 0)
    && forall i | 0 < i < |plan| :: FarApart(bs, plan[i - 1], plan[i], interval)
  }

  lemma ApartLonger(bs: seq<Batch>, n: nat, plan: seq<nat>, interval: int)
    requires n <= |bs| && Apart(bs[..n], plan, interval)
    ensures Apart(bs, plan, interval)
  {
    hide FarApart;
    forall i | 0 < i < |plan| ensures FarApart(bs, plan[i - 1], plan[i], interval) {
      FarLonger(bs, n, plan[i - 1], plan[i], interval);
    }
  }

  lemma FarLonger(bs: seq<Batch>, n: nat, a: nat, b: nat, interval: int)
    requires n <= |bs| && FarApart(bs[..n], a, b, interval)
    ensures FarApart(bs, a, b, interval)
  {
    hide Pos;
    PosAgree(bs, bs[..n], a);
    PosAgree(bs, bs[..n], b);
  }

  lemma ApartMore(bs: seq<Batch>, plan: seq<nat>, b: nat, interval: int)
    requires Apart(bs, plan, interval)
    requires if plan == [] then b == 0 else FarApart(bs, plan[|plan| - 1], b, interval)
    ensures Apart(bs, plan + [b], interval)
  {
    hide FarApart;
    var more := plan + [b];
    forall i | 0 < i < |more| ensures FarApart(bs, more[i - 1], more[i], interval) {
      assert more[i - 1] == plan[i - 1];
    }
  }

  lemma {:induction false} EntriesApart(bs: seq<Batch>, interval: int)
    ensures Apart(bs, IndexPlan(bs, interval), interval)
  {
    if bs != [] {
      var n := |bs| - 1;
      var plan := IndexPlan(bs[..n], interval);
      assert plan == [] ==> n == 0;
      EntriesApart(bs[..n], interval);
      hide Apart, IndexPlan, Pos;
      ApartLonger(bs, n, plan, interval);
      PlanStep(bs, interval);
      if plan == [] || Pos(bs, n) - Pos(bs, plan[|plan| - 1]) >= interval {
        ApartMore(bs, plan, n, interval);
      }
    }
  }

  /** When every batch is at least `interval` bytes, every batch is indexed. */
  lemma {:induction false} LargeBatchesAllIndexed(bs: seq<Batch>, interval: int)
    requires forall k | 0 <= k < |bs| :: interval <= |bs[k].raw|
    ensures IndexPlan(bs, interval) == seq(|bs|, k => k)
    decreases |bs|
  {
    if bs != [] {
      LargeBatchesAllIndexed(bs[..|bs| - 1], interval);
    }
  }
}
