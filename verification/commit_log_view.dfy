/**
 The whole commit log as a value: its segments in order. Appending, rolling,
 and the fetch path (segment search, region search, clipping), each stated
 over batches.
 */
module CommitLogView {
  import opened Options
  import opened RecordBatch
  import opened LogView

  type Log = seq<Seg>

  /** Segment `i` starts where its non-empty predecessor ends. */
  predicate LinkedAt(log: Log, i: int)
    requires 0 < i < |log|
  {
    log[i - 1].batches != [] && log[i].base == log[i - 1].End()
  }

  /** Valid segments, each starting where the previous one ends; only the last may be empty. */
  predicate GapFree(log: Log) {
    && log != []
    && (forall i | 0 <= i < |log| :: ValidSeg(log[i]))
    && (forall i {:trigger LinkedAt(log, i)} | 0 < i < |log| :: LinkedAt(log, i))
  }

  function Active(log: Log): Seg
    requires log != []
  {
    log[|log| - 1]
  }

  function LogStart(log: Log): int
    requires log != []
  {
    log[0].base
  }

  function LogEnd(log: Log): int
    requires log != []
  {
    Active(log).End()
  }

  lemma {:induction false} BasesIncrease(log: Log, i: nat, j: nat)
    requires GapFree(log) && i < j < |log|
    ensures log[i].base < log[i].End() <= log[j].base
    ensures log[j].base <= log[j].End() <= LogEnd(log)
    decreases |log| - i
  {
    assert LinkedAt(log, i + 1);
    OffsetsIncrease(log[i].base, log[i].batches, 0, |log[i].batches|);
    OffsetsIncrease(log[j].base, log[j].batches, 0, |log[j].batches|);
    if i + 1 < j {
      BasesIncrease(log, i + 1, j);
    } else if j < |log| - 1 {
      BasesIncrease(log, j, |log| - 1);
    }
  }

  /** Batch `k` of segment `i` holds `offset`. */
  predicate Holds(log: Log, i: nat, k: nat, offset: int) {
    && i < |log|
    && k < |log[i].batches|
    && log[i].batches[k].base <= offset <= log[i].batches[k].LastOffset()
  }

  /** The last segment that starts at or below `offset`; none is `|log|`. */
  function SegmentOf(log: Log, offset: int): (i: nat)
    ensures i <= |log|
    ensures i < |log| ==> log[i].base <= offset
  {
    if log == [] then 0
    else
      var n := |log| - 1;
      if log[n].base <= offset then n
      else
        var i := SegmentOf(log[..n], offset);
        if i == n then |log| else i
  }

  lemma {:induction false} SegmentOfIs(log: Log, i: nat, offset: int)
    requires GapFree(log) && i < |log|
    requires log[i].base <= offset && (i + 1 < |log| ==> offset < log[i + 1].base)
    ensures SegmentOf(log, offset) == i
    decreases |log|
  {
    var n := |log| - 1;
    if i < n {
      if i + 1 < n {
        BasesIncrease(log, i + 1, n);
      }
      PrefixGapFree(log, n);
      SegmentOfIs(log[..n], i, offset);
    }
  }

  lemma PrefixGapFree(log: Log, n: nat)
    requires GapFree(log) && 0 < n <= |log|
    ensures GapFree(log[..n])
  {
    forall i | 0 < i < n ensures LinkedAt(log[..n], i) {
      assert LinkedAt(log, i);
    }
  }

  /** The segment search lands in the segment whose range covers the offset. */
  lemma {:induction false} SegmentCovers(log: Log, offset: int)
    requires GapFree(log) && LogStart(log) <= offset < LogEnd(log)
    ensures SegmentOf(log, offset) < |log|
    ensures log[SegmentOf(log, offset)].base <= offset < log[SegmentOf(log, offset)].End()
    decreases |log|
  {
    var n := |log| - 1;
    if offset < log[n].base {
      PrefixGapFree(log, n);
      assert LinkedAt(log, n);
      SegmentCovers(log[..n], offset);
    }
  }

  /**
   The batches partition the log's range: every offset from the start to the
   end lies in exactly one batch of exactly one segment, and no other offset
   lies in any.
   */
  lemma BatchesPartitionOffsets(log: Log, offset: int)
    requires GapFree(log)
    ensures LogStart(log) <= offset < LogEnd(log) <==> exists i: nat, k: nat :: Holds(log, i, k, offset)
    ensures forall i: nat, k: nat, i': nat, k': nat ::
              Holds(log, i, k, offset) && Holds(log, i', k', offset) ==> i == i' && k == k'
  {
    if LogStart(log) <= offset < LogEnd(log) {
      var i := SegmentOf(log, offset);
      SegmentCovers(log, offset);
      TargetContains(log[i], offset);
      assert Holds(log, i, Target(log[i].batches, offset), offset);
    }
    forall i: nat, k: nat | Holds(log, i, k, offset)
      ensures LogStart(log) <= offset < LogEnd(log)
      ensures i == SegmentOf(log, offset) && k == Target(log[i].batches, offset)
    {
      HoldsWhere(log, i, k, offset);
    }
  }

  lemma HoldsWhere(log: Log, i: nat, k: nat, offset: int)
    requires GapFree(log) && Holds(log, i, k, offset)
    ensures LogStart(log) <= log[i].base <= offset < log[i].End() <= LogEnd(log)
    ensures i == SegmentOf(log, offset) && k == Target(log[i].batches, offset)
  {
    var bs := log[i].batches;
    OffsetsIncrease(log[i].base, bs, 0, k);
    OffsetsIncrease(log[i].base, bs, k + 1, |bs|);
    assert bs[k].base == OffsetAt(log[i].base, bs, k);
    if i > 0 {
      BasesIncrease(log, 0, i);
    }
    if i + 1 < |log| {
      BasesIncrease(log, i, i + 1);
      BasesIncrease(log, i, |log| - 1);
    }
    TargetContains(log[i], offset);
    SegmentOfIs(log, i, offset);
  }

  // ---- Appending and rolling ----

  /** A full active segment is sealed and a new one opened at its end; then the batches are appended. */
  function LogAppend(log: Log, bs: seq<Batch>, maxBytes: int, interval: int): Log
    requires log != [] && IndexInRange(Active(log))
  {
    if Active(log).Size() >= maxBytes
    then log + [SegAppend(Seg(LogEnd(log), [], []), bs, interval)]
    else log[..|log| - 1] + [SegAppend(Active(log), bs, interval)]
  }

  lemma ReplaceActive(log: Log, s: Seg)
    requires GapFree(log) && ValidSeg(s) && s.base == Active(log).base
    ensures GapFree(log[..|log| - 1] + [s])
  {
    hide ValidSeg;
    var log' := log[..|log| - 1] + [s];
    forall i | 0 < i < |log'| ensures LinkedAt(log', i) {
      assert LinkedAt(log, i);
    }
  }

  lemma AddSegment(log: Log, s: Seg)
    requires GapFree(log) && ValidSeg(s) && s.base == LogEnd(log) && Active(log).batches != []
    ensures GapFree(log + [s])
  {
    hide ValidSeg;
    var log' := log + [s];
    forall i | 0 < i < |log'| ensures LinkedAt(log', i) {
      if i < |log| {
        assert LinkedAt(log, i);
      }
    }
  }

  lemma RollGapFree(log: Log)
    requires GapFree(log)
    ensures 0 <= LogEnd(log) && Active(log).base <= LogEnd(log)
    ensures Active(log).Size() > 0 ==> GapFree(log + [Seg(LogEnd(log), [], [])])
  {
    var active := Active(log);
    OffsetsIncrease(active.base, active.batches, 0, |active.batches|);
    if active.Size() > 0 {
      AddSegment(log, Seg(LogEnd(log), [], []));
    }
  }

  lemma AppendActiveGapFree(log: Log, bs: seq<Batch>, interval: int)
    requires GapFree(log) && bs != [] && Contiguous(LogEnd(log), bs)
    ensures GapFree(log[..|log| - 1] + [SegAppend(Active(log), bs, interval)])
    ensures LogEnd(log[..|log| - 1] + [SegAppend(Active(log), bs, interval)]) == EndOffset(LogEnd(log), bs)
  {
    SegAppendValid(Active(log), bs, interval);
    ReplaceActive(log, SegAppend(Active(log), bs, interval));
  }

  /** Appending keeps the log gap-free and moves its end past exactly the new batches. */
  lemma LogAppendGapFree(log: Log, bs: seq<Batch>, maxBytes: int, interval: int)
    requires GapFree(log) && maxBytes > 0
    requires bs != [] && Contiguous(LogEnd(log), bs)
    ensures GapFree(LogAppend(log, bs, maxBytes, interval))
    ensures LogStart(LogAppend(log, bs, maxBytes, interval)) == LogStart(log)
    ensures LogEnd(LogAppend(log, bs, maxBytes, interval)) == EndOffset(LogEnd(log), bs)
  {
    var active := Active(log);
    if active.Size() >= maxBytes {
      OffsetsIncrease(active.base, active.batches, 0, |active.batches|);
      var empty := Seg(LogEnd(log), [], []);
      SegAppendValid(empty, bs, interval);
      AddSegment(log, SegAppend(empty, bs, interval));
    } else {
      SegAppendValid(active, bs, interval);
      ReplaceActive(log, SegAppend(active, bs, interval));
    }
  }

  /** All batches, in log order. */
  function AllBatches(log: Log): seq<Batch> {
    if log == [] then [] else AllBatches(log[..|log| - 1]) + log[|log| - 1].batches
  }

  lemma AllBatchesAppend(log: Log, bs: seq<Batch>, maxBytes: int, interval: int)
    requires log != [] && IndexInRange(Active(log))
    ensures AllBatches(LogAppend(log, bs, maxBytes, interval)) == AllBatches(log) + bs
  {
    var log' := LogAppend(log, bs, maxBytes, interval);
    if Active(log).Size() >= maxBytes {
      assert log'[..|log'| - 1] == log;
    } else {
      assert log'[..|log'| - 1] == log[..|log| - 1];
    }
  }

  lemma RollAddsNoBatch(log: Log)
    requires log != []
    ensures AllBatches(log + [Seg(LogEnd(log), [], [])]) == AllBatches(log)
    ensures (log + [Seg(LogEnd(log), [], [])])[..|log|] == log
  {
  }

  lemma {:induction false} AllBatchesContiguous(log: Log)
    requires GapFree(log)
    ensures Contiguous(LogStart(log), AllBatches(log))
    ensures EndOffset(LogStart(log), AllBatches(log)) == LogEnd(log)
    decreases |log|
  {
    var n := |log| - 1;
    if n == 0 {
      assert log[..0] == [];
      assert AllBatches(log) == log[0].batches;
    } else {
      PrefixGapFree(log, n);
      AllBatchesContiguous(log[..n]);
      assert LinkedAt(log, n);
      ContiguousAppend(LogStart(log), AllBatches(log[..n]), log[n].batches);
    }
  }

  // ---- What a fetch returns ----

  /** End of the longest prefix of the batches `[first, last)` whose records all lie below `maxVisible`. */
  function VisibleEnd(bs: seq<Batch>, first: nat, last: nat, maxVisible: int): (v: nat)
    requires first <= last <= |bs|
    ensures first <= v <= last
    ensures forall k | first <= k < v :: bs[k].LastOffset() < maxVisible
    ensures v < last ==> maxVisible <= bs[v].LastOffset()
    decreases last - first
  {
    if first == last || maxVisible <= bs[first].LastOffset() then first
    else VisibleEnd(bs, first + 1, last, maxVisible)
  }

  lemma {:induction false} VisibleEndUnique(bs: seq<Batch>, first: nat, last: nat, maxVisible: int, v: nat)
    requires first <= v <= last <= |bs|
    requires forall k | first <= k < v :: bs[k].LastOffset() < maxVisible
    requires v < last ==> maxVisible <= bs[v].LastOffset()
    ensures VisibleEnd(bs, first, last, maxVisible) == v
    decreases v - first
  {
    if first < v {
      VisibleEndUnique(bs, first + 1, last, maxVisible, v);
    }
  }

  /** The batches a fetch hands out; none when the offset is outside the log or nothing is visible. */
  function Fetch(log: Log, offset: int, maxBytes: int, maxVisible: int): Option<seq<Batch>>
    requires GapFree(log)
  {
    var i := SegmentOf(log, offset);
    if offset >= LogEnd(log) || i == |log| then None
    else
      var (first, last) := Region(log[i], offset, maxBytes);
      var v := VisibleEnd(log[i].batches, first, last, maxVisible);
      if v == first then None else Some(log[i].batches[first..v])
  }

  /** The batch a fetch inside the log starts with. */
  function FirstFound(log: Log, offset: int): Batch
    requires GapFree(log) && LogStart(log) <= offset < LogEnd(log)
  {
    SegmentCovers(log, offset);
    var s := log[SegmentOf(log, offset)];
    s.batches[RegionStart(s, offset)]
  }

  /**
   No consumer fetch contains an offset at or above the high watermark, and
   what it contains is the longest such prefix of the batches found: the next
   batch, if the region has one, is not visible.
   */
  lemma FetchBelowVisible(log: Log, offset: int, maxBytes: int, maxVisible: int)
    requires GapFree(log) && LogStart(log) <= offset
    ensures Fetch(log, offset, maxBytes, maxVisible).Some? ==>
              var bs := Fetch(log, offset, maxBytes, maxVisible).value;
              && bs != []
              && (forall k | 0 <= k < |bs| :: bs[k].LastOffset() < maxVisible)
              && Contiguous(bs[0].base, bs)
    ensures Fetch(log, offset, maxBytes, maxVisible).None? <==>
              || offset >= LogEnd(log)
              || maxVisible <= FirstFound(log, offset).LastOffset()
  {
    if offset < LogEnd(log) {
      SegmentCovers(log, offset);
      var s := log[SegmentOf(log, offset)];
      TargetContains(s, offset);
      var (first, last) := Region(s, offset, maxBytes);
      var v := VisibleEnd(s.batches, first, last, maxVisible);
      ContiguousSlice(s.base, s.batches, first, v);
    }
  }
}
