/**
 The follower's copy loop: fetch from the leader at the next offset, append
 what comes back.
 */
module Replication {
  import opened Options
  import opened Bytes
  import opened RecordBatch
  import opened LogView
  import opened CommitLogView

  /** A follower's batches in log order, its log's next offset, and where it fetches next. */
  datatype Follower = Follower(batches: seq<Batch>, nextOffset: int, fetchOffset: int)

  const NEW_FOLLOWER := Follower([], 0, 0)

  /**
   The append step: the whole response goes through one `AppendRaw`, which
   patches the follower's next offset into the first batch only.
   */
  function Apply(f: Follower, response: Option<seq<Batch>>): Follower
    requires response.Some? ==> response.value != [] && |response.value[0].raw| >= 8
  {
    match response
    case None => f
    case Some(bs) =>
      var end := f.nextOffset + RecordTotal(bs);
      Follower(f.batches + [Rebase(bs[0], f.nextOffset)] + bs[1..], end, end)
  }

  // ---- Where a batch of the log lies ----

  /** Batch `m` of the log is batch `k` of segment `i`. */
  predicate LiesAt(log: Log, m: nat, i: nat, k: nat) {
    && i < |log|
    && k < |log[i].batches|
    && m == |AllBatches(log[..i])| + k
    && m - k + |log[i].batches| <= |AllBatches(log)|
    && AllBatches(log)[m - k..m - k + |log[i].batches|] == log[i].batches
  }

  lemma {:induction false} Locate(log: Log, m: nat) returns (i: nat, k: nat)
    requires m < |AllBatches(log)|
    ensures LiesAt(log, m, i, k)
    decreases |log|
  {
    var n := |log| - 1;
    var front := AllBatches(log[..n]);
    if m < |front| {
      i, k := Locate(log[..n], m);
      assert log[..n][..i] == log[..i];
      assert AllBatches(log)[..|front|] == front;
      SliceOfSlice(AllBatches(log), front, 0, m - k, |log[i].batches|);
    } else {
      i, k := n, m - |front|;
    }
  }

  /** The index leads straight to the batch that holds the offset, or that batch is its segment's first. */
  predicate StartsExactly(log: Log, offset: int) {
    var i := SegmentOf(log, offset);
    i < |log| && (var t := Target(log[i].batches, offset); t == 0 || t in log[i].indexed)
  }

  /** A fetch at the base offset of batch `k` of segment `i`: a run of that segment from `k`, or from `k - 1`. */
  lemma FetchInSegment(log: Log, i: nat, k: nat, maxBytes: int, maxVisible: int) returns (n: nat)
    requires GapFree(log) && i < |log| && k < |log[i].batches|
    ensures var offset := log[i].batches[k].base;
            var first := if StartsExactly(log, offset) then k else k - 1;
            var r := Fetch(log, offset, maxBytes, maxVisible);
            r.Some? ==> 0 <= first < first + n <= |log[i].batches| && r.value == log[i].batches[first..first + n]
  {
    var s := log[i];
    var offset := s.batches[k].base;
    HoldsWhere(log, i, k, offset);
    RegionRefinesScan(s, offset, maxBytes);
    hide GapFree, Region, SegmentOf, Target;
    var (first, last) := Region(s, offset, maxBytes);
    n := VisibleEnd(s.batches, first, last, maxVisible) - first;
  }

  /** A fetch at a batch boundary of the log: a run of the log's batches from there, or from one batch earlier. */
  lemma FetchAtBoundary(log: Log, m: nat, maxBytes: int, maxVisible: int) returns (n: nat)
    requires GapFree(log) && m < |AllBatches(log)|
    ensures var all := AllBatches(log);
            var first := if StartsExactly(log, all[m].base) then m else m - 1;
            var r := Fetch(log, all[m].base, maxBytes, maxVisible);
            r.Some? ==> 0 <= first < first + n <= |all| && r.value == all[first..first + n]
  {
    hide GapFree, Fetch, AllBatches, StartsExactly;
    var all := AllBatches(log);
    var i, k := Locate(log, m);
    var s := log[i];
    assert all[m] == all[m - k..m - k + |s.batches|][k];
    n := FetchInSegment(log, i, k, maxBytes, maxVisible);
    if Fetch(log, all[m].base, maxBytes, maxVisible).Some? {
      SliceOfSlice(all, s.batches, m - k, if StartsExactly(log, all[m].base) then k else k - 1, n);
    }
  }

  // ---- One fetch ----

  lemma {:induction false} RecordTotalIs(base: int, bs: seq<Batch>)
    requires Contiguous(base, bs)
    ensures EndOffset(base, bs) == base + RecordTotal(bs)
    decreases |bs|
  {
    if bs != [] {
      var n := |bs| - 1;
      ContiguousSlice(base, bs, 0, n);
      assert bs[0..n] == bs[..n];
      RecordTotalIs(base, bs[..n]);
      assert bs[n].base == OffsetAt(base, bs, n);
    }
  }

  /** A follower in sync with a flat log up to batch `m`. */
  predicate SyncedTo(f: Follower, start: int, all: seq<Batch>, m: nat) {
    && m <= |all|
    && f.batches == all[..m]
    && f.nextOffset == f.fetchOffset == OffsetAt(start, all, m)
  }

  predicate LongEnough(bs: seq<Batch>) {
    forall k | 0 <= k < |bs| :: |bs[k].raw| >= 8
  }

  /** A response that starts at the fetch offset extends the copy by exactly its batches. */
  lemma ApplyExact(f: Follower, start: int, all: seq<Batch>, m: nat, n: nat)
    requires Contiguous(start, all) && LongEnough(all) && SyncedTo(f, start, all, m)
    requires 0 < n && m + n <= |all| && Rebase(all[m], all[m].base) == all[m]
    ensures SyncedTo(Apply(f, Some(all[m..m + n])), start, all, m + n)
  {
    var bs := all[m..m + n];
    assert all[m].base == OffsetAt(start, all, m);
    ContiguousSlice(start, all, m, m + n);
    RecordTotalIs(f.nextOffset, bs);
    assert all[..m + n] == all[..m] + [all[m]] + bs[1..];
  }

  /** A response that starts one batch early puts the predecessor where the wanted batch belongs. */
  lemma ApplyEarly(f: Follower, start: int, all: seq<Batch>, m: nat, n: nat)
    requires Contiguous(start, all) && LongEnough(all) && SyncedTo(f, start, all, m)
    requires 0 < m < |all| && 0 < n && m - 1 + n <= |all|
    ensures var f' := Apply(f, Some(all[m - 1..m - 1 + n]));
            && |f'.batches| == m + n
            && (f'.batches <= all <==> n == 1 && Rebase(all[m - 1], all[m].base) == all[m])
            && (f'.batches <= all ==> SyncedTo(f', start, all, m + 1))
  {
    var bs := all[m - 1..m - 1 + n];
    var f' := Apply(f, Some(bs));
    assert all[m].base == OffsetAt(start, all, m);
    assert f'.batches[m] == Rebase(all[m - 1], all[m].base);
    if n > 1 {
      assert f'.batches[m + 1] == bs[1] == all[m];
      assert m + 1 < |all| ==> all[m + 1].base == OffsetAt(start, all, m + 1);
    } else {
      assert bs[..0] == [] && RecordTotal([]) == 0;
      assert all[..m + 1] == all[..m] + [all[m]];
      assert f'.batches == all[..m] + [Rebase(all[m - 1], all[m].base)];
    }
  }

  /**
   The condition under which one fetch keeps a follower in sync: nothing came
   back, or batches from the offset on, or one batch that becomes the leader's
   batch at that offset once the offset is patched in.
   */
  predicate GoodAnswer(leader: Log, offset: int, r: Option<seq<Batch>>) {
    r.Some? ==>
      || StartsExactly(leader, offset)
      || (|r.value| == 1 && |r.value[0].raw| >= 8 && Rebase(r.value[0], offset) in AllBatches(leader))
  }

  lemma OneBatchThere(start: int, all: seq<Batch>, m: nat, b: Batch)
    requires Contiguous(start, all) && m < |all| && b in all && b.base == all[m].base
    ensures b == all[m]
  {
    var i: nat :| i < |all| && all[i] == b;
    BoundaryIs(start, all, i);
    BoundaryIs(start, all, m);
    if i < m {
      OffsetsIncrease(start, all, i, m);
    } else {
      OffsetsIncrease(start, all, m, i);
    }
  }

  lemma WholeFacts(bs: seq<Batch>)
    requires AllWhole(bs)
    ensures LongEnough(bs)
    ensures forall k | 0 <= k < |bs| :: Rebase(bs[k], bs[k].base) == bs[k]
  {
    forall k | 0 <= k < |bs| ensures |bs[k].raw| >= 8 && Rebase(bs[k], bs[k].base) == bs[k] {
      assert Whole(bs[k]);
      RebaseToOwnOffset(bs[k]);
    }
  }

  /**
   What one fetch does to a follower in sync with the leader. It stays in sync
   exactly when nothing came back, or the response starts at the fetch offset,
   or the response is a lone predecessor batch that differs from the wanted
   one in its offset only.
   */
  lemma FetchStep(f: Follower, leader: Log, m: nat, maxBytes: int, maxVisible: int)
    requires GapFree(leader) && AllWhole(AllBatches(leader))
    requires SyncedTo(f, LogStart(leader), AllBatches(leader), m) && m < |AllBatches(leader)|
    ensures var all := AllBatches(leader);
            var r := Fetch(leader, f.fetchOffset, maxBytes, maxVisible);
            && (r.Some? ==> r.value != [] && |r.value[0].raw| >= 8)
            && var f' := Apply(f, r);
            && (f'.batches <= all <==> GoodAnswer(leader, f.fetchOffset, r))
            && (f'.batches <= all ==> SyncedTo(f', LogStart(leader), all, |f'.batches|))
            && (r.Some? ==> |f'.batches| > m)
  {
    hide GapFree, Fetch, AllBatches, StartsExactly, AllWhole, Rebase, RecordTotal, OffsetAt;
    SomeSegment(leader);
    var all, start := AllBatches(leader), LogStart(leader);
    AllBatchesContiguous(leader);
    WholeFacts(all);
    BoundaryIs(start, all, m);
    var n := FetchAtBoundary(leader, m, maxBytes, maxVisible);
    if Fetch(leader, f.fetchOffset, maxBytes, maxVisible).Some? {
      if StartsExactly(leader, f.fetchOffset) {
        ApplyExact(f, start, all, m, n);
      } else {
        ApplyEarly(f, start, all, m, n);
        if Rebase(all[m - 1], all[m].base) in all {
          RebasedThere(all[m - 1], all[m].base);
          OneBatchThere(start, all, m, Rebase(all[m - 1], all[m].base));
        }
      }
    }
  }

  lemma RebasedThere(b: Batch, base: int)
    requires |b.raw| >= 8
    ensures Rebase(b, base).base == base
  {
  }

  lemma SomeSegment(log: Log)
    requires GapFree(log)
    ensures log != []
  {
  }

  lemma BoundaryIs(start: int, all: seq<Batch>, m: nat)
    requires Contiguous(start, all) && m < |all|
    ensures all[m].base == OffsetAt(start, all, m)
  {
  }

  /** A follower that has everything gets nothing. */
  lemma FetchAtEnd(f: Follower, leader: Log, maxBytes: int, maxVisible: int)
    requires GapFree(leader) && SyncedTo(f, LogStart(leader), AllBatches(leader), |AllBatches(leader)|)
    ensures Fetch(leader, f.fetchOffset, maxBytes, maxVisible).None?
  {
    AllBatchesContiguous(leader);
  }

  // ---- When every fetch starts exactly ----

  /** Every segment's index is the one that appending its batches one by one writes. */
  predicate OneLifetime(log: Log, interval: int) {
    forall i | 0 <= i < |log| :: log[i].indexed == IndexPlan(log[i].batches, interval)
  }

  lemma OneLifetimeAppend(log: Log, b: Batch, maxBytes: int, interval: int)
    requires log != [] && OneLifetime(log, interval)
    ensures OneLifetime(LogAppend(log, [b], maxBytes, interval), interval)
  {
    PlanFollowsAppends(Active(log), b, interval);
    PlanFollowsAppends(Seg(LogEnd(log), [], []), b, interval);
  }

  predicate AllAtLeast(bs: seq<Batch>, interval: int) {
    forall k | 0 <= k < |bs| :: interval <= |bs[k].raw|
  }

  /** In a log written in one lifetime, batches of at least `interval` bytes make every fetch at a boundary exact. */
  lemma LargeBatchesExact(log: Log, interval: int, m: nat)
    requires GapFree(log) && OneLifetime(log, interval) && m < |AllBatches(log)|
    requires AllAtLeast(AllBatches(log), interval)
    ensures StartsExactly(log, AllBatches(log)[m].base)
  {
    hide AllBatches, IndexPlan, SegmentOf, Target;
    var all := AllBatches(log);
    var i, k := Locate(log, m);
    var bs := log[i].batches;
    assert bs == all[m - k..m - k + |bs|];
    assert AllAtLeast(bs, interval);
    LargeBatchesAllIndexed(bs, interval);
    HoldsWhere(log, i, k, all[m].base);
    assert log[i].indexed[k] == k;
  }

  /**
   Otherwise it fails: when the first batch is shorter than the interval, a
   follower that has just copied it gets it a second time, under the second
   batch's offset, and no longer holds a prefix of the leader's log.
   */
  lemma SmallBatchCopiedTwice(b0: Batch, b1: Batch, interval: int, maxBytes: int)
    requires Whole(b0) && Whole(b1) && b0.base == 0 && b1.base == b0.count
    requires |b0.raw| < interval && (maxBytes <= 0 || |b0.raw| + |b1.raw| <= maxBytes)
    ensures var leader := [Seg(0, [b0, b1], IndexPlan([b0, b1], interval))];
            var f := Follower([b0], b1.base, b1.base);
            && GapFree(leader)
            && OneLifetime(leader, interval)
            && SyncedTo(f, 0, AllBatches(leader), 1)
            && !StartsExactly(leader, b1.base)
            && var r := Fetch(leader, f.fetchOffset, maxBytes, b1.NextOffset());
            && r == Some([b0, b1])
            && Apply(f, r).batches == [b0, Rebase(b0, b1.base), b1]
            && !(Apply(f, r).batches <= AllBatches(leader))
  {
    hide Fetch, GapFree, StartsExactly, IndexPlan, Rebase;
    TwoBatchPlan(b0, b1, interval);
    TwoBatchFetch(b0, b1, maxBytes);
    var leader := [Seg(0, [b0, b1], [0])];
    var f := Follower([b0], b1.base, b1.base);
    assert f.batches == AllBatches(leader)[..1];
    assert [b0, b1][1..] == [b1];
    var copy := Apply(f, Some([b0, b1])).batches;
    assert |copy| == 3 && |AllBatches(leader)| == 2;
  }

  lemma TwoBatchPlan(b0: Batch, b1: Batch, interval: int)
    requires |b0.raw| < interval
    ensures IndexPlan([b0, b1], interval) == [0]
  {
    PlanFollowsAppends(Seg(0, [], []), b0, interval);
    assert [] + [b0] == [b0];
    PlanFollowsAppends(Seg(0, [b0], [0]), b1, interval);
    assert [b0] + [b1] == [b0, b1];
    assert Pos([b0], 0) == 0 && Pos([b0], 1) == |b0.raw|;
  }

  lemma TwoBatchRegion(b0: Batch, b1: Batch, maxBytes: int)
    requires b0.base == 0 && b1.base == b0.count && 1 <= b0.count && 1 <= b1.count
    requires maxBytes <= 0 || |b0.raw| + |b1.raw| <= maxBytes
    ensures var s := Seg(0, [b0, b1], [0]);
            && ValidSeg(s) && Target(s.batches, b1.base) == 1 && s.End() == b1.NextOffset()
            && Region(s, b1.base, maxBytes) == (0, 2)
  {
    var bs := [b0, b1];
    assert OffsetAt(0, bs, 0) == 0 && OffsetAt(0, bs, 1) == b1.base;
    assert Target(bs, b1.base) == ScanFrom(bs, 1, b1.base) == 1;
    assert ScanStart(bs, [0], b1.base) == 0;
    assert Pos(bs, 0) == 0 && Pos(bs, 1) == |b0.raw| && Pos(bs, 2) == |b0.raw| + |b1.raw|;
    assert RegionEnd(bs, 0, 1, maxBytes) == RegionEnd(bs, 0, 2, maxBytes) == 2;
  }

  lemma TwoBatchFetch(b0: Batch, b1: Batch, maxBytes: int)
    requires b0.base == 0 && b1.base == b0.count && 1 <= b0.count && 1 <= b1.count
    requires maxBytes <= 0 || |b0.raw| + |b1.raw| <= maxBytes
    ensures var leader := [Seg(0, [b0, b1], [0])];
            && GapFree(leader)
            && AllBatches(leader) == [b0, b1]
            && !StartsExactly(leader, b1.base)
            && Fetch(leader, b1.base, maxBytes, b1.NextOffset()) == Some([b0, b1])
  {
    hide Region, Target, ValidSeg, VisibleEnd, Contiguous;
    TwoBatchRegion(b0, b1, maxBytes);
    var bs := [b0, b1];
    var leader := [Seg(0, bs, [0])];
    assert leader[..0] == [];
    OneSegment(leader[0], b1.base);
    VisibleEndUnique(bs, 0, 2, b1.NextOffset(), 2);
    assert bs[0..2] == bs;
  }

  lemma OneSegment(s: Seg, offset: int)
    requires s.base <= offset
    ensures SegmentOf([s], offset) == 0 && AllBatches([s]) == s.batches
  {
    assert [s][..0] == [];
  }

  // ---- Counting the records of a response ----

  /** Go's int32 addition. */
  function Add32(a: int, b: int): int {
    Signed(4, Wrap32(a + b))
  }

  /**
   The sum of the record counts of the batches from `pos`, or an error at a
   header cut short or too small a length.
   */
  function CountFrom(raw: seq<Byte>, pos: nat, total: int): Option<int>
    decreases |raw| - pos
  {
    if pos >= |raw| then Some(total)
    else if |raw| - pos < HEADER_SIZE then None
    else
      var batchLen := UnsignedAt(raw, pos + 8, 4);
      if batchLen < LOG_OVERHEAD then None
      else CountFrom(raw, pos + LOG_OVERHEAD + batchLen, Add32(total, I32At(raw, pos + 57)))
  }

  method CountRecordsInRecordBatches(raw: seq<Byte>) returns (r: Option<int>)
    ensures r == CountFrom(raw, 0, 0)
  {
    var total, pos: nat := 0, 0;
    while pos < |raw|
      invariant CountFrom(raw, pos, total) == CountFrom(raw, 0, 0)
      decreases |raw| - pos
    {
      if |raw| - pos < HEADER_SIZE {
        return None;
      }
      var batchLen := UnsignedAt(raw, pos + 8, 4);
      if batchLen < LOG_OVERHEAD {
        return None;
      }
      total := Add32(total, I32At(raw, pos + 57));
      pos := pos + LOG_OVERHEAD + batchLen;
    }
    return Some(total);
  }

  lemma Add32Small(a: int, b: int)
    requires 0 <= a && 0 <= b && a + b <= MAX_INT32
    ensures Add32(a, b) == a + b
  {
    Widths();
  }

  lemma {:induction false} RecordTotalGrows(bs: seq<Batch>, k: nat)
    requires AllWhole(bs) && k <= |bs|
    ensures 0 <= RecordTotal(bs[..k]) <= RecordTotal(bs)
    decreases |bs|
  {
    if bs != [] {
      var n := |bs| - 1;
      assert bs[n].count >= 1 && RecordTotal(bs) == RecordTotal(bs[..n]) + bs[n].count;
      hide Whole, RecordTotal;
      RecordTotalGrows(bs[..n], if k < |bs| then k else n);
      if k < |bs| {
        assert bs[..n][..k] == bs[..k];
      } else {
        assert bs[..k] == bs && bs[..n][..n] == bs[..n];
      }
    }
  }

  /** On whole batches the count is the number of records, as long as that fits an int32. */
  lemma {:induction false} CountIsTotal(bs: seq<Batch>, k: nat)
    requires AllWhole(bs) && RecordTotal(bs) <= MAX_INT32 && k <= |bs|
    ensures CountFrom(Flatten(bs), Pos(bs, k), RecordTotal(bs[..k])) == Some(RecordTotal(bs))
    decreases |bs| - k
  {
    hide Flatten, CountFrom, AllWhole, RecordTotal, HeaderSays;
    FlattenLength(bs);
    if k == |bs| {
      assert bs[..k] == bs;
      CountDone(Flatten(bs), Pos(bs, k), RecordTotal(bs));
    } else {
      HeaderAt(Flatten(bs), bs, k);
      RecordTotalGrows(bs, k + 1);
      TotalStep(bs, k);
      CountStep(Flatten(bs), Pos(bs, k), bs[k], RecordTotal(bs[..k]));
      CountIsTotal(bs, k + 1);
    }
  }

  lemma TotalStep(bs: seq<Batch>, k: nat)
    requires AllWhole(bs) && k < |bs|
    ensures RecordTotal(bs[..k + 1]) == RecordTotal(bs[..k]) + bs[k].count && 0 <= RecordTotal(bs[..k])
    ensures 1 <= bs[k].count
  {
    RecordTotalGrows(bs, k);
    assert bs[..k + 1][..k] == bs[..k];
    assert Whole(bs[k]);
  }

  lemma CountDone(raw: seq<Byte>, pos: nat, total: int)
    requires pos >= |raw|
    ensures CountFrom(raw, pos, total) == Some(total)
  {
  }

  lemma CountStep(raw: seq<Byte>, pos: nat, b: Batch, total: int)
    requires HeaderSays(raw, pos, b.base, b.count, |b.raw|) && HEADER_SIZE <= |b.raw| && pos + |b.raw| <= |raw|
    requires 0 <= total && 1 <= b.count && total + b.count <= MAX_INT32
    ensures CountFrom(raw, pos, total) == CountFrom(raw, pos + |b.raw|, total + b.count)
  {
    hide UnsignedAt, Add32;
    Widths();
    Add32Small(total, b.count);
  }
}
