/**
 The cluster metadata log under the producer-id leases, and the manager that
 issues ids from leased blocks.
 */
module MetadataLogs {
  import opened Options
  import opened Bytes
  import opened RecordBatch
  import opened LogView
  import opened CommitLogView
  import opened Segments
  import opened CommitLogs
  import opened MetadataBatches
  import Replication
  import PidLeases

  const RECORD_TYPE_PRODUCER_IDS := 3

  // ---- The lease record ----

  function LeaseRecord(brokerId: int, brokerEpoch: int, end: int): (r: seq<Byte>)
    ensures |r| == 22
  {
    [RECORD_TYPE_PRODUCER_IDS, 0] + (PutBE(4, brokerId) + (PutBE(8, brokerEpoch) + PutBE(8, end)))
  }

  /** What decoding a value as a lease record gives; a short lease record is an index out of range. */
  datatype Decoded = NoLease | Lease(end: int) | OutOfRange

  function LeaseOf(value: seq<Byte>): Decoded {
    if |value| < 2 || value[0] != RECORD_TYPE_PRODUCER_IDS then NoLease
    else if |value| < 22 then OutOfRange
    else Lease(I64At(value, 14))
  }

  lemma LeaseRoundTrip(brokerId: int, brokerEpoch: int, end: int)
    requires In64(end)
    ensures LeaseOf(LeaseRecord(brokerId, brokerEpoch, end)) == Lease(end)
  {
    hide PutBE, I64At, At;
    var value := LeaseRecord(brokerId, brokerEpoch, end);
    var tail := PutBE(8, brokerEpoch) + PutBE(8, end);
    AtWhole(value);
    AtSplit(value, 0, [RECORD_TYPE_PRODUCER_IDS, 0], PutBE(4, brokerId) + tail);
    AtSplit(value, 2, PutBE(4, brokerId), tail);
    AtSplit(value, 6, PutBE(8, brokerEpoch), PutBE(8, end));
    Read64(value, 14, end);
  }

  /** The lease ends among the values, in order. */
  function LeaseEnds(values: seq<seq<Byte>>): seq<int> {
    if values == [] then []
    else
      var n := |values| - 1;
      LeaseEnds(values[..n]) + if LeaseOf(values[n]).Lease? then [LeaseOf(values[n]).end] else []
  }

  // ---- The log ----

  /** The batches carry these values, one each. */
  predicate CarryAll(bs: seq<Batch>, values: seq<seq<Byte>>) {
    |bs| == |values| && forall k | 0 <= k < |bs| :: Carries(bs[k], values[k]) && values[k] != []
  }

  /** A replica counts one record per value in a run of metadata batches. */
  lemma CountIsValues(bs: seq<Batch>, values: seq<seq<Byte>>)
    requires CarryAll(bs, values) && |values| <= MAX_INT32
    ensures Replication.CountFrom(Flatten(bs), 0, 0) == Some(|values|)
  {
    hide Flatten, Replication.CountFrom, Carries, Whole;
    forall k | 0 <= k < |bs| ensures Whole(bs[k]) && bs[k].count == 1 {
      CarriesWhole(bs[k], values[k]);
    }
    OneEach(bs);
    Replication.CountIsTotal(bs, 0);
    assert bs[..0] == [] && RecordTotal([]) == 0;
    ZeroPos(bs);
  }

  lemma {:induction false} OneEach(bs: seq<Batch>)
    requires forall k | 0 <= k < |bs| :: bs[k].count == 1
    ensures RecordTotal(bs) == |bs|
  {
    if bs != [] {
      OneEach(bs[..|bs| - 1]);
    }
  }

  /** A read of the whole log from offset 0 finds exactly the first segment. */
  lemma FirstSegmentWhole(log: Log)
    requires GapFree(log) && LogStart(log) == 0 < LogEnd(log) && Pos(log[0].batches, |log[0].batches|) <= MAX_INT64
    ensures SegmentOf(log, 0) == 0 && log[0].batches != []
    ensures Region(log[0], 0, MAX_INT64) == (0, |log[0].batches|)
  {
    hide GapFree, SegmentOf, Target, RegionEnd;
    FirstHoldsZero(log);
    HoldsWhere(log, 0, 0, 0);
    SegmentIndex(log);
    AllFits(log[0].batches, MAX_INT64);
  }

  lemma SegmentIndex(log: Log)
    requires GapFree(log)
    ensures log != [] && IndexInRange(log[0])
  {
  }

  lemma AllFits(bs: seq<Batch>, maxBytes: int)
    requires bs != [] && Pos(bs, |bs|) <= maxBytes
    ensures RegionEnd(bs, 0, 1, maxBytes) == |bs|
  {
    hide Pos;
    var r := RegionEnd(bs, 0, 1, maxBytes);
    ZeroPos(bs);
    if r < |bs| {
      PosMonotone(bs, r + 1, |bs|);
    }
  }

  lemma FirstHoldsZero(log: Log)
    requires GapFree(log) && LogStart(log) == 0 < LogEnd(log)
    ensures Holds(log, 0, 0, 0)
  {
    if |log| > 1 {
      assert LinkedAt(log, 1);
    }
    var bs := log[0].batches;
    assert bs[0].base == OffsetAt(0, bs, 0) == 0;
  }

  method Append(cl: CommitLog, value: seq<Byte>, now: int, crc: seq<Byte> -> UInt32) returns (ok: bool, ghost b: Batch)
    requires cl.Valid() && cl.Intact() && 0 <= cl.nextOffset < MAX_INT64 && 49 + |RecordBytes(value)| <= MAX_INT32
    requires cl.maxBytes <= 0x1_0000_0000 && cl.nextOffset - cl.activeSegment.baseOffset < 0x1_0000_0000
    modifies cl, cl.owned
    ensures cl.Valid() && cl.Intact() && ok == !old(cl.isClosed)
    ensures ok ==> Carries(b, value) && AllBatches(cl.View()) == old(AllBatches(cl.View())) + [b]
    ensures ok ==> cl.nextOffset == old(cl.nextOffset) + 1
    ensures !ok ==> AllBatches(cl.View()) == old(AllBatches(cl.View()))
  {
    hide CommitLog.Valid, CommitLog.Intact, AllBatches, LogAppend, BatchBytes, Carries, RecordBytes;
    var data := BatchBytes(value, now, crc);
    b := Rebase(Batch(0, 1, data), cl.nextOffset);
    EncodedCarries(value, now, crc, cl.nextOffset);
    OneAppendable(cl, data, b, value);
    ghost var log := cl.View();
    ValidLog(cl);
    var r, rolled := cl.AppendRaw(data, 1, [b]);
    ok := r.Ok?;
    if ok {
      AllBatchesAppend(log, [b], cl.maxBytes, cl.indexInterval);
    }
  }

  lemma OneAppendable(cl: CommitLog, data: seq<Byte>, b: Batch, value: seq<Byte>)
    requires |data| >= 8 && b == Rebase(Batch(0, 1, data), cl.nextOffset) && Carries(b, value)
    ensures cl.Appendable(data, 1, [b])
  {
    FlattenSingle(b);
    assert OffsetAt(cl.nextOffset, [b], 0) == b.base;
  }

  lemma ValidLog(cl: CommitLog)
    requires cl.Valid()
    ensures cl.View() != [] && GapFree(cl.View()) && cl.nextOffset == LogEnd(cl.View()) && |cl.View()| == |cl.segments|
  {
  }

  /** The read of the first segment counts a torn tail in: the segment is the only one and ends in one. */
  predicate ReplayFails(log: Log, torn: seq<Byte>) {
    log != [] && ReachesTail(log[0].batches, 0, MAX_INT64, TornAt(log, 0, torn))
  }

  /** It does exactly when a one-segment log of some batches ends in 17 bytes or more of another. */
  lemma ReplayFailsExactly(log: Log, torn: seq<Byte>)
    requires log != [] && Torn(torn) && Pos(log[0].batches, |log[0].batches|) + MAX_INT32 + LOG_OVERHEAD <= MAX_INT64
    ensures ReplayFails(log, torn) <==> |log| == 1 && log[0].batches != [] && |torn| >= HEADER_UP_TO_MAGIC
  {
    hide Pos, GetBE;
    var bs := log[0].batches;
    if bs != [] {
      AllFits(bs, MAX_INT64);
      ZeroPos(bs);
      SmallPromise(torn);
    }
  }

  lemma SmallPromise(torn: seq<Byte>)
    ensures Promised(torn) <= MAX_INT32 + LOG_OVERHEAD
  {
    Widths();
  }

  /**
   Hands out the values of the log's first segment, which is all that is read.
   A region that counts a torn tail in is longer than the file, and reading it
   is an error. A closed log reads as an empty one.
   */
  method Replay(cl: CommitLog, ghost values: seq<seq<Byte>>, ghost torn: seq<Byte>) returns (r: Option<seq<seq<Byte>>>)
    requires cl.Valid() && LogStart(cl.View()) == 0 && TornOnlyAtEnd(cl.segments, torn)
    requires CarryAll(cl.View()[0].batches, values) && Pos(cl.View()[0].batches, |values|) <= MAX_INT64
    ensures r == if cl.isClosed then Some([]) else if ReplayFails(cl.View(), torn) then None else Some(values)
  {
    hide CommitLog.Valid, GapFree, Region, SegmentOf, Flatten, ValuesFrom, Carries, Pos, TornOnlyAtEnd, ReachesTail,
         Promised;
    ghost var log := cl.View();
    ValidLog(cl);
    var region := cl.FindRecords(0, MAX_INT64, torn);
    if cl.nextOffset > 0 {
      FirstSegmentWhole(log);
    } else {
      NothingLogged(log);
      NoBatchNoTail(log, torn);
    }
    if region.None? {
      return Some([]);
    }
    ghost var bs := log[0].batches;
    assert bs[0..|bs|] == bs;
    ReadsWhole(region.value, bs, log, torn);
    if region.value.size > |region.value.Rest()| {
      return None;
    }
    var raw := region.value.Rest()[..region.value.size];
    ValuesRoundTrip(bs, values, 0);
    ZeroPos(bs);
    assert values[0..] == values;
    r := DecodeRecordValues(raw);
  }

  lemma NoBatchNoTail(log: Log, torn: seq<Byte>)
    requires log != [] && log[0].batches == []
    ensures !ReplayFails(log, torn)
  {
  }

  /** The region is longer than the file exactly when it counts a tail in. */
  lemma ReadsWhole(reg: RecordsRegion, bs: seq<Batch>, log: Log, torn: seq<Byte>)
    requires log != [] && bs == log[0].batches && Torn(torn)
    requires reg.Spans(bs, ReachedTail(bs, 0, MAX_INT64, TornAt(log, 0, torn)))
    ensures reg.size > |reg.Rest()| <==> ReplayFails(log, torn)
    ensures 0 <= reg.size && (reg.size <= |reg.Rest()| ==> reg.Rest()[..reg.size] == Flatten(bs))
  {
    hide Flatten, Pos;
  }

  lemma ZeroPos(bs: seq<Batch>)
    ensures Pos(bs, 0) == 0
  {
  }

  lemma NothingLogged(log: Log)
    requires GapFree(log) && LogStart(log) == 0 && LogEnd(log) <= 0
    ensures log[0].batches == []
  {
    if |log| > 1 {
      BasesIncrease(log, 0, |log| - 1);
    }
    OffsetsIncrease(0, log[0].batches, 0, |log[0].batches|);
  }

  // ---- The manager ----

  class PidManager {
    const brokerId: int
    const brokerEpoch: int
    var nextBase: int
    var blockEnd: int

    constructor (brokerId: int, brokerEpoch: int)
      ensures nextBase == 0 && blockEnd == 0 && this.brokerId == brokerId && this.brokerEpoch == brokerEpoch
    {
      this.brokerId, this.brokerEpoch := brokerId, brokerEpoch;
      nextBase, blockEnd := 0, 0;
    }

    /** The memory part of the lease model. */
    ghost function View(persisted: seq<seq<int>>, issued: seq<int>, under: seq<int>): PidLeases.Leases
      reads this
    {
      PidLeases.Leases(nextBase, blockEnd, persisted, issued, under)
    }

    method SeedFromLog(maxSeen: int)
      modifies this
      ensures nextBase == PidLeases.Max(old(nextBase), maxSeen) && blockEnd == PidLeases.Max(old(blockEnd), maxSeen)
    {
      if maxSeen > nextBase {
        nextBase := maxSeen;
      }
      if maxSeen > blockEnd {
        blockEnd := maxSeen;
      }
    }

    /** Records the next block's end in the log, then moves to that block; a failed append changes nothing. */
    method LeaseNextBlock(cl: CommitLog, now: int, crc: seq<Byte> -> UInt32) returns (ok: bool, ghost b: Batch)
      requires LogReady(cl)
      modifies this, cl, cl.owned
      ensures cl.Valid() && cl.Intact() && ok == !old(cl.isClosed)
      ensures ok ==> AllBatches(cl.View()) == old(AllBatches(cl.View())) + [b] &&
                     Carries(b, LeaseRecord(brokerId, brokerEpoch, blockEnd))
      ensures ok ==>
                && blockEnd == old(blockEnd) + PidLeases.BLOCK_SIZE
                && nextBase == PidLeases.Max(old(nextBase), old(blockEnd))
      ensures !ok ==>
                && nextBase == old(nextBase) && blockEnd == old(blockEnd)
                && AllBatches(cl.View()) == old(AllBatches(cl.View()))
    {
      hide CommitLog.Valid, CommitLog.Intact, AllBatches, LogAppend, Carries, RecordBytes, LeaseRecord;
      var newEnd := blockEnd + PidLeases.BLOCK_SIZE;
      var rec := LeaseRecord(brokerId, brokerEpoch, newEnd);
      LeaseIsSmall(rec);
      ManagerNotOwned(this, cl);
      ok, b := Append(cl, rec, now, crc);
      if !ok {
        return;
      }
      ManagerNotOwned(this, cl);
      if nextBase < blockEnd {
        nextBase := blockEnd;
      }
      blockEnd := newEnd;
    }

    /** The next id of the current block, leasing a new block first when it is used up. */
    method AllocateOne(cl: CommitLog, now: int, crc: seq<Byte> -> UInt32)
      returns (pid: Option<int>, ghost lease: seq<Batch>)
      requires LogReady(cl)
      modifies this, cl, cl.owned
      ensures cl.Valid() && cl.Intact()
      ensures AllBatches(cl.View()) == old(AllBatches(cl.View())) + lease
      ensures pid.None? <==> old(nextBase) >= old(blockEnd) && old(cl.isClosed)
      ensures pid.None? ==> lease == [] && nextBase == old(nextBase) && blockEnd == old(blockEnd)
      ensures pid.Some? && old(nextBase) < old(blockEnd) ==> lease == []
      ensures pid.Some? && old(nextBase) >= old(blockEnd) ==>
                |lease| == 1 && Carries(lease[0], LeaseRecord(brokerId, brokerEpoch, blockEnd))
      ensures pid.Some? ==>
                forall persisted, issued, under, rolls | persisted != [] ::
                  var after := PidLeases.Next(old(View(persisted, issued, under)), PidLeases.Allocates(rolls));
                  after.issued == issued + [pid.value] && nextBase == after.nextBase && blockEnd == after.blockEnd
    {
      hide CommitLog.Valid, CommitLog.Intact, AllBatches, Carries, LeaseRecord;
      lease := [];
      if nextBase >= blockEnd {
        ghost var b;
        var ok;
        ok, b := LeaseNextBlock(cl, now, crc);
        if !ok {
          return None, [];
        }
        lease := [b];
      }
      ManagerNotOwned(this, cl);
      pid := Some(nextBase);
      nextBase := nextBase + 1;
    }
  }

  lemma ManagerNotOwned(m: PidManager, cl: CommitLog)
    requires cl.Valid()
    ensures m !in cl.owned
  {
  }

  /** A log ready for one more metadata record. */
  ghost predicate LogReady(cl: CommitLog)
    reads cl, cl.owned
  {
    && cl.Valid() && cl.Intact() && 0 <= cl.nextOffset < MAX_INT64
    && cl.maxBytes <= 0x1_0000_0000 && cl.nextOffset - cl.activeSegment.baseOffset < 0x1_0000_0000
  }

  /** A varint of a short length takes one byte, so a lease record's batch is far below any limit. */
  lemma LeaseIsSmall(rec: seq<Byte>)
    requires |rec| == 22
    ensures 49 + |RecordBytes(rec)| <= MAX_INT32
  {
  }

  /** A replay shows nothing of the log: it is closed, or reading it fails. */
  ghost predicate Blind(cl: CommitLog, torn: seq<Byte>)
    reads cl, cl.segments
  {
    cl.isClosed || ReplayFails(cl.View(), torn)
  }

  /**
   Start-up: replay, take the largest lease end seen, and resume there, or at
   0 when the replay fails. False stands for an index out of range, on a short
   lease record.
   */
  method RecoverPidManager(m: PidManager, cl: CommitLog, ghost values: seq<seq<Byte>>, ghost torn: seq<Byte>)
    returns (ok: bool)
    requires cl.Valid() && LogStart(cl.View()) == 0 && TornOnlyAtEnd(cl.segments, torn)
    requires CarryAll(cl.View()[0].batches, values) && Pos(cl.View()[0].batches, |values|) <= MAX_INT64
    requires m.nextBase == 0 && m.blockEnd == 0
    modifies m
    ensures ok <==> Blind(cl, torn) || forall k | 0 <= k < |values| :: !LeaseOf(values[k]).OutOfRange?
    ensures ok ==> m.nextBase == m.blockEnd == if Blind(cl, torn) then 0 else PidLeases.Largest(LeaseEnds(values))
    ensures ok ==>
              forall s: PidLeases.Leases | s.persisted != [] && s.persisted[0] == LeaseEnds(values) ::
                m.View(s.persisted, s.issued, s.under) ==
                if Blind(cl, torn) then PidLeases.RestartedBlind(s) else PidLeases.Restarted(s)
  {
    hide CommitLog.Valid, CarryAll, LeaseOf, LeaseEnds, Pos, TornOnlyAtEnd, ReplayFails, PidLeases.Largest,
         CommitLog.View;
    var replayed := Replay(cl, values, torn);
    var seen := if replayed.Some? then replayed.value else [];
    var maxSeen := 0;
    NoLeases();
    assert seen[..0] == [];
    for i := 0 to |seen|
      invariant m.nextBase == m.blockEnd == 0
      invariant maxSeen == PidLeases.Largest(LeaseEnds(seen[..i]))
      invariant forall k | 0 <= k < i :: !LeaseOf(seen[k]).OutOfRange?
    {
      LargestStep(seen, i);
      var lease := LeaseOf(seen[i]);
      if lease.OutOfRange? {
        return false;
      }
      if lease.Lease? && lease.end > maxSeen {
        maxSeen := lease.end;
      }
    }
    assert seen[..|seen|] == seen;
    if maxSeen > 0 {
      m.SeedFromLog(maxSeen);
    }
    ok := true;
  }

  lemma NoLeases()
    ensures PidLeases.Largest(LeaseEnds([])) == 0
  {
  }

  lemma LargestStep(values: seq<seq<Byte>>, i: nat)
    requires i < |values|
    ensures PidLeases.Largest(LeaseEnds(values[..i + 1])) ==
            var before := PidLeases.Largest(LeaseEnds(values[..i]));
            if LeaseOf(values[i]).Lease? then PidLeases.Max(before, LeaseOf(values[i]).end) else before
  {
    hide LeaseOf;
    assert values[..i + 1][..i] == values[..i];
    var ends := LeaseEnds(values[..i]);
    assert ends + [] == ends;
    if LeaseOf(values[i]).Lease? {
      assert (ends + [LeaseOf(values[i]).end])[..|ends|] == ends;
    }
  }
}
