/**
 The append step of the replica fetcher on a follower's own commit log.
 */
module ReplicaFetchers {
  import opened Options
  import opened Bytes
  import opened RecordBatch
  import opened LogView
  import opened CommitLogView
  import opened CommitLogs
  import opened Replication

  class ReplicaFetcher {
    const commitLog: CommitLog
    var fetchOffset: int

    constructor (commitLog: CommitLog)
      ensures this.commitLog == commitLog && fetchOffset == 0
    {
      this.commitLog := commitLog;
      fetchOffset := 0;
    }

    /** What the follower holds, as the copy loop's model sees it. */
    ghost function View(): Follower
      reads this, commitLog, commitLog.segments
    {
      Follower(AllBatches(commitLog.View()), commitLog.nextOffset, fetchOffset)
    }

    /**
     Appends the records of one partition response. A response that starts at
     the follower's next offset is applied exactly; an empty one, or one whose
     count is not positive, is skipped.
     */
    method ApplyResponse(records: Option<seq<Byte>>, ghost bs: seq<Batch>)
      requires commitLog.Valid() && commitLog.Intact() && !commitLog.isClosed
      requires commitLog.maxBytes <= 0x1_0000_0000
      requires commitLog.nextOffset - commitLog.activeSegment.baseOffset < 0x1_0000_0000
      requires records.Some? ==> records.value == Flatten(bs) && AllWhole(bs) && RecordTotal(bs) <= MAX_INT32
      requires bs != [] ==> records.Some? && Contiguous(commitLog.nextOffset, bs)
      requires commitLog.nextOffset == fetchOffset
      modifies this, commitLog, commitLog.owned
      ensures commitLog.Valid() && commitLog.Intact()
      ensures bs == [] ==> View() == old(View())
      ensures bs != [] ==> |bs[0].raw| >= 8 && View() == Apply(old(View()), Some(bs))
    {
      hide CommitLog.Valid, CommitLog.Intact, CommitLog.Appendable, AllBatches, LogAppend, CountFrom, Flatten,
           Rebase, RecordTotal,
           AllWhole, Contiguous, IndexInRange;
      FlattenSize(bs);
      if records.None? || |records.value| == 0 {
        return;
      }
      CountAll(bs);
      var count := CountRecordsInRecordBatches(records.value);
      FetcherNotOwned(this, commitLog);
      ghost var view := commitLog.View();
      ResponseAppendable(commitLog, records.value, bs);
      var r, _ := commitLog.AppendRaw(records.value, count.value, bs);
      AllBatchesAppend(view, bs, commitLog.maxBytes, commitLog.indexInterval);
      FetcherNotOwned(this, commitLog);
      fetchOffset := r.value + count.value;
    }
  }

  lemma FlattenSize(bs: seq<Batch>)
    requires AllWhole(bs)
    ensures |Flatten(bs)| == 0 <==> bs == []
    ensures bs != [] ==> |Flatten(bs)| >= 8 && |bs[0].raw| >= 8
  {
    FlattenLength(bs);
    PosMonotone(bs, 0, |bs|);
    if bs != [] {
      assert Whole(bs[0]);
    }
  }

  lemma CountAll(bs: seq<Batch>)
    requires AllWhole(bs) && RecordTotal(bs) <= MAX_INT32
    ensures CountFrom(Flatten(bs), 0, 0) == Some(RecordTotal(bs))
  {
    hide CountFrom, Flatten;
    CountIsTotal(bs, 0);
    assert bs[..0] == [];
  }

  lemma FetcherNotOwned(f: ReplicaFetcher, cl: CommitLog)
    requires cl.Valid()
    ensures f !in cl.owned && cl.View() != [] && IndexInRange(Active(cl.View()))
  {
    assert ValidSeg(Active(cl.View()));
  }

  /** A response that starts where the follower's log ends is left as it is by the offset patch. */
  lemma ResponseAppendable(cl: CommitLog, data: seq<Byte>, bs: seq<Batch>)
    requires data == Flatten(bs) && AllWhole(bs) && bs != [] && Contiguous(cl.nextOffset, bs)
    ensures cl.Appendable(data, RecordTotal(bs), bs)
    ensures Rebase(bs[0], cl.nextOffset) == bs[0] && bs == [bs[0]] + bs[1..]
  {
    assert bs[0].base == OffsetAt(cl.nextOffset, bs, 0) == cl.nextOffset;
    assert Whole(bs[0]);
    RebaseToOwnOffset(bs[0]);
    RecordTotalIs(cl.nextOffset, bs);
    FlattenSize(bs);
    PatchOfFirst(bs, cl.nextOffset);
  }

  lemma PatchOfFirst(bs: seq<Batch>, base: int)
    requires bs != [] && |bs[0].raw| >= 8 && |Flatten(bs)| >= 8 && Patch(bs[0].raw, base) == bs[0].raw
    ensures Patch(Flatten(bs), base) == Flatten(bs)
  {
    hide Flatten, PutBE;
    FlattenAppend(bs[..1], bs[1..]);
    assert bs == bs[..1] + bs[1..] && bs[..1] == [bs[0]];
    FlattenSingle(bs[0]);
    var rest := Flatten(bs[1..]);
    assert Flatten(bs) == bs[0].raw + rest;
    assert (bs[0].raw + rest)[8..] == bs[0].raw[8..] + rest;
  }
}
