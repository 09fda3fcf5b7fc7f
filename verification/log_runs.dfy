/**
 Whole lives of a commit log: single-batch appends and reopenings in any order.
 */
module LogRuns {
  import opened RecordBatch
  import opened LogView
  import opened CommitLogView
  import opened CommitLogs

  datatype Op =
    | AppendsBatch(batch: Batch)
    | Reopens                      // close and open again: the indexes start empty

  function Done(log: Log, op: Op, maxBytes: int, interval: int): Log
    requires log != [] && IndexInRange(Active(log)) && (op.AppendsBatch? ==> |op.batch.raw| >= 8)
  {
    match op
    case AppendsBatch(b) => LogAppend(log, [Rebase(b, LogEnd(log))], maxBytes, interval)
    case Reopens => Reopened(log)
  }

  /** The batches appended, in order. */
  function BatchesOf(ops: seq<Op>): seq<Batch> {
    if ops == [] then []
    else
      var n := |ops| - 1;
      BatchesOf(ops[..n]) + if ops[n].AppendsBatch? then [ops[n].batch] else []
  }

  predicate OpsOk(ops: seq<Op>) {
    forall i | 0 <= i < |ops| && ops[i].AppendsBatch? :: ops[i].batch.count >= 1 && |ops[i].batch.raw| >= 8
  }

  /** The same batches, each patched to start where the one before it ends. */
  function Placed(bs: seq<Batch>): seq<Batch>
    requires forall k | 0 <= k < |bs| :: |bs[k].raw| >= 8
  {
    if bs == [] then []
    else var n := |bs| - 1; Placed(bs[..n]) + [Rebase(bs[n], RecordTotal(bs[..n]))]
  }

  lemma {:induction false} BatchesOfOk(ops: seq<Op>)
    requires OpsOk(ops)
    ensures forall k | 0 <= k < |BatchesOf(ops)| :: |BatchesOf(ops)[k].raw| >= 8 && BatchesOf(ops)[k].count >= 1
  {
    if ops != [] {
      BatchesOfOk(ops[..|ops| - 1]);
    }
  }

  /** The log after the operations, from a new one. */
  function After(ops: seq<Op>, maxBytes: int, interval: int): (log: Log)
    requires OpsOk(ops) && maxBytes > 0
    ensures GapFree(log) && LogStart(log) == 0
    ensures LogEnd(log) == RecordTotal(BatchesOf(ops))
  {
    if ops == [] then [Seg(0, [], [])]
    else
      var n := |ops| - 1;
      var log := After(ops[..n], maxBytes, interval);
      OpKeeps(log, ops[n], maxBytes, interval);
      TotalMore(ops);
      Done(log, ops[n], maxBytes, interval)
  }

  lemma TotalMore(ops: seq<Op>)
    requires ops != []
    ensures var n := |ops| - 1;
            RecordTotal(BatchesOf(ops)) ==
            RecordTotal(BatchesOf(ops[..n])) + if ops[n].AppendsBatch? then ops[n].batch.count else 0
  {
    var bs := BatchesOf(ops[..|ops| - 1]);
    if ops[|ops| - 1].AppendsBatch? {
      assert (bs + [ops[|ops| - 1].batch])[..|bs|] == bs;
    } else {
      assert bs + [] == bs;
    }
  }

  lemma OpKeeps(log: Log, op: Op, maxBytes: int, interval: int)
    requires GapFree(log) && maxBytes > 0
    requires op.AppendsBatch? ==> op.batch.count >= 1 && |op.batch.raw| >= 8
    ensures log != [] && IndexInRange(Active(log))
    ensures var log' := Done(log, op, maxBytes, interval);
            && GapFree(log') && LogStart(log') == LogStart(log)
            && LogEnd(log') == LogEnd(log) + (if op.AppendsBatch? then op.batch.count else 0)
            && AllBatches(log') == AllBatches(log) + if op.AppendsBatch? then [Rebase(op.batch, LogEnd(log))] else []
  {
    assert ValidSeg(Active(log));
    hide AllBatches, LogAppend, GapFree, ValidSeg;
    match op
    case AppendsBatch(b) =>
      var b' := Rebase(b, LogEnd(log));
      assert OffsetAt(LogEnd(log), [b'], 0) == b'.base;
      LogAppendGapFree(log, [b'], maxBytes, interval);
      AllBatchesAppend(log, [b'], maxBytes, interval);
    case Reopens =>
      ReopenedGapFree(log);
      ReopenedBatches(log);
  }

  lemma {:induction false} ReopenedBatches(log: Log)
    ensures AllBatches(Reopened(log)) == AllBatches(log)
    decreases |log|
  {
    if log != [] {
      var n := |log| - 1;
      ReopenedBatches(log[..n]);
      assert Reopened(log)[..n] == Reopened(log[..n]);
    }
  }

  /**
   After any appends and reopenings the log holds exactly the appended batches,
   patched to consecutive offsets from 0, and its segments partition the
   offsets below the next one.
   */
  lemma {:induction false} LogHoldsExactly(ops: seq<Op>, maxBytes: int, interval: int)
    requires OpsOk(ops) && maxBytes > 0
    ensures forall k | 0 <= k < |BatchesOf(ops)| :: |BatchesOf(ops)[k].raw| >= 8
    ensures var log := After(ops, maxBytes, interval);
            && AllBatches(log) == Placed(BatchesOf(ops))
            && Contiguous(0, AllBatches(log))
    decreases |ops|
  {
    hide AllBatches, GapFree, Placed, Done, BatchesOf, RecordTotal, Contiguous, Rebase, After;
    BatchesOfOk(ops);
    AllBatchesContiguous(After(ops, maxBytes, interval));
    if ops == [] {
      NothingHeld(maxBytes, interval);
    } else {
      var n := |ops| - 1;
      LogHoldsExactly(ops[..n], maxBytes, interval);
      OpKeeps(After(ops[..n], maxBytes, interval), ops[n], maxBytes, interval);
      AfterStep(ops, maxBytes, interval);
      PlacedMore(ops);
    }
  }

  lemma NothingHeld(maxBytes: int, interval: int)
    requires maxBytes > 0
    ensures AllBatches(After([], maxBytes, interval)) == [] && BatchesOf([]) == [] && Placed([]) == []
  {
    assert [Seg(0, [], [])][..0] == [];
  }

  lemma AfterStep(ops: seq<Op>, maxBytes: int, interval: int)
    requires OpsOk(ops) && maxBytes > 0 && ops != []
    ensures var log := After(ops[..|ops| - 1], maxBytes, interval);
            && log != [] && IndexInRange(Active(log))
            && After(ops, maxBytes, interval) == Done(log, ops[|ops| - 1], maxBytes, interval)
  {
    OpKeeps(After(ops[..|ops| - 1], maxBytes, interval), ops[|ops| - 1], maxBytes, interval);
  }

  lemma PlacedMore(ops: seq<Op>)
    requires OpsOk(ops) && ops != []
    ensures forall k | 0 <= k < |BatchesOf(ops)| :: |BatchesOf(ops)[k].raw| >= 8
    ensures var n := |ops| - 1;
            && (forall k | 0 <= k < |BatchesOf(ops[..n])| :: |BatchesOf(ops[..n])[k].raw| >= 8)
            && Placed(BatchesOf(ops)) == Placed(BatchesOf(ops[..n])) +
                 if ops[n].AppendsBatch? then [Rebase(ops[n].batch, RecordTotal(BatchesOf(ops[..n])))] else []
  {
    BatchesOfOk(ops);
    var n := |ops| - 1;
    BatchesOfOk(ops[..n]);
    var bs := BatchesOf(ops[..n]);
    if ops[n].AppendsBatch? {
      assert (bs + [ops[n].batch])[..|bs|] == bs;
    } else {
      assert bs + [] == bs;
    }
  }

  // ---- When segments roll ----

  /** Every segment but the active one has reached the limit, and none had before its last append. */
  predicate Rolled(log: Log, maxBytes: int) {
    && (forall i | 0 <= i < |log| - 1 :: log[i].Size() >= maxBytes)
    && (forall i | 0 <= i < |log| && log[i].batches != [] :: Pos(log[i].batches, |log[i].batches| - 1) < maxBytes)
  }

  lemma AppendRolls(log: Log, b: Batch, maxBytes: int, interval: int)
    requires log != [] && IndexInRange(Active(log)) && maxBytes > 0 && Rolled(log, maxBytes)
    ensures Rolled(LogAppend(log, [b], maxBytes, interval), maxBytes)
  {
    hide NeedsEntry;
    var log' := LogAppend(log, [b], maxBytes, interval);
    var s, s' := Active(log), Active(log');
    if s.Size() >= maxBytes {
      assert s'.batches == [] + [b] == [b] && Pos([b], 0) == 0;
      hide Pos;
      assert forall i | 0 <= i < |log| :: log'[i] == log[i];
    } else {
      assert s'.batches == s.batches + [b];
      PosAgree(s'.batches, s.batches, |s.batches|);
      hide Pos;
      assert forall i | 0 <= i < |log| - 1 :: log'[i] == log[i];
    }
  }

  /** In every run segments roll exactly when they are full. */
  lemma {:induction false} SegmentsRollWhenFull(ops: seq<Op>, maxBytes: int, interval: int)
    requires OpsOk(ops) && maxBytes > 0
    ensures Rolled(After(ops, maxBytes, interval), maxBytes)
  {
    if ops != [] {
      hide After, Rolled, LogAppend, Reopened, GapFree;
      var n := |ops| - 1;
      var log := After(ops[..n], maxBytes, interval);
      SegmentsRollWhenFull(ops[..n], maxBytes, interval);
      AfterStep(ops, maxBytes, interval);
      OpRolls(log, ops[n], maxBytes, interval);
    }
  }

  lemma OpRolls(log: Log, op: Op, maxBytes: int, interval: int)
    requires GapFree(log) && maxBytes > 0 && Rolled(log, maxBytes)
    requires op.AppendsBatch? ==> op.batch.count >= 1 && |op.batch.raw| >= 8
    ensures log != [] && IndexInRange(Active(log)) && Rolled(Done(log, op, maxBytes, interval), maxBytes)
  {
    hide AllBatches, LogAppend;
    assert ValidSeg(Active(log));
    match op
    case AppendsBatch(b) => AppendRolls(log, Rebase(b, LogEnd(log)), maxBytes, interval);
    case Reopens =>
  }
}
