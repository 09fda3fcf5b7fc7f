/**
 The produce handler for one partition, on the objects it works with: the
 idempotence state, the commit log and the partition state.
 */
module ProduceHandler {
  import opened Options
  import opened Bytes
  import opened RecordBatch
  import opened LogView
  import opened CommitLogView
  import opened Segments
  import opened CommitLogs
  import opened Idempotence
  import opened ExactlyOnce
  import opened Purgatories
  import opened PartitionStates
  import ProducerStateManagers

  const NOT_ENOUGH_REPLICAS := 19
  const KAFKA_STORAGE_ERROR := 56
  const ACK_ALL := -1

  lemma StateNotOwned(idem: IdempotenceState, cl: CommitLog)
    requires cl.Valid()
    ensures idem !in cl.owned
  {
    hide WellKept, GapFree;
    OnlyLogObjects(cl);
  }

  /** A log with room for the batch. */
  ghost predicate LogReady(cl: CommitLog)
    reads cl, cl.owned
  {
    && cl.Valid() && cl.Intact()
    && cl.maxBytes <= 0x1_0000_0000 && cl.nextOffset - cl.activeSegment.baseOffset < 0x1_0000_0000
  }

  /** The broker value of the exactly-once model, for any record of what was logged before. */
  ghost function BrokerOf(idem: IdempotenceState, cl: CommitLog, log: seq<Entry>): Broker
    reads idem, cl
  {
    Broker(idem.producers, log, cl.nextOffset)
  }

  /** The request is what decoding the batch's bytes gives. */
  predicate FromBytes(r: Request, data: seq<Byte>) {
    |data| >= HEADER_SIZE && r.pid == I64At(data, 43) && r.epoch == I16At(data, 51) && r.firstSeq == I32At(data, 53)
  }

  /** What recovery later reads from the written batch is the entry of the request. */
  lemma WrittenEntry(cl: CommitLog, r: Request, data: seq<Byte>, b: Batch)
    requires FromBytes(r, data) && cl.Appendable(data, b.count, [b]) && b.count == r.lastSeq - r.firstSeq + 1
    ensures |b.raw| >= HEADER_SIZE
    ensures ProducerStateManagers.EntryOfHeader(HeaderOf(b)) ==
            Entry(r.pid, r.epoch, r.firstSeq, r.lastSeq, cl.nextOffset)
  {
    hide GetBE, Signed, PutBE;
    FlattenSingle(b);
    hide Flatten;
    assert Whole([b][0]);
    assert [b][0].base == OffsetAt(cl.nextOffset, [b], 0) == cl.nextOffset;
    assert b.raw[43..51] == data[43..51] && b.raw[51..53] == data[51..53] && b.raw[53..57] == data[53..57];
  }

  /**
   Gate, append, record. On an open log this is exactly `Handle`; on a closed
   log an accepted batch is refused, and the gate's forgetting remains.
   */
  method AppendOnce(idem: IdempotenceState, cl: CommitLog, r: Request, data: seq<Byte>, now: int,
                    ghost b: Batch, ghost log: seq<Entry>)
    returns (answer: Answer)
    requires idem.Valid() && LogReady(cl) && |data| >= 8 && b.count == r.lastSeq - r.firstSeq + 1
    requires cl.Appendable(data, b.count, [b])
    modifies idem, cl, cl.owned
    ensures idem.Valid() && cl.Valid() && cl.Intact() && cl.isClosed == old(cl.isClosed)
    ensures !cl.isClosed ==> answer == Handle(old(BrokerOf(idem, cl, log)), r, now).1
    ensures !cl.isClosed ==>
            BrokerOf(idem, cl, if answer.Appended? then log + [EntryOf(old(BrokerOf(idem, cl, log)), r)] else log) ==
                             Handle(old(BrokerOf(idem, cl, log)), r, now).0
    ensures AllBatches(cl.View()) == old(AllBatches(cl.View())) + if answer.Appended? then [b] else []
    ensures FromBytes(r, data) ==>
              && |b.raw| >= HEADER_SIZE
              && ProducerStateManagers.EntryOfHeader(HeaderOf(b)) == EntryOf(old(BrokerOf(idem, cl, log)), r)
    ensures cl.isClosed ==>
              var open := Handle(old(BrokerOf(idem, cl, log)), r, now).1;
              answer == if open.Appended? then Refused(56) else open
    ensures cl.isClosed && r.pid >= 0 ==>
              idem.producers == Forgotten(old(idem.producers), r.pid, r.epoch, r.firstSeq, now)
  {
    hide CommitLog.Valid, CommitLog.Intact, CommitLog.Appendable, AllBatches, LogAppend, Forgotten, VerdictOn,
         Recorded, AllRingsOk,
         FromBytes;
    if FromBytes(r, data) {
      WrittenEntry(cl, r, data, b);
    }
    ghost var view := cl.View();
    ValidView(cl);
    StateNotOwned(idem, cl);
    if r.pid >= 0 {
      var cached, dup, err := idem.Validate(r.pid, r.epoch, r.firstSeq, r.lastSeq, now);
      if err != 0 {
        return Refused(err);
      }
      if dup {
        return AlreadyThere(cached);
      }
    }
    var res, _ := cl.AppendRaw(data, r.lastSeq - r.firstSeq + 1, [b]);
    if res.Err? {
      return Refused(KAFKA_STORAGE_ERROR);
    }
    AllBatchesAppend(view, [b], cl.maxBytes, cl.indexInterval);
    StateNotOwned(idem, cl);
    if r.pid >= 0 {
      idem.Record(r.pid, r.epoch, r.firstSeq, r.lastSeq, res.value, now);
    }
    return Appended(res.value);
  }

  lemma ValidView(cl: CommitLog)
    requires cl.Valid()
    ensures cl.View() != [] && IndexInRange(Active(cl.View()))
  {
    assert ValidSeg(Active(cl.View()));
  }

  lemma PartitionNotOwned(ps: PartitionState, cl: CommitLog)
    requires cl.Valid()
    ensures ps !in cl.owned && ps.purgatory !in cl.owned && ps.purgatory.slots !in cl.owned
    ensures forall w | w in ps.purgatory.parked :: w !in cl.owned
  {
    hide WellKept, GapFree;
    OnlyLogObjects(cl);
  }

  lemma OnlyLogObjects(cl: CommitLog)
    requires cl.Valid()
    ensures LogObjects(cl.owned)
  {
  }

  /**
   One partition of a produce request. Too small an ISR refuses `acks=-1` at
   once; otherwise the batch goes through the gate, and an appended one raises
   the LEO and may advance the watermark. With `acks=-1` it is parked, and
   released on the spot if the watermark has already passed it.
   */
  method HandlePartition(idem: IdempotenceState, cl: CommitLog, ps: PartitionState, minIsr: int, acks: int,
                         r: Request, data: seq<Byte>, now: int, ghost b: Batch, ghost log: seq<Entry>)
    returns (answer: Answer, waiter: Option<Waiter>)
    requires idem.Valid() && LogReady(cl) && |data| >= 8 && b.count == r.lastSeq - r.firstSeq + 1
    requires cl.Appendable(data, b.count, [b]) && ps.purgatory.Valid()
    modifies idem, cl, cl.owned, ps, ps.purgatory, ps.purgatory.slots, ps.purgatory.parked
    ensures idem.Valid() && cl.Valid() && ps.purgatory.Valid()
    ensures var refused := acks == -1 && |old(ps.isr)| < minIsr;
            && (refused ==>
                  answer == Refused(19) && BrokerOf(idem, cl, log) == old(BrokerOf(idem, cl, log)))
            && (!refused && !old(cl.isClosed) ==> answer == Handle(old(BrokerOf(idem, cl, log)), r, now).1)
    ensures AllBatches(cl.View()) == old(AllBatches(cl.View())) + if answer.Appended? then [b] else []
    ensures ps.View() ==
            if answer.Appended? then Advance(RaiseLeo(old(ps.View()), answer.base + b.count - 1)) else old(ps.View())
    ensures waiter.Some? <==> answer.Appended? && acks == -1
    ensures waiter.Some? ==>
              var w := waiter.value;
              && w.requiredOffset == answer.base + b.count - 1
              && if w.requiredOffset < ps.hwm then w.closed && w.sent == [Committed] else w in ps.purgatory.parked
  {
    hide CommitLog.Valid, CommitLog.Intact, CommitLog.Appendable, AllBatches, Handle, AllRingsOk, StillWaiting,
         Distinct, Advance,
         RaiseLeo, EntryOf;
    waiter := None;
    if acks == ACK_ALL && |ps.isr| < minIsr {
      return Refused(NOT_ENOUGH_REPLICAS), None;
    }
    PartitionNotOwned(ps, cl);
    answer := AppendOnce(idem, cl, r, data, now, b, log);
    if !answer.Appended? {
      return;
    }
    PartitionNotOwned(ps, cl);
    var lastOffset := answer.base + (r.lastSeq - r.firstSeq);
    ps.OnLeaderAppend(lastOffset);
    if acks == ACK_ALL {
      PartitionNotOwned(ps, cl);
      var w := Park(ps, lastOffset);
      waiter := Some(w);
    }
  }

  /** Parks a waiter, then looks at the watermark once more. */
  method Park(ps: PartitionState, lastOffset: int) returns (w: Waiter)
    requires ps.purgatory.Valid()
    modifies ps.purgatory, ps.purgatory.slots, ps.purgatory.parked
    ensures ps.purgatory.Valid() && w.requiredOffset == lastOffset
    ensures ps.purgatory.parked == StillWaiting(old(ps.purgatory.parked) + [w], RequiredOffset, ps.hwm)
    ensures if lastOffset < ps.hwm then w.closed && w.sent == [Committed] else w in ps.purgatory.parked
  {
    hide StillWaiting, Distinct;
    w := new Waiter(lastOffset);
    ps.purgatory.Add(w);
    ps.purgatory.CompleteUpTo(ps.hwm);
  }
}
