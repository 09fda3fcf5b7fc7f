/**
 The idempotent-producer state of one partition: per producer id the last
 sequence number and epoch, and a ring of the five most recent batches.
 */
module Idempotence {
  import opened Bytes
  import opened Ordering

  const RING_SIZE := 5
  const EXPIRATION_MS := 60 * 60 * 1000

  const DUPLICATE_SEQUENCE_NUMBER := 45
  const INVALID_PRODUCER_EPOCH := 46
  const UNKNOWN_PRODUCER_ID := 59
  const OUT_OF_ORDER_SEQUENCE_NUMBER := 90

  /** An unused slot has a negative `firstSeq`. */
  datatype Slot = Slot(firstSeq: int, lastSeq: int, baseOffset: int, leaderEpoch: int)

  const EMPTY_SLOT := Slot(-1, 0, 0, 0)

  datatype Producer = Producer(lastSeq: int, lastOffset: int, lastEpoch: int, lastLeaderEpoch: int,
                               lastTimestamp: int, ring: seq<Slot>, ringHead: int)

  type Producers = map<int, Producer>

  datatype Verdict =
    | Accept
    | Duplicate(baseOffset: int)
    | Reject(code: int)

  function NewProducer(epoch: int): Producer {
    Producer(-1, 0, epoch, -1, 0, seq(RING_SIZE, _ => EMPTY_SLOT), 0)
  }

  predicate RingOk(p: Producer) {
    |p.ring| == RING_SIZE && 0 <= p.ringHead < RING_SIZE
  }

  predicate AllRingsOk(ps: Producers) {
    forall pid | pid in ps :: RingOk(ps[pid])
  }

  /** Go's `x + 1` on int32. */
  function Succ32(x: int): int {
    if x == MAX_INT32 then -0x8000_0000 else x + 1
  }

  predicate Matches(slot: Slot, firstSeq: int, lastSeq: int) {
    slot.firstSeq >= 0 && slot.firstSeq == firstSeq && slot.lastSeq == lastSeq
  }

  /** The first slot that matches, or the ring's length. */
  function Lookup(ring: seq<Slot>, firstSeq: int, lastSeq: int): (k: nat)
    ensures k <= |ring|
    ensures k < |ring| ==> Matches(ring[k], firstSeq, lastSeq)
    ensures forall j | 0 <= j < k :: !Matches(ring[j], firstSeq, lastSeq)
    decreases |ring|
  {
    if ring == [] || Matches(ring[0], firstSeq, lastSeq) then 0 else 1 + Lookup(ring[1..], firstSeq, lastSeq)
  }

  /** The verdict on a batch of a known producer. */
  function Judge(p: Producer, epoch: int, firstSeq: int, lastSeq: int): Verdict {
    if epoch < p.lastEpoch then Reject(INVALID_PRODUCER_EPOCH)
    else if epoch > p.lastEpoch then (if firstSeq != 0 then Reject(OUT_OF_ORDER_SEQUENCE_NUMBER) else Accept)
    else if firstSeq == Succ32(p.lastSeq) then Accept
    else if firstSeq == 0 && p.lastSeq == MAX_INT32 then Accept
    else if firstSeq > Succ32(p.lastSeq) then Reject(OUT_OF_ORDER_SEQUENCE_NUMBER)
    else
      var k := Lookup(p.ring, firstSeq, lastSeq);
      if k < |p.ring| then Duplicate(p.ring[k].baseOffset) else Reject(DUPLICATE_SEQUENCE_NUMBER)
  }

  predicate Expired(ps: Producers, pid: int, now: int) {
    pid in ps && now - ps[pid].lastTimestamp > EXPIRATION_MS
  }

  function VerdictOn(ps: Producers, pid: int, epoch: int, firstSeq: int, lastSeq: int, now: int): Verdict {
    if pid !in ps || Expired(ps, pid, now) then (if firstSeq != 0 then Reject(UNKNOWN_PRODUCER_ID) else Accept)
    else Judge(ps[pid], epoch, firstSeq, lastSeq)
  }

  /** Validation forgets an expired producer, and one whose epoch it accepts a bump of. */
  function Forgotten(ps: Producers, pid: int, epoch: int, firstSeq: int, now: int): Producers {
    if Expired(ps, pid, now) || (pid in ps && epoch > ps[pid].lastEpoch && firstSeq == 0) then ps - {pid} else ps
  }

  function RecordIn(p: Producer, epoch: int, firstSeq: int, lastSeq: int, baseOffset: int, now: int): Producer
    requires RingOk(p)
  {
    p.(lastSeq := lastSeq, lastOffset := baseOffset + (lastSeq - firstSeq), lastEpoch := epoch, lastTimestamp := now,
       ring := p.ring[p.ringHead := Slot(firstSeq, lastSeq, baseOffset, -1)], ringHead := (p.ringHead + 1) % RING_SIZE)
  }

  function Recorded(ps: Producers, pid: int, epoch: int, firstSeq: int, lastSeq: int, baseOffset: int,
                    now: int): Producers
    requires AllRingsOk(ps)
  {
    var p := if pid in ps then ps[pid] else NewProducer(epoch);
    ps[pid := RecordIn(p, epoch, firstSeq, lastSeq, baseOffset, now)]
  }

  datatype SnapshotEntry = SnapshotEntry(pid: int, log: Producer)

  /** The entries list each producer of `ps` once. */
  predicate Lists(entries: seq<SnapshotEntry>, ps: Producers) {
    && (forall i, j | 0 <= i < j < |entries| :: entries[i].pid != entries[j].pid)
    && (forall i | 0 <= i < |entries| :: entries[i].pid in ps && ps[entries[i].pid] == entries[i].log)
    && (forall pid | pid in ps :: exists i | 0 <= i < |entries| :: entries[i].pid == pid)
  }

  predicate EntriesOk(entries: seq<SnapshotEntry>) {
    forall i | 0 <= i < |entries| :: RingOk(entries[i].log)
  }

  /** Later entries win. */
  function Restored(entries: seq<SnapshotEntry>): Producers {
    if entries == [] then map[]
    else var n := |entries| - 1; Restored(entries[..n])[entries[n].pid := entries[n].log]
  }

  method LookupRing(p: Producer, firstSeq: int, lastSeq: int) returns (baseOffset: int, found: bool)
    ensures var k := Lookup(p.ring, firstSeq, lastSeq);
            && (found <==> k < |p.ring|)
            && baseOffset == if k < |p.ring| then p.ring[k].baseOffset else 0
  {
    for i := 0 to |p.ring|
      invariant forall j | 0 <= j < i :: !Matches(p.ring[j], firstSeq, lastSeq)
    {
      var e := p.ring[i];
      if e.firstSeq < 0 {
        continue;
      }
      if e.firstSeq == firstSeq && e.lastSeq == lastSeq {
        assert Matches(p.ring[i], firstSeq, lastSeq);
        return e.baseOffset, true;
      }
    }
    return 0, false;
  }

  class IdempotenceState {
    var producers: Producers

    ghost predicate Valid()
      reads this
    {
      AllRingsOk(producers)
    }

    constructor ()
      ensures Valid() && producers == map[]
    {
      producers := map[];
    }

    method Validate(pid: int, epoch: int, firstSeq: int, lastSeq: int, now: int)
      returns (baseOffset: int, alreadyCommitted: bool, err: int)
      requires Valid()
      modifies this
      ensures Valid() && producers == Forgotten(old(producers), pid, epoch, firstSeq, now)
      ensures match VerdictOn(old(producers), pid, epoch, firstSeq, lastSeq, now)
              case Accept => err == 0 && !alreadyCommitted
              case Duplicate(base) => err == 0 && alreadyCommitted && baseOffset == base
              case Reject(code) => err == code && err != 0 && !alreadyCommitted
      ensures pid !in old(producers) || now - old(producers)[pid].lastTimestamp > 3_600_000 ==>
                !alreadyCommitted && err == if firstSeq != 0 then 59 else 0
      ensures forall q :: q in producers <==>
                && q in old(producers)
                && !(q == pid && (|| now - old(producers)[q].lastTimestamp > 3_600_000
                                  || (epoch > old(producers)[q].lastEpoch && firstSeq == 0)))
      ensures forall q | q in producers :: producers[q] == old(producers)[q]
    {
      baseOffset, alreadyCommitted, err := 0, false, 0;
      var known := pid in producers;
      if known && now - producers[pid].lastTimestamp > EXPIRATION_MS {
        producers := producers - {pid};
        known := false;
      }
      if !known {
        if firstSeq != 0 {
          err := UNKNOWN_PRODUCER_ID;
        }
        return;
      }
      var prod := producers[pid];
      if epoch < prod.lastEpoch {
        err := INVALID_PRODUCER_EPOCH;
      } else if epoch > prod.lastEpoch {
        if firstSeq != 0 {
          err := OUT_OF_ORDER_SEQUENCE_NUMBER;
        } else {
          producers := producers - {pid};
        }
      } else if firstSeq == Succ32(prod.lastSeq) || (firstSeq == 0 && prod.lastSeq == MAX_INT32) {
      } else if firstSeq > Succ32(prod.lastSeq) {
        err := OUT_OF_ORDER_SEQUENCE_NUMBER;
      } else {
        var cached, found := LookupRing(prod, firstSeq, lastSeq);
        if found {
          baseOffset, alreadyCommitted := cached, true;
        } else {
          err := DUPLICATE_SEQUENCE_NUMBER;
        }
      }
    }

    method Record(pid: int, epoch: int, firstSeq: int, lastSeq: int, baseOffset: int, now: int)
      requires Valid()
      modifies this
      ensures Valid() && producers == Recorded(old(producers), pid, epoch, firstSeq, lastSeq, baseOffset, now)
      ensures pid in producers && producers - {pid} == old(producers) - {pid}
      ensures var p := producers[pid];
              && p.lastSeq == lastSeq && p.lastEpoch == epoch && p.lastTimestamp == now
              && p.lastOffset == baseOffset + lastSeq - firstSeq
      ensures var head := if pid in old(producers) then old(producers)[pid].ringHead else 0;
              && producers[pid].ringHead == (head + 1) % 5
              && producers[pid].ring[head] == Slot(firstSeq, lastSeq, baseOffset, -1)
              && forall j | 0 <= j < 5 && j != head ::
                   producers[pid].ring[j] ==
                   if pid in old(producers) then old(producers)[pid].ring[j] else Slot(-1, 0, 0, 0)
    {
      if pid !in producers {
        producers := producers[pid := NewProducer(epoch)];
      }
      var prod := producers[pid];
      prod := prod.(lastEpoch := epoch, lastSeq := lastSeq, lastOffset := baseOffset + (lastSeq - firstSeq),
                    lastTimestamp := now);
      prod := prod.(ring := prod.ring[prod.ringHead := Slot(firstSeq, lastSeq, baseOffset, -1)]);
      prod := prod.(ringHead := (prod.ringHead + 1) % RING_SIZE);
      producers := producers[pid := prod];
    }

    /** The producers in some order. */
    method Snapshot() returns (entries: seq<SnapshotEntry>)
      ensures Lists(entries, producers)
    {
      entries := [];
      var todo := producers.Keys;
      while todo != {}
        invariant todo <= producers.Keys
        invariant forall i | 0 <= i < |entries| :: entries[i].pid !in todo
        invariant forall i, j | 0 <= i < j < |entries| :: entries[i].pid != entries[j].pid
        invariant forall i | 0 <= i < |entries| ::
                    entries[i].pid in producers && producers[entries[i].pid] == entries[i].log
        invariant forall pid | pid in producers && pid !in todo ::
                    exists i | 0 <= i < |entries| :: entries[i].pid == pid
        decreases todo
      {
        SomeMember(todo);
        var pid: int :| pid in todo;
        ghost var before := entries;
        entries := entries + [SnapshotEntry(pid, producers[pid])];
        todo := todo - {pid};
        forall q | q in producers && q !in todo ensures exists i | 0 <= i < |entries| :: entries[i].pid == q {
          if q != pid {
            var i :| 0 <= i < |before| && before[i].pid == q;
            assert entries[i].pid == q;
          } else {
            assert entries[|before|].pid == q;
          }
        }
      }
    }

    method Restore(entries: seq<SnapshotEntry>)
      requires EntriesOk(entries)
      modifies this
      ensures Valid() && producers == Restored(entries)
    {
      producers := map[];
      for i := 0 to |entries|
        invariant producers == Restored(entries[..i]) && AllRingsOk(producers)
      {
        assert entries[..i + 1][..i] == entries[..i];
        producers := producers[entries[i].pid := entries[i].log];
      }
      assert entries[..|entries|] == entries;
    }
  }

  /** Restoring what a snapshot lists gives the snapshot's producers back. */
  lemma {:induction false} RestoreUndoesSnapshot(entries: seq<SnapshotEntry>, ps: Producers)
    requires Lists(entries, ps)
    ensures Restored(entries) == ps
  {
    RestoredIs(entries, ps, |entries|);
    assert entries[..|entries|] == entries;
    var r := Restored(entries);
    forall pid ensures pid in r <==> pid in ps {
      if pid in ps {
        var i :| 0 <= i < |entries| && entries[i].pid == pid;
      }
    }
    assert forall pid | pid in r :: r[pid] == ps[pid];
    assert r.Keys == ps.Keys;
    assert r == ps;
  }

  lemma {:induction false} RestoredIs(entries: seq<SnapshotEntry>, ps: Producers, n: nat)
    requires Lists(entries, ps) && n <= |entries|
    ensures var r := Restored(entries[..n]);
            && (forall pid | pid in r :: pid in ps && r[pid] == ps[pid])
            && (forall i | 0 <= i < n :: entries[i].pid in r)
  {
    if n > 0 {
      RestoredIs(entries, ps, n - 1);
      assert entries[..n][..n - 1] == entries[..n - 1];
    }
  }
}
