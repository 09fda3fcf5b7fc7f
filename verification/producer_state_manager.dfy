/**
 Snapshots of the producer state on disk: written when a segment rolls,
 pruned, and loaded again with a replay of the active segment at start-up.
 */
module ProducerStateManagers {
  import opened Bytes
  import opened RecordBatch
  import opened CommitLogView
  import opened Ordering
  import opened Segments
  import opened CommitLogs
  import opened Idempotence
  import opened ExactlyOnce
  import opened ProducerSnapshots
  import opened ProducerRecovery

  const RETAIN_SNAPSHOTS := 2

  // ---- The batches a replay sees ----

  function EntryOfHeader(h: BatchHeader): Entry {
    Entry(h.producerId, h.producerEpoch, h.baseSequence, h.baseSequence + h.lastOffsetDelta, h.baseOffset)
  }

  function EntriesOf(hs: seq<BatchHeader>): (es: seq<Entry>)
    ensures |es| == |hs|
  {
    seq(|hs|, i requires 0 <= i < |hs| => EntryOfHeader(hs[i]))
  }

  /** The headers of the active segment's batches, one each. */
  lemma ActiveHeaders(log: Log)
    requires GapFree(log) && AllWhole(AllBatches(log))
    ensures log != [] && AllWhole(Active(log).batches)
    ensures var hs, bs := HeadersFrom(AllBatches(log), Active(log).base), Active(log).batches;
            |hs| == |bs| && forall k | 0 <= k < |bs| :: hs[k] == HeaderOf(bs[k])
  {
    hide AllBatches, GapFree, AllWhole, HeadersFrom, HeaderOf;
    BeforeActive(log);
    var n := |log| - 1;
    var front, bs := AllBatches(log[..n]), log[n].batches;
    SplitAtActive(log);
    HeadersAppend(front, bs, log[n].base);
    NoHeaders(front, log[n].base);
    SegmentOffsets(log, n);
    EveryHeader(bs, log[n].base);
  }

  lemma SplitAtActive(log: Log)
    requires log != [] && AllWhole(AllBatches(log))
    ensures var front, bs := AllBatches(log[..|log| - 1]), Active(log).batches;
            AllBatches(log) == front + bs && AllWhole(front) && AllWhole(bs)
  {
    hide AllBatches, AllWhole;
    LastSegment(log);
    WholeParts(AllBatches(log[..|log| - 1]), Active(log).batches);
  }

  lemma LastSegment(log: Log)
    requires log != []
    ensures AllBatches(log) == AllBatches(log[..|log| - 1]) + Active(log).batches
  {
  }

  lemma WholeParts(front: seq<Batch>, bs: seq<Batch>)
    requires AllWhole(front + bs)
    ensures AllWhole(front) && AllWhole(bs)
  {
    hide Whole;
    forall k | 0 <= k < |front| ensures Whole(front[k]) {
      assert front[k] == (front + bs)[k];
    }
    forall k | 0 <= k < |bs| ensures Whole(bs[k]) {
      assert bs[k] == (front + bs)[|front| + k];
    }
  }

  lemma BeforeActive(log: Log)
    requires GapFree(log)
    ensures log != [] && forall b | b in AllBatches(log[..|log| - 1]) :: b.base < Active(log).base
  {
    var n := |log| - 1;
    if n > 0 {
      PrefixGapFree(log, n);
      AllBatchesContiguous(log[..n]);
      var bs := AllBatches(log[..n]);
      assert LinkedAt(log, n);
      forall k | 0 <= k < |bs| ensures bs[k].base < log[n].base {
        OffsetsIncrease(LogStart(log), bs, k, |bs|);
        assert bs[k].base == OffsetAt(LogStart(log), bs, k);
      }
    } else {
      assert log[..0] == [];
    }
  }

  lemma SegmentOffsets(log: Log, i: nat)
    requires GapFree(log) && i < |log|
    ensures forall k | 0 <= k < |log[i].batches| :: log[i].base <= log[i].batches[k].base
  {
    forall k | 0 <= k < |log[i].batches| ensures log[i].base <= log[i].batches[k].base {
      OffsetsIncrease(log[i].base, log[i].batches, 0, k);
      assert log[i].batches[k].base == OffsetAt(log[i].base, log[i].batches, k);
    }
  }

  lemma {:induction false} EveryHeader(bs: seq<Batch>, from: int)
    requires AllWhole(bs) && forall k | 0 <= k < |bs| :: from <= bs[k].base
    ensures |HeadersFrom(bs, from)| == |bs|
    ensures forall k | 0 <= k < |bs| :: HeadersFrom(bs, from)[k] == HeaderOf(bs[k])
  {
    hide Whole, HeaderOf;
    if bs != [] {
      EveryHeader(bs[..|bs| - 1], from);
    }
  }

  // ---- The manager ----

  ghost predicate Listing(bases: seq<int>, files: map<int, seq<Byte>>) {
    && (forall i, j | 0 <= i < j < |bases| :: bases[i] < bases[j])
    && (forall i | 0 <= i < |bases| :: bases[i] in files)
    && (forall b | b in files :: b in bases)
  }

  /** The snapshot bases in the directory, ascending. */
  method ListSnapshots(files: map<int, seq<Byte>>) returns (bases: seq<int>)
    ensures Listing(bases, files)
  {
    bases := [];
    var todo := files.Keys;
    while todo != {}
      invariant todo <= files.Keys
      invariant forall i, j | 0 <= i < j < |bases| :: bases[i] < bases[j]
      invariant forall i, x | 0 <= i < |bases| && x in todo :: bases[i] < x
      invariant forall b :: b in bases <==> b in files && b !in todo
      decreases todo
    {
      var b := Smallest(todo);
      bases := bases + [b];
      todo := todo - {b};
    }
  }

  ghost predicate TwoAbove(files: map<int, seq<Byte>>, b: int) {
    exists c, d | c in files && d in files :: b < c < d
  }

  lemma TwoAboveExactly(bases: seq<int>, files: map<int, seq<Byte>>)
    requires Listing(bases, files)
    ensures forall k | 0 <= k < |bases| :: TwoAbove(files, bases[k]) <==> k + 2 < |bases|
  {
    forall k | 0 <= k < |bases| ensures TwoAbove(files, bases[k]) <==> k + 2 < |bases| {
      if k + 2 < |bases| {
        assert bases[k] < bases[k + 1] < bases[k + 2];
      }
      if TwoAbove(files, bases[k]) {
        var c, d :| c in files && d in files && bases[k] < c < d;
        var i :| 0 <= i < |bases| && bases[i] == c;
        var j :| 0 <= j < |bases| && bases[j] == d;
        assert k < i < j;
      }
    }
  }

  class ProducerStateManager {
    const state: IdempotenceState
    const crc: seq<Byte> -> UInt32
    var files: map<int, seq<Byte>>

    constructor (state: IdempotenceState, files: map<int, seq<Byte>>, crc: seq<Byte> -> UInt32)
      ensures this.state == state && this.files == files && this.crc == crc
    {
      this.state := state;
      this.files := files;
      this.crc := crc;
    }

    /**
     Writes the snapshot for the new segment and drops old ones. The new file
     lists exactly the current producers; an older one is dropped exactly if it
     lies below the new base and two later ones, the new one counted, exist.
     */
    method OnSegmentRoll(newBase: int) returns (ghost entries: seq<SnapshotEntry>)
      requires state.Valid()
      modifies this
      ensures Lists(entries, state.producers)
      ensures newBase in files && files[newBase] == FileBytes(newBase, entries, crc)
      ensures forall b | b in files && b != newBase :: b in old(files) && files[b] == old(files)[b]
      ensures forall b | b in old(files) ::
                b !in files <==> b < newBase && TwoAbove(old(files)[newBase := files[newBase]], b)
    {
      var listed := state.Snapshot();
      entries := listed;
      RingsListed(entries, state.producers);
      var bytes := EncodeSnapshotFile(newBase, listed, crc);
      files := files[newBase := bytes];
      PruneOldSnapshots(newBase);
    }

    /** Drops a snapshot exactly if it lies below the current base and two later ones exist. */
    method PruneOldSnapshots(currentBase: int)
      modifies this
      ensures forall b | b in files :: b in old(files) && files[b] == old(files)[b]
      ensures forall b | b in old(files) :: b !in files <==> b < currentBase && TwoAbove(old(files), b)
    {
      var bases := ListSnapshots(files);
      ghost var before := files;
      TwoAboveExactly(bases, before);
      hide TwoAbove;
      if |bases| <= RETAIN_SNAPSHOTS {
        return;
      }
      var cutoff := |bases| - RETAIN_SNAPSHOTS;
      for i := 0 to cutoff
        invariant forall b | b in files :: b in before && files[b] == before[b]
        invariant forall k | i <= k < |bases| :: bases[k] in files
        invariant forall k | 0 <= k < i :: bases[k] !in files <==> bases[k] < currentBase
      {
        if bases[i] >= currentBase {
          continue;
        }
        files := files - {bases[i]};
      }
    }

    /** Restores the latest readable snapshot not above `maxBase`. */
    method RestoreLatest(maxBase: int) returns (snapBase: int)
      requires state.Valid() && maxBase >= 0
      modifies state
      ensures state.Valid() && StartsFrom(state.producers, old(state.producers), files, maxBase, crc)
      ensures snapBase <= maxBase
    {
      hide DecodedFile, Restored, EntriesOk;
      var bases := ListSnapshots(files);
      var entries;
      snapBase, entries := LoadLatest(files, bases, maxBase, crc);
      if entries.Some? {
        DecodedRings(files[snapBase], snapBase, crc);
        state.Restore(entries.value);
      }
    }

    method Replay(headers: seq<BatchHeader>, now: int)
      requires state.Valid()
      modifies state
      ensures state.Valid() && state.producers == Replayed(old(state.producers), EntriesOf(headers), now)
    {
      hide Replayed, Recorded, AllRingsOk;
      ghost var start, es := state.producers, EntriesOf(headers);
      ReplayNothing(start, now, 0);
      for i := 0 to |headers|
        invariant state.Valid() && AllRingsOk(start) && state.producers == Replayed(start, es[..i], now)
      {
        var h := headers[i];
        assert es[..i + 1][..i] == es[..i];
        ReplayStep(start, es[..i + 1], now);
        if h.producerId >= 0 {
          state.Record(h.producerId, h.producerEpoch, h.baseSequence, h.baseSequence + h.lastOffsetDelta,
                       h.baseOffset, now);
        }
      }
      assert es[..|headers|] == es;
    }

    /** Start-up: restore a snapshot, then replay the active segment. */
    method Recover(cl: CommitLog, now: int) returns (ghost start: Producers)
      requires state.Valid()
      requires cl.Valid() && Active(cl.View()).base >= 0
      modifies state
      ensures state.Valid() && AllWhole(AllBatches(cl.View()))
      ensures AllRingsOk(start) && StartsFrom(start, old(state.producers), files, Active(cl.View()).base, crc)
      ensures state.producers ==
              Replayed(start, EntriesOf(HeadersFrom(AllBatches(cl.View()), Active(cl.View()).base)), now)
    {
      hide GapFree, WellKept, AllWhole, HeadersFrom, Replayed, AllBatches, StartsFrom;
      StateNotOwned(state, cl);
      var activeBase := cl.activeSegment.baseOffset;
      var snapBase := RestoreLatest(activeBase);
      start := state.producers;
      var scanFrom := if activeBase > snapBase then activeBase else snapBase;
      var headers := cl.WalkBatchHeadersFrom(scanFrom);
      Replay(headers, now);
    }
  }

  lemma StateNotOwned(state: IdempotenceState, cl: CommitLog)
    requires cl.Valid()
    ensures state !in cl.owned
  {
  }

  lemma {:induction false} EntriesRings(body: seq<Byte>, off: nat, n: nat)
    requires off <= |body|
    ensures EntriesFrom(body, off, n).Some? ==> EntriesOk(EntriesFrom(body, off, n).value)
    decreases n
  {
    hide EntryAt, RingOk;
    if n > 0 {
      EntryFits(body[off..]);
      OneRing(body[off..]);
      match EntryAt(body[off..])
      case None =>
      case Some((e, size)) => EntriesRings(body, off + size, n - 1);
    }
  }

  lemma OneRing(raw: seq<Byte>)
    ensures EntryAt(raw).Some? ==> RingOk(EntryAt(raw).value.0.log)
  {
  }

  lemma DecodedRings(raw: seq<Byte>, base: int, crc: seq<Byte> -> UInt32)
    ensures DecodedFile(raw, base, crc).Some? ==> EntriesOk(DecodedFile(raw, base, crc).value)
  {
    hide EntriesFrom, EntriesOk, I64At;
    if DecodedFile(raw, base, crc).Some? {
      var body := raw[..|raw| - 4];
      EntriesRings(body, FILE_HEADER_BYTES, UnsignedAt(body, 14, 4));
    }
  }

  lemma RingsListed(entries: seq<SnapshotEntry>, ps: Producers)
    requires Lists(entries, ps) && AllRingsOk(ps)
    ensures forall k | 0 <= k < |entries| :: |entries[k].log.ring| == RING_SIZE
  {
  }

  /**
   What recovery starts its replay from: the latest readable snapshot not above
   `maxBase`, or else the state as it was.
   */
  ghost predicate StartsFrom(start: Producers, was: Producers, files: map<int, seq<Byte>>, maxBase: int,
                             crc: seq<Byte> -> UInt32)
  {
    || (start == was && forall b | b in files && b <= maxBase :: DecodedFile(files[b], b, crc).None?)
    || exists b | b in files && b <= maxBase ::
         && DecodedFile(files[b], b, crc).Some?
         && start == Restored(DecodedFile(files[b], b, crc).value)
         && forall c | c in files && b < c <= maxBase :: DecodedFile(files[c], c, crc).None?
  }

  /** Recovery starts from exactly what the latest snapshot not above the active base recorded, when it can be read. */
  lemma LatestSnapshotIsUsed(start: Producers, was: Producers, files: map<int, seq<Byte>>, base: int, maxBase: int,
                             entries: seq<SnapshotEntry>, ps: Producers, crc: seq<Byte> -> UInt32)
    requires SnapshotWritten(entries, ps, files, base, crc) && base <= maxBase
    requires forall c | c in files && base < c <= maxBase :: DecodedFile(files[c], c, crc).None?
    requires StartsFrom(start, was, files, maxBase, crc)
    ensures start == NormalizedProducers(ps)
  {
    SnapshotPreservesVerdicts(base, entries, ps, crc);
    hide DecodedFile, FileBytes, Lists, AllInRange, Restored, VerdictOn, NormalizedProducers;
    if b :| b in files && b <= maxBase && DecodedFile(files[b], b, crc).Some?
            && start == Restored(DecodedFile(files[b], b, crc).value)
            && forall c | c in files && b < c <= maxBase :: DecodedFile(files[c], c, crc).None?
    {
      assert b == base;
    }
  }

  // ---- Recovery on the objects is recovery in the model ----

  /** The machine's log is what the batches of the log say, and its active part is the active segment. */
  ghost predicate Represents(m: Machine, log: Log) {
    && GapFree(log) && AllWhole(AllBatches(log))
    && |m.log| == |AllBatches(log)|
    && (forall k | 0 <= k < |m.log| :: m.log[k] == EntryOfHeader(HeaderOf(AllBatches(log)[k])))
    && m.active == |AllBatches(log[..|log| - 1])|
  }

  lemma ActivePart(m: Machine, log: Log)
    requires Represents(m, log)
    ensures m.active <= |m.log|
    ensures EntriesOf(HeadersFrom(AllBatches(log), Active(log).base)) == m.log[m.active..]
  {
    hide AllBatches, GapFree, AllWhole, HeadersFrom, HeaderOf;
    ActiveHeaders(log);
    SplitAtActive(log);
    var es := EntriesOf(HeadersFrom(AllBatches(log), Active(log).base));
    forall k | 0 <= k < |es| ensures es[k] == m.log[m.active..][k] {
      assert AllBatches(log)[m.active + k] == Active(log).batches[k];
    }
  }

  /** The latest snapshot on disk is the machine's, and no later file up to the active base can be read. */
  ghost predicate OnDisk(m: Machine, was: Producers, files: map<int, seq<Byte>>, base: int, crc: seq<Byte> -> UInt32) {
    match m.snapshot
    case None => was == map[] && forall b | b in files && b <= base :: DecodedFile(files[b], b, crc).None?
    case Some(ps) =>
      exists b, entries, written: Producers ::
        && b <= base && SnapshotWritten(entries, written, files, b, crc) && ps == NormalizedProducers(written)
        && forall c | c in files && b < c <= base :: DecodedFile(files[c], c, crc).None?
  }

  ghost predicate SnapshotWritten(entries: seq<SnapshotEntry>, ps: Producers, files: map<int, seq<Byte>>, base: int,
                                  crc: seq<Byte> -> UInt32) {
    && In64(base) && |entries| < 0x1_0000_0000 && AllInRange(entries) && AllRingsOk(ps) && Lists(entries, ps)
    && base in files && files[base] == FileBytes(base, entries, crc)
  }

  /** What `Recover` leaves in memory is what a crash leaves in the machine. */
  lemma RecoverIsRecovered(m: Machine, log: Log, start: Producers, was: Producers, files: map<int, seq<Byte>>,
                           crc: seq<Byte> -> UInt32, now: int)
    requires Represents(m, log) && OnDisk(m, was, files, Active(log).base, crc)
    requires AllRingsOk(start) && StartsFrom(start, was, files, Active(log).base, crc)
    ensures m.active <= |m.log| && (m.snapshot.Some? ==> AllRingsOk(m.snapshot.value))
    ensures Replayed(start, EntriesOf(HeadersFrom(AllBatches(log), Active(log).base)), now) == Recovered(m, now)
  {
    hide AllBatches, HeadersFrom, Replayed, DecodedFile, FileBytes, Lists, AllInRange, Restored, NormalizedProducers,
         AllRingsOk;
    ActivePart(m, log);
    if m.snapshot.Some? {
      var base := Active(log).base;
      var b, entries, ps :|
        && b <= base && SnapshotWritten(entries, ps, files, b, crc) && m.snapshot.value == NormalizedProducers(ps)
        && forall c | c in files && b < c <= base :: DecodedFile(files[c], c, crc).None?;
      LatestSnapshotIsUsed(start, was, files, b, base, entries, ps, crc);
    }
  }
}
