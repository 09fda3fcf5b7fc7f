/**
 A log segment: an append-only file of record batches with its sparse index.
 */
module Segments {
  import opened Options
  import opened Bytes
  import opened RecordBatch
  import opened LogView
  import opened OffsetIndexing

  /** Bytes after the last whole batch: a header that promises more than is there, or not even that. */
  ghost predicate Torn(t: seq<Byte>) {
    |t| >= LOG_OVERHEAD ==> TotalLengthAt(t, 0) > |t|
  }

  /** Whatever a crash leaves of a batch being written is torn. */
  lemma PrefixIsTorn(b: Batch, n: nat)
    requires Whole(b) && n < |b.raw|
    ensures Torn(b.raw[..n])
  {
    if n >= LOG_OVERHEAD {
      assert b.raw[..n][8..12] == b.raw[8..12];
    }
  }

  /** No whole batch holds the offset, and the search goes on into the torn one. */
  predicate SearchesTail(bs: seq<Batch>, offset: int, torn: seq<Byte>) {
    && Target(bs, offset) == |bs| && |torn| >= HEADER_UP_TO_MAGIC
    && (bs == [] || I64At(torn, 0) < offset)
  }

  /** The index entry of batch `k`. */
  function EntryFor(base: int, bs: seq<Batch>, k: nat): IndexEntry
    requires k < |bs|
  {
    IndexEntry(bs[k].base - base, Pos(bs, k))
  }

  function EntriesFor(s: Seg): (es: seq<IndexEntry>)
    requires IndexInRange(s)
    ensures |es| == |s.indexed|
  {
    seq(|s.indexed|, i requires 0 <= i < |s.indexed| => EntryFor(s.base, s.batches, s.indexed[i]))
  }

  lemma EntriesAfterAppend(s: Seg, bs: seq<Batch>, interval: int)
    requires ValidSeg(s) && bs != [] && Contiguous(s.End(), bs)
    ensures EntriesFor(SegAppend(s, bs, interval)) ==
            EntriesFor(s) + if NeedsEntry(s, interval) then [IndexEntry(s.End() - s.base, s.Size())] else []
    ensures forall k | 0 <= k <= |s.batches| :: Pos(s.batches + bs, k) == Pos(s.batches, k)
  {
    forall k | 0 <= k <= |s.batches| ensures Pos(s.batches + bs, k) == Pos(s.batches, k) {
      PosAgree(s.batches + bs, s.batches, k);
    }
    assert bs[0].base == OffsetAt(s.End(), bs, 0);
  }

  lemma EntriesSorted(s: Seg)
    requires ValidSeg(s)
    ensures Sorted(EntriesFor(s))
  {
    var es := EntriesFor(s);
    forall i, j | 0 <= i < j < |es| ensures es[i].relativeOffset < es[j].relativeOffset {
      OffsetsIncrease(s.base, s.batches, s.indexed[i], s.indexed[j]);
      assert s.batches[s.indexed[i]].base == OffsetAt(s.base, s.batches, s.indexed[i]);
    }
  }

  lemma EntriesDropLast(s: Seg)
    requires IndexInRange(s) && s.indexed != []
    ensures var n := |s.indexed| - 1;
            EntriesFor(s) == EntriesFor(s.(indexed := s.indexed[..n])) + [EntryFor(s.base, s.batches, s.indexed[n])]
  {
  }

  lemma FloorDropLast(es: seq<IndexEntry>, e: IndexEntry, relative: int)
    ensures FloorPosition(es + [e], relative) ==
            if e.relativeOffset <= relative then e.position else FloorPosition(es, relative)
  {
    assert (es + [e])[..|es|] == es;
  }

  lemma FloorOfNone(s: Seg, offset: int)
    requires s.indexed == []
    ensures FloorPosition(EntriesFor(s), offset - s.base) == 0 == Pos(s.batches, 0)
  {
  }

  /** The floor entry of the index is the batch a search may start from. */
  lemma {:induction false} FloorIsScanStart(s: Seg, offset: int)
    requires IndexInRange(s)
    ensures FloorPosition(EntriesFor(s), offset - s.base) == Pos(s.batches, ScanStart(s.batches, s.indexed, offset))
    decreases |s.indexed|
  {
    hide FloorPosition, EntriesFor, Pos;
    if s.indexed == [] {
      FloorOfNone(s, offset);
    } else {
      var n := |s.indexed| - 1;
      var shorter := s.(indexed := s.indexed[..n]);
      FloorIsScanStart(shorter, offset);
      EntriesDropLast(s);
      FloorDropLast(EntriesFor(shorter), EntryFor(s.base, s.batches, s.indexed[n]), offset - s.base);
      assert ScanStart(s.batches, s.indexed, offset) ==
             if s.batches[s.indexed[n]].base <= offset then s.indexed[n]
             else ScanStart(s.batches, shorter.indexed, offset);
      hide ScanStart;
    }
  }

  /** The length a torn batch's header gives, as far as a search reads headers at all. */
  function Promised(torn: seq<Byte>): int {
    if |torn| >= HEADER_UP_TO_MAGIC then TotalLengthAt(torn, 0) else 0
  }

  /** A search that takes every batch from `first` on also takes the torn one when its promised length fits. */
  predicate ReachesTail(bs: seq<Batch>, first: nat, maxBytes: int, torn: seq<Byte>) {
    && |torn| >= HEADER_UP_TO_MAGIC && first < |bs|
    && RegionEnd(bs, first, first + 1, maxBytes) == |bs|
    && (maxBytes <= 0 || Pos(bs, |bs|) - Pos(bs, first) + Promised(torn) <= maxBytes)
  }

  /** The part of the tail a search includes: all of it or nothing. */
  function ReachedTail(bs: seq<Batch>, first: nat, maxBytes: int, torn: seq<Byte>): seq<Byte> {
    if ReachesTail(bs, first, maxBytes, torn) then torn else []
  }

  /** No whole batch from `k` on holds the offset, and the scan goes on into the torn one. */
  predicate EntersTail(bs: seq<Batch>, k: nat, offset: int, torn: seq<Byte>)
    requires k <= |bs|
  {
    && ScanFrom(bs, k, offset) == |bs| && |torn| >= HEADER_UP_TO_MAGIC
    && (k == |bs| || I64At(torn, 0) < offset)
  }

  /**
   The scan for the start batch: fast path on base offsets, slow path on last
   offsets, from the batch `k0` at `from`. -1 when there is nothing from there
   on, None when a header read runs past the end of the file, otherwise the
   position of batch `at`, or of the tail. The tail does not matter when a
   whole batch holds the offset.
   */
  method ScanHeaders(file: seq<Byte>, from: int, fetchOffset: int,
                     ghost bs: seq<Batch>, ghost torn: seq<Byte>, ghost k0: nat)
    returns (startPos: Option<int>, ghost at: nat)
    requires AllWhole(bs) && file == Flatten(bs) + torn && Torn(torn)
    requires k0 <= |bs| && from == Pos(bs, k0)
    ensures startPos.Some? && startPos.value >= 0 ==> at <= |bs| && startPos.value == Pos(bs, at)
    ensures if EntersTail(bs, k0, fetchOffset, torn) then
              && (startPos.None? <==> I64At(torn, 0) < fetchOffset && |torn| < HEADER_WITH_DELTA)
              && (startPos.Some? ==> startPos.value >= 0 && at == |bs|)
            else
              var t := ScanFrom(bs, k0, fetchOffset);
              && startPos.Some? && (startPos.value < 0 <==> k0 == |bs|)
              && (k0 < |bs| ==> at == if k0 < t && (t == |bs| || fetchOffset <= bs[t].base) then t - 1 else t)
  {
    hide Flatten, HeaderSays, I64At, I32At, TotalLengthAt, Torn;
    TornStops(file, bs, torn);
    var pos, previous, start := from, -1, -1;
    ghost var k, past := k0, false;
    at := k0;
    PosMonotone(bs, 0, k0);
    while pos + HEADER_UP_TO_MAGIC <= |file|
      invariant pos >= 0 && start == -1
      invariant !past ==> k0 <= k <= |bs| && pos == Pos(bs, k)
      invariant k == k0 ==> previous == -1 && !past
      invariant k > k0 ==> k - 1 <= |bs| && previous == Pos(bs, k - 1) >= 0
      invariant !past ==> ScanFrom(bs, k, fetchOffset) == ScanFrom(bs, k0, fetchOffset)
      invariant k0 <= k
      invariant past ==> k == |bs| + 1 && pos > |file| && EntersTail(bs, k0, fetchOffset, torn)
      invariant past ==> |torn| >= HEADER_WITH_DELTA
      decreases |file| - pos
    {
      if k < |bs| {
        HeaderAt(file, bs, k);
        HeaderFields(file, pos, bs[k]);
      } else {
        TailLength(file, bs, torn);
      }
      past := k == |bs|;
      var base, total := I64At(file, pos), TotalLengthAt(file, pos);
      if base >= fetchOffset {
        start := if previous >= 0 then previous else pos;
        at := if previous >= 0 then k - 1 else k;
        break;
      }
      if pos + HEADER_WITH_DELTA > |file| {
        return None, k;
      }
      var lastOffset := base + I32At(file, pos + 23);
      if lastOffset >= fetchOffset {
        start, at := pos, k;
        break;
      }
      previous := pos;
      pos := pos + total;
      k := k + 1;
    }
    if !past {
      PosMonotone(bs, k, |bs|);
    }
    if start < 0 && previous >= 0 {
      start, at := previous, k - 1;
    }
    startPos := Some(start);
  }

  /** Adds up batches from the start batch while they fit, the torn one by the length it promises. */
  method RunSize(file: seq<Byte>, startPos: int, maxBytes: int, ghost bs: seq<Batch>, ghost torn: seq<Byte>,
                 ghost first: nat)
    returns (accumulated: int)
    requires AllWhole(bs) && file == Flatten(bs) + torn && Torn(torn)
    requires first <= |bs| && startPos == Pos(bs, first)
    ensures first == |bs| ==> accumulated == Promised(torn)
    ensures first < |bs| ==>
              accumulated == Pos(bs, RegionEnd(bs, first, first + 1, maxBytes)) - Pos(bs, first)
              + Promised(ReachedTail(bs, first, maxBytes, torn))
  {
    hide Flatten, HeaderSays, I64At, I32At, TotalLengthAt, Torn, Promised, Pos;
    TornStops(file, bs, torn);
    PromisedLength(torn);
    PosMonotone(bs, 0, first);
    var pos := startPos;
    accumulated := 0;
    ghost var e, past := first, false;
    while pos + HEADER_UP_TO_MAGIC <= |file|
      invariant pos >= 0 && first <= e <= |bs|
      invariant accumulated == Pos(bs, e) - Pos(bs, first) + if past then Promised(torn) else 0
      invariant e > first ==> accumulated > 0
      invariant e > first ==> RegionEnd(bs, first, e, maxBytes) == RegionEnd(bs, first, first + 1, maxBytes)
      invariant !past ==> pos == Pos(bs, e)
      invariant past ==> e == |bs| && (first < |bs| ==> ReachesTail(bs, first, maxBytes, torn)) && pos > |file|
      decreases |file| - pos
    {
      if e < |bs| {
        HeaderAt(file, bs, e);
        HeaderFields(file, pos, bs[e]);
      } else {
        TailLength(file, bs, torn);
      }
      var total := TotalLengthAt(file, pos);
      if maxBytes > 0 && accumulated > 0 && accumulated + total > maxBytes {
        break;
      }
      accumulated := accumulated + total;
      pos := pos + total;
      past := e == |bs|;
      e := if past then e else e + 1;
      if maxBytes > 0 && accumulated > maxBytes {
        break;
      }
    }
    PosMonotone(bs, e, |bs|);
    if first < |bs| {
      ghost var r := RegionEnd(bs, first, first + 1, maxBytes);
      if e <= r {
        PosMonotone(bs, e, r);
      }
    }
  }

  lemma PromisedLength(torn: seq<Byte>)
    requires Torn(torn)
    ensures Promised([]) == 0 && if |torn| >= HEADER_UP_TO_MAGIC then Promised(torn) > |torn| else Promised(torn) == 0
  {
  }

  lemma TailLength(file: seq<Byte>, bs: seq<Batch>, torn: seq<Byte>)
    requires file == Flatten(bs) + torn && |torn| >= HEADER_UP_TO_MAGIC && Torn(torn)
    ensures Pos(bs, |bs|) + HEADER_UP_TO_MAGIC <= |file|
    ensures TotalLengthAt(file, Pos(bs, |bs|)) == Promised(torn) > |torn|
    ensures I64At(file, Pos(bs, |bs|)) == I64At(torn, 0)
  {
    hide Flatten, Pos, Torn, I32At, I64At, UnsignedAt, TotalLengthAt;
    FlattenLength(bs);
    PromisedLength(torn);
    assert file[Pos(bs, |bs|)..Pos(bs, |bs|) + |torn|] == torn;
    FieldsMove(file, Pos(bs, |bs|), torn);
  }

  // ---- Scans of the whole file, which must stop at a torn tail ----

  /** The length field read where the whole batches end promises more than the file holds. */
  lemma TornStops(file: seq<Byte>, bs: seq<Batch>, torn: seq<Byte>)
    requires file == Flatten(bs) + torn && Torn(torn)
    ensures |file| == Pos(bs, |bs|) + |torn|
    ensures |torn| >= LOG_OVERHEAD ==>
              Pos(bs, |bs|) + TotalLengthAt(file, Pos(bs, |bs|)) > |file|
  {
    hide Flatten, Pos, GetBE, Signed;
    FlattenLength(bs);
    if |torn| >= LOG_OVERHEAD {
      var p := Pos(bs, |bs|);
      assert file[p + 8..p + 12] == torn[8..12];
    }
  }

  lemma UnsignedLength(s: seq<Byte>, p: nat)
    requires p + LOG_OVERHEAD <= |s| && TotalLengthAt(s, p) >= LOG_OVERHEAD
    ensures UnsignedAt(s, p + 8, 4) == I32At(s, p + 8)
  {
    Widths();
  }

  /** The next offset a segment would assign, from its bytes alone. */
  method ScanNextOffset(file: seq<Byte>, baseOffset: int, ghost bs: seq<Batch>, ghost torn: seq<Byte>)
    returns (next: int)
    requires AllWhole(bs) && file == Flatten(bs) + torn && Torn(torn)
    ensures next == EndOffset(baseOffset, bs)
  {
    hide Flatten, HeaderSays, I64At, I32At, UnsignedAt, Torn;
    TornStops(file, bs, torn);
    var pos, lastBase := 0, -1;
    ghost var k := 0;
    while pos + HEADER_UP_TO_MAGIC <= |file|
      invariant k <= |bs| && pos == Pos(bs, k)
      invariant lastBase < 0 <==> k == 0
      decreases |file| - pos
    {
      if pos + HEADER_WITH_DELTA > |file| {
        break;
      }
      if k < |bs| {
        HeaderAt(file, bs, k);
        HeaderFields(file, pos, bs[k]);
      }
      UnsignedLength(file, pos);
      var total := LOG_OVERHEAD + UnsignedAt(file, pos + 8, 4);
      if total <= 0 || pos + total > |file| {
        break;
      }
      lastBase := I64At(file, pos);
      pos := pos + total;
      k := k + 1;
    }
    if lastBase < 0 {
      PosMonotone(bs, 0, |bs|);
      return baseOffset;
    }
    next := ScanLastOffset(file, baseOffset, bs, torn);
  }

  method ScanLastOffset(file: seq<Byte>, baseOffset: int, ghost bs: seq<Batch>, ghost torn: seq<Byte>)
    returns (next: int)
    requires AllWhole(bs) && file == Flatten(bs) + torn && Torn(torn)
    ensures next == EndOffset(baseOffset, bs)
  {
    hide Flatten, HeaderSays, I64At, I32At, TotalLengthAt, Torn;
    TornStops(file, bs, torn);
    var pos := 0;
    next := baseOffset;
    ghost var k := 0;
    while pos + HEADER_WITH_DELTA <= |file|
      invariant k <= |bs| && pos == Pos(bs, k)
      invariant next == OffsetAt(baseOffset, bs, k)
      decreases |file| - pos
    {
      if k < |bs| {
        HeaderAt(file, bs, k);
        HeaderFields(file, pos, bs[k]);
      }
      var total := TotalLengthAt(file, pos);
      if total <= 0 || pos + total > |file| {
        break;
      }
      next := I64At(file, pos) + I32At(file, pos + 23) + 1;
      pos := pos + total;
      k := k + 1;
    }
    PosMonotone(bs, k, |bs|);
  }

  datatype BatchHeader = BatchHeader(baseOffset: int, lastOffsetDelta: int, producerId: int, producerEpoch: int,
                                     baseSequence: int)

  function HeaderOf(b: Batch): BatchHeader
    requires |b.raw| >= HEADER_SIZE
  {
    BatchHeader(b.base, b.count - 1, I64At(b.raw, 43), I16At(b.raw, 51), I32At(b.raw, 53))
  }

  /** The headers of the batches that start at or after `from`, in log order. */
  function HeadersFrom(bs: seq<Batch>, from: int): seq<BatchHeader>
    requires AllWhole(bs)
  {
    if bs == [] then []
    else
      var n := |bs| - 1;
      HeadersFrom(bs[..n], from) + if bs[n].base >= from then [HeaderOf(bs[n])] else []
  }

  lemma ProducerFieldsAt(s: seq<Byte>, p: nat, b: Batch)
    requires Whole(b) && p + |b.raw| <= |s| && s[p..p + |b.raw|] == b.raw
    ensures I64At(s, p + 43) == I64At(b.raw, 43)
    ensures I16At(s, p + 51) == I16At(b.raw, 51)
    ensures I32At(s, p + 53) == I32At(b.raw, 53)
  {
    SliceOfSlice(s, b.raw, p, 43, 8);
    SliceOfSlice(s, b.raw, p, 51, 2);
    SliceOfSlice(s, b.raw, p, 53, 4);
  }

  /** Visits the whole batches of a segment file, stopping at a torn tail. */
  method WalkHeaders(file: seq<Byte>, from: int, ghost bs: seq<Batch>, ghost torn: seq<Byte>)
    returns (headers: seq<BatchHeader>)
    requires AllWhole(bs) && file == Flatten(bs) + torn && Torn(torn)
    ensures headers == HeadersFrom(bs, from)
  {
    hide Flatten, HeaderSays, I64At, I32At, I16At, TotalLengthAt, Torn;
    TornStops(file, bs, torn);
    var pos := 0;
    headers := [];
    ghost var k := 0;
    while pos + HEADER_WITH_PRODUCER <= |file|
      invariant k <= |bs| && pos == Pos(bs, k)
      invariant headers == HeadersFrom(bs[..k], from)
      decreases |file| - pos
    {
      if k < |bs| {
        HeaderAt(file, bs, k);
        HeaderFields(file, pos, bs[k]);
        ProducerFieldsAt(file, pos, bs[k]);
        assert bs[..k + 1][..k] == bs[..k];
      }
      var total := TotalLengthAt(file, pos);
      if total <= 0 || pos + total > |file| {
        break;
      }
      var base := I64At(file, pos);
      if base >= from {
        headers := headers + [BatchHeader(base, I32At(file, pos + 23), I64At(file, pos + 43),
                                          I16At(file, pos + 51), I32At(file, pos + 53))];
      }
      pos := pos + total;
      k := k + 1;
    }
    PosMonotone(bs, k, |bs|);
    assert bs[..|bs|] == bs;
  }

  lemma StartFromIndex(s: Seg, offset: int)
    requires ValidSeg(s)
    ensures Sorted(EntriesFor(s))
    ensures var k0 := ScanStart(s.batches, s.indexed, offset);
            && FloorPosition(EntriesFor(s), offset - s.base) == Pos(s.batches, k0)
            && (k0 == |s.batches| <==> s.batches == [])
            && ScanFrom(s.batches, k0, offset) == Target(s.batches, offset)
            && (s.batches != [] ==>
                  var t := ScanFrom(s.batches, k0, offset);
                  RegionStart(s, offset) ==
                  if k0 < t && (t == |s.batches| || offset <= s.batches[t].base) then t - 1 else t)
  {
    EntriesSorted(s);
    FloorIsScanStart(s, offset);
    IndexSkipsNothing(s, offset);
  }

  /** Where the value-level region lies in the file. */
  lemma RegionFacts(s: Seg, file: seq<Byte>, torn: seq<Byte>, offset: int, maxBytes: int)
    requires IndexInRange(s) && AllWhole(s.batches) && file == Flatten(s.batches) + torn && Torn(torn)
    ensures var (first, last) := Region(s, offset, maxBytes);
            var found := Pos(s.batches, last) - Pos(s.batches, first);
            && 0 <= Pos(s.batches, first) <= Pos(s.batches, first) + found <= |file|
            && file[Pos(s.batches, first)..Pos(s.batches, first) + found] == Flatten(s.batches[first..last])
            && Promised(ReachedTail(s.batches, first, maxBytes, torn)) >= 0
            && if s.batches == [] then
                 Pos(s.batches, first) == found == Promised(ReachedTail(s.batches, first, maxBytes, torn)) == 0
               else
                 && first == RegionStart(s, offset) && found > 0
                 && last == RegionEnd(s.batches, first, first + 1, maxBytes)
  {
    hide Flatten, Torn, Promised, RegionStart, RegionEnd, Whole;
    var (first, last) := Region(s, offset, maxBytes);
    FlattenSlice(s.batches, first, last);
    PosMonotone(s.batches, 0, first);
    PosMonotone(s.batches, first, last);
    PromisedLength(torn);
  }

  class Segment {
    const baseOffset: int
    const maxBytes: int
    const indexInterval: int
    const index: OffsetIndex

    var logFile: seq<Byte>
    var currentSize: int
    var lastIndexedPosition: int

    // What the bytes mean.
    ghost var batches: seq<Batch>
    ghost var torn: seq<Byte>
    ghost var indexed: seq<nat>

    ghost function View(): Seg
      reads this
    {
      Seg(baseOffset, batches, indexed)
    }

    ghost predicate Valid()
      reads this, index, index.mmap
    {
      && logFile == Flatten(batches) + torn
      && Torn(torn)
      && currentSize == |logFile|
      && AllWhole(batches)
      && ValidSeg(View())
      && index.Valid()
      && index.baseOffset == baseOffset
      && IndexSound()
    }

    ghost predicate IndexSound()
      requires index.Valid() && ValidSeg(View())
      reads this, index, index.mmap
    {
      && index.Entries() == EntriesFor(View())
      && (indexed != [] ==> lastIndexedPosition == Pos(batches, indexed[|indexed| - 1]))
    }

    /**
     Opens the file `<baseOffset>.log`. Entries already in the index file are
     not read back: the index starts empty.
     */
    constructor (baseOffset: int, file: seq<Byte>, indexFileSize: nat, maxBytes: int, indexInterval: int,
                 ghost batches: seq<Batch>, ghost torn: seq<Byte>)
      requires indexFileSize % 8 == 0
      requires 0 <= baseOffset && AllWhole(batches) && Contiguous(baseOffset, batches)
      requires file == Flatten(batches) + torn && Torn(torn)
      ensures Valid() && fresh(index) && fresh(index.mmap)
      ensures View() == Seg(baseOffset, batches, []) && this.torn == torn && logFile == file
      ensures this.maxBytes == maxBytes && this.indexInterval == indexInterval
    {
      this.baseOffset := baseOffset;
      this.maxBytes := maxBytes;
      this.indexInterval := indexInterval;
      index := new OffsetIndex(baseOffset, indexFileSize);
      logFile := file;
      currentSize := |file|;
      lastIndexedPosition := 0;
      this.batches := batches;
      this.torn := torn;
      indexed := [];
    }

    /**
     Patches the base offset into the data and writes it. `bs` names the
     batches the patched data holds: one for a produce, possibly several for a
     follower.
     */
    method AppendRaw(base: int, data: seq<Byte>, ghost bs: seq<Batch>) returns (ok: bool)
      requires Valid() && torn == []
      requires |data| >= 8 ==>
                 && bs != [] && Flatten(bs) == Patch(data, base)
                 && AllWhole(bs) && base == View().End() && Contiguous(base, bs)
      requires base - baseOffset < 0x1_0000_0000 && |logFile| < 0x1_0000_0000
      modifies this, index, index.mmap
      ensures Valid() && torn == []
      ensures index.mmap == old(index.mmap) || fresh(index.mmap)
      ensures ok <==> |data| >= 8
      ensures !ok ==> logFile == old(logFile) && View() == old(View())
      ensures ok ==> logFile == old(logFile) + Patch(data, base)
      ensures ok ==> View() == SegAppend(old(View()), bs, indexInterval)
    {
      hide AllWhole, Flatten, EntriesFor, Contiguous, Increasing, Patch, Torn;
      if |data| < 8 {
        return false;
      }
      ghost var before, after := View(), SegAppend(View(), bs, indexInterval);
      SegAppendValid(before, bs, indexInterval);
      EntriesAfterAppend(before, bs, indexInterval);
      FlattenAppend(batches, bs);
      FlattenLength(batches);
      AllWholeAppend(batches, bs);
      OffsetsIncrease(baseOffset, batches, 0, |batches|);
      var position := |logFile|;
      logFile := logFile + Patch(data, base);
      currentSize := currentSize + |data|;
      batches := batches + bs;
      indexed := after.indexed;
      IndexIfDue(base, position, before);
      ok := true;
    }

    method IndexIfDue(base: int, position: int, ghost s: Seg)
      requires ValidSeg(s) && index.Valid() && index.Entries() == EntriesFor(s)
      requires s.indexed != [] ==> lastIndexedPosition == Pos(s.batches, s.indexed[|s.indexed| - 1])
      requires position == s.Size() < 0x1_0000_0000
      requires baseOffset == index.baseOffset == s.base <= base < s.base + 0x1_0000_0000
      modifies this`lastIndexedPosition, index, index.mmap
      ensures index.Valid() && (index.mmap == old(index.mmap) || fresh(index.mmap))
      ensures index.Entries() ==
              EntriesFor(s) + if NeedsEntry(s, indexInterval) then [IndexEntry(base - s.base, position)] else []
      ensures lastIndexedPosition == if NeedsEntry(s, indexInterval) then position else old(lastIndexedPosition)
    {
      hide EntriesFor, Contiguous, Increasing, Pos, Wrap32, EntriesOf, EntryAt, OffsetIndex.Valid;
      Wrap32Small(base - baseOffset);
      Wrap32Small(position);
      if index.entryCount == 0 || position - lastIndexedPosition >= indexInterval {
        index.Append(base, position);
        lastIndexedPosition := position;
      }
    }

    /**
     Locates the batches for a fetch by header reads alone: file position and
     size, (0, 0) for nothing, None for a failed read. For an offset that a
     whole batch holds, a torn tail shows only in the size; a search past the
     whole batches may fail in the tail, or find the tail itself.
     */
    method FindRawRegion(fetchOffset: int, maxBytes: int) returns (r: Option<(int, int)>)
      requires Valid()
      ensures if SearchesTail(batches, fetchOffset, torn) then
                r == if I64At(torn, 0) < fetchOffset && |torn| < HEADER_WITH_DELTA then None
                     else Some((Pos(batches, |batches|), Promised(torn)))
              else
                && r.Some?
                && var (first, last) := Region(View(), fetchOffset, maxBytes);
                   var found, (filePos, size) := Pos(batches, last) - Pos(batches, first), r.value;
                && filePos == Pos(batches, first)
                && size == found + Promised(ReachedTail(batches, first, maxBytes, torn))
                && (size == 0 <==> batches == [])
                && 0 <= filePos <= filePos + found <= |logFile|
                && logFile[filePos..filePos + found] == Flatten(batches[first..last])
    {
      hide Flatten, AllWhole, Contiguous, EntriesFor, Torn, Sorted, FloorPosition, Target, Region;
      hide ScanFrom, ScanStart, RegionStart, RegionEnd, Pos, Increasing, ReachesTail, Promised, I64At;
      StartFromIndex(View(), fetchOffset);
      RegionFacts(View(), logFile, torn, fetchOffset, maxBytes);
      var indexPos := index.Lookup(fetchOffset);
      var start;
      ghost var at;
      start, at := ScanHeaders(logFile, indexPos, fetchOffset, batches, torn, ScanStart(batches, indexed, fetchOffset));
      if start.None? {
        return None;
      }
      if start.value < 0 {
        return Some((0, 0));
      }
      var size := RunSize(logFile, start.value, maxBytes, batches, torn, at);
      r := Some((start.value, size));
    }

    method NextOffset() returns (next: int)
      requires Valid()
      ensures next == View().End()
    {
      next := ScanNextOffset(logFile, baseOffset, batches, torn);
    }

    method WalkBatchHeaders(from: int) returns (headers: seq<BatchHeader>)
      requires Valid()
      ensures headers == HeadersFrom(batches, from)
    {
      headers := WalkHeaders(logFile, from, batches, torn);
    }
  }
}
