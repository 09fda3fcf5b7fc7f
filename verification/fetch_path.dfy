/**
 The fetch path over the bytes of a log, and what a torn tail does to it: a
 region that reaches the tail counts it by the length its header promises.
 */
module FetchPath {
  import opened Options
  import opened Bytes
  import opened RecordBatch
  import opened LogView
  import opened CommitLogView
  import opened Segments
  import opened CommitLogs

  // ---- Clipping ----

  /** What clipping does with a tail, once every batch before it is visible. */
  datatype TailClip = Refused | LeftOut | SentAlong

  function ClipTail(tail: seq<Byte>, maxVisible: int): TailClip {
    if |tail| < HEADER_SIZE || UnsignedAt(tail, 57, 4) == 0 then Refused
    else if I64At(tail, 0) + UnsignedAt(tail, 57, 4) - 1 >= maxVisible then LeftOut
    else SentAlong
  }

  /** The size a region of these batches and this tail is clipped to. */
  function ClippedSize(bs: seq<Batch>, tail: seq<Byte>, maxVisible: int): Result<int> {
    var v := VisibleEnd(bs, 0, |bs|, maxVisible);
    if v < |bs| || tail == [] then Ok(Pos(bs, v))
    else match ClipTail(tail, maxVisible)
         case Refused => Err
         case LeftOut => Ok(Pos(bs, |bs|))
         case SentAlong => Ok(Pos(bs, |bs|) + Promised(tail))
  }

  /**
   Trims a region to its whole batches below `maxVisible`, reading headers
   only. A region of whole batches never fails and keeps exactly their longest
   visible prefix; a tail it reaches may make it fail.
   */
  method ClipRegionToOffset(reg: Option<RecordsRegion>, maxVisible: int, ghost bs: seq<Batch>, ghost tail: seq<Byte>)
    returns (r: Result<Option<RecordsRegion>>)
    ensures reg.None? || reg.value.size == 0 ==> r == Ok(reg)
    ensures reg.Some? && reg.value.size > 0 && reg.value.Spans(bs, tail) && AllWhole(bs) && TailOk(tail) ==>
              r == match ClippedSize(bs, tail, maxVisible)
                   case Err => Err
                   case Ok(n) => Ok(Some(reg.value.(size := n)))
    ensures r.Ok? && r.value.Some? ==> reg.Some? && r.value.value.(size := reg.value.size) == reg.value
  {
    hide Flatten, AllWhole, ClippedSize, Promised, TailOk;
    if reg.None? || reg.value.size == 0 {
      return Ok(reg);
    }
    var visible := VisibleBytes(reg.value.Rest(), reg.value.size, maxVisible, bs, tail);
    if visible.Err? {
      return Err;
    }
    return Ok(Some(reg.value.(size := visible.value)));
  }

  /** A tail that a region reaches: torn, with at least the part of its header that the search reads. */
  ghost predicate TailOk(tail: seq<Byte>) {
    tail == [] || (|tail| >= HEADER_UP_TO_MAGIC && Torn(tail))
  }

  method VisibleBytes(data: seq<Byte>, size: int, maxVisible: int, ghost bs: seq<Batch>, ghost tail: seq<Byte>)
    returns (r: Result<int>)
    ensures Flatten(bs) <= data && (tail != [] ==> data == Flatten(bs) + tail) &&
            size == |Flatten(bs)| + Promised(tail) && AllWhole(bs) && TailOk(tail) ==>
              r == ClippedSize(bs, tail, maxVisible)
  {
    hide Flatten, HeaderSays, I64At, I32At, UnsignedAt, TotalLengthAt, Whole, Torn, Promised;
    ghost var spans := && Flatten(bs) <= data && (tail != [] ==> data == Flatten(bs) + tail)
                       && size == |Flatten(bs)| + Promised(tail) && AllWhole(bs) && TailOk(tail);
    FlattenLength(bs);
    if spans {
      TailPromise(tail);
    }
    var pos := 0;
    ghost var k, sent := 0, false;
    while pos < size
      invariant 0 <= pos
      invariant spans && !sent ==> k <= |bs| && pos == Pos(bs, k)
      invariant spans && !sent ==> VisibleEnd(bs, k, |bs|, maxVisible) == VisibleEnd(bs, 0, |bs|, maxVisible)
      invariant spans && sent ==> pos == size && VisibleEnd(bs, 0, |bs|, maxVisible) == |bs|
      invariant spans && sent ==> tail != [] && ClipTail(tail, maxVisible) == SentAlong
      decreases size - pos
    {
      if spans {
        if k < |bs| {
          ClipHeader(data, bs, k);
        } else {
          TailHeader(data, bs, tail);
        }
      }
      if size - pos < HEADER_SIZE || pos + HEADER_SIZE > |data| {
        return Err;
      }
      var baseOffset := I64At(data, pos);
      var batchLength := UnsignedAt(data, pos + 8, 4);
      var recordCount := UnsignedAt(data, pos + 57, 4);
      if batchLength < LOG_OVERHEAD || recordCount <= 0 {
        return Err;
      }
      if baseOffset + recordCount - 1 >= maxVisible {
        break;
      }
      if pos + LOG_OVERHEAD + batchLength > size {
        break;
      }
      sent := k == |bs|;
      pos := pos + LOG_OVERHEAD + batchLength;
      k := k + 1;
    }
    if spans && !sent {
      PosMonotone(bs, k, |bs|);
    }
    return Ok(pos);
  }

  lemma ClipHeader(data: seq<Byte>, bs: seq<Batch>, k: nat)
    requires AllWhole(bs) && Flatten(bs) <= data && k < |bs|
    ensures var p := Pos(bs, k);
            && p + HEADER_SIZE <= p + |bs[k].raw| == Pos(bs, k + 1) <= |Flatten(bs)|
            && I64At(data, p) == bs[k].base
            && LOG_OVERHEAD + UnsignedAt(data, p + 8, 4) == |bs[k].raw|
            && UnsignedAt(data, p + 57, 4) == bs[k].count >= 1
  {
    hide Flatten, HeaderSays, I64At, I32At, UnsignedAt;
    HeaderAt(data, bs, k);
    HeaderFields(data, Pos(bs, k), bs[k]);
    UnsignedLength(data, Pos(bs, k));
    UnsignedCount(data, Pos(bs, k));
  }

  /** What a header read at the tail sees. */
  lemma TailHeader(data: seq<Byte>, bs: seq<Batch>, tail: seq<Byte>)
    requires data == Flatten(bs) + tail && |tail| >= HEADER_UP_TO_MAGIC && Torn(tail)
    ensures var p := Pos(bs, |bs|);
            && |data| == p + |tail| && Promised(tail) > |tail|
            && (|tail| >= HEADER_SIZE ==>
                  && I64At(data, p) == I64At(tail, 0)
                  && LOG_OVERHEAD + UnsignedAt(data, p + 8, 4) == Promised(tail)
                  && UnsignedAt(data, p + 57, 4) == UnsignedAt(tail, 57, 4))
  {
    hide Flatten, I64At, I32At, UnsignedAt, Torn, Promised, Pos;
    FlattenLength(bs);
    var p := Pos(bs, |bs|);
    TailLength(data, bs, tail);
    assert data[p..p + |tail|] == tail;
    FieldsMove(data, p, tail);
    UnsignedLength(data, p);
  }

  lemma UnsignedCount(s: seq<Byte>, p: nat)
    requires p + HEADER_SIZE <= |s| && I32At(s, p + 57) >= 0
    ensures UnsignedAt(s, p + 57, 4) == I32At(s, p + 57)
  {
    Widths();
  }

  // ---- One partition of a fetch ----

  /** The bytes a fetch sends from a log whose last segment ends in `torn`. */
  function FetchBytes(log: Log, torn: seq<Byte>, offset: int, maxBytes: int, maxVisible: int): Option<seq<Byte>>
    requires GapFree(log)
  {
    var i := SegmentOf(log, offset);
    if offset >= LogEnd(log) || i == |log| then None
    else
      var bs, (first, last) := log[i].batches, Region(log[i], offset, maxBytes);
      var tail := ReachedTail(bs, first, maxBytes, TornAt(log, i, torn));
      var v := VisibleEnd(bs, first, last, maxVisible);
      if v < last || tail == [] then (if v == first then None else Some(Flatten(bs[first..v])))
      else match ClipTail(tail, maxVisible)
           case Refused => None
           case LeftOut => Some(Flatten(bs[first..last]))
           case SentAlong => Some(Flatten(bs[first..last]) + tail)
  }

  /** The fetch takes in the tail, and every batch it found is visible. */
  predicate TailInReach(log: Log, torn: seq<Byte>, offset: int, maxBytes: int, maxVisible: int)
    requires GapFree(log)
  {
    var i := SegmentOf(log, offset);
    && offset < LogEnd(log) && i < |log|
    && var bs, (first, last) := log[i].batches, Region(log[i], offset, maxBytes);
    && ReachesTail(bs, first, maxBytes, TornAt(log, i, torn))
    && VisibleEnd(bs, first, last, maxVisible) == last
  }

  /** The bytes of a region that reach the connection: sending stops at the end of the file. */
  function Sent(reg: RecordsRegion): seq<Byte>
    requires reg.size > 0
  {
    if reg.size <= |reg.Rest()| then reg.Rest()[..reg.size] else reg.Rest()
  }

  /**
   The partition body of the fetch handler: find the region, clip it to what
   the reader may see, and pass it on unless nothing is left. A closed log
   gives nothing. The region lies within its file unless a tail is sent along.
   */
  method FetchRecords(log: CommitLog, fetchOffset: int, maxBytes: int, maxVisible: int, ghost torn: seq<Byte>)
    returns (region: Option<RecordsRegion>)
    requires log.Valid() && TornOnlyAtEnd(log.segments, torn)
    ensures GapFree(log.View()) && (region.Some? ==> region.value.size > 0)
    ensures SentFor(region) ==
            if log.isClosed then None else FetchBytes(log.View(), torn, fetchOffset, maxBytes, maxVisible)
    ensures region.Some? ==>
              (region.value.InFile() <==>
               !(&& TailInReach(log.View(), torn, fetchOffset, maxBytes, maxVisible)
                 && ClipTail(torn, maxVisible).SentAlong?))
  {
    hide WellKept, ViewOf, Segment.Valid, TornOnlyAtEnd, AllWhole, Flatten, Region, SegmentOf, VisibleEnd, Pos;
    hide ClippedSize, ReachedTail, Promised, Torn, RecordsRegion.Spans, ClipTail, FetchBytes, RecordsRegion.InFile,
         Sent;
    hide TailInReach;
    ghost var view := log.View();
    var found := log.FindRecords(fetchOffset, maxBytes, torn);
    FetchNothing(view, torn, fetchOffset, maxBytes, maxVisible);
    if found.None? {
      return None;
    }
    ghost var i := SegmentOf(view, fetchOffset);
    GapFreeIndexes(view);
    ghost var (first, last) := Region(view[i], fetchOffset, maxBytes);
    ghost var bs := view[i].batches[first..last];
    ghost var tail := ReachedTail(view[i].batches, first, maxBytes, TornAt(view, i, torn));
    AllWholeSlice(view[i].batches, first, last);
    ReachedIsTorn(view[i].batches, first, maxBytes, view, i, torn);
    var clipped := ClipRegionToOffset(found, maxVisible, bs, tail);
    SentIs(view, torn, fetchOffset, maxBytes, maxVisible, found.value);
    SentFits(view, torn, fetchOffset, maxBytes, maxVisible, found.value);
    if clipped.Err? || clipped.value.None? || clipped.value.value.size <= 0 {
      return None;
    }
    return clipped.value;
  }

  /** The bytes that reach the connection for a region, if there is one. */
  function SentFor(region: Option<RecordsRegion>): Option<seq<Byte>>
    requires region.Some? ==> region.value.size > 0
  {
    match region
    case None => None
    case Some(reg) => Some(Sent(reg))
  }

  lemma FetchNothing(log: Log, torn: seq<Byte>, offset: int, maxBytes: int, maxVisible: int)
    requires GapFree(log)
    ensures offset >= LogEnd(log) || SegmentOf(log, offset) == |log| ==>
            FetchBytes(log, torn, offset, maxBytes, maxVisible) == None
  {
  }

  lemma ReachedIsTorn(bs: seq<Batch>, first: nat, maxBytes: int, log: Log, i: nat, torn: seq<Byte>)
    requires Torn(torn)
    ensures TailOk(ReachedTail(bs, first, maxBytes, TornAt(log, i, torn)))
  {
  }

  /** What is sent is what the value-level fetch gives. */
  lemma SentIs(log: Log, torn: seq<Byte>, offset: int, maxBytes: int, maxVisible: int, reg: RecordsRegion)
    requires GapFree(log) && offset < LogEnd(log) && SegmentOf(log, offset) < |log|
    requires var i := SegmentOf(log, offset);
             var bs, (first, last) := log[i].batches, Region(log[i], offset, maxBytes);
             && AllWhole(bs) && Torn(torn)
             && reg.Spans(bs[first..last], ReachedTail(bs, first, maxBytes, TornAt(log, i, torn)))
    ensures reg.size > 0
    ensures var i := SegmentOf(log, offset);
            var bs, (first, last) := log[i].batches, Region(log[i], offset, maxBytes);
            FetchBytes(log, torn, offset, maxBytes, maxVisible) ==
            match ClippedSize(bs[first..last], ReachedTail(bs, first, maxBytes, TornAt(log, i, torn)), maxVisible)
            case Err => None
            case Ok(n) => if n <= 0 then None else Some(Sent(reg.(size := n)))
  {
    hide Flatten, Region, SegmentOf, VisibleEnd, ReachedTail, Torn, GapFree, AllWhole, ClipTail, Target, Promised, Pos;
    var i := SegmentOf(log, offset);
    OffsetIsHeld(log, offset);
    GapFreeIndexes(log);
    var bs := log[i].batches;
    var (first, last) := Region(log[i], offset, maxBytes);
    var cs, v := bs[first..last], VisibleEnd(bs, first, last, maxVisible);
    var tail := ReachedTail(bs, first, maxBytes, TornAt(log, i, torn));
    ReachedIsTorn(bs, first, maxBytes, log, i, torn);
    ClippedSlice(bs, first, last, maxVisible);
    AllWholeSlice(bs, first, last);
    PosZero(cs, v - first);
    PosZero(cs, |cs|);
    FlattenLength(cs);
    PrefixSent(reg, cs, v - first);
    TailPromise(tail);
    assert cs[..|cs|] == cs;
    if v == last && tail != [] {
      assert bs[first..v] == cs;
      WholeSent(reg, cs, tail);
    }
  }

  /** Clipped, the region stays within its file exactly when no tail is sent along. */
  lemma SentFits(log: Log, torn: seq<Byte>, offset: int, maxBytes: int, maxVisible: int, reg: RecordsRegion)
    requires GapFree(log) && offset < LogEnd(log) && SegmentOf(log, offset) < |log|
    requires var i := SegmentOf(log, offset);
             var bs, (first, last) := log[i].batches, Region(log[i], offset, maxBytes);
             && AllWhole(bs) && Torn(torn)
             && reg.Spans(bs[first..last], ReachedTail(bs, first, maxBytes, TornAt(log, i, torn)))
    ensures var i := SegmentOf(log, offset);
            var bs, (first, last) := log[i].batches, Region(log[i], offset, maxBytes);
            var tail := ReachedTail(bs, first, maxBytes, TornAt(log, i, torn));
            var clipped := ClippedSize(bs[first..last], tail, maxVisible);
            clipped.Ok? ==>
              (reg.(size := clipped.value).InFile() <==>
               !(TailInReach(log, torn, offset, maxBytes, maxVisible) && ClipTail(torn, maxVisible).SentAlong?))
  {
    hide Flatten, Region, SegmentOf, VisibleEnd, ReachesTail, Torn, GapFree, AllWhole, ClipTail, ClippedSize,
         Promised, Pos;
    hide RecordsRegion.Spans, RecordsRegion.InFile;
    var i := SegmentOf(log, offset);
    GapFreeIndexes(log);
    var bs := log[i].batches;
    var (first, last) := Region(log[i], offset, maxBytes);
    TailSeen(log, i, offset, maxBytes, torn);
    ReachedIsTorn(bs, first, maxBytes, log, i, torn);
    ClippedSlice(bs, first, last, maxVisible);
    AllWholeSlice(bs, first, last);
    ClippedFits(reg, bs[first..last], ReachedTail(bs, first, maxBytes, TornAt(log, i, torn)), maxVisible);
  }

  lemma ClippedFits(reg: RecordsRegion, bs: seq<Batch>, tail: seq<Byte>, maxVisible: int)
    requires reg.Spans(bs, tail) && AllWhole(bs) && TailOk(tail)
    ensures var clipped := ClippedSize(bs, tail, maxVisible);
            clipped.Ok? ==>
              (reg.(size := clipped.value).InFile() <==>
               !(VisibleEnd(bs, 0, |bs|, maxVisible) == |bs| && tail != [] && ClipTail(tail, maxVisible).SentAlong?))
  {
    hide Flatten, VisibleEnd, Torn, AllWhole, ClipTail, Promised, Pos;
    var v := VisibleEnd(bs, 0, |bs|, maxVisible);
    FlattenLength(bs);
    FlattenTake(bs, v);
    TailPromise(tail);
  }

  lemma TailPromise(tail: seq<Byte>)
    requires TailOk(tail)
    ensures tail == [] ==> Promised(tail) == 0
    ensures tail != [] ==> Promised(tail) > |tail|
  {
  }

  lemma PrefixSent(reg: RecordsRegion, bs: seq<Batch>, v: nat)
    requires 0 <= reg.fileOffset <= |reg.file| && Flatten(bs) <= reg.Rest() && v <= |bs|
    ensures Pos(bs, v) <= |Flatten(bs)|
    ensures Pos(bs, v) > 0 ==> Sent(reg.(size := Pos(bs, v))) == Flatten(bs)[..Pos(bs, v)]
  {
    hide Flatten, Pos;
    FlattenTake(bs, v);
  }

  lemma WholeSent(reg: RecordsRegion, bs: seq<Batch>, tail: seq<Byte>)
    requires reg.Spans(bs, tail) && tail != [] && TailOk(tail)
    ensures |Flatten(bs)| + Promised(tail) > 0
    ensures Sent(reg.(size := |Flatten(bs)| + Promised(tail))) == Flatten(bs) + tail
  {
    hide Flatten;
    TailPromise(tail);
  }

  lemma GapFreeIndexes(log: Log)
    requires GapFree(log)
    ensures forall i | 0 <= i < |log| :: IndexInRange(log[i])
  {
  }

  lemma AllWholeSlice(bs: seq<Batch>, first: nat, last: nat)
    requires first <= last <= |bs| && AllWhole(bs)
    ensures AllWhole(bs[first..last])
  {
    hide Whole;
  }

  /** Clipping the found batches by themselves keeps the same batches as clipping them in place. */
  lemma ClippedSlice(bs: seq<Batch>, first: nat, last: nat, maxVisible: int)
    requires first <= last <= |bs|
    ensures var cs := bs[first..last];
            var v := VisibleEnd(bs, first, last, maxVisible);
            && VisibleEnd(cs, 0, |cs|, maxVisible) == v - first
            && Pos(cs, v - first) <= |Flatten(cs)|
            && Flatten(cs)[..Pos(cs, v - first)] == Flatten(bs[first..v])
  {
    hide Flatten, Whole;
    var cs := bs[first..last];
    var v := VisibleEnd(bs, first, last, maxVisible);
    VisibleEndUnique(cs, 0, |cs|, maxVisible, v - first);
    FlattenTake(cs, v - first);
    assert cs[..v - first] == bs[first..v];
  }

  lemma PosZero(bs: seq<Batch>, k: nat)
    requires AllWhole(bs) && k <= |bs|
    ensures Pos(bs, k) == 0 <==> k == 0
  {
    hide AllWhole;
    PosMonotone(bs, 0, k);
  }

  // ---- What a torn tail does to a fetch ----

  /** The bytes of the batches that a fetch hands out. */
  function BytesOf(found: Option<seq<Batch>>): Option<seq<Byte>> {
    match found
    case None => None
    case Some(bs) => Some(Flatten(bs))
  }

  /**
   A fetch sends the batches it should, exactly when it does not take in a tail
   that clipping refuses or sends along.
   */
  lemma TornFetchExactly(log: Log, torn: seq<Byte>, offset: int, maxBytes: int, maxVisible: int)
    requires GapFree(log)
    ensures (FetchBytes(log, torn, offset, maxBytes, maxVisible) == BytesOf(Fetch(log, offset, maxBytes, maxVisible)))
            <==> !(TailInReach(log, torn, offset, maxBytes, maxVisible) && ClipTail(torn, maxVisible) != LeftOut)
  {
    hide Flatten, Region, SegmentOf, VisibleEnd, ClipTail, ReachesTail, Target;
    var i := SegmentOf(log, offset);
    if offset < LogEnd(log) && i < |log| {
      OffsetIsHeld(log, offset);
      GapFreeIndexes(log);
      TailSeen(log, i, offset, maxBytes, torn);
      var bs := log[i].batches;
      var (first, last) := Region(log[i], offset, maxBytes);
      assert |Flatten(bs[first..last]) + torn| == |Flatten(bs[first..last])| + |torn|;
    }
  }

  lemma TailSeen(log: Log, i: nat, offset: int, maxBytes: int, torn: seq<Byte>)
    requires i < |log| && IndexInRange(log[i])
    ensures var first := Region(log[i], offset, maxBytes).0;
            ReachesTail(log[i].batches, first, maxBytes, TornAt(log, i, torn)) ==>
              TornAt(log, i, torn) == torn && |torn| >= HEADER_UP_TO_MAGIC
  {
  }

  /** What a crash leaves of a batch that was being written at offset `at`. */
  ghost predicate CrashTail(torn: seq<Byte>, at: int) {
    exists b: Batch :: Whole(b) && b.base == at && |torn| < |b.raw| && torn == b.raw[..|torn|]
  }

  lemma CrashTailClips(torn: seq<Byte>, at: int, maxVisible: int)
    requires CrashTail(torn, at) && maxVisible <= at
    ensures Torn(torn)
    ensures ClipTail(torn, maxVisible) == if |torn| < HEADER_SIZE then Refused else LeftOut
  {
    hide GetBE, Signed;
    var b: Batch :| Whole(b) && b.base == at && |torn| < |b.raw| && torn == b.raw[..|torn|];
    PrefixIsTorn(b, |torn|);
    if |torn| >= HEADER_SIZE {
      assert torn[0..8] == b.raw[0..8] && torn[57..61] == b.raw[57..61];
      UnsignedCount(b.raw, 0);
    }
  }

  /**
   After a crash in the middle of a write, a fetch sends the batches it
   should, exactly when it does not take in a tail of 17 to 60 bytes: no
   consumer or follower may see past the log end, so a longer tail is left out.
   */
  lemma CrashFetchExactly(log: Log, torn: seq<Byte>, offset: int, maxBytes: int, maxVisible: int)
    requires GapFree(log) && CrashTail(torn, LogEnd(log)) && maxVisible <= LogEnd(log)
    ensures (FetchBytes(log, torn, offset, maxBytes, maxVisible) == BytesOf(Fetch(log, offset, maxBytes, maxVisible)))
            <==> !(TailInReach(log, torn, offset, maxBytes, maxVisible) && HEADER_UP_TO_MAGIC <= |torn| < HEADER_SIZE)
    ensures TailInReach(log, torn, offset, maxBytes, maxVisible) && HEADER_UP_TO_MAGIC <= |torn| < HEADER_SIZE ==>
              FetchBytes(log, torn, offset, maxBytes, maxVisible) == None
  {
    hide Flatten, Region, SegmentOf, VisibleEnd, CrashTail, Fetch, Torn, ClipTail, ReachesTail;
    TornFetchExactly(log, torn, offset, maxBytes, maxVisible);
    CrashTailClips(torn, LogEnd(log), maxVisible);
    var i := SegmentOf(log, offset);
    if offset < LogEnd(log) && i < |log| {
      GapFreeIndexes(log);
      TailSeen(log, i, offset, maxBytes, torn);
    }
  }

  /** A log of one batch, and a crash that leaves 17 to 60 bytes of the next: the batch is no longer sent to anyone. */
  lemma CrashHidesBatch(b: Batch, next: Batch, n: nat, offset: int, maxBytes: int)
    requires Whole(b) && b.base == 0 && Whole(next) && next.base == b.count
    requires HEADER_UP_TO_MAGIC <= n < HEADER_SIZE && 0 <= offset < b.count
    requires maxBytes <= 0 || |b.raw| + |next.raw| <= maxBytes
    ensures var log := [Seg(0, [b], [])];
            && GapFree(log) && CrashTail(next.raw[..n], LogEnd(log))
            && Fetch(log, offset, maxBytes, LogEnd(log)) == Some([b])
            && FetchBytes(log, next.raw[..n], offset, maxBytes, LogEnd(log)) == None
  {
    hide Flatten, ClipTail, GetBE, Signed;
    var s := Seg(0, [b], []);
    var log, torn := [s], next.raw[..n];
    assert [b][..0] == [];
    assert OffsetAt(0, [b], 1) == b.count;
    assert GapFree(log) && LogEnd(log) == b.count;
    assert Region(s, offset, maxBytes) == (0, 1);
    assert [b][0..1] == [b];
    assert SegmentOf(log, offset) == 0 by {
      SegmentOfIs(log, 0, offset);
    }
    assert torn[8..12] == next.raw[8..12];
    assert Promised(torn) == |next.raw| && Pos([b], 1) == |b.raw| && Pos([b], 0) == 0;
    CrashFetchExactly(log, torn, offset, maxBytes, LogEnd(log));
  }
}
