/**
 The commit log: segments that roll when full, searched by offset for fetches.
 */
module CommitLogs {
  import opened Options
  import opened Bytes
  import opened RecordBatch
  import opened LogView
  import opened CommitLogView
  import opened OffsetIndexing
  import opened Segments
  import opened Ordering

  datatype Result<T> = Ok(value: T) | Err

  /** A file region ready to be sent; the file's bytes stand for the file handle. */
  datatype RecordsRegion = RecordsRegion(file: seq<Byte>, fileOffset: int, size: int, leo: int, logStart: int) {
    predicate InFile() { 0 <= fileOffset && fileOffset + size <= |file| }

    /** What the file holds from the region's start on. */
    function Rest(): seq<Byte> {
      if 0 <= fileOffset <= |file| then file[fileOffset..] else []
    }

    /** The region begins with these batches; a tail it reaches is counted by the length it promises. */
    predicate Spans(bs: seq<Batch>, tail: seq<Byte>) {
      && 0 <= fileOffset <= |file|
      && Flatten(bs) <= Rest() && (tail != [] ==> Rest() == Flatten(bs) + tail)
      && size == |Flatten(bs)| + Promised(tail)
    }
  }

  ghost function ViewOf(segments: seq<Segment>): (log: Log)
    reads segments
    ensures |log| == |segments|
    ensures forall i | 0 <= i < |segments| :: log[i] == segments[i].View()
  {
    seq(|segments|, i requires 0 <= i < |segments| reads segments => segments[i].View())
  }

  /** No segment but the last ends in a torn tail, and that one in `torn`. */
  ghost predicate TornOnlyAtEnd(segments: seq<Segment>, torn: seq<Byte>)
    reads segments
  {
    forall i | 0 <= i < |segments| :: segments[i].torn == if i == |segments| - 1 then torn else []
  }

  // ---- Opening a directory ----

  function BasesFrom(log: Log, i: nat): set<int>
    requires i <= |log|
  {
    set k | i <= k < |log| :: log[k].base
  }

  /** What `log` leaves on disk: one file per segment, the last one possibly with a torn tail. */
  ghost predicate Stored(dir: map<int, seq<Byte>>, log: Log, torn: seq<Byte>) {
    && GapFree(log)
    && Torn(torn)
    && (forall i | 0 <= i < |log| :: AllWhole(log[i].batches))
    && if dir == map[] then log == [Seg(0, [], [])] && torn == []
       else
         && dir.Keys == BasesFrom(log, 0)
         && forall i | 0 <= i < |log| ::
              dir[log[i].base] == Flatten(log[i].batches) + TornAt(log, i, torn)
  }

  lemma StoredAt(dir: map<int, seq<Byte>>, log: Log, torn: seq<Byte>, k: nat)
    requires Stored(dir, log, torn) && k < |log|
    ensures ValidSeg(log[k]) && AllWhole(log[k].batches) && Torn(TornAt(log, k, torn))
    ensures dir == map[] ==> log == [Seg(0, [], [])] && torn == Flatten([]) == []
    ensures dir != map[] ==> dir.Keys == BasesFrom(log, 0)
    ensures dir != map[] ==> log[k].base in dir && dir[log[k].base] == Flatten(log[k].batches) + TornAt(log, k, torn)
  {
    hide AllWhole;
    assert log[k].base in BasesFrom(log, 0);
  }

  /** The same batches with empty indexes: what opening a log's files yields. */
  function Reopened(log: Log): (r: Log)
    ensures |r| == |log|
    ensures forall i | 0 <= i < |log| :: r[i] == log[i].(indexed := [])
  {
    seq(|log|, i requires 0 <= i < |log| => log[i].(indexed := []))
  }

  /** The tail segment `k` of the stored log carries. */
  function TornAt(log: Log, k: nat, torn: seq<Byte>): seq<Byte> {
    if k == |log| - 1 then torn else []
  }

  /** The first segments of the stored log have been opened. */
  ghost predicate Loaded(segments: seq<Segment>, owned: set<object>, log: Log, torn: seq<Byte>,
                         maxBytes: int, indexInterval: int)
    reads owned, segments
  {
    && |segments| <= |log|
    && WellKept(segments, owned, maxBytes, indexInterval)
    && forall i | 0 <= i < |segments| ::
         segments[i].View() == log[i].(indexed := []) && segments[i].torn == TornAt(log, i, torn)
  }

  lemma LoadedNone(log: Log, torn: seq<Byte>, maxBytes: int, indexInterval: int)
    ensures Loaded([], {}, log, torn, maxBytes, indexInterval)
  {
  }

  lemma LoadedOneMore(segments: seq<Segment>, s: Segment, owned: set<object>, log: Log, torn: seq<Byte>,
                      maxBytes: int, indexInterval: int)
    requires Loaded(segments, owned, log, torn, maxBytes, indexInterval) && |segments| < |log|
    requires s !in owned && s.index !in owned && s.index.mmap !in owned
    requires s.Valid() && s.maxBytes == maxBytes && s.indexInterval == indexInterval
    requires s.View() == log[|segments|].(indexed := []) && s.torn == TornAt(log, |segments|, torn)
    ensures Loaded(segments + [s], owned + {s, s.index, s.index.mmap}, log, torn, maxBytes, indexInterval)
  {
    hide WellKept, Segment.Valid;
    WellKeptOneMore(segments, s, owned, maxBytes, indexInterval);
  }

  method LoadOne(dir: map<int, seq<Byte>>, base: int, indexSize: nat, maxBytes: int, indexInterval: int,
                 ghost log: Log, ghost torn: seq<Byte>, ghost k: nat)
    returns (s: Segment)
    requires Stored(dir, log, torn) && indexSize % 8 == 0
    requires k < |log| && base == log[k].base && (dir == map[] ==> base == 0)
    ensures s.Valid() && fresh(s) && fresh(s.index) && fresh(s.index.mmap)
    ensures s.maxBytes == maxBytes && s.indexInterval == indexInterval
    ensures s.View() == log[k].(indexed := []) && s.torn == TornAt(log, k, torn)
  {
    hide Stored, Segment.Valid, Flatten, Torn, AllWhole;
    StoredAt(dir, log, torn, k);
    var file := if base in dir then dir[base] else [];
    s := new Segment(base, file, indexSize, maxBytes, indexInterval, log[k].batches, TornAt(log, k, torn));
  }

  method LoadNext(segments: seq<Segment>, base: int, dir: map<int, seq<Byte>>, indexSize: nat, maxBytes: int,
                  indexInterval: int, ghost owned: set<object>, ghost log: Log, ghost torn: seq<Byte>)
    returns (more: seq<Segment>, ghost owned': set<object>)
    requires Stored(dir, log, torn) && indexSize % 8 == 0
    requires Loaded(segments, owned, log, torn, maxBytes, indexInterval)
    requires |segments| < |log| && base == log[|segments|].base && (dir == map[] ==> base == 0)
    ensures |more| == |segments| + 1
    ensures Loaded(more, owned', log, torn, maxBytes, indexInterval)
  {
    hide Stored, Loaded, Segment.Valid;
    var s := LoadOne(dir, base, indexSize, maxBytes, indexInterval, log, torn, |segments|);
    LoadedOneMore(segments, s, owned, log, torn, maxBytes, indexInterval);
    more := segments + [s];
    owned' := owned + {s, s.index, s.index.mmap};
  }

  /** Opens every `<base>.log` file of the directory, in base order; an empty directory gets a first segment. */
  method LoadSegments(dir: map<int, seq<Byte>>, indexSize: nat, maxBytes: int, indexInterval: int,
                      ghost log: Log, ghost torn: seq<Byte>)
    returns (segments: seq<Segment>, ghost owned: set<object>)
    requires Stored(dir, log, torn) && indexSize % 8 == 0
    ensures |segments| == |log|
    ensures Loaded(segments, owned, log, torn, maxBytes, indexInterval)
  {
    hide *;
    StoredBases(dir, log, torn);
    LoadedNone(log, torn, maxBytes, indexInterval);
    segments, owned := [], {};
    var remaining := if dir == map[] then {0} else dir.Keys;
    while remaining != {}
      invariant |segments| <= |log|
      invariant remaining == BasesFrom(log, |segments|)
      invariant Loaded(segments, owned, log, torn, maxBytes, indexInterval)
      decreases |log| - |segments|
    {
      var base := Smallest(remaining);
      SmallestIsNext(log, |segments|, base);
      segments, owned := LoadNext(segments, base, dir, indexSize, maxBytes, indexInterval, owned, log, torn);
      remaining := remaining - {base};
    }
    NoBasesLeft(log, |segments|);
  }

  lemma StoredBases(dir: map<int, seq<Byte>>, log: Log, torn: seq<Byte>)
    requires Stored(dir, log, torn)
    ensures log != [] && GapFree(log)
    ensures BasesFrom(log, 0) == if dir == map[] then {0} else dir.Keys
    ensures dir == map[] ==> log == [Seg(0, [], [])]
  {
    assert log[0].base in BasesFrom(log, 0);
  }

  lemma SmallestIsNext(log: Log, k: nat, base: int)
    requires GapFree(log) && k <= |log|
    requires base in BasesFrom(log, k) && forall x | x in BasesFrom(log, k) :: base <= x
    ensures k < |log| && base == log[k].base && ValidSeg(log[k])
    ensures BasesFrom(log, k) - {base} == BasesFrom(log, k + 1)
  {
    forall j | k < j < |log| ensures log[k].base < log[j].base {
      BasesIncrease(log, k, j);
    }
    assert log[k].base in BasesFrom(log, k);
  }

  lemma NoBasesLeft(log: Log, k: nat)
    requires k <= |log|
    ensures BasesFrom(log, k) == {} ==> k == |log|
  {
    assert k < |log| ==> log[k].base in BasesFrom(log, k);
  }

  ghost predicate Apart(s: Segment, t: Segment)
    reads s, t, s.index, t.index
  {
    s != t && s.index != t.index && s.index.mmap != t.index.mmap
  }

  /** Nothing but segments and their parts. */
  ghost predicate LogObjects(owned: set<object>) {
    forall o | o in owned :: o is Segment || o is OffsetIndex || o is array<Byte>
  }

  /** Valid segments of one configuration, all their objects in `owned` and none shared. */
  ghost predicate WellKept(segments: seq<Segment>, owned: set<object>, maxBytes: int, indexInterval: int)
    reads owned
  {
    && (forall i | 0 <= i < |segments| :: segments[i] in owned && segments[i].index in owned)
    && (forall i | 0 <= i < |segments| :: segments[i].index.mmap in owned)
    && (forall i | 0 <= i < |segments| ::
          && segments[i].Valid()
          && segments[i].maxBytes == maxBytes
          && segments[i].indexInterval == indexInterval)
    && (forall i, j | 0 <= i < j < |segments| :: Apart(segments[i], segments[j]))
    && LogObjects(owned)
  }

  lemma WellKeptOneMore(segments: seq<Segment>, s: Segment, owned: set<object>, maxBytes: int, indexInterval: int)
    requires WellKept(segments, owned, maxBytes, indexInterval)
    requires s !in owned && s.index !in owned && s.index.mmap !in owned
    requires s.Valid() && s.maxBytes == maxBytes && s.indexInterval == indexInterval
    ensures WellKept(segments + [s], owned + {s, s.index, s.index.mmap}, maxBytes, indexInterval)
  {
    hide Segment.Valid;
  }

  lemma WellKeptAt(segments: seq<Segment>, i: nat, owned: set<object>, maxBytes: int, indexInterval: int)
    requires WellKept(segments, owned, maxBytes, indexInterval) && i < |segments|
    ensures segments[i] in owned && segments[i].index in owned && segments[i].index.mmap in owned
    ensures segments[i].Valid() && segments[i].maxBytes == maxBytes && segments[i].indexInterval == indexInterval
  {
  }

  lemma LoadedAll(segments: seq<Segment>, owned: set<object>, log: Log, torn: seq<Byte>,
                  maxBytes: int, indexInterval: int)
    requires Loaded(segments, owned, log, torn, maxBytes, indexInterval) && |segments| == |log| && GapFree(log)
    ensures segments != [] && segments[|segments| - 1].Valid()
    ensures WellKept(segments, owned, maxBytes, indexInterval)
    ensures ViewOf(segments) == Reopened(log) && TornOnlyAtEnd(segments, torn)
  {
    hide Segment.Valid;
  }

  lemma TornAtEnd(segments: seq<Segment>, torn: seq<Byte>)
    requires segments != [] && TornOnlyAtEnd(segments, torn)
    ensures segments[|segments| - 1].torn == torn
  {
  }

  /** The segments before the last one, and what they own, do not involve the last one. */
  lemma WellKeptFront(segments: seq<Segment>, owned: set<object>, maxBytes: int, indexInterval: int)
    requires segments != [] && WellKept(segments, owned, maxBytes, indexInterval)
    ensures var n := |segments| - 1;
            var s := segments[n];
            && s !in segments[..n]
            && segments == segments[..n] + [s]
            && WellKept(segments[..n], owned - {s, s.index, s.index.mmap}, maxBytes, indexInterval)
  {
    hide Segment.Valid;
  }

  lemma ViewOneMore(segments: seq<Segment>, s: Segment)
    ensures ViewOf(segments + [s]) == ViewOf(segments) + [s.View()]
    ensures TornOnlyAtEnd(segments, []) && s.torn == [] <==> TornOnlyAtEnd(segments + [s], [])
  {
    if TornOnlyAtEnd(segments + [s], []) {
      assert forall i | 0 <= i < |segments| :: segments[i] == (segments + [s])[i];
      assert s == (segments + [s])[|segments|];
    }
  }

  lemma SegmentParts(s: Segment)
    requires s.Valid()
    ensures AllWhole(s.batches) && ValidSeg(s.View()) && |s.logFile| == s.currentSize
    ensures s.torn == [] ==> |s.logFile| == s.View().Size()
  {
    hide AllWhole, Contiguous, Torn;
    FlattenLength(s.batches);
  }

  /** Appends to the last segment; the others stay as they are. */
  method AppendToLast(segments: seq<Segment>, base: int, data: seq<Byte>, maxBytes: int, indexInterval: int,
                      ghost bs: seq<Batch>, ghost owned: set<object>)
    returns (ok: bool, ghost owned': set<object>)
    requires segments != [] && WellKept(segments, owned, maxBytes, indexInterval) && TornOnlyAtEnd(segments, [])
    requires |data| >= 8 ==>
               && bs != [] && Flatten(bs) == Patch(data, base) && AllWhole(bs) && Contiguous(base, bs)
               && base == Active(ViewOf(segments)).End()
    requires var s := segments[|segments| - 1];
             base - s.baseOffset < 0x1_0000_0000 && |s.logFile| < 0x1_0000_0000
    modifies owned
    ensures WellKept(segments, owned', maxBytes, indexInterval) && TornOnlyAtEnd(segments, [])
    ensures owned' <= owned + {segments[|segments| - 1].index.mmap}
    ensures IndexInRange(old(Active(ViewOf(segments))))
    ensures ok <==> |data| >= 8
    ensures ViewOf(segments) ==
            if ok then
              old(ViewOf(segments)[..|segments| - 1]) + [SegAppend(old(Active(ViewOf(segments))), bs, indexInterval)]
            else old(ViewOf(segments))
  {
    hide WellKept, ViewOf, TornOnlyAtEnd, Segment.Valid, AllWhole, Flatten, Contiguous, Patch, SegAppend;
    var n := |segments| - 1;
    var s := segments[n];
    ghost var front := segments[..n];
    WellKeptAt(segments, n, owned, maxBytes, indexInterval);
    WellKeptFront(segments, owned, maxBytes, indexInterval);
    SegmentParts(s);
    TornAtEnd(segments, []);
    ViewOneMore(front, s);
    owned' := owned - {s, s.index, s.index.mmap};
    ok := s.AppendRaw(base, data, bs);
    WellKeptOneMore(front, s, owned', maxBytes, indexInterval);
    ViewOneMore(front, s);
    owned' := owned' + {s, s.index, s.index.mmap};
  }

  // ---- Headers of the whole log ----

  lemma {:induction false} AllBatchesWhole(log: Log)
    requires forall i | 0 <= i < |log| :: AllWhole(log[i].batches)
    ensures AllWhole(AllBatches(log))
  {
    hide Whole;
    if log != [] {
      AllBatchesWhole(log[..|log| - 1]);
    }
  }

  /** The headers of the first `i` segments' batches, from an offset on. */
  ghost function HeadersOf(log: Log, i: nat, from: int): seq<BatchHeader>
    requires i <= |log| && forall k | 0 <= k < |log| :: AllWhole(log[k].batches)
  {
    AllBatchesWhole(log[..i]);
    HeadersFrom(AllBatches(log[..i]), from)
  }

  lemma {:induction false} HeadersAppend(bs: seq<Batch>, cs: seq<Batch>, from: int)
    requires AllWhole(bs) && AllWhole(cs)
    ensures AllWhole(bs + cs) && HeadersFrom(bs + cs, from) == HeadersFrom(bs, from) + HeadersFrom(cs, from)
  {
    hide Whole, HeaderOf, HeadersFrom;
    AllWholeAppend(bs, cs);
    if cs == [] {
      assert bs + cs == bs;
      NoneHeaders(from);
    } else {
      var n := |cs| - 1;
      HeadersAppend(bs, cs[..n], from);
      assert (bs + cs)[..|bs| + n] == bs + cs[..n];
      LastHeader(cs, from);
      LastHeader(bs + cs, from);
    }
  }

  lemma NoneHeaders(from: int)
    ensures HeadersFrom([], from) == []
  {
  }

  lemma LastHeader(bs: seq<Batch>, from: int)
    requires AllWhole(bs) && bs != []
    ensures var n := |bs| - 1;
            HeadersFrom(bs, from) == HeadersFrom(bs[..n], from) + if bs[n].base >= from then [HeaderOf(bs[n])] else []
  {
    hide HeaderOf;
  }

  lemma HeadersStep(log: Log, i: nat, from: int)
    requires i < |log| && forall k | 0 <= k < |log| :: AllWhole(log[k].batches)
    ensures HeadersOf(log, i + 1, from) == HeadersOf(log, i, from) + HeadersFrom(log[i].batches, from)
  {
    hide AllWhole, HeadersFrom;
    AllBatchesWhole(log[..i]);
    HeadersAppend(AllBatches(log[..i]), log[i].batches, from);
    assert log[..i + 1][..i] == log[..i];
  }

  lemma {:induction false} NoHeaders(bs: seq<Batch>, from: int)
    requires AllWhole(bs) && forall k | 0 <= k < |bs| :: bs[k].base < from
    ensures HeadersFrom(bs, from) == []
  {
    hide Whole, HeaderOf;
    if bs != [] {
      NoHeaders(bs[..|bs| - 1], from);
    }
  }

  /** Everything before the segment that holds `from` starts below it. */
  lemma SkippedHeaders(log: Log, i: nat, from: int)
    requires GapFree(log) && i < |log| && (i > 0 ==> log[i].base <= from)
    requires forall k | 0 <= k < |log| :: AllWhole(log[k].batches)
    ensures HeadersOf(log, i, from) == []
  {
    hide AllWhole, HeadersFrom;
    AllBatchesWhole(log[..i]);
    var bs := AllBatches(log[..i]);
    if i > 0 {
      PrefixGapFree(log, i);
      AllBatchesContiguous(log[..i]);
      assert LinkedAt(log, i);
      forall k | 0 <= k < |bs| ensures bs[k].base < from {
        OffsetsIncrease(LogStart(log), bs, k, |bs|);
        assert bs[k].base == OffsetAt(LogStart(log), bs, k);
      }
    }
    NoHeaders(bs, from);
  }

  class CommitLog {
    const maxBytes: int
    const indexInterval: int
    var segments: seq<Segment>
    var activeSegment: Segment
    var nextOffset: int
    var isClosed: bool
    ghost var owned: set<object>   // the segments and their parts

    ghost function View(): Log
      reads this, segments
    {
      ViewOf(segments)
    }

    ghost predicate Valid()
      reads this, owned
    {
      && this !in owned
      && 0 < maxBytes
      && segments != []
      && activeSegment == segments[|segments| - 1]
      && WellKept(segments, owned, maxBytes, indexInterval)
      && GapFree(View())
      && nextOffset == LogEnd(View())
    }

    /** No segment ends in a torn tail. */
    ghost predicate Intact()
      reads this, segments
    {
      TornOnlyAtEnd(segments, [])
    }

    constructor (loaded: seq<Segment>, next: int, maxBytes: int, indexInterval: int, ghost owned: set<object>)
      requires loaded != [] && maxBytes > 0
      requires WellKept(loaded, owned, maxBytes, indexInterval)
      requires GapFree(ViewOf(loaded)) && next == LogEnd(ViewOf(loaded))
      ensures Valid()
      ensures segments == loaded && nextOffset == next && !isClosed
    {
      hide WellKept, GapFree, Segment.Valid;
      this.maxBytes := maxBytes;
      this.indexInterval := indexInterval;
      segments := loaded;
      activeSegment := loaded[|loaded| - 1];
      nextOffset := next;
      isClosed := false;
      this.owned := owned;
    }

    /** The last segment that starts at or below the offset, by bisection; -1 when there is none. */
    method FindSegmentByOffset(offset: int) returns (result: int)
      requires Valid()
      ensures result == if SegmentOf(View(), offset) == |segments| then -1 else SegmentOf(View(), offset)
    {
      hide Segment.Valid, GapFree;
      ghost var log := View();
      var left, right := 0, |segments| - 1;
      result := -1;
      while left <= right
        invariant 0 <= left <= right + 1 <= |segments|
        invariant result == left - 1
        invariant left > 0 ==> log[left - 1].base <= offset
        invariant right + 1 < |segments| ==> offset < log[right + 1].base
      {
        var mid := (left + right) / 2;
        if segments[mid].baseOffset <= offset {
          result := mid;
          left := mid + 1;
        } else {
          right := mid - 1;
        }
      }
      if result >= 0 {
        SegmentOfIs(log, result, offset);
      } else {
        NoSegmentBelow(log, offset);
      }
    }

    /** Seals a full active segment by opening the next one where it ends. */
    method Roll()
      requires Valid() && Intact() && activeSegment.currentSize >= activeSegment.maxBytes
      modifies this
      ensures Valid() && Intact() && fresh(owned - old(owned))
      ensures View() == old(View()) + [Seg(old(nextOffset), [], [])]
      ensures nextOffset == old(nextOffset) == activeSegment.baseOffset && |activeSegment.logFile| == 0
      ensures isClosed == old(isClosed)
    {
      hide WellKept, GapFree, ViewOf, Segment.Valid, TornOnlyAtEnd, Torn, AllWhole, Flatten, Contiguous;
      var n := |segments| - 1;
      TornAtEnd(segments, []);
      WellKeptAt(segments, n, owned, maxBytes, indexInterval);
      SegmentParts(segments[n]);
      RollGapFree(View());
      FlattenEmpty();
      var base := activeSegment.NextOffset();
      var s := new Segment(base, [], 0, maxBytes, indexInterval, [], []);
      WellKeptOneMore(segments, s, owned, maxBytes, indexInterval);
      ViewOneMore(segments, s);
      segments := segments + [s];
      activeSegment := s;
      owned := owned + {s, s.index, s.index.mmap};
    }

    /** The data, once its base offset is patched to the next offset, is the batches `bs` with `count` records. */
    ghost predicate Appendable(data: seq<Byte>, count: int, bs: seq<Batch>)
      reads this
    {
      |data| >= 8 ==>
        && bs != [] && Flatten(bs) == Patch(data, nextOffset)
        && AllWhole(bs) && Contiguous(nextOffset, bs)
        && EndOffset(nextOffset, bs) == nextOffset + count
    }

    method AppendToActive(data: seq<Byte>, count: int, ghost bs: seq<Batch>) returns (ok: bool)
      requires Valid() && Intact() && Appendable(data, count, bs)
      requires nextOffset - activeSegment.baseOffset < 0x1_0000_0000 && |activeSegment.logFile| < 0x1_0000_0000
      modifies this, owned
      ensures Valid() && Intact() && isClosed == old(isClosed)
      ensures ok <==> |data| >= 8
      ensures !ok ==> View() == old(View())
      ensures ok ==> View() == old(View()[..|segments| - 1]) + [SegAppend(old(Active(View())), bs, indexInterval)]
      ensures ok ==> nextOffset == old(nextOffset) + count
    {
      hide WellKept, GapFree, ViewOf, TornOnlyAtEnd, Segment.Valid, AllWhole, Flatten, Contiguous, Patch, SegAppend;
      if |data| >= 8 {
        AppendActiveGapFree(View(), bs, indexInterval);
      }
      ok, owned := AppendToLast(segments, nextOffset, data, maxBytes, indexInterval, bs, owned);
      if ok {
        nextOffset := nextOffset + count;
      }
    }

    /**
     Assigns the next offset to the data and writes it, rolling a full segment
     first. Returns the offset, and the new segment's base when it rolled (the
     roll hook's argument).
     */
    method AppendRaw(data: seq<Byte>, count: int, ghost bs: seq<Batch>) returns (r: Result<int>, rolled: Option<int>)
      requires Valid() && Intact() && (!isClosed ==> Appendable(data, count, bs))
      requires maxBytes <= 0x1_0000_0000 && nextOffset - activeSegment.baseOffset < 0x1_0000_0000
      modifies this, owned
      ensures Valid() && Intact() && isClosed == old(isClosed)
      ensures r == if old(isClosed) || |data| < 8 then Err else Ok(old(nextOffset))
      ensures r.Ok? ==> View() == LogAppend(old(View()), bs, maxBytes, indexInterval)
      ensures r.Ok? ==> nextOffset == old(nextOffset) + count
      ensures r.Err? ==> nextOffset == old(nextOffset) && AllBatches(View()) == old(AllBatches(View()))
      ensures r.Ok? ==> AllBatches(View()) == old(AllBatches(View())) + bs
      ensures rolled == if r.Ok? && old(Active(View()).Size()) >= maxBytes then Some(old(nextOffset)) else None
      ensures r.Ok? ==> |segments| == old(|segments|) + if rolled.Some? then 1 else 0
      ensures r.Ok? ==>
                Active(View()).base == if rolled.Some? then old(nextOffset) else old(Active(View()).base)
    {
      hide WellKept, GapFree, ViewOf, TornOnlyAtEnd, Segment.Valid, AllWhole, Flatten, Contiguous, Patch;
      rolled := None;
      if isClosed {
        return Err, None;
      }
      var n := |segments| - 1;
      WellKeptAt(segments, n, owned, maxBytes, indexInterval);
      TornAtEnd(segments, []);
      SegmentParts(activeSegment);
      RollAddsNoBatch(View());
      var start := nextOffset;
      var full := activeSegment.currentSize >= activeSegment.maxBytes;
      if full {
        Roll();
      }
      var ok := AppendToActive(data, count, bs);
      if !ok {
        return Err, None;
      }
      AllBatchesAppend(old(View()), bs, maxBytes, indexInterval);
      return Ok(start), if full then Some(start) else None;
    }

    /** Visits the headers of all batches from an offset on, starting at the segment that holds it. */
    method WalkBatchHeadersFrom(from: int) returns (headers: seq<BatchHeader>)
      requires Valid()
      ensures AllWhole(AllBatches(View())) && headers == HeadersFrom(AllBatches(View()), from)
    {
      hide WellKept, GapFree, ViewOf, Segment.Valid, AllWhole, HeadersFrom;
      ghost var log := View();
      assert GapFree(log);
      forall i | 0 <= i < |log| ensures AllWhole(log[i].batches) {
        WellKeptAt(segments, i, owned, maxBytes, indexInterval);
        SegmentParts(segments[i]);
      }
      AllBatchesWhole(log);
      var startIdx := 0;
      var i := |segments| - 1;
      while i >= 0
        invariant -1 <= i < |segments| && startIdx == 0
      {
        if segments[i].baseOffset <= from {
          startIdx := i;
          break;
        }
        i := i - 1;
      }
      SkippedHeaders(log, startIdx, from);
      i := startIdx;
      headers := [];
      while i < |segments|
        invariant startIdx <= i <= |segments|
        invariant headers == HeadersOf(log, i, from)
      {
        WellKeptAt(segments, i, owned, maxBytes, indexInterval);
        var more := segments[i].WalkBatchHeaders(from);
        HeadersStep(log, i, from);
        headers := headers + more;
        i := i + 1;
      }
      assert log[..|log|] == log;
    }

    method FindRecords(fetchOffset: int, maxBytes: int, ghost torn: seq<Byte>) returns (r: Option<RecordsRegion>)
      requires Valid() && TornOnlyAtEnd(segments, torn)
      ensures GapFree(View()) && Torn(torn)
      ensures r.None? <==> isClosed || fetchOffset >= nextOffset || SegmentOf(View(), fetchOffset) == |segments|
      ensures r.Some? ==>
                var i := SegmentOf(View(), fetchOffset);
                var bs, (first, last) := View()[i].batches, Region(View()[i], fetchOffset, maxBytes);
                && r.value.leo == nextOffset
                && r.value.logStart == LogStart(View())
                && r.value.Spans(bs[first..last], ReachedTail(bs, first, maxBytes, TornAt(View(), i, torn)))
                && AllWhole(bs)
    {
      hide Segment.Valid, GapFree, Flatten, AllWhole, Region, SegmentOf, Target, ReachedTail, Promised, Torn;
      TornIsTorn(this, torn);
      if isClosed || fetchOffset >= nextOffset {
        return None;
      }
      var i := FindSegmentByOffset(fetchOffset);
      if i < 0 {
        return None;
      }
      var s := segments[i];
      SegmentParts(s);
      OffsetIsHeld(View(), fetchOffset);
      var found := s.FindRawRegion(fetchOffset, maxBytes);
      var (filePos, size) := found.value;
      r := Some(RecordsRegion(s.logFile, filePos, size, nextOffset, segments[0].baseOffset));
      RegionSpans(s, r.value, fetchOffset, maxBytes);
    }
  }

  lemma TornIsTorn(log: CommitLog, torn: seq<Byte>)
    requires log.Valid() && TornOnlyAtEnd(log.segments, torn)
    ensures Torn(torn) && GapFree(log.View())
  {
    hide Segment.Valid, GapFree;
    var s := log.segments[|log.segments| - 1];
    SegmentParts(s);
    SegmentTorn(s);
  }

  lemma SegmentTorn(s: Segment)
    requires s.Valid()
    ensures Torn(s.torn) && s.logFile == Flatten(s.batches) + s.torn
  {
  }

  /** The files of an open log are what opening it again expects: the directory of `log.View()`. */
  lemma FilesAreStored(log: CommitLog, dir: map<int, seq<Byte>>, torn: seq<Byte>)
    requires log.Valid() && TornOnlyAtEnd(log.segments, torn)
    requires dir.Keys == BasesFrom(log.View(), 0)
    requires forall i | 0 <= i < |log.segments| ::
               log.segments[i].baseOffset in dir && dir[log.segments[i].baseOffset] == log.segments[i].logFile
    ensures Stored(dir, log.View(), torn)
  {
    hide Segment.Valid, GapFree, Flatten, AllWhole, Torn, WellKept;
    TornIsTorn(log, torn);
    var view := log.View();
    forall i | 0 <= i < |view|
      ensures AllWhole(view[i].batches) && dir[view[i].base] == Flatten(view[i].batches) + TornAt(view, i, torn)
    {
      WellKeptAt(log.segments, i, log.owned, log.maxBytes, log.indexInterval);
      SegmentParts(log.segments[i]);
      SegmentTorn(log.segments[i]);
    }
    assert view[0].base in dir;
  }

  /** The segment found for an offset inside the log has a batch that holds it. */
  lemma OffsetIsHeld(log: Log, offset: int)
    requires GapFree(log) && offset < LogEnd(log) && SegmentOf(log, offset) < |log|
    ensures var s := log[SegmentOf(log, offset)]; Target(s.batches, offset) < |s.batches|
  {
    if offset >= LogStart(log) {
      SegmentCovers(log, offset);
      TargetContains(log[SegmentOf(log, offset)], offset);
    } else {
      NoSegmentBelow(log, offset);
    }
  }

  lemma RegionSpans(s: Segment, reg: RecordsRegion, offset: int, maxBytes: int)
    requires s.Valid() && IndexInRange(s.View())
    requires var bs, (first, last) := s.batches, Region(s.View(), offset, maxBytes);
             var found := Pos(bs, last) - Pos(bs, first);
             && reg.file == s.logFile && reg.fileOffset == Pos(bs, first)
             && reg.size == found + Promised(ReachedTail(bs, first, maxBytes, s.torn))
             && 0 <= reg.fileOffset <= reg.fileOffset + found <= |s.logFile|
             && s.logFile[reg.fileOffset..reg.fileOffset + found] == Flatten(bs[first..last])
    ensures var bs, (first, last) := s.batches, Region(s.View(), offset, maxBytes);
            reg.Spans(bs[first..last], ReachedTail(bs, first, maxBytes, s.torn))
  {
    hide Flatten, RegionEnd, RegionStart, Promised, Torn, AllWhole;
    var bs := s.batches;
    var (first, last) := Region(s.View(), offset, maxBytes);
    FlattenSlice(bs, first, last);
    if ReachesTail(bs, first, maxBytes, s.torn) {
      FlattenLength(bs);
      assert last == |bs|;
      assert s.logFile[Pos(bs, last)..] == s.torn;
    }
  }

  /**
   Opens a log from its directory. Whatever the indexes held, reopening finds
   the same segments and batches and recomputes the same next offset, and an
   incomplete trailing batch is ignored.
   */
  method Open(dir: map<int, seq<Byte>>, indexSize: nat, maxBytes: int, indexInterval: int,
              ghost log: Log, ghost torn: seq<Byte>)
    returns (c: CommitLog)
    requires Stored(dir, log, torn) && indexSize % 8 == 0 && maxBytes > 0
    ensures c.Valid() && fresh(c) && !c.isClosed
    ensures c.View() == Reopened(log) && TornOnlyAtEnd(c.segments, torn)
    ensures c.nextOffset == LogEnd(log)
  {
    assert GapFree(log) && log != [];
    hide Loaded, WellKept, GapFree, Torn, Stored, TornOnlyAtEnd, Segment.Valid;
    ReopenedGapFree(log);
    var loaded, owned := LoadSegments(dir, indexSize, maxBytes, indexInterval, log, torn);
    LoadedAll(loaded, owned, log, torn, maxBytes, indexInterval);
    var next := loaded[|loaded| - 1].NextOffset();
    c := new CommitLog(loaded, next, maxBytes, indexInterval, owned);
  }

  lemma ReopenedGapFree(log: Log)
    requires GapFree(log)
    ensures GapFree(Reopened(log)) && LogEnd(Reopened(log)) == LogEnd(log)
  {
    forall i | 0 < i < |log| ensures LinkedAt(Reopened(log), i) {
      assert LinkedAt(log, i);
    }
  }

  lemma {:induction false} NoSegmentBelow(log: Log, offset: int)
    requires GapFree(log) && offset < LogStart(log)
    ensures SegmentOf(log, offset) == |log|
    decreases |log|
  {
    var n := |log| - 1;
    if n > 0 {
      BasesIncrease(log, 0, n);
      PrefixGapFree(log, n);
      NoSegmentBelow(log[..n], offset);
    } else {
      assert log[..0] == [];
    }
  }
}
