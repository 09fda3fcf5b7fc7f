/**
 One partition of a fetch response, from the log's bytes to the response: the
 region found and clipped is the one the segmented encoder sends.
 */
module FetchHandler {
  import opened Options
  import opened Bytes
  import opened RecordBatch
  import opened CommitLogView
  import opened CommitLogs
  import opened FetchPath
  import FetchResponses

  /** The log's torn tail is what a crash leaves of a batch being written at its end, or nothing. */
  ghost predicate TailOfCrash(log: CommitLog, torn: seq<Byte>)
    reads log, log.owned
    requires log.Valid()
  {
    torn == [] || CrashTail(torn, LogEnd(log.View()))
  }

  /**
   The partition's answer. With a limit within the log its region lies in the
   file, so the response carries exactly the bytes of the fetch: the batches
   below the limit, or nothing when a torn tail gets in the way.
   */
  method ServePartition(log: CommitLog, fetchOffset: int, maxBytes: int, maxVisible: int,
                        response: FetchResponses.PartitionResponse, ghost torn: seq<Byte>)
    returns (p: FetchResponses.PartResult)
    requires log.Valid() && TornOnlyAtEnd(log.segments, torn) && TailOfCrash(log, torn)
    requires maxVisible <= LogEnd(log.View())
    ensures GapFree(log.View()) && FetchResponses.PartOk(p)
    ensures FetchResponses.InMemory(p) == response.(records :=
              if log.isClosed then None else FetchBytes(log.View(), torn, fetchOffset, maxBytes, maxVisible))
    ensures !log.isClosed && (torn == [] || |torn| < HEADER_UP_TO_MAGIC || |torn| >= HEADER_SIZE) ==>
              FetchResponses.InMemory(p).records == BytesOf(Fetch(log.View(), fetchOffset, maxBytes, maxVisible))
  {
    hide CommitLog.Valid, TornOnlyAtEnd, FetchBytes, Fetch, TailInReach, ClipTail, CrashTail, GapFree;
    var region := FetchRecords(log, fetchOffset, maxBytes, maxVisible, torn);
    TailIsLeftOut(log.View(), torn, fetchOffset, maxBytes, maxVisible);
    if region.None? {
      return FetchResponses.PartResult(response, None);
    }
    var reg := region.value;
    assert reg.Rest()[..reg.size] == reg.file[reg.fileOffset..reg.fileOffset + reg.size];
    return FetchResponses.PartResult(response, Some(FetchResponses.Region(reg.file, reg.fileOffset, reg.size)));
  }

  lemma TailIsLeftOut(log: Log, torn: seq<Byte>, offset: int, maxBytes: int, maxVisible: int)
    requires GapFree(log) && (torn == [] || CrashTail(torn, LogEnd(log))) && maxVisible <= LogEnd(log)
    ensures !(TailInReach(log, torn, offset, maxBytes, maxVisible) && ClipTail(torn, maxVisible).SentAlong?)
    ensures torn == [] || |torn| < HEADER_UP_TO_MAGIC || |torn| >= HEADER_SIZE ==>
              FetchBytes(log, torn, offset, maxBytes, maxVisible) == BytesOf(Fetch(log, offset, maxBytes, maxVisible))
  {
    hide CrashTail, FetchBytes, Fetch, ClipTail, TailInReach;
    TornFetchExactly(log, torn, offset, maxBytes, maxVisible);
    if TailInReach(log, torn, offset, maxBytes, maxVisible) {
      TailInReachIsLong(log, torn, offset, maxBytes, maxVisible);
    }
    if torn != [] {
      CrashTailClips(torn, LogEnd(log), maxVisible);
      CrashFetchExactly(log, torn, offset, maxBytes, maxVisible);
    }
  }

  lemma TailInReachIsLong(log: Log, torn: seq<Byte>, offset: int, maxBytes: int, maxVisible: int)
    requires GapFree(log) && TailInReach(log, torn, offset, maxBytes, maxVisible)
    ensures |torn| >= HEADER_UP_TO_MAGIC
  {
    GapFreeIndexes(log);
    TailSeen(log, SegmentOf(log, offset), offset, maxBytes, torn);
  }
}
