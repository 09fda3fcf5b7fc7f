/**
 The fetch response: the simple encoding, the decoder, and the segmented
 encoding that leaves record bytes in their files.
 */
module FetchResponses {
  import opened Options
  import opened Bytes
  import opened Varints
  import opened Wire

  datatype Aborted = Aborted(producerId: int, firstOffset: int)

  /** An epoch or leader hint: two numbers sent as one tagged field. */
  datatype Hint = Hint(first: int, second: int)

  datatype PartitionResponse = PartitionResponse(
    index: int, errorCode: int, highWatermark: int, lastStableOffset: int, logStartOffset: int,
    aborted: seq<Aborted>, preferredReadReplica: int, records: Option<seq<Byte>>,
    divergingEpoch: Option<Hint>, currentLeader: Option<Hint>, snapshotId: Option<Hint>)

  datatype TopicResponse = TopicResponse(topicId: seq<Byte>, partitions: seq<PartitionResponse>)

  datatype NodeEndpoint = NodeEndpoint(nodeId: int, host: seq<Byte>, port: int, rack: Option<seq<Byte>>)

  datatype Response = Response(throttleTimeMs: int, errorCode: int, sessionId: int, topics: seq<TopicResponse>,
                               nodeEndpoints: seq<NodeEndpoint>)

  // ---- The simple encoding ----

  function AbortedBytes(a: Aborted): seq<Byte> {
    PutBE(8, a.producerId) + (PutBE(8, a.firstOffset) + TagsBytes([]))
  }

  function HintTag(key: nat, h: Option<Hint>, firstWidth: nat, secondWidth: nat): seq<Tag> {
    match h
    case None => []
    case Some(Hint(a, b)) => [Tag(key, PutBE(firstWidth, a) + PutBE(secondWidth, b))]
  }

  function PartitionTags(p: PartitionResponse): seq<Tag> {
    HintTag(0, p.divergingEpoch, 4, 8) + HintTag(1, p.currentLeader, 4, 4) + HintTag(2, p.snapshotId, 8, 4)
  }

  /** The fields after the aborted transactions. */
  function PartitionTail(p: PartitionResponse): seq<Byte> {
    PutBE(4, p.preferredReadReplica) + (CompactBytes(p.records) + TagsBytes(PartitionTags(p)))
  }

  function PartitionBytes(p: PartitionResponse): seq<Byte> {
    PutBE(4, p.index) + (PutBE(2, p.errorCode) + (PutBE(8, p.highWatermark) + (PutBE(8, p.lastStableOffset) +
      (PutBE(8, p.logStartOffset) + (CompactLen(|p.aborted|) + (Concat(p.aborted, AbortedBytes) + PartitionTail(p)))))))
  }

  function TopicBytes(t: TopicResponse): seq<Byte> {
    t.topicId + (CompactLen(|t.partitions|) + (Concat(t.partitions, PartitionBytes) + TagsBytes([])))
  }

  function EndpointBytes(n: NodeEndpoint): seq<Byte> {
    PutBE(4, n.nodeId) + (CompactBytes(Some(n.host)) + (PutBE(4, n.port) + (CompactBytes(n.rack) + TagsBytes([]))))
  }

  function ResponseTags(f: Response): seq<Tag> {
    if f.nodeEndpoints == [] then []
    else [Tag(0, CompactLen(|f.nodeEndpoints|) + Concat(f.nodeEndpoints, EndpointBytes))]
  }

  function ResponseBytes(f: Response): seq<Byte> {
    PutBE(4, f.throttleTimeMs) + (PutBE(2, f.errorCode) + (PutBE(4, f.sessionId) + (CompactLen(|f.topics|) +
      (Concat(f.topics, TopicBytes) + TagsBytes(ResponseTags(f))))))
  }

  // ---- The decoder ----

  function AbortedAt(s: seq<Byte>, pos: nat): Option<(Aborted, nat)> {
    var (producerId, p1) :- Int64At(s, pos);
    var (firstOffset, p2) :- Int64At(s, p1);
    var (_, p3) :- TagsAt(s, p2);
    Some((Aborted(producerId, firstOffset), p3))
  }

  function PartitionAt(s: seq<Byte>, pos: nat): Option<(PartitionResponse, nat)> {
    var (index, p1) :- Int32At(s, pos);
    var (errorCode, p2) :- Int16At(s, p1);
    var (highWatermark, p3) :- Int64At(s, p2);
    var (lastStableOffset, p4) :- Int64At(s, p3);
    var (logStartOffset, p5) :- Int64At(s, p4);
    var (n, p6) :- CompactLenAt(s, p5);
    var (aborted, p7) :- ManyAt(s, p6, if n < 0 then 0 else n, AbortedAt);
    var (preferredReadReplica, p8) :- Int32At(s, p7);
    var (records, p9) :- CompactRecordsAt(s, p8);
    var (_, p10) :- TagsAt(s, p9);
    Some((PartitionResponse(index, errorCode, highWatermark, lastStableOffset, logStartOffset, aborted,
                            preferredReadReplica, records, None, None, None), p10))
  }

  /** A null array of partitions or topics makes the decoder panic: no response comes back. */
  function TopicAt(s: seq<Byte>, pos: nat): Option<(TopicResponse, nat)> {
    var (topicId, p1) :- RawAt(s, pos, 16);
    var (n, p2) :- CompactLenAt(s, p1);
    if n < 0 then None
    else
      var (partitions, p3) :- ManyAt(s, p2, n, PartitionAt);
      var (_, p4) :- TagsAt(s, p3);
      Some((TopicResponse(topicId, partitions), p4))
  }

  function ResponseAt(s: seq<Byte>, pos: nat): Option<(Response, nat)> {
    var (throttleTimeMs, p1) :- Int32At(s, pos);
    var (errorCode, p2) :- Int16At(s, p1);
    var (sessionId, p3) :- Int32At(s, p2);
    var (n, p4) :- CompactLenAt(s, p3);
    if n < 0 then None
    else
      var (topics, p5) :- ManyAt(s, p4, n, TopicAt);
      var (_, p6) :- TagsAt(s, p5);
      Some((Response(throttleTimeMs, errorCode, sessionId, topics, []), p6))
  }

  // ---- Round trip ----

  predicate AbortedOk(a: Aborted) {
    In64(a.producerId) && In64(a.firstOffset)
  }

  /** The fields fit their Go types. */
  predicate PartitionOk(p: PartitionResponse) {
    && In32(p.index) && In16(p.errorCode) && In64(p.highWatermark) && In64(p.lastStableOffset) && In64(p.logStartOffset)
    && |p.aborted| < MAX_INT64 && (forall k | 0 <= k < |p.aborted| :: AbortedOk(p.aborted[k]))
    && In32(p.preferredReadReplica)
    && (p.records.Some? ==> |p.records.value| < MAX_INT64)
  }

  predicate TopicOk(t: TopicResponse) {
    && |t.topicId| == 16 && |t.partitions| < MAX_INT64
    && forall k | 0 <= k < |t.partitions| :: PartitionOk(t.partitions[k])
  }

  predicate ResponseOk(f: Response) {
    && In32(f.throttleTimeMs) && In16(f.errorCode) && In32(f.sessionId)
    && |f.topics| < MAX_INT64 && (forall k | 0 <= k < |f.topics| :: TopicOk(f.topics[k]))
    && (f.nodeEndpoints != [] ==> TagOk(ResponseTags(f)[0]))
  }

  function UntaggedPartition(p: PartitionResponse): PartitionResponse {
    p.(divergingEpoch := None, currentLeader := None, snapshotId := None)
  }

  function UntaggedTopic(t: TopicResponse): TopicResponse {
    t.(partitions := seq(|t.partitions|, k requires 0 <= k < |t.partitions| => UntaggedPartition(t.partitions[k])))
  }

  function Untagged(f: Response): Response {
    f.(topics := seq(|f.topics|, k requires 0 <= k < |f.topics| => UntaggedTopic(f.topics[k])), nodeEndpoints := [])
  }

  /** Reads the first of two pieces and leaves the second to be read. */
  lemma Peel<T(!new)>(s: seq<Byte>, pos: nat, x: seq<Byte>, y: seq<Byte>, item: (seq<Byte>, nat) -> Option<(T, nat)>,
                     v: T)
    requires At(s, pos, x + y) && Reads(item, x, v)
    ensures item(s, pos) == Some((v, pos + |x|)) && At(s, pos + |x|, y)
  {
    AtSplit(s, pos, x, y);
  }

  lemma AbortedReads(a: Aborted)
    requires AbortedOk(a)
    ensures Reads(AbortedAt, AbortedBytes(a), a)
  {
    hide PutBE, Int64At, TagsAt, TagsBytes, At;
    var tags := TagsBytes([]);
    forall s, pos: nat | At(s, pos, AbortedBytes(a)) ensures AbortedAt(s, pos) == Some((a, pos + |AbortedBytes(a)|)) {
      Int64Reads(a.producerId);
      Peel(s, pos, PutBE(8, a.producerId), PutBE(8, a.firstOffset) + tags, Int64At, a.producerId);
      Int64Reads(a.firstOffset);
      Peel(s, pos + 8, PutBE(8, a.firstOffset), tags, Int64At, a.firstOffset);
      TagsReads([]);
      assert Reads(TagsAt, tags, ());
    }
  }

  lemma PartitionTagsOk(p: PartitionResponse)
    ensures |PartitionTags(p)| <= 3 && forall k | 0 <= k < |PartitionTags(p)| :: TagOk(PartitionTags(p)[k])
  {
    hide PutBE;
  }

  lemma TailReads(s: seq<Byte>, pos: nat, p: PartitionResponse)
    requires PartitionOk(p) && At(s, pos, PartitionTail(p))
    ensures Int32At(s, pos) == Some((p.preferredReadReplica, pos + 4))
    ensures CompactRecordsAt(s, pos + 4) == Some((p.records, pos + 4 + |CompactBytes(p.records)|))
    ensures TagsAt(s, pos + 4 + |CompactBytes(p.records)|) == Some(((), pos + |PartitionTail(p)|))
  {
    hide PutBE, Int32At, CompactRecordsAt, TagsAt, TagsBytes, At, CompactBytes, PartitionTags;
    var tags := TagsBytes(PartitionTags(p));
    Int32Reads(p.preferredReadReplica);
    Peel(s, pos, PutBE(4, p.preferredReadReplica), CompactBytes(p.records) + tags, Int32At, p.preferredReadReplica);
    CompactRecordsReads(p.records);
    Peel(s, pos + 4, CompactBytes(p.records), tags, CompactRecordsAt, p.records);
    PartitionTagsOk(p);
    TagsReads(PartitionTags(p));
    assert Reads(TagsAt, tags, ());
  }

  lemma AbortedListReads(s: seq<Byte>, pos: nat, as_: seq<Aborted>)
    requires At(s, pos, Concat(as_, AbortedBytes)) && forall k | 0 <= k < |as_| :: AbortedOk(as_[k])
    ensures ManyAt(s, pos, |as_|, AbortedAt) == Some((as_, pos + |Concat(as_, AbortedBytes)|))
  {
    hide AbortedAt, AbortedBytes, AbortedOk, At;
    forall k | 0 <= k < |as_| ensures Reads(AbortedAt, AbortedBytes(as_[k]), as_[k]) {
      AbortedReads(as_[k]);
    }
    ManyReads(s, pos, as_, AbortedBytes, AbortedAt, as_);
  }

  lemma PartitionReadsAt(s: seq<Byte>, pos: nat, p: PartitionResponse)
    requires PartitionOk(p) && At(s, pos, PartitionBytes(p))
    ensures PartitionAt(s, pos) == Some((UntaggedPartition(p), pos + |PartitionBytes(p)|))
  {
    hide PutBE, Int16At, Int32At, Int64At, CompactLenAt, CompactRecordsAt, TagsAt, ManyAt, At, CompactLen, Concat,
         PartitionTail;
    var tail := PartitionTail(p);
    var f := Concat(p.aborted, AbortedBytes) + tail;
    var e := CompactLen(|p.aborted|) + f;
    var d := PutBE(8, p.logStartOffset) + e;
    var c := PutBE(8, p.lastStableOffset) + d;
    var b := PutBE(8, p.highWatermark) + c;
    var a := PutBE(2, p.errorCode) + b;
    Int32Reads(p.index);
    Peel(s, pos, PutBE(4, p.index), a, Int32At, p.index);
    Int16Reads(p.errorCode);
    Peel(s, pos + 4, PutBE(2, p.errorCode), b, Int16At, p.errorCode);
    Int64Reads(p.highWatermark);
    Peel(s, pos + 6, PutBE(8, p.highWatermark), c, Int64At, p.highWatermark);
    Int64Reads(p.lastStableOffset);
    Peel(s, pos + 14, PutBE(8, p.lastStableOffset), d, Int64At, p.lastStableOffset);
    Int64Reads(p.logStartOffset);
    Peel(s, pos + 22, PutBE(8, p.logStartOffset), e, Int64At, p.logStartOffset);
    CompactLenReads(|p.aborted|);
    Peel(s, pos + 30, CompactLen(|p.aborted|), f, CompactLenAt, |p.aborted|);
    var q := pos + 30 + |CompactLen(|p.aborted|)|;
    AtSplit(s, q, Concat(p.aborted, AbortedBytes), tail);
    AbortedListReads(s, q, p.aborted);
    TailReads(s, q + |Concat(p.aborted, AbortedBytes)|, p);
  }

  lemma PartitionReads(p: PartitionResponse)
    requires PartitionOk(p)
    ensures Reads(PartitionAt, PartitionBytes(p), UntaggedPartition(p))
  {
    hide PartitionAt, PartitionBytes, At, PartitionOk;
    forall s, pos: nat | At(s, pos, PartitionBytes(p))
      ensures PartitionAt(s, pos) == Some((UntaggedPartition(p), pos + |PartitionBytes(p)|))
    {
      PartitionReadsAt(s, pos, p);
    }
  }

  lemma RawReads(s: seq<Byte>, pos: nat, x: seq<Byte>, y: seq<Byte>)
    requires At(s, pos, x + y)
    ensures RawAt(s, pos, |x|) == Some((x, pos + |x|)) && At(s, pos + |x|, y)
  {
    AtSplit(s, pos, x, y);
  }

  lemma TopicReadsAt(s: seq<Byte>, pos: nat, t: TopicResponse)
    requires TopicOk(t) && At(s, pos, TopicBytes(t))
    ensures TopicAt(s, pos) == Some((UntaggedTopic(t), pos + |TopicBytes(t)|))
  {
    hide RawAt, CompactLenAt, TagsAt, ManyAt, At, CompactLen, Concat, TagsBytes, PartitionOk, PartitionAt,
         PartitionBytes,
         UntaggedPartition;
    var tags, ps := TagsBytes([]), Concat(t.partitions, PartitionBytes);
    RawReads(s, pos, t.topicId, CompactLen(|t.partitions|) + (ps + tags));
    CompactLenReads(|t.partitions|);
    Peel(s, pos + 16, CompactLen(|t.partitions|), ps + tags, CompactLenAt, |t.partitions|);
    var q := pos + 16 + |CompactLen(|t.partitions|)|;
    AtSplit(s, q, ps, tags);
    var untagged := UntaggedTopic(t).partitions;
    forall k | 0 <= k < |t.partitions| ensures Reads(PartitionAt, PartitionBytes(t.partitions[k]), untagged[k]) {
      PartitionReads(t.partitions[k]);
    }
    ManyReads(s, q, t.partitions, PartitionBytes, PartitionAt, untagged);
    TagsReads([]);
    assert Reads(TagsAt, tags, ());
  }

  lemma TopicReads(t: TopicResponse)
    requires TopicOk(t)
    ensures Reads(TopicAt, TopicBytes(t), UntaggedTopic(t))
  {
    hide TopicAt, TopicBytes, At, TopicOk, UntaggedTopic;
    forall s, pos: nat | At(s, pos, TopicBytes(t))
      ensures TopicAt(s, pos) == Some((UntaggedTopic(t), pos + |TopicBytes(t)|))
    {
      TopicReadsAt(s, pos, t);
    }
  }

  lemma TopicsRead(s: seq<Byte>, pos: nat, f: Response)
    requires ResponseOk(f) && At(s, pos, Concat(f.topics, TopicBytes))
    ensures ManyAt(s, pos, |f.topics|, TopicAt) == Some((Untagged(f).topics, pos + |Concat(f.topics, TopicBytes)|))
  {
    hide TopicAt, TopicBytes, At, TopicOk, UntaggedTopic, TagOk, ResponseTags;
    var untagged := Untagged(f).topics;
    forall k | 0 <= k < |f.topics| ensures Reads(TopicAt, TopicBytes(f.topics[k]), untagged[k]) {
      TopicReads(f.topics[k]);
    }
    ManyReads(s, pos, f.topics, TopicBytes, TopicAt, untagged);
  }

  /** Decoding an encoded response recovers every untagged field and consumes exactly its bytes. */
  lemma ResponseRoundTrip(s: seq<Byte>, pos: nat, f: Response)
    requires ResponseOk(f) && At(s, pos, ResponseBytes(f))
    ensures ResponseAt(s, pos) == Some((Untagged(f), pos + |ResponseBytes(f)|))
  {
    hide PutBE, Int16At, Int32At, CompactLenAt, TagsAt, ManyAt, At, CompactLen, Concat, TagsBytes, TopicOk,
         ResponseTags, TagOk,
         TopicBytes, TopicAt, UntaggedTopic;
    var tags, ts := TagsBytes(ResponseTags(f)), Concat(f.topics, TopicBytes);
    var c := CompactLen(|f.topics|) + (ts + tags);
    var b := PutBE(4, f.sessionId) + c;
    var a := PutBE(2, f.errorCode) + b;
    Int32Reads(f.throttleTimeMs);
    Peel(s, pos, PutBE(4, f.throttleTimeMs), a, Int32At, f.throttleTimeMs);
    Int16Reads(f.errorCode);
    Peel(s, pos + 4, PutBE(2, f.errorCode), b, Int16At, f.errorCode);
    Int32Reads(f.sessionId);
    Peel(s, pos + 6, PutBE(4, f.sessionId), c, Int32At, f.sessionId);
    CompactLenReads(|f.topics|);
    Peel(s, pos + 10, CompactLen(|f.topics|), ts + tags, CompactLenAt, |f.topics|);
    var q := pos + 10 + |CompactLen(|f.topics|)|;
    AtSplit(s, q, ts, tags);
    TopicsRead(s, q, f);
    ResponseTagsRead(f);
    assert Reads(TagsAt, tags, ());
  }

  lemma ResponseTagsRead(f: Response)
    requires f.nodeEndpoints != [] ==> TagOk(ResponseTags(f)[0])
    ensures Reads(TagsAt, TagsBytes(ResponseTags(f)), ())
  {
    hide TagOk, TagsAt, TagsBytes, Concat, CompactLen, Reads;
    TagsReads(ResponseTags(f));
  }

  // ---- Where the fields stand ----

  predicate AbortedFieldsAt(s: seq<Byte>, pos: nat, a: Aborted) {
    pos + 16 <= |s| && I64At(s, pos) == a.producerId && I64At(s, pos + 8) == a.firstOffset
  }

  predicate PartitionFieldsAt(s: seq<Byte>, pos: nat, p: PartitionResponse) {
    && pos + 30 <= |s|
    && I32At(s, pos) == p.index && I16At(s, pos + 4) == p.errorCode
    && I64At(s, pos + 6) == p.highWatermark && I64At(s, pos + 14) == p.lastStableOffset
    && I64At(s, pos + 22) == p.logStartOffset
  }

  predicate ResponseFieldsAt(s: seq<Byte>, pos: nat, f: Response) {
    && pos + 10 <= |s|
    && I32At(s, pos) == f.throttleTimeMs && I16At(s, pos + 4) == f.errorCode && I32At(s, pos + 6) == f.sessionId
  }

  /** The fields up to the records. */
  function PartitionHead(p: PartitionResponse): seq<Byte> {
    PutBE(4, p.index) + PutBE(2, p.errorCode) + PutBE(8, p.highWatermark) + PutBE(8, p.lastStableOffset) +
    PutBE(8, p.logStartOffset) + (CompactLen(|p.aborted|) + Concat(p.aborted, AbortedBytes)) +
    PutBE(4, p.preferredReadReplica)
  }

  lemma HeadFirst(p: PartitionResponse)
    ensures PartitionBytes(p) == PartitionHead(p) + (CompactBytes(p.records) + TagsBytes(PartitionTags(p)))
  {
    hide PutBE, CompactLen, TagsBytes, CompactBytes, Concat, PartitionTags;
  }

  lemma AbortedLayout(s: seq<Byte>, pos: nat, a: Aborted)
    requires At(s, pos, AbortedBytes(a)) && AbortedOk(a)
    ensures AbortedFieldsAt(s, pos, a) && |s| > pos + 16 && s[pos + 16] == 0
  {
    NoTags();
    hide PutBE, I64At, TagsBytes;
    AtSplit(s, pos, PutBE(8, a.producerId), PutBE(8, a.firstOffset) + TagsBytes([]));
    AtSplit(s, pos + 8, PutBE(8, a.firstOffset), TagsBytes([]));
    Read64(s, pos, a.producerId);
    Read64(s, pos + 8, a.firstOffset);
    assert s[pos + 16..pos + 17][0] == 0;
  }

  lemma {:induction false} AbortedPlaces(xs: seq<Aborted>, k: nat)
    ensures |Concat(xs, AbortedBytes)| == 17 * |xs|
    ensures k < |xs| ==> At(Concat(xs, AbortedBytes), 17 * k, AbortedBytes(xs[k]))
  {
    NoTags();
    hide PutBE, TagsBytes;
    if xs != [] {
      var n := |xs| - 1;
      AbortedPlaces(xs[..n], if k < n then k else 0);
      var all := Concat(xs, AbortedBytes);
      assert all == Concat(xs[..n], AbortedBytes) + AbortedBytes(xs[n]);
      if k == n {
        AtStart(Concat(xs[..n], AbortedBytes), AbortedBytes(xs[n]));
      } else if k < n {
        AtStart(Concat(xs[..n], AbortedBytes), AbortedBytes(xs[n]));
        AtInside(all, 0, Concat(xs[..n], AbortedBytes), 17 * k, AbortedBytes(xs[k]));
      }
    }
  }

  /**
   An encoded partition up to its records: five fixed fields, the number of
   aborted transactions plus one as a varint, 17 bytes for each of them, and
   the preferred replica.
   */
  lemma HeadLayout(s: seq<Byte>, pos: nat, p: PartitionResponse, k: nat)
    requires PartitionOk(p) && At(s, pos, PartitionHead(p))
    ensures PartitionFieldsAt(s, pos, p)
    ensures var q := pos + 30 + |UVarInt(|p.aborted| + 1)|;
            var t := q + 17 * |p.aborted|;
            && UVarIntAt(s, pos + 30) == Some((|p.aborted| + 1, q))
            && (k < |p.aborted| ==> AbortedFieldsAt(s, q + 17 * k, p.aborted[k]))
            && t + 4 <= |s| && I32At(s, t) == p.preferredReadReplica
            && |PartitionHead(p)| == t + 4 - pos
  {
    hide PutBE, I16At, I32At, I64At, At, UVarInt, UVarIntAt, Concat, AbortedBytes, AbortedFieldsAt;
    var len, all := UVarInt(|p.aborted| + 1), Concat(p.aborted, AbortedBytes);
    var e := len + (all + PutBE(4, p.preferredReadReplica));
    HeadFields(s, pos, p, e);
    AtSplit(s, pos + 30, len, all + PutBE(4, p.preferredReadReplica));
    UVarIntRoundTrip(s, pos + 30, |p.aborted| + 1);
    var q := pos + 30 + |len|;
    AtSplit(s, q, all, PutBE(4, p.preferredReadReplica));
    AbortedPlaces(p.aborted, k);
    if k < |p.aborted| {
      AtInside(s, q, all, 17 * k, AbortedBytes(p.aborted[k]));
      AbortedLayout(s, q + 17 * k, p.aborted[k]);
    }
    Read32(s, q + |all|, p.preferredReadReplica);
    AtFits(s, q + |all|, PutBE(4, p.preferredReadReplica));
  }

  lemma HeadFields(s: seq<Byte>, pos: nat, p: PartitionResponse, rest: seq<Byte>)
    requires PartitionOk(p) && At(s, pos, PartitionHead(p))
    requires rest == CompactLen(|p.aborted|) + (Concat(p.aborted, AbortedBytes) + PutBE(4, p.preferredReadReplica))
    ensures PartitionFieldsAt(s, pos, p) && At(s, pos + 30, rest) && |PartitionHead(p)| == 30 + |rest|
  {
    hide PutBE, I16At, I32At, I64At, At, CompactLen, Concat;
    var d := PutBE(8, p.logStartOffset) + rest;
    var c := PutBE(8, p.lastStableOffset) + d;
    var b := PutBE(8, p.highWatermark) + c;
    assert PartitionHead(p) == PutBE(4, p.index) + (PutBE(2, p.errorCode) + b);
    AtSplit(s, pos, PutBE(4, p.index), PutBE(2, p.errorCode) + b);
    AtSplit(s, pos + 4, PutBE(2, p.errorCode), b);
    AtSplit(s, pos + 6, PutBE(8, p.highWatermark), c);
    AtSplit(s, pos + 14, PutBE(8, p.lastStableOffset), d);
    AtSplit(s, pos + 22, PutBE(8, p.logStartOffset), rest);
    Read32(s, pos, p.index);
    Read16(s, pos + 4, p.errorCode);
    Read64(s, pos + 6, p.highWatermark);
    Read64(s, pos + 14, p.lastStableOffset);
    Read64(s, pos + 22, p.logStartOffset);
    AtFits(s, pos + 22, PutBE(8, p.logStartOffset));
  }

  /** A whole partition: after those come the records behind their length and the tagged fields. */
  lemma PartitionLayout(s: seq<Byte>, pos: nat, p: PartitionResponse, k: nat)
    requires PartitionOk(p) && At(s, pos, PartitionBytes(p))
    ensures PartitionFieldsAt(s, pos, p)
    ensures var q := pos + 30 + |UVarInt(|p.aborted| + 1)|;
            var t := q + 17 * |p.aborted|;
            && UVarIntAt(s, pos + 30) == Some((|p.aborted| + 1, q))
            && (k < |p.aborted| ==> AbortedFieldsAt(s, q + 17 * k, p.aborted[k]))
            && t + 4 <= |s| && I32At(s, t) == p.preferredReadReplica
            && At(s, t + 4, CompactBytes(p.records) + TagsBytes(PartitionTags(p)))
  {
    hide PartitionBytes, PartitionHead, PartitionFieldsAt, AbortedFieldsAt, UVarInt, UVarIntAt, I32At, At,
      CompactBytes, TagsBytes, PartitionTags;
    HeadFirst(p);
    AtSplit(s, pos, PartitionHead(p), CompactBytes(p.records) + TagsBytes(PartitionTags(p)));
    HeadLayout(s, pos, p, k);
  }

  /** One hint as a tagged field: its key, its size, its two numbers. */
  function HintBytes(key: Byte, h: Option<Hint>, firstWidth: nat, secondWidth: nat): seq<Byte>
    requires firstWidth + secondWidth < 128
  {
    match h
    case None => []
    case Some(Hint(a, b)) => [key, firstWidth + secondWidth] + (PutBE(firstWidth, a) + PutBE(secondWidth, b))
  }

  lemma HintLayout(key: nat, h: Option<Hint>, firstWidth: nat, secondWidth: nat)
    requires key < 128 && firstWidth + secondWidth < 128
    ensures Concat(HintTag(key, h, firstWidth, secondWidth), TagBytes) == HintBytes(key, h, firstWidth, secondWidth)
  {
    hide PutBE;
    if h.Some? {
      ConcatOne(Tag(key, PutBE(firstWidth, h.value.first) + PutBE(secondWidth, h.value.second)), TagBytes);
    }
  }

  lemma HintTags(p: PartitionResponse)
    ensures Concat(PartitionTags(p), TagBytes) ==
            Concat(HintTag(0, p.divergingEpoch, 4, 8), TagBytes) + Concat(HintTag(1, p.currentLeader, 4, 4), TagBytes) +
            Concat(HintTag(2, p.snapshotId, 8, 4), TagBytes)
  {
    hide HintTag, TagBytes;
    ConcatAppend(HintTag(0, p.divergingEpoch, 4, 8) + HintTag(1, p.currentLeader, 4, 4),
                 HintTag(2, p.snapshotId, 8, 4), TagBytes);
    ConcatAppend(HintTag(0, p.divergingEpoch, 4, 8), HintTag(1, p.currentLeader, 4, 4), TagBytes);
  }

  /** The hints of a partition: their number, then diverging epoch, current leader and snapshot id, each if present. */
  lemma PartitionTagsLayout(p: PartitionResponse)
    ensures TagsBytes(PartitionTags(p)) ==
            [(if p.divergingEpoch.Some? then 1 else 0) + (if p.currentLeader.Some? then 1 else 0) +
             (if p.snapshotId.Some? then 1 else 0)] +
            (HintBytes(0, p.divergingEpoch, 4, 8) + HintBytes(1, p.currentLeader, 4, 4) +
             HintBytes(2, p.snapshotId, 8, 4))
  {
    hide HintBytes, Concat, TagBytes;
    HintLayout(0, p.divergingEpoch, 4, 8);
    HintLayout(1, p.currentLeader, 4, 4);
    HintLayout(2, p.snapshotId, 8, 4);
    HintTags(p);
  }

  /** The header of an encoded response: throttle time, error, session and the number of topics plus one. */
  lemma ResponseLayout(s: seq<Byte>, pos: nat, f: Response)
    requires ResponseOk(f) && At(s, pos, ResponseBytes(f))
    ensures ResponseFieldsAt(s, pos, f)
    ensures var q := pos + 10 + |UVarInt(|f.topics| + 1)|;
            && UVarIntAt(s, pos + 10) == Some((|f.topics| + 1, q))
            && At(s, q, Concat(f.topics, TopicBytes) + TagsBytes(ResponseTags(f)))
  {
    hide PutBE, I16At, I32At, At, UVarInt, UVarIntAt, Concat, TagsBytes, ResponseTags;
    var rest := Concat(f.topics, TopicBytes) + TagsBytes(ResponseTags(f));
    var c := CompactLen(|f.topics|) + rest;
    var b := PutBE(4, f.sessionId) + c;
    AtSplit(s, pos, PutBE(4, f.throttleTimeMs), PutBE(2, f.errorCode) + b);
    AtSplit(s, pos + 4, PutBE(2, f.errorCode), b);
    AtSplit(s, pos + 6, PutBE(4, f.sessionId), c);
    AtSplit(s, pos + 10, CompactLen(|f.topics|), rest);
    Read32(s, pos, f.throttleTimeMs);
    Read16(s, pos + 4, f.errorCode);
    Read32(s, pos + 6, f.sessionId);
    UVarIntRoundTrip(s, pos + 10, |f.topics| + 1);
    AtFits(s, pos + 6, PutBE(4, f.sessionId));
  }

  /** An encoded topic: its id, the number of partitions plus one, the partitions, no tags. */
  lemma TopicLayout(t: TopicResponse)
    requires TopicOk(t)
    ensures var s := TopicBytes(t);
            && |s| >= 16 && s[..16] == t.topicId
            && UVarIntAt(s, 16) == Some((|t.partitions| + 1, 16 + |UVarInt(|t.partitions| + 1)|))
            && s[|s| - 1] == 0
            && s[16 + |UVarInt(|t.partitions| + 1)|..|s| - 1] == Concat(t.partitions, PartitionBytes)
  {
    NoTags();
    hide UVarInt, UVarIntAt, Concat, TagsBytes, PartitionOk;
    var s, len, ps := TopicBytes(t), UVarInt(|t.partitions| + 1), Concat(t.partitions, PartitionBytes);
    assert s == t.topicId + len + ps + [0];
    AtStart(t.topicId, len + (ps + [0]));
    AtSplit(s, 16, len, ps + [0]);
    UVarIntRoundTrip(s, 16, |t.partitions| + 1);
  }

  /** Where partition `j` of topic `i` starts, from the start of the response. */
  function PartitionStart(f: Response, i: nat, j: nat): nat
    requires i < |f.topics| && j <= |f.topics[i].partitions|
  {
    var t := f.topics[i];
    10 + |UVarInt(|f.topics| + 1)| + |Concat(f.topics[..i], TopicBytes)| +
    16 + |UVarInt(|t.partitions| + 1)| + |Concat(t.partitions[..j], PartitionBytes)|
  }

  lemma {:induction false} ConcatAt<T>(xs: seq<T>, i: nat, bytes: T -> seq<Byte>)
    requires i < |xs|
    ensures At(Concat(xs, bytes), |Concat(xs[..i], bytes)|, bytes(xs[i]))
  {
    var n := |xs| - 1;
    AtStart(Concat(xs[..n], bytes), bytes(xs[n]));
    if i < n {
      ConcatAt(xs[..n], i, bytes);
      assert xs[..n][..i] == xs[..i];
      AtInside(Concat(xs, bytes), 0, Concat(xs[..n], bytes), |Concat(xs[..i], bytes)|, bytes(xs[i]));
    }
  }

  /** Every partition of an encoded response stands at its start. */
  lemma PartitionInResponse(s: seq<Byte>, pos: nat, f: Response, i: nat, j: nat)
    requires ResponseOk(f) && At(s, pos, ResponseBytes(f)) && i < |f.topics| && j < |f.topics[i].partitions|
    ensures At(s, pos + PartitionStart(f, i, j), PartitionBytes(f.topics[i].partitions[j]))
  {
    hide At, UVarInt, UVarIntAt, Concat, TagsBytes, ResponseTags, ResponseFieldsAt, ResponseBytes, PartitionOk,
      PartitionBytes;
    ResponseLayout(s, pos, f);
    var t, topics := f.topics[i], Concat(f.topics, TopicBytes);
    var q := pos + 10 + |UVarInt(|f.topics| + 1)|;
    AtSplit(s, q, topics, TagsBytes(ResponseTags(f)));
    ConcatAt(f.topics, i, TopicBytes);
    var a := |Concat(f.topics[..i], TopicBytes)|;
    AtInside(s, q, topics, a, TopicBytes(t));
    var len, ps := UVarInt(|t.partitions| + 1), Concat(t.partitions, PartitionBytes);
    AtSplit(s, q + a, t.topicId, len + (ps + TagsBytes([])));
    AtSplit(s, q + a + 16, len, ps + TagsBytes([]));
    AtSplit(s, q + a + 16 + |len|, ps, TagsBytes([]));
    ConcatAt(t.partitions, j, PartitionBytes);
    AtInside(s, q + a + 16 + |len|, ps, |Concat(t.partitions[..j], PartitionBytes)|, PartitionBytes(t.partitions[j]));
  }

  /** The fixed fields of a response and of each of its partitions. */
  ghost predicate StandsAt(s: seq<Byte>, pos: nat, f: Response) {
    && ResponseFieldsAt(s, pos, f)
    && forall i, j | 0 <= i < |f.topics| && 0 <= j < |f.topics[i].partitions| ::
         PartitionFieldsAt(s, pos + PartitionStart(f, i, j), f.topics[i].partitions[j])
  }

  lemma ResponseStands(s: seq<Byte>, pos: nat, f: Response)
    requires ResponseOk(f) && At(s, pos, ResponseBytes(f))
    ensures StandsAt(s, pos, f)
  {
    hide At, ResponseBytes, ResponseFieldsAt, PartitionFieldsAt, PartitionStart, PartitionBytes, PartitionOk, UVarInt,
      UVarIntAt, TagsBytes, Concat;
    ResponseLayout(s, pos, f);
    forall i, j | 0 <= i < |f.topics| && 0 <= j < |f.topics[i].partitions|
      ensures PartitionFieldsAt(s, pos + PartitionStart(f, i, j), f.topics[i].partitions[j])
    {
      PartitionInResponse(s, pos, f, i, j);
      assert TopicOk(f.topics[i]);
      PartitionLayout(s, pos + PartitionStart(f, i, j), f.topics[i].partitions[j], 0);
    }
  }

  /** An endpoint: node id, host, port, rack and no tags; all of them travel in one tagged field with key 0. */
  lemma EndpointLayout(n: NodeEndpoint)
    requires In32(n.nodeId) && In32(n.port) && |n.host| < MAX_INT64
    ensures var s, q := EndpointBytes(n), 4 + |UVarInt(|n.host| + 1)|;
            var t := q + |n.host|;
            && |s| >= t + 5 && I32At(s, 0) == n.nodeId
            && UVarIntAt(s, 4) == Some((|n.host| + 1, q)) && s[q..t] == n.host
            && I32At(s, t) == n.port
            && s[t + 4..|s| - 1] == CompactBytes(n.rack) && s[|s| - 1] == 0
  {
    NoTags();
    hide PutBE, I32At, UVarInt, UVarIntAt, TagsBytes;
    var s, len, rack := EndpointBytes(n), UVarInt(|n.host| + 1), CompactBytes(n.rack);
    hide CompactBytes;
    var c := PutBE(4, n.port) + (rack + [0]);
    assert s == PutBE(4, n.nodeId) + (len + (n.host + c));
    var t := 4 + |len| + |n.host|;
    AtStart(PutBE(4, n.nodeId), len + (n.host + c));
    AtSplit(s, 4, len, n.host + c);
    AtSplit(s, 4 + |len|, n.host, c);
    AtSplit(s, t, PutBE(4, n.port), rack + [0]);
    AtSplit(s, t + 4, rack, [0]);
    Read32(s, 0, n.nodeId);
    Read32(s, t, n.port);
    UVarIntRoundTrip(s, 4, |n.host| + 1);
  }

  /** Each fixed field of a decoded partition comes from its place, whatever the bytes. */
  lemma DecodedPartition(s: seq<Byte>, pos: nat, p: PartitionResponse, end: nat)
    requires PartitionAt(s, pos) == Some((p, end))
    ensures PartitionFieldsAt(s, pos, p)
  {
    hide I16At, I32At, I64At, CompactLenAt, ManyAt, CompactRecordsAt, TagsAt;
  }

  lemma DecodedAborted(s: seq<Byte>, pos: nat, a: Aborted, end: nat)
    requires AbortedAt(s, pos) == Some((a, end))
    ensures AbortedFieldsAt(s, pos, a)
  {
    hide I64At, TagsAt;
  }

  lemma DecodedResponse(s: seq<Byte>, pos: nat, f: Response, end: nat)
    requires ResponseAt(s, pos) == Some((f, end))
    ensures ResponseFieldsAt(s, pos, f)
  {
    hide I16At, I32At, CompactLenAt, ManyAt, TagsAt;
  }

  lemma {:induction false} ManyPlaces<T>(s: seq<Byte>, pos: nat, n: nat, item: (seq<Byte>, nat) -> Option<(T, nat)>,
                                         k: nat) returns (q: nat, end: nat)
    requires ManyAt(s, pos, n, item).Some? && k < n
    ensures var xs := ManyAt(s, pos, n, item).value.0;
            |xs| == n && item(s, q) == Some((xs[k], end))
  {
    ManyLength(s, pos, n, item);
    ManyLength(s, pos, n - 1, item);
    if k == n - 1 {
      q := ManyAt(s, pos, n - 1, item).value.1;
      end := item(s, q).value.1;
    } else {
      q, end := ManyPlaces(s, pos, n - 1, item, k);
    }
  }

  lemma {:induction false} ManyLength<T>(s: seq<Byte>, pos: nat, n: nat, item: (seq<Byte>, nat) -> Option<(T, nat)>)
    ensures ManyAt(s, pos, n, item).Some? ==> |ManyAt(s, pos, n, item).value.0| == n
  {
    if n > 0 {
      ManyLength(s, pos, n - 1, item);
    }
  }

  /** Every partition of a decoded response was read at some place, its fixed fields from where they stand. */
  lemma DecodedPlaces(s: seq<Byte>, pos: nat, f: Response, end: nat, i: nat, j: nat) returns (q: nat)
    requires ResponseAt(s, pos) == Some((f, end)) && i < |f.topics| && j < |f.topics[i].partitions|
    ensures PartitionFieldsAt(s, q, f.topics[i].partitions[j])
  {
    hide I16At, I32At, CompactLenAt, ManyAt, TagsAt, PartitionAt, PartitionFieldsAt;
    var (n, p) := CompactLenAt(s, pos + 10).value;
    ManyLength(s, p, n, TopicAt);
    var at, atEnd := ManyPlaces(s, p, n, TopicAt, i);
    var (m, p') := CompactLenAt(s, at + 16).value;
    ManyLength(s, p', m, PartitionAt);
    var stop;
    q, stop := ManyPlaces(s, p', m, PartitionAt, j);
    DecodedPartition(s, q, f.topics[i].partitions[j], stop);
  }

  // ---- The simple encoder ----

  method EncodeAborted(w: Writer, aborted: seq<Aborted>)
    modifies w
    ensures w.buff == old(w.buff) + (CompactLen(|aborted|) + Concat(aborted, AbortedBytes))
  {
    hide PutBE, CompactLen, TagsBytes;
    w.WriteCompactArrayLen(|aborted|);
    for i := 0 to |aborted|
      invariant w.buff == old(w.buff) + (CompactLen(|aborted|) + Concat(aborted[..i], AbortedBytes))
    {
      ConcatStep(aborted, i, AbortedBytes);
      w.WriteInt64(aborted[i].producerId);
      w.WriteInt64(aborted[i].firstOffset);
      w.WriteEmptyTaggedFields();
    }
    assert aborted[..|aborted|] == aborted;
  }

  method EncodePartitionHead(w: Writer, p: PartitionResponse)
    modifies w
    ensures w.buff == old(w.buff) + PartitionHead(p)
  {
    hide PutBE, CompactLen, Concat;
    w.WriteInt32(p.index);
    w.WriteInt16(p.errorCode);
    w.WriteInt64(p.highWatermark);
    w.WriteInt64(p.lastStableOffset);
    w.WriteInt64(p.logStartOffset);
    EncodeAborted(w, p.aborted);
    w.WriteInt32(p.preferredReadReplica);
  }

  method EncodeHint(w: Writer, key: nat, h: Option<Hint>, firstWidth: nat, secondWidth: nat)
    modifies w
    ensures w.buff == old(w.buff) + Concat(HintTag(key, h, firstWidth, secondWidth), TagBytes)
  {
    hide PutBE, TagBytes;
    match h {
      case None =>
      case Some(Hint(a, b)) =>
        var tag := Tag(key, PutBE(firstWidth, a) + PutBE(secondWidth, b));
        ConcatOne(tag, TagBytes);
        w.WriteTag(tag);
    }
  }

  method EncodePartitionTags(w: Writer, p: PartitionResponse)
    modifies w
    ensures w.buff == old(w.buff) + TagsBytes(PartitionTags(p))
  {
    hide UVarInt, TagBytes, Concat, PutBE;
    var count := (if p.divergingEpoch.Some? then 1 else 0) + (if p.currentLeader.Some? then 1 else 0) +
                 (if p.snapshotId.Some? then 1 else 0);
    w.WriteUVarInt(count);
    EncodeHint(w, 0, p.divergingEpoch, 4, 8);
    EncodeHint(w, 1, p.currentLeader, 4, 4);
    EncodeHint(w, 2, p.snapshotId, 8, 4);
    HintTags(p);
  }

  method EncodePartition(w: Writer, p: PartitionResponse)
    modifies w
    ensures w.buff == old(w.buff) + PartitionBytes(p)
  {
    hide PartitionHead, PartitionBytes, TagsBytes, PartitionTags, CompactBytes;
    EncodePartitionHead(w, p);
    w.WriteCompactBytes(p.records);
    EncodePartitionTags(w, p);
    HeadFirst(p);
  }

  method EncodeTopic(w: Writer, t: TopicResponse)
    modifies w
    ensures w.buff == old(w.buff) + TopicBytes(t)
  {
    hide PartitionBytes, TagsBytes, CompactLen, TopicBytes, Concat;
    TopicHeadFirst(t);
    w.WriteRaw(t.topicId);
    w.WriteCompactArrayLen(|t.partitions|);
    ghost var head := t.topicId + CompactLen(|t.partitions|);
    ConcatNone(t.partitions, PartitionBytes);
    for i := 0 to |t.partitions|
      invariant w.buff == old(w.buff) + (head + Concat(t.partitions[..i], PartitionBytes))
    {
      ConcatStep(t.partitions, i, PartitionBytes);
      EncodePartition(w, t.partitions[i]);
    }
    assert t.partitions[..|t.partitions|] == t.partitions;
    w.WriteEmptyTaggedFields();
  }

  method EncodeResponseTags(w: Writer, f: Response)
    modifies w
    ensures w.buff == old(w.buff) + TagsBytes(ResponseTags(f))
  {
    hide CompactLen, TagBytes, EndpointBytes, UVarInt;
    if f.nodeEndpoints == [] {
      w.WriteEmptyTaggedFields();
      return;
    }
    w.WriteUVarInt(1);
    var tmp := new Writer();
    tmp.WriteCompactArrayLen(|f.nodeEndpoints|);
    for i := 0 to |f.nodeEndpoints|
      invariant fresh(tmp) && tmp != w && w.buff == old(w.buff) + UVarInt(1)
      invariant tmp.buff == CompactLen(|f.nodeEndpoints|) + Concat(f.nodeEndpoints[..i], EndpointBytes)
    {
      ConcatStep(f.nodeEndpoints, i, EndpointBytes);
      EncodeEndpoint(tmp, f.nodeEndpoints[i]);
    }
    assert f.nodeEndpoints[..|f.nodeEndpoints|] == f.nodeEndpoints;
    var tag := Tag(0, tmp.buff);
    ConcatOne(tag, TagBytes);
    w.WriteTag(tag);
  }

  method EncodeEndpoint(w: Writer, n: NodeEndpoint)
    modifies w
    ensures w.buff == old(w.buff) + EndpointBytes(n)
  {
    hide PutBE, CompactBytes, TagsBytes;
    w.WriteInt32(n.nodeId);
    w.WriteCompactBytes(Some(n.host));
    w.WriteInt32(n.port);
    w.WriteCompactBytes(n.rack);
    w.WriteEmptyTaggedFields();
  }

  function HeaderBytes(f: Response, topicsLen: nat): seq<Byte> {
    PutBE(4, f.throttleTimeMs) + PutBE(2, f.errorCode) + PutBE(4, f.sessionId) + CompactLen(topicsLen)
  }

  lemma HeaderFirst(f: Response)
    ensures ResponseBytes(f) == HeaderBytes(f, |f.topics|) + Concat(f.topics, TopicBytes) + TagsBytes(ResponseTags(f))
  {
    hide PutBE, CompactLen, TopicBytes, TagsBytes, ResponseTags, Concat;
  }

  method EncodeHeader(w: Writer, f: Response, topicsLen: nat)
    modifies w
    ensures w.buff == old(w.buff) + HeaderBytes(f, topicsLen)
  {
    hide PutBE, CompactLen;
    w.WriteInt32(f.throttleTimeMs);
    w.WriteInt16(f.errorCode);
    w.WriteInt32(f.sessionId);
    w.WriteCompactArrayLen(topicsLen);
  }

  method Encode(w: Writer, f: Response)
    modifies w
    ensures w.buff == old(w.buff) + ResponseBytes(f)
    ensures ResponseOk(f) ==> StandsAt(w.buff, |old(w.buff)|, f)
  {
    hide HeaderBytes, TopicBytes, TagsBytes, ResponseTags, ResponseBytes, StandsAt, ResponseOk;
    HeaderFirst(f);
    EncodeHeader(w, f, |f.topics|);
    ghost var head := w.buff;
    for i := 0 to |f.topics|
      invariant w.buff == head + Concat(f.topics[..i], TopicBytes)
    {
      ConcatStep(f.topics, i, TopicBytes);
      EncodeTopic(w, f.topics[i]);
    }
    assert f.topics[..|f.topics|] == f.topics;
    EncodeResponseTags(w, f);
    AtStart(old(w.buff), ResponseBytes(f));
    if ResponseOk(f) {
      ResponseStands(w.buff, |old(w.buff)|, f);
    }
  }

  // ---- The segmented encoder ----

  /** A piece of the response: bytes in memory, or a range of a log file. */
  datatype IoSegment =
    | Memory(data: seq<Byte>)
    | FileRange(file: seq<Byte>, offset: nat, size: nat)

  datatype Region = Region(file: seq<Byte>, offset: nat, size: nat)

  predicate RegionOk(r: Region) {
    r.offset + r.size <= |r.file|
  }

  /** What the connection receives for a piece. */
  function Sent(s: IoSegment): seq<Byte> {
    match s
    case Memory(data) => data
    case FileRange(file, offset, size) => if offset + size <= |file| then file[offset..offset + size] else []
  }

  /** A partition's answer and where its records lie. */
  datatype PartResult = PartResult(response: PartitionResponse, region: Option<Region>)

  datatype TopicResult = TopicResult(topicId: seq<Byte>, parts: seq<PartResult>)

  predicate PartOk(p: PartResult) {
    p.region.Some? ==> RegionOk(p.region.value)
  }

  /** The same answer with its records read into memory. */
  function InMemory(p: PartResult): PartitionResponse
    requires PartOk(p)
  {
    var records := match p.region
                   case None => None
                   case Some(r) => Some(r.file[r.offset..r.offset + r.size]);
    p.response.(records := records)
  }

  predicate TopicResultOk(t: TopicResult) {
    forall k | 0 <= k < |t.parts| :: PartOk(t.parts[k])
  }

  function TopicInMemory(t: TopicResult): TopicResponse
    requires TopicResultOk(t)
  {
    TopicResponse(t.topicId, seq(|t.parts|, k requires 0 <= k < |t.parts| => InMemory(t.parts[k])))
  }

  /** What has been produced so far: the finished pieces and the writer's contents. */
  function Produced(segs: seq<IoSegment>, pending: seq<Byte>): seq<Byte> {
    Concat(segs, Sent) + pending
  }

  lemma ProducedMore(segs: seq<IoSegment>, pending: seq<Byte>, x: seq<Byte>)
    ensures Produced(segs, pending + x) == Produced(segs, pending) + x
  {
  }

  lemma Regroup(a: seq<Byte>, b: seq<Byte>, c: seq<Byte>)
    ensures a + b + c == a + (b + c)
  {
  }

  /** Moves what the writer holds into a memory piece. */
  method Flush(w: Writer, segs: seq<IoSegment>) returns (out: seq<IoSegment>)
    modifies w
    ensures w.buff == [] && Concat(out, Sent) == Produced(segs, old(w.buff)) == Produced(out, [])
  {
    if |w.buff| == 0 {
      return segs;
    }
    out := segs + [Memory(w.buff)];
    ConcatAppend(segs, [Memory(w.buff)], Sent);
    ConcatOne(Memory(w.buff), Sent);
    w.Reset();
  }

  /** Everything before the record bytes, including their length; a negative size means no records. */
  method EncodePartitionPreRecords(w: Writer, p: PartitionResponse, recordsSize: int)
    modifies w
    ensures w.buff == old(w.buff) + (PartitionHead(p) + if recordsSize < 0 then UVarInt(0) else CompactLen(recordsSize))
    ensures PartitionOk(p) ==> PartitionFieldsAt(w.buff, |old(w.buff)|, p)
    ensures PartitionOk(p) ==>
              var t := |old(w.buff)| + 30 + |UVarInt(|p.aborted| + 1)| + 17 * |p.aborted|;
              && t + 4 <= |w.buff| && I32At(w.buff, t) == p.preferredReadReplica
              && w.buff[t + 4..] == UVarInt(if recordsSize < 0 then 0 else recordsSize + 1)
  {
    hide PartitionHead, UVarInt, PartitionOk, PartitionFieldsAt, I32At, UVarIntAt;
    EncodePartitionHead(w, p);
    ghost var size := UVarInt(if recordsSize < 0 then 0 else recordsSize + 1);
    AtStart(old(w.buff), PartitionHead(p) + size);
    AtSplit(old(w.buff) + (PartitionHead(p) + size), |old(w.buff)|, PartitionHead(p), size);
    if recordsSize < 0 {
      w.WriteUVarInt(0);
    } else {
      w.WriteUVarInt(recordsSize + 1);
    }
    if PartitionOk(p) {
      HeadLayout(w.buff, |old(w.buff)|, p, 0);
    }
  }

  /** The records of a partition: their length in the writer, their bytes as a file piece. */
  method BuildRecords(w: Writer, segs: seq<IoSegment>, p: PartResult) returns (out: seq<IoSegment>)
    requires PartOk(p)
    modifies w
    ensures Produced(out, w.buff) ==
            Produced(segs, old(w.buff)) + (PartitionHead(p.response) + CompactBytes(InMemory(p).records))
  {
    hide PartitionHead, UVarInt, Concat;
    match p.region {
      case Some(r) =>
        ghost var bytes := r.file[r.offset..r.offset + r.size];
        EncodePartitionPreRecords(w, p.response, r.size);
        ProducedMore(segs, old(w.buff), PartitionHead(p.response) + CompactLen(r.size));
        out := Flush(w, segs);
        var range := FileRange(r.file, r.offset, r.size);
        ConcatAppend(out, [range], Sent);
        ConcatOne(range, Sent);
        out := out + [range];
        Regroup(PartitionHead(p.response), CompactLen(r.size), bytes);
        Regroup(Produced(segs, old(w.buff)), PartitionHead(p.response) + CompactLen(r.size), bytes);
      case None =>
        out := segs;
        EncodePartitionPreRecords(w, p.response, -1);
        ProducedMore(segs, old(w.buff), PartitionHead(p.response) + UVarInt(0));
    }
  }

  method BuildPartition(w: Writer, segs: seq<IoSegment>, p: PartResult) returns (out: seq<IoSegment>)
    requires PartOk(p)
    modifies w
    ensures Produced(out, w.buff) == Produced(segs, old(w.buff)) + PartitionBytes(InMemory(p))
  {
    hide PartitionHead, PartitionBytes, TagsBytes, PartitionTags, CompactBytes, Produced, InMemory;
    HeadFirst(InMemory(p));
    SameHead(p);
    out := BuildRecords(w, segs, p);
    ghost var before := w.buff;
    EncodePartitionTags(w, p.response);
    ghost var head, records := PartitionHead(p.response), CompactBytes(InMemory(p).records);
    ghost var tags := TagsBytes(PartitionTags(p.response));
    ProducedMore(out, before, tags);
    Regroup(Produced(segs, old(w.buff)), head + records, tags);
    Regroup(head, records, tags);
  }

  lemma SameHead(p: PartResult)
    requires PartOk(p)
    ensures PartitionHead(InMemory(p)) == PartitionHead(p.response)
    ensures PartitionTags(InMemory(p)) == PartitionTags(p.response)
  {
    hide PutBE, CompactLen, Concat;
  }

  method BuildTopic(w: Writer, segs: seq<IoSegment>, t: TopicResult) returns (out: seq<IoSegment>)
    requires TopicResultOk(t)
    modifies w
    ensures Produced(out, w.buff) == Produced(segs, old(w.buff)) + TopicBytes(TopicInMemory(t))
  {
    hide PartitionBytes, TagsBytes, CompactLen, InMemory, Produced, TopicBytes, Concat;
    TopicHeadFirst(TopicInMemory(t));
    ghost var ps, start := TopicInMemory(t).partitions, Produced(segs, old(w.buff));
    ghost var head := t.topicId + CompactLen(|t.parts|);
    out := segs;
    w.WriteRaw(t.topicId);
    w.WriteCompactArrayLen(|t.parts|);
    Regroup(old(w.buff), t.topicId, CompactLen(|t.parts|));
    ProducedMore(segs, old(w.buff), head);
    ConcatNone(ps, PartitionBytes);
    for i := 0 to |t.parts|
      invariant Produced(out, w.buff) == start + (head + Concat(ps[..i], PartitionBytes))
    {
      ConcatStep(ps, i, PartitionBytes);
      out := BuildPartition(w, out, t.parts[i]);
    }
    assert ps[..|t.parts|] == ps;
    ProducedMore(out, w.buff, TagsBytes([]));
    w.WriteEmptyTaggedFields();
    Regroup(start, head + Concat(ps, PartitionBytes), TagsBytes([]));
  }

  lemma TopicHeadFirst(t: TopicResponse)
    ensures TopicBytes(t) ==
            t.topicId + CompactLen(|t.partitions|) + Concat(t.partitions, PartitionBytes) + TagsBytes([])
  {
    hide CompactLen, Concat, TagsBytes;
  }

  /** The pieces, sent one after another, are byte for byte the simple encoding with the records in place. */
  method BuildResponse(sessionId: int, results: seq<TopicResult>) returns (segs: seq<IoSegment>)
    requires forall k | 0 <= k < |results| :: TopicResultOk(results[k])
    ensures var topics := seq(|results|, k requires 0 <= k < |results| => TopicInMemory(results[k]));
            Concat(segs, Sent) == ResponseBytes(Response(0, 0, sessionId, topics, []))
  {
    hide HeaderBytes, TopicBytes, TagsBytes, ResponseTags, ResponseBytes, TopicInMemory, Sent, TopicResultOk, Produced;
    ghost var topics := seq(|results|, k requires 0 <= k < |results| => TopicInMemory(results[k]));
    ghost var resp := Response(0, 0, sessionId, topics, []);
    HeaderFirst(resp);
    segs := [];
    var w := new Writer();
    EncodeHeader(w, Response(0, 0, sessionId, [], []), |results|);
    SameHeader(resp, Response(0, 0, sessionId, [], []), |results|);
    NothingProduced(w.buff);
    for i := 0 to |results|
      invariant fresh(w)
      invariant Produced(segs, w.buff) == HeaderBytes(resp, |results|) + Concat(topics[..i], TopicBytes)
    {
      ConcatStep(topics, i, TopicBytes);
      segs := BuildTopic(w, segs, results[i]);
    }
    assert topics[..|results|] == topics;
    ProducedMore(segs, w.buff, TagsBytes(ResponseTags(resp)));
    EncodeResponseTags(w, Response(0, 0, sessionId, [], []));
    segs := Flush(w, segs);
  }

  lemma NothingProduced(pending: seq<Byte>)
    ensures Produced([], pending) == pending
  {
  }

  lemma SameHeader(f: Response, g: Response, n: nat)
    requires f.throttleTimeMs == g.throttleTimeMs && f.errorCode == g.errorCode && f.sessionId == g.sessionId
    requires f.nodeEndpoints == g.nodeEndpoints
    ensures HeaderBytes(f, n) == HeaderBytes(g, n) && ResponseTags(f) == ResponseTags(g)
  {
  }

  // ---- The decoder's code ----

  method DecodeAborted(r: Reader) returns (v: Option<Aborted>)
    modifies r
    ensures Follows(v, r.pos, AbortedAt(r.buff, old(r.pos)))
    ensures v.Some? ==> AbortedFieldsAt(r.buff, old(r.pos), v.value)
  {
    hide I64At, TagsAt;
    var producerId :- r.ReadInt64();
    var firstOffset :- r.ReadInt64();
    var _ :- r.ReadTaggedFields();
    return Some(Aborted(producerId, firstOffset));
  }

  method DecodeAbortedList(r: Reader, n: int) returns (v: Option<seq<Aborted>>)
    modifies r
    ensures Follows(v, r.pos, ManyAt(r.buff, old(r.pos), if n < 0 then 0 else n, AbortedAt))
  {
    hide AbortedAt;
    var list: seq<Aborted> := [];
    ghost var count: nat := if n < 0 then 0 else n;
    var i := 0;
    while i < n
      invariant 0 <= i <= count && ManyAt(r.buff, old(r.pos), i, AbortedAt) == Some((list, r.pos))
    {
      var a := DecodeAborted(r);
      if a.None? {
        ManyFails(r.buff, old(r.pos), i + 1, count, AbortedAt);
        return None;
      }
      list := list + [a.value];
      i := i + 1;
    }
    return Some(list);
  }

  method DecodePartition(r: Reader) returns (v: Option<PartitionResponse>)
    modifies r
    ensures Follows(v, r.pos, PartitionAt(r.buff, old(r.pos)))
    ensures v.Some? ==> PartitionFieldsAt(r.buff, old(r.pos), v.value)
  {
    hide Int16At, Int32At, Int64At, CompactLenAt, ManyAt, CompactRecordsAt, TagsAt, PartitionFieldsAt;
    var index :- r.ReadInt32();
    var errorCode :- r.ReadInt16();
    var highWatermark :- r.ReadInt64();
    var lastStableOffset :- r.ReadInt64();
    var logStartOffset :- r.ReadInt64();
    var n :- r.ReadCompactArrayLen();
    var aborted :- DecodeAbortedList(r, n);
    var preferredReadReplica :- r.ReadInt32();
    var records :- r.ReadCompactRecords();
    var _ :- r.ReadTaggedFields();
    v := Some(PartitionResponse(index, errorCode, highWatermark, lastStableOffset, logStartOffset, aborted,
                                preferredReadReplica, records, None, None, None));
    DecodedPartition(r.buff, old(r.pos), v.value, r.pos);
  }

  method DecodePartitions(r: Reader, n: nat) returns (v: Option<seq<PartitionResponse>>)
    modifies r
    ensures Follows(v, r.pos, ManyAt(r.buff, old(r.pos), n, PartitionAt))
  {
    hide PartitionAt;
    var list: seq<PartitionResponse> := [];
    for i := 0 to n
      invariant ManyAt(r.buff, old(r.pos), i, PartitionAt) == Some((list, r.pos))
    {
      var p := DecodePartition(r);
      if p.None? {
        ManyFails(r.buff, old(r.pos), i + 1, n, PartitionAt);
        return None;
      }
      list := list + [p.value];
    }
    return Some(list);
  }

  method DecodeTopic(r: Reader) returns (v: Option<TopicResponse>)
    modifies r
    ensures Follows(v, r.pos, TopicAt(r.buff, old(r.pos)))
  {
    hide RawAt, CompactLenAt, ManyAt, TagsAt;
    var topicId :- r.ReadRaw(16);
    var n :- r.ReadCompactArrayLen();
    if n < 0 {
      return None;
    }
    var partitions :- DecodePartitions(r, n);
    var _ :- r.ReadTaggedFields();
    return Some(TopicResponse(topicId, partitions));
  }

  method DecodeTopics(r: Reader, n: nat) returns (v: Option<seq<TopicResponse>>)
    modifies r
    ensures Follows(v, r.pos, ManyAt(r.buff, old(r.pos), n, TopicAt))
  {
    hide TopicAt;
    var list: seq<TopicResponse> := [];
    for i := 0 to n
      invariant ManyAt(r.buff, old(r.pos), i, TopicAt) == Some((list, r.pos))
    {
      var t := DecodeTopic(r);
      if t.None? {
        ManyFails(r.buff, old(r.pos), i + 1, n, TopicAt);
        return None;
      }
      list := list + [t.value];
    }
    return Some(list);
  }

  method Decode(r: Reader) returns (v: Option<Response>)
    modifies r
    ensures Follows(v, r.pos, ResponseAt(r.buff, old(r.pos)))
    ensures v.Some? ==> ResponseFieldsAt(r.buff, old(r.pos), v.value)
    ensures v.Some? ==>
              forall t, p | t in v.value.topics && p in t.partitions :: exists q: nat :: PartitionFieldsAt(r.buff, q, p)
  {
    hide I16At, I32At, CompactLenAt, ManyAt, TagsAt, PartitionFieldsAt;
    var throttleTimeMs :- r.ReadInt32();
    var errorCode :- r.ReadInt16();
    var sessionId :- r.ReadInt32();
    var n :- r.ReadCompactArrayLen();
    if n < 0 {
      return None;
    }
    var topics :- DecodeTopics(r, n);
    var _ :- r.ReadTaggedFields();
    v := Some(Response(throttleTimeMs, errorCode, sessionId, topics, []));
    forall t, p | t in topics && p in t.partitions ensures exists q: nat :: PartitionFieldsAt(r.buff, q, p) {
      var i :| 0 <= i < |topics| && topics[i] == t;
      var j :| 0 <= j < |t.partitions| && t.partitions[j] == p;
      var q := DecodedPlaces(r.buff, old(r.pos), v.value, r.pos, i, j);
    }
  }
}
