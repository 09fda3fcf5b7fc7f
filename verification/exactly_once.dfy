/**
 Exactly-once append over runs of produce requests handled one after another,
 with no expiry and no failed append: the gate, the append and the recording.
 */
module ExactlyOnce {
  import opened Bytes
  import opened Idempotence

  /** A decoded batch: `pid < 0` is a producer without idempotence. */
  datatype Request = Request(pid: int, epoch: int, firstSeq: int, lastSeq: int)

  /** A batch as it stands in the log. */
  datatype Entry = Entry(pid: int, epoch: int, firstSeq: int, lastSeq: int, base: int) {
    function Count(): int { lastSeq - firstSeq + 1 }
  }

  datatype Broker = Broker(producers: Producers, log: seq<Entry>, next: int)

  datatype Answer =
    | Appended(base: int)
    | AlreadyThere(base: int)
    | Refused(code: int)

  predicate WellFormed(r: Request) {
    r.firstSeq <= r.lastSeq && (r.pid >= 0 ==> 0 <= r.firstSeq && r.lastSeq <= MAX_INT32)
  }

  function Append(s: Broker, r: Request): Broker {
    s.(log := s.log + [Entry(r.pid, r.epoch, r.firstSeq, r.lastSeq, s.next)],
       next := s.next + r.lastSeq - r.firstSeq + 1)
  }

  /** One produce request for one partition. */
  function Handle(s: Broker, r: Request, now: int): (Broker, Answer)
    requires AllRingsOk(s.producers)
  {
    if r.pid < 0 then (Append(s, r), Appended(s.next))
    else
      var gated := s.(producers := Forgotten(s.producers, r.pid, r.epoch, r.firstSeq, now));
      match VerdictOn(s.producers, r.pid, r.epoch, r.firstSeq, r.lastSeq, now)
      case Duplicate(base) => (gated, AlreadyThere(base))
      case Reject(code) => (gated, Refused(code))
      case Accept =>
        (Append(s, r).(producers := Recorded(gated.producers, r.pid, r.epoch, r.firstSeq, r.lastSeq, s.next, now)),
         Appended(s.next))
  }

  // ---- A producer's batches ----

  /** The logged batches of one producer, oldest first. */
  function Of(log: seq<Entry>, pid: int): seq<Entry> {
    if log == [] then []
    else
      var n := |log| - 1;
      Of(log[..n], pid) + if log[n].pid == pid then [log[n]] else []
  }

  lemma {:induction false} OfMembers(log: seq<Entry>, pid: int)
    ensures forall e :: e in Of(log, pid) <==> e in log && e.pid == pid
  {
    if log != [] {
      var n := |log| - 1;
      OfMembers(log[..n], pid);
      assert log == log[..n] + [log[n]];
    }
  }

  lemma OfAppend(log: seq<Entry>, e: Entry, pid: int)
    ensures Of(log + [e], pid) == if e.pid == pid then Of(log, pid) + [e] else Of(log, pid)
  {
    assert (log + [e])[..|log|] == log;
  }

  /** What may come next in a producer's history: the next sequence number, wrapping to 0, or a new epoch from 0. */
  predicate Follows(a: Entry, b: Entry) {
    if b.epoch == a.epoch then b.firstSeq == a.lastSeq + 1 || (b.firstSeq == 0 && a.lastSeq == MAX_INT32)
    else a.epoch < b.epoch && b.firstSeq == 0
  }

  predicate ChainedAt(h: seq<Entry>, i: int)
    requires 0 <= i < |h|
  {
    if i == 0 then h[0].firstSeq == 0 else Follows(h[i - 1], h[i])
  }

  predicate WellChained(h: seq<Entry>) {
    forall i | 0 <= i < |h| :: ChainedAt(h, i)
  }

  /** The most recent batches of one epoch. */
  function Chain(h: seq<Entry>): (c: seq<Entry>)
    ensures |c| <= |h|
  {
    if h == [] then []
    else
      var n := |h| - 1;
      if n > 0 && h[n - 1].epoch == h[n].epoch then Chain(h[..n]) + [h[n]] else [h[n]]
  }

  lemma {:induction false} ChainIsSuffix(h: seq<Entry>)
    ensures h[|h| - |Chain(h)|..] == Chain(h)
    ensures h != [] ==> Chain(h) != []
    ensures forall e | e in Chain(h) :: e in h && e.epoch == h[|h| - 1].epoch
  {
    if h != [] {
      var n := |h| - 1;
      if n > 0 && h[n - 1].epoch == h[n].epoch {
        ChainIsSuffix(h[..n]);
        assert h == h[..n] + [h[n]];
      }
    }
  }

  // ---- What the in-memory state knows ----

  function SlotOf(e: Entry): Slot {
    Slot(e.firstSeq, e.lastSeq, e.base, -1)
  }

  /** The scalar fields describe the batch `e`. */
  predicate LastIs(p: Producer, e: Entry) {
    p.lastSeq == e.lastSeq && p.lastEpoch == e.epoch && p.lastOffset == e.base + e.lastSeq - e.firstSeq
  }

  /** The ring holds the last five batches of the chain, each at its number modulo five. */
  predicate Tracks(p: Producer, chain: seq<Entry>) {
    var m := |chain|;
    && RingOk(p)
    && m > 0
    && LastIs(p, chain[m - 1])
    && p.ringHead == m % RING_SIZE
    && (forall k | 0 <= k < m && m - RING_SIZE <= k :: p.ring[k % RING_SIZE] == SlotOf(chain[k]))
    && (forall j | m <= j < RING_SIZE :: p.ring[j] == EMPTY_SLOT)
  }

  lemma NewTracks(e: Entry, now: int)
    ensures Tracks(RecordIn(NewProducer(e.epoch), e.epoch, e.firstSeq, e.lastSeq, e.base, now), [e])
  {
  }

  lemma RecordTracks(p: Producer, chain: seq<Entry>, e: Entry, now: int)
    requires Tracks(p, chain)
    ensures Tracks(RecordIn(p, e.epoch, e.firstSeq, e.lastSeq, e.base, now), chain + [e])
  {
    var m := |chain|;
    var q := RecordIn(p, e.epoch, e.firstSeq, e.lastSeq, e.base, now);
    NextHead(m);
    forall k | 0 <= k < m + 1 && m + 1 - RING_SIZE <= k ensures q.ring[k % RING_SIZE] == SlotOf((chain + [e])[k]) {
      if k < m {
        OtherSlots(k, m);
      }
    }
  }

  lemma NextHead(m: nat)
    ensures (m % RING_SIZE + 1) % RING_SIZE == (m + 1) % RING_SIZE
    ensures m < RING_SIZE ==> m % RING_SIZE == m
  {
  }

  lemma OtherSlots(k: nat, m: nat)
    requires k < m < k + RING_SIZE
    ensures k % RING_SIZE != m % RING_SIZE
  {
  }

  // ---- The invariant ----

  predicate SeqOk(e: Entry) {
    0 <= e.firstSeq <= e.lastSeq <= MAX_INT32
  }

  predicate PidOk(s: Broker, pid: int) {
    var h := Of(s.log, pid);
    && WellChained(h)
    && (pid in s.producers <==> h != [])
    && (h != [] ==> pid in s.producers && Tracks(s.producers[pid], Chain(h)))
  }

  ghost predicate Inv(s: Broker) {
    && AllRingsOk(s.producers)
    && (forall pid | pid >= 0 :: PidOk(s, pid))
    && (forall e | e in s.log && e.pid >= 0 :: SeqOk(e))
  }

  lemma ExtendChained(h: seq<Entry>, e: Entry)
    requires WellChained(h) && (if h == [] then e.firstSeq == 0 else Follows(h[|h| - 1], e))
    ensures WellChained(h + [e])
  {
    forall i | 0 <= i < |h| + 1 ensures ChainedAt(h + [e], i) {
      if i < |h| {
        assert ChainedAt(h, i);
      }
    }
  }

  /** The gate accepts exactly what continues the producer's history. */
  lemma AcceptedFollows(p: Producer, last: Entry, e: Entry)
    requires LastIs(p, last) && 0 <= e.firstSeq <= MAX_INT32 && 0 <= last.lastSeq <= MAX_INT32
    ensures Judge(p, e.epoch, e.firstSeq, e.lastSeq).Accept? <==> Follows(last, e)
  {
  }

  function EntryOf(s: Broker, r: Request): Entry {
    Entry(r.pid, r.epoch, r.firstSeq, r.lastSeq, s.next)
  }

  /** What an accepted batch is recorded into. */
  function RecordedOnto(ps: Producers, r: Request): Producer {
    if r.pid in ps && ps[r.pid].lastEpoch == r.epoch then ps[r.pid] else NewProducer(r.epoch)
  }

  /** An idempotent batch is either appended and recorded, or nothing changes. */
  lemma AllOrNothing(s: Broker, r: Request, now: int)
    requires AllRingsOk(s.producers) && r.pid >= 0 && !Expired(s.producers, r.pid, now)
    ensures var (s', answer) := Handle(s, r, now);
            match answer
            case Appended(base) =>
              && base == s.next
              && VerdictOn(s.producers, r.pid, r.epoch, r.firstSeq, r.lastSeq, now).Accept?
              && s' == Append(s, r).(producers := s.producers[r.pid := RecordIn(
                   RecordedOnto(s.producers, r), r.epoch, r.firstSeq, r.lastSeq, s.next, now)])
            case _ => s' == s
  {
    hide Lookup, RecordIn, NewProducer;
    var ps := s.producers;
    RecordedRing(ps, r, s.next, now);
    var p := RecordIn(RecordedOnto(ps, r), r.epoch, r.firstSeq, r.lastSeq, s.next, now);
    assert (ps - {r.pid})[r.pid := p] == ps[r.pid := p];
  }

  /** The history and the ring of an accepted batch's producer. */
  lemma AcceptKeeps(ps: Producers, h: seq<Entry>, r: Request, e: Entry, now: int)
    requires WellFormed(r) && r.pid >= 0 && !Expired(ps, r.pid, now)
    requires r == Request(e.pid, e.epoch, e.firstSeq, e.lastSeq)
    requires VerdictOn(ps, r.pid, r.epoch, r.firstSeq, r.lastSeq, now).Accept?
    requires WellChained(h) && (r.pid in ps <==> h != [])
    requires h != [] ==> Tracks(ps[r.pid], Chain(h)) && 0 <= h[|h| - 1].lastSeq <= MAX_INT32
    ensures WellChained(h + [e])
    ensures RingOk(RecordedOnto(ps, r))
    ensures Tracks(RecordIn(RecordedOnto(ps, r), e.epoch, e.firstSeq, e.lastSeq, e.base, now), Chain(h + [e]))
  {
    hide Lookup, Tracks, WellChained, Chain, RecordIn;
    ChainIsSuffix(h);
    if h != [] {
      TracksLast(ps[r.pid], Chain(h));
      AcceptedFollows(ps[r.pid], h[|h| - 1], e);
      if r.epoch == h[|h| - 1].epoch {
        RecordTracks(ps[r.pid], Chain(h), e, now);
      }
    }
    NewTracks(e, now);
    ChainGrows(h, e);
    ExtendChained(h, e);
  }

  lemma TracksLast(p: Producer, chain: seq<Entry>)
    requires Tracks(p, chain)
    ensures chain != [] && LastIs(p, chain[|chain| - 1]) && RingOk(p)
  {
  }

  lemma ChainGrows(h: seq<Entry>, e: Entry)
    ensures Chain(h + [e]) == if h != [] && h[|h| - 1].epoch == e.epoch then Chain(h) + [e] else [e]
  {
    assert (h + [e])[..|h|] == h;
  }

  lemma LastInRange(s: Broker, pid: int)
    requires Inv(s) && pid >= 0 && Of(s.log, pid) != []
    ensures var h := Of(s.log, pid); 0 <= h[|h| - 1].lastSeq <= MAX_INT32
  {
    HistoryInRange(s, pid, |Of(s.log, pid)| - 1);
  }

  lemma AppendedKeeps(s: Broker, r: Request, now: int, pid: int)
    requires Inv(s) && WellFormed(r) && r.pid >= 0 && pid >= 0 && !Expired(s.producers, r.pid, now)
    requires Handle(s, r, now).1.Appended?
    ensures PidOk(Handle(s, r, now).0, pid)
  {
    hide Handle, Of, Tracks, WellChained, Chain, RecordIn, AllRingsOk, VerdictOn, RecordedOnto;
    var e, h := EntryOf(s, r), Of(s.log, pid);
    AllOrNothing(s, r, now);
    OfAppend(s.log, e, pid);
    assert PidOk(s, pid);
    if pid == r.pid {
      if h != [] {
        LastInRange(s, pid);
      }
      AcceptKeeps(s.producers, h, r, e, now);
    }
  }

  lemma HandleKeeps(s: Broker, r: Request, now: int)
    requires Inv(s) && WellFormed(r) && !Expired(s.producers, r.pid, now)
    ensures Inv(Handle(s, r, now).0)
  {
    hide Handle, PidOk, RecordIn, VerdictOn, RecordedOnto;
    var s' := Handle(s, r, now).0;
    if r.pid < 0 {
      PlainAppend(s, r, now);
    } else {
      AllOrNothing(s, r, now);
      RecordedRing(s.producers, r, s.next, now);
      forall pid | pid >= 0 ensures PidOk(s', pid) {
        if s' != s {
          AppendedKeeps(s, r, now, pid);
        }
      }
    }
  }

  lemma RecordedRing(ps: Producers, r: Request, base: int, now: int)
    requires AllRingsOk(ps)
    ensures RingOk(RecordedOnto(ps, r))
    ensures RingOk(RecordIn(RecordedOnto(ps, r), r.epoch, r.firstSeq, r.lastSeq, base, now))
  {
  }

  lemma PlainAppend(s: Broker, r: Request, now: int)
    requires Inv(s) && r.pid < 0
    ensures Inv(Handle(s, r, now).0)
  {
    hide Of, Tracks, WellChained, Chain;
    var s' := Handle(s, r, now).0;
    forall pid | pid >= 0 ensures PidOk(s', pid) {
      assert PidOk(s, pid);
      OfAppend(s.log, EntryOf(s, r), pid);
    }
  }

  // ---- Runs ----

  ghost predicate IsRun(states: seq<Broker>, requests: seq<Request>, times: seq<int>) {
    && |states| == |requests| + 1 && |times| == |requests|
    && states[0] == Broker(map[], [], 0)
    && forall i | 0 <= i < |requests| ::
         && WellFormed(requests[i])
         && AllRingsOk(states[i].producers)
         && !Expired(states[i].producers, requests[i].pid, times[i])
         && states[i + 1] == Handle(states[i], requests[i], times[i]).0
  }

  lemma {:induction false} RunKeeps(states: seq<Broker>, requests: seq<Request>, times: seq<int>, i: nat)
    requires IsRun(states, requests, times) && i < |states|
    ensures Inv(states[i])
  {
    hide Handle, WellFormed;
    if i > 0 {
      RunKeeps(states, requests, times, i - 1);
      HandleKeeps(states[i - 1], requests[i - 1], times[i - 1]);
    }
  }

  /**
   In every run each producer's logged batches have non-decreasing epochs, each
   epoch starts at sequence 0, and within an epoch every batch starts right
   after the one before it (at 0 after the largest sequence number).
   */
  lemma ExactlyOnceChains(states: seq<Broker>, requests: seq<Request>, times: seq<int>, i: nat, pid: nat)
    requires IsRun(states, requests, times) && i < |states|
    ensures WellChained(Of(states[i].log, pid))
  {
    RunKeeps(states, requests, times, i);
    assert PidOk(states[i], pid);
  }

  predicate Continues(h: seq<Entry>, e: Entry) {
    if h == [] then e.firstSeq == 0 else Follows(h[|h| - 1], e)
  }

  /** A batch is appended if and only if it continues its producer's logged history. */
  lemma AppendedExactly(s: Broker, r: Request, now: int)
    requires Inv(s) && WellFormed(r) && r.pid >= 0 && !Expired(s.producers, r.pid, now)
    ensures var h := Of(s.log, r.pid);
            var (s', answer) := Handle(s, r, now);
            && (answer.Appended? <==> Continues(h, EntryOf(s, r)))
            && Of(s'.log, r.pid) == if answer.Appended? then h + [EntryOf(s, r)] else h
  {
    hide Of, Tracks, WellChained, Chain, RecordIn, Judge;
    var h := Of(s.log, r.pid);
    assert PidOk(s, r.pid);
    AllOrNothing(s, r, now);
    OfAppend(s.log, EntryOf(s, r), r.pid);
    if h != [] {
      LastInRange(s, r.pid);
      ChainIsSuffix(h);
      TracksLast(s.producers[r.pid], Chain(h));
      AcceptedFollows(s.producers[r.pid], h[|h| - 1], EntryOf(s, r));
    }
  }

  // ---- The window of the last five ----

  predicate InWindow(chain: seq<Entry>, k: int) {
    0 <= k < |chain| && |chain| - RING_SIZE <= k
  }

  /** Each used slot holds one of the last five batches. */
  lemma SlotIsInWindow(p: Producer, chain: seq<Entry>, j: nat) returns (k: nat)
    requires Tracks(p, chain) && j < RING_SIZE && p.ring[j].firstSeq >= 0
    ensures InWindow(chain, k) && p.ring[j] == SlotOf(chain[k])
  {
    var m := |chain|;
    k := m - 1 - (m - 1 - j) % RING_SIZE;
    SameResidue(m - 1, j);
  }

  lemma SameResidue(n: int, j: int)
    requires 0 <= j < RING_SIZE
    ensures (n - (n - j) % RING_SIZE) % RING_SIZE == j
  {
  }

  predicate Answers(e: Entry, r: Request, base: int) {
    e == Entry(r.pid, r.epoch, r.firstSeq, r.lastSeq, base)
  }

  /** A batch answered as a duplicate is in the log, byte position and all, among its producer's last five. */
  lemma DuplicateIsGenuine(s: Broker, r: Request, now: int) returns (k: nat)
    requires Inv(s) && WellFormed(r) && !Expired(s.producers, r.pid, now) && Handle(s, r, now).1.AlreadyThere?
    ensures var chain := Chain(Of(s.log, r.pid));
            InWindow(chain, k) && Answers(chain[k], r, Handle(s, r, now).1.base) && chain[k] in s.log
  {
    hide Of, Tracks, WellChained, Chain, RecordIn;
    var h := Of(s.log, r.pid);
    assert PidOk(s, r.pid);
    var p := s.producers[r.pid];
    TracksLast(p, Chain(h));
    ChainIsSuffix(h);
    OfMembers(s.log, r.pid);
    var j := Lookup(p.ring, r.firstSeq, r.lastSeq);
    k := SlotIsInWindow(p, Chain(h), j);
    assert Chain(h)[k] in Chain(h);
  }

  // ---- No two batches of the window look alike ----

  const SEQ_MODULUS := 0x8000_0000
  const SMALL_BATCH := 0x2000_0000

  predicate OneEpoch(c: seq<Entry>) {
    && (forall i | 0 <= i < |c| :: SeqOk(c[i]))
    && (forall i | 0 < i < |c| :: ContinuesAt(c, i))
  }

  predicate ContinuesAt(c: seq<Entry>, i: int)
    requires 0 < i < |c|
  {
    c[i].firstSeq == (c[i - 1].lastSeq + 1) % SEQ_MODULUS
  }

  function Records(c: seq<Entry>, i: nat, j: nat): int
    requires i <= j <= |c|
  {
    if i == j then 0 else Records(c, i, j - 1) + c[j - 1].Count()
  }

  /** Sequence numbers count records, modulo 2^31. */
  lemma {:induction false} SequenceCounts(c: seq<Entry>, i: nat, j: nat)
    requires OneEpoch(c) && i <= j < |c|
    ensures (c[i].firstSeq + Records(c, i, j)) % SEQ_MODULUS == c[j].firstSeq
    decreases j
  {
    if i < j {
      SequenceCounts(c, i, j - 1);
      assert ContinuesAt(c, j);
      var x := c[i].firstSeq + Records(c, i, j - 1);
      assert c[j - 1].lastSeq + 1 == x % SEQ_MODULUS + c[j - 1].Count();
    }
  }

  lemma {:induction false} RecordsBound(c: seq<Entry>, i: nat, j: nat, limit: nat)
    requires i <= j <= |c| && forall k | i <= k < j :: 1 <= c[k].Count() <= limit
    ensures j - i <= Records(c, i, j) <= (j - i) * limit
    decreases j
  {
    if i < j {
      RecordsBound(c, i, j - 1, limit);
      assert (j - i) * limit == (j - 1 - i) * limit + limit;
    }
  }

  predicate SmallBatches(c: seq<Entry>) {
    forall k | 0 <= k < |c| :: c[k].Count() < SMALL_BATCH
  }

  lemma {:induction false} WindowIsDistinct(c: seq<Entry>, i: nat, j: nat)
    requires OneEpoch(c) && SmallBatches(c) && InWindow(c, i) && i < j < |c|
    ensures c[i].firstSeq != c[j].firstSeq
  {
    SequenceCounts(c, i, j);
    RecordsBound(c, i, j, SMALL_BATCH - 1);
  }

  lemma HistoryInRange(s: Broker, pid: int, i: nat)
    requires Inv(s) && pid >= 0 && i < |Of(s.log, pid)|
    ensures SeqOk(Of(s.log, pid)[i])
  {
    hide Of, PidOk;
    OfMembers(s.log, pid);
    assert Of(s.log, pid)[i] in Of(s.log, pid);
  }

  lemma ChainIsOneEpoch(s: Broker, pid: int)
    requires Inv(s) && pid >= 0
    ensures OneEpoch(Chain(Of(s.log, pid)))
  {
    hide *;
    var h := Of(s.log, pid);
    HistoryIsChained(s, pid);
    forall i | 0 <= i < |h| ensures SeqOk(h[i]) {
      HistoryInRange(s, pid, i);
    }
    SuffixIsOneEpoch(h);
  }

  lemma HistoryIsChained(s: Broker, pid: int)
    requires Inv(s) && pid >= 0
    ensures WellChained(Of(s.log, pid))
  {
    assert PidOk(s, pid);
  }

  lemma SuffixIsOneEpoch(h: seq<Entry>)
    requires WellChained(h) && forall i | 0 <= i < |h| :: SeqOk(h[i])
    ensures OneEpoch(Chain(h))
  {
    hide Chain, WellChained, ContinuesAt;
    var c := Chain(h);
    ChainIsSuffix(h);
    forall i | 0 <= i < |c| ensures SeqOk(c[i]) {
      assert c[i] == h[|h| - |c| + i];
    }
    forall i | 0 < i < |c| ensures ContinuesAt(c, i) {
      assert c[i] in c && c[i - 1] in c;
      ChainContinues(h, c, i);
    }
  }

  lemma ChainContinues(h: seq<Entry>, c: seq<Entry>, i: nat)
    requires WellChained(h) && |c| <= |h| && h[|h| - |c|..] == c && 0 < i < |c|
    requires c[i].epoch == c[i - 1].epoch && 0 <= c[i - 1].lastSeq <= MAX_INT32 && 0 <= c[i].firstSeq <= MAX_INT32
    ensures ContinuesAt(c, i)
  {
    var n := |h| - |c| + i;
    assert ChainedAt(h, n);
    SameEpochContinues(c[i - 1], c[i]);
  }

  lemma SameEpochContinues(a: Entry, b: Entry)
    requires Follows(a, b) && a.epoch == b.epoch && 0 <= a.lastSeq <= MAX_INT32 && 0 <= b.firstSeq <= MAX_INT32
    ensures b.firstSeq == (a.lastSeq + 1) % SEQ_MODULUS
  {
  }

  /**
   A retry of one of the last five batches gets that batch's offset back
   exactly when its first sequence number is not above the last one recorded
   and the last one recorded is not the largest there is.
   */
  lemma RetryAnswered(s: Broker, r: Request, now: int, k: nat)
    requires Inv(s) && r.pid >= 0 && !Expired(s.producers, r.pid, now)
    requires var c := Chain(Of(s.log, r.pid));
             InWindow(c, k) && SmallBatches(c) && Answers(c[k], r, c[k].base)
    ensures var c := Chain(Of(s.log, r.pid));
            var last := c[|c| - 1].lastSeq;
            var answer := Handle(s, r, now).1;
            && (answer.AlreadyThere? <==> last < MAX_INT32 && r.firstSeq <= last)
            && (answer.AlreadyThere? ==> answer.base == c[k].base)
            && (answer.Appended? <==> r.firstSeq == (last + 1) % SEQ_MODULUS)
  {
    hide Of, Tracks, WellChained, Chain, RecordIn, Records;
    var h := Of(s.log, r.pid);
    var c := Chain(h);
    assert PidOk(s, r.pid);
    ChainIsOneEpoch(s, r.pid);
    ChainIsSuffix(h);
    assert c[k] in c && c[|c| - 1] in c;
    var p := s.producers[r.pid];
    TracksLast(p, c);
    InRing(p, c, k);
    var j := Lookup(p.ring, r.firstSeq, r.lastSeq);
    if j < RING_SIZE {
      var i := SlotIsInWindow(p, c, j);
      if i < k {
        WindowIsDistinct(c, i, k);
      } else if k < i {
        WindowIsDistinct(c, k, i);
      }
    }
  }

  /** When batches are small, a duplicate answer names the one batch of the last five with that sequence range. */
  lemma DuplicateIsTheOne(s: Broker, r: Request, now: int, i: nat)
    requires Inv(s) && WellFormed(r) && !Expired(s.producers, r.pid, now) && Handle(s, r, now).1.AlreadyThere?
    requires var c := Chain(Of(s.log, r.pid));
             SmallBatches(c) && InWindow(c, i) && c[i].firstSeq == r.firstSeq
    ensures Answers(Chain(Of(s.log, r.pid))[i], r, Handle(s, r, now).1.base)
  {
    var k := DuplicateIsGenuine(s, r, now);
    hide *;
    var c := Chain(Of(s.log, r.pid));
    NamedByGate(s, r, now);
    ChainIsOneEpoch(s, r.pid);
    WindowPair(c, i, k, r, Handle(s, r, now).1.base);
  }

  lemma NamedByGate(s: Broker, r: Request, now: int)
    requires AllRingsOk(s.producers) && Handle(s, r, now).1.AlreadyThere?
    ensures r.pid >= 0
  {
  }

  lemma WindowPair(c: seq<Entry>, i: nat, k: nat, r: Request, base: int)
    requires OneEpoch(c) && SmallBatches(c) && InWindow(c, i) && InWindow(c, k)
    requires c[i].firstSeq == r.firstSeq && Answers(c[k], r, base)
    ensures Answers(c[i], r, base)
  {
    if i < k {
      WindowIsDistinct(c, i, k);
    } else if k < i {
      WindowIsDistinct(c, k, i);
    }
  }

  lemma InRing(p: Producer, c: seq<Entry>, k: nat)
    requires Tracks(p, c) && InWindow(c, k) && c[k].firstSeq >= 0
    ensures Lookup(p.ring, c[k].firstSeq, c[k].lastSeq) < RING_SIZE
  {
    assert Matches(p.ring[k % RING_SIZE], c[k].firstSeq, c[k].lastSeq);
  }

  /** With no wrap among the last five and room for one more sequence number, every retry of theirs is answered. */
  lemma RetryWithoutWrap(s: Broker, r: Request, now: int, k: nat)
    requires Inv(s) && r.pid >= 0 && !Expired(s.producers, r.pid, now)
    requires var c := Chain(Of(s.log, r.pid));
             && InWindow(c, k) && SmallBatches(c) && Answers(c[k], r, c[k].base)
             && c[|c| - 1].lastSeq < MAX_INT32
             && forall i | k < i < |c| :: c[i - 1].lastSeq < c[i].firstSeq
    ensures var c := Chain(Of(s.log, r.pid));
            Handle(s, r, now) == (s, AlreadyThere(c[k].base))
  {
    hide Of, Tracks, WellChained, Chain, RecordIn, Handle;
    var c := Chain(Of(s.log, r.pid));
    RetryAnswered(s, r, now, k);
    ChainIsOneEpoch(s, r.pid);
    Ascending(c, k, |c| - 1);
    AllOrNothing(s, r, now);
  }

  lemma {:induction false} Ascending(c: seq<Entry>, k: nat, n: nat)
    requires OneEpoch(c) && k <= n < |c| && forall i | k < i < |c| :: c[i - 1].lastSeq < c[i].firstSeq
    ensures c[k].firstSeq <= c[n].lastSeq
    decreases n
  {
    if k < n {
      Ascending(c, k, n - 1);
    }
  }

  // ---- A retry is not appended again ----

  /**
   A fifth of the sequence numbers. A produce request is far smaller: its frame
   is at most 100 MiB, a record takes at least 7 bytes, and the one supported
   compression turns 3 bytes into at most 64, which makes fewer than 320 million.
   */
  const FIFTH := 429_496_729

  predicate UpToFifth(c: seq<Entry>) {
    forall k | 0 <= k < |c| :: c[k].Count() <= FIFTH
  }

  /** No batch of the last five looks like the next one. */
  lemma WindowIsNotNext(c: seq<Entry>, k: nat)
    requires OneEpoch(c) && UpToFifth(c) && InWindow(c, k)
    ensures c[k].firstSeq != (c[|c| - 1].lastSeq + 1) % SEQ_MODULUS
  {
    var n := |c| - 1;
    SequenceCounts(c, k, n);
    RecordsBound(c, k, n + 1, FIFTH);
    assert SeqOk(c[k]) && SeqOk(c[n]);
    var x := c[k].firstSeq + Records(c, k, n);
    assert c[n].lastSeq + 1 == x % SEQ_MODULUS + c[n].Count();
    assert Records(c, k, n + 1) == Records(c, k, n) + c[n].Count();
  }

  /** So a retry of one of them is answered with its offset or refused, and never appended a second time. */
  lemma RetryNeverAppended(s: Broker, r: Request, now: int, k: nat)
    requires Inv(s) && r.pid >= 0 && !Expired(s.producers, r.pid, now)
    requires var c := Chain(Of(s.log, r.pid));
             InWindow(c, k) && UpToFifth(c) && Answers(c[k], r, c[k].base)
    ensures var c, (s', answer) := Chain(Of(s.log, r.pid)), Handle(s, r, now);
            var last := c[|c| - 1].lastSeq;
            && s' == s
            && answer == if last < MAX_INT32 && r.firstSeq <= last then AlreadyThere(c[k].base)
                         else Refused(OUT_OF_ORDER_SEQUENCE_NUMBER)
  {
    hide Of, Tracks, WellChained, Chain, RecordIn, Records, Handle;
    var c := Chain(Of(s.log, r.pid));
    assert SmallBatches(c);
    RetryAnswered(s, r, now, k);
    ChainIsOneEpoch(s, r.pid);
    WindowIsNotNext(c, k);
    AllOrNothing(s, r, now);
    RetryRefusedWith(s, r, now, k);
  }

  lemma RetryRefusedWith(s: Broker, r: Request, now: int, k: nat)
    requires Inv(s) && r.pid >= 0 && !Expired(s.producers, r.pid, now)
    requires var c := Chain(Of(s.log, r.pid)); InWindow(c, k) && Answers(c[k], r, c[k].base)
    ensures Handle(s, r, now).1.Refused? ==> Handle(s, r, now).1 == Refused(OUT_OF_ORDER_SEQUENCE_NUMBER)
  {
    hide Of, WellChained, Chain, RecordIn;
    var h := Of(s.log, r.pid);
    var c := Chain(h);
    assert PidOk(s, r.pid);
    ChainIsOneEpoch(s, r.pid);
    ChainIsSuffix(h);
    assert c[k] in c && c[|c| - 1] in c;
    InRing(s.producers[r.pid], c, k);
  }

  // ---- Every answer, from the log alone ----

  /** One of the last five batches of the producer's epoch has exactly this sequence range. */
  predicate InRecent(c: seq<Entry>, r: Request) {
    exists k | 0 <= k < |c| && |c| - 5 <= k :: c[k].firstSeq == r.firstSeq && c[k].lastSeq == r.lastSeq
  }

  /**
   What a produce request is answered, for every request and every reachable
   state, told from the producer's logged batches: which of the four error
   codes, a cached offset, or an append.
   */
  lemma AnsweredExactly(s: Broker, r: Request, now: int)
    requires Inv(s) && WellFormed(r) && r.pid >= 0 && !Expired(s.producers, r.pid, now)
    ensures var h, answer := Of(s.log, r.pid), Handle(s, r, now).1;
            if h == [] then
              answer == if r.firstSeq != 0 then Refused(59) else Appended(s.next)
            else
              var last := h[|h| - 1];
              if r.epoch < last.epoch then answer == Refused(46)
              else if r.epoch > last.epoch then
                answer == if r.firstSeq != 0 then Refused(90) else Appended(s.next)
              else if last.lastSeq == MAX_INT32 then
                answer == if r.firstSeq != 0 then Refused(90) else Appended(s.next)
              else if r.firstSeq > last.lastSeq then
                answer == if r.firstSeq != last.lastSeq + 1 then Refused(90) else Appended(s.next)
              else if InRecent(Chain(h), r) then
                exists e | e in s.log :: answer == AlreadyThere(e.base) && Answers(e, r, e.base)
              else
                answer == Refused(45)
  {
    hide Of, WellChained, Chain, RecordIn, Tracks, Append, Recorded;
    var h := Of(s.log, r.pid);
    assert PidOk(s, r.pid);
    if h != [] {
      var c, p := Chain(h), s.producers[r.pid];
      LastInRange(s, r.pid);
      ChainIsSuffix(h);
      TracksLast(p, c);
      FoundExactly(p, c, r);
      if Handle(s, r, now).1.AlreadyThere? {
        var k := DuplicateIsGenuine(s, r, now);
        assert Answers(c[k], r, c[k].base);
      }
    }
  }

  /** The ring has a slot for a range exactly when one of the last five batches has that range. */
  lemma FoundExactly(p: Producer, c: seq<Entry>, r: Request)
    requires Tracks(p, c) && r.firstSeq >= 0
    ensures Lookup(p.ring, r.firstSeq, r.lastSeq) < |p.ring| <==> InRecent(c, r)
  {
    hide Lookup;
    var j := Lookup(p.ring, r.firstSeq, r.lastSeq);
    if j < |p.ring| {
      var k := SlotIsInWindow(p, c, j);
    }
    if k :| InWindow(c, k) && c[k].firstSeq == r.firstSeq && c[k].lastSeq == r.lastSeq {
      InRing(p, c, k);
    }
  }

  // ---- A retry at the largest sequence number ----

  const LONG_RUN := 256
  const LONG_BATCH := 0x80_0000

  /** Batches of 2^23 records: 256 of them take the epoch's sequence numbers from 0 to the largest. */
  function LongRun(pid: int, k: nat): Request {
    Request(pid, 0, k * LONG_BATCH, (k + 1) * LONG_BATCH - 1)
  }

  function After(pid: int, k: nat): (s: Broker)
    requires pid >= 0
    ensures k <= LONG_RUN ==> Inv(s)
    decreases k
  {
    if k == 0 then Broker(map[], [], 0)
    else
      var s := After(pid, k - 1);
      if k <= LONG_RUN then
        HandleKeeps(s, LongRun(pid, k - 1), 0); Handle(s, LongRun(pid, k - 1), 0).0
      else s
  }

  function LongEntry(pid: int, k: nat): Entry {
    var r := LongRun(pid, k);
    Entry(pid, 0, r.firstSeq, r.lastSeq, r.firstSeq)
  }

  function Logged(pid: int, k: nat): (h: seq<Entry>)
    ensures |h| == k && forall i | 0 <= i < k :: h[i] == LongEntry(pid, i)
  {
    seq(k, i requires 0 <= i < k => LongEntry(pid, i))
  }

  /** The state after `k` of them. */
  ghost predicate Reached(s: Broker, pid: int, k: nat) {
    && Inv(s)
    && s.log == Of(s.log, pid) == Logged(pid, k)
    && s.next == k * LONG_BATCH
    && !Expired(s.producers, pid, 0)
  }

  lemma LongRunStep(s: Broker, pid: int, k: nat)
    requires pid >= 0 && k < LONG_RUN && Reached(s, pid, k)
    ensures AllRingsOk(s.producers)
    ensures Reached(Handle(s, LongRun(pid, k), 0).0, pid, k + 1)
  {
    hide Handle, Of, VerdictOn, Inv, RecordIn, Judge;
    var r := LongRun(pid, k);
    RingsOf(s);
    HandleKeeps(s, r, 0);
    AppendedExactly(s, r, 0);
    AllOrNothing(s, r, 0);
    RecordedAt(RecordedOnto(s.producers, r), r, s.next);
    assert Logged(pid, k + 1) == Logged(pid, k) + [LongEntry(pid, k)];
  }

  lemma RingsOf(s: Broker)
    requires Inv(s)
    ensures AllRingsOk(s.producers)
  {
  }

  lemma RecordedAt(p: Producer, r: Request, base: int)
    ensures RingOk(p) ==> RecordIn(p, r.epoch, r.firstSeq, r.lastSeq, base, 0).lastTimestamp == 0
  {
  }

  lemma {:induction false} LongRunIsLogged(pid: int, k: nat)
    requires pid >= 0 && k <= LONG_RUN
    ensures Reached(After(pid, k), pid, k)
  {
    if k > 0 {
      LongRunIsLogged(pid, k - 1);
      LongRunStep(After(pid, k - 1), pid, k - 1);
      hide Reached, Handle, Inv;
    }
  }

  lemma {:induction false} LongRunIsOneChain(pid: int, k: nat)
    ensures Chain(Logged(pid, k)) == Logged(pid, k)
  {
    if k > 0 {
      LongRunIsOneChain(pid, k - 1);
      assert Logged(pid, k)[..k - 1] == Logged(pid, k - 1);
      assert Logged(pid, k) == Logged(pid, k - 1) + [LongEntry(pid, k - 1)];
    }
  }

  /** After those batches none of the last five is answered any more: a retry of it is refused. */
  lemma RetryRefusedAtLargest(pid: nat, k: nat)
    requires LONG_RUN - RING_SIZE <= k < LONG_RUN
    ensures var s, r := After(pid, LONG_RUN), LongRun(pid, k);
            && Inv(s) && Of(s.log, pid) == Logged(pid, LONG_RUN)
            && InWindow(Chain(Of(s.log, pid)), k) && Answers(Logged(pid, LONG_RUN)[k], r, k * LONG_BATCH)
            && Handle(s, r, 0) == (s, Refused(OUT_OF_ORDER_SEQUENCE_NUMBER))
  {
    LongRunIsLogged(pid, LONG_RUN);
    LongRunIsOneChain(pid, LONG_RUN);
    hide After, Handle, Of, Chain;
    RetryNeverAppended(After(pid, LONG_RUN), LongRun(pid, k), 0, k);
  }
}
