/**
 Crash recovery of the producer state: a snapshot taken some time after the
 last roll, then a replay of the active segment. Produce requests are handled
 one after another but in their separate steps, so that a roll's snapshot and
 a crash may fall between them.
 */
module ProducerRecovery {
  import opened Options
  import opened Bytes
  import opened Idempotence
  import opened ExactlyOnce
  import opened ProducerSnapshots

  /** Where the request in hand stands. */
  datatype Phase =
    | Ready
    | Admitted(request: Request)
    | Logged(entry: Entry)

  /**
   `active` counts the batches before the active segment; `snapshot` is the
   latest one on disk. A roll leaves it: the new segment's own is written some
   time later, or never. `taken` and `forgot` are history: how many batches the
   snapshot accounts for, and the producer of the request in hand if it was
   unknown at that moment.
   */
  datatype Machine = Machine(producers: Producers, log: seq<Entry>, next: int, active: nat,
                             snapshot: Option<Producers>, phase: Phase, taken: nat, forgot: Option<int>)

  datatype Step =
    | Gates(request: Request, now: int)
    | Writes(rolls: bool)
    | Records(now: int)
    | TakesSnapshot
    | Crashes(now: int)

  /** Replays logged batches into the state, as recovery does. */
  function Replayed(ps: Producers, es: seq<Entry>, now: int): (r: Producers)
    requires AllRingsOk(ps)
    ensures AllRingsOk(r)
  {
    if es == [] then ps
    else
      var n := |es| - 1;
      var r := Replayed(ps, es[..n], now);
      var e := es[n];
      if e.pid < 0 then r else Recorded(r, e.pid, e.epoch, e.firstSeq, e.lastSeq, e.base, now)
  }

  function Recovered(m: Machine, now: int): Producers
    requires m.active <= |m.log| && (m.snapshot.Some? ==> AllRingsOk(m.snapshot.value))
  {
    Replayed(if m.snapshot.Some? then m.snapshot.value else map[], m.log[m.active..], now)
  }

  /** The producer of the request in hand has been forgotten and not yet recorded anew. */
  predicate InGap(m: Machine) {
    m.phase.Admitted? && m.phase.request.pid !in m.producers && Of(m.log, m.phase.request.pid) != []
  }

  /** The batches that have been recorded: all but one that is in hand. */
  function RecordedLog(m: Machine): seq<Entry> {
    if m.phase.Logged? && m.log != [] then m.log[..|m.log| - 1] else m.log
  }

  /** The producer in hand, if the state does not know it. */
  function Unknown(m: Machine): Option<int> {
    match m.phase
    case Ready => None
    case Admitted(r) => if r.pid in m.producers then None else Some(r.pid)
    case Logged(e) => if e.pid in m.producers then None else Some(e.pid)
  }

  predicate Enabled(m: Machine, step: Step) {
    && AllRingsOk(m.producers)
    && match step
       case Gates(r, now) => m.phase.Ready? && WellFormed(r) && !Expired(m.producers, r.pid, now)
       case Writes(_) => m.phase.Admitted?
       case Records(_) => m.phase.Logged?
       case TakesSnapshot => true
       case Crashes(_) =>
         && m.active <= |m.log|
         && (m.snapshot.Some? ==> AllRingsOk(m.snapshot.value))
  }

  function Next(m: Machine, step: Step): Machine
    requires Enabled(m, step)
  {
    match step
    case Gates(r, now) =>
      if r.pid < 0 then m.(phase := Admitted(r))
      else if VerdictOn(m.producers, r.pid, r.epoch, r.firstSeq, r.lastSeq, now).Accept? then
        m.(producers := Forgotten(m.producers, r.pid, r.epoch, r.firstSeq, now), phase := Admitted(r))
      else m.(producers := Forgotten(m.producers, r.pid, r.epoch, r.firstSeq, now))
    case Writes(rolls) =>
      var r := m.phase.request;
      var e := Entry(r.pid, r.epoch, r.firstSeq, r.lastSeq, m.next);
      var rolled := if rolls then m.(active := |m.log|) else m;
      rolled.(log := m.log + [e], next := m.next + e.Count(), phase := if r.pid < 0 then Ready else Logged(e))
    case Records(now) =>
      var e := m.phase.entry;
      m.(producers := Recorded(m.producers, e.pid, e.epoch, e.firstSeq, e.lastSeq, e.base, now), phase := Ready)
    case TakesSnapshot =>
      m.(snapshot := Some(NormalizedProducers(m.producers)), taken := |RecordedLog(m)|, forgot := Unknown(m))
    case Crashes(now) => m.(producers := Recovered(m, now), phase := Ready)
  }

  const FRESH := Machine(map[], [], 0, 0, None, Ready, 0, None)

  ghost predicate IsRun(states: seq<Machine>, steps: seq<Step>) {
    && |states| == |steps| + 1 && states[0] == FRESH
    && forall i | 0 <= i < |steps| :: Enabled(states[i], steps[i]) && states[i + 1] == Next(states[i], steps[i])
  }

  /** The batches logged after the snapshot and before the active segment: neither restored nor replayed. */
  function Between(m: Machine): seq<Entry>
    requires m.active <= |m.log|
  {
    if m.taken <= m.active then m.log[m.taken..m.active] else []
  }

  /**
   Recovery would miss batches of the producer: it has none in the active
   segment, and some that the snapshot came too early for, or some that the
   snapshot had just forgotten.
   */
  predicate Misses(m: Machine, pid: int) {
    && pid >= 0 && m.active <= |m.log| && m.taken <= |m.log|
    && Of(m.log[m.active..], pid) == []
    && (Of(Between(m), pid) != [] || (m.forgot == Some(pid) && Of(m.log[..m.taken], pid) != []))
  }

  /** No crash finds the snapshot in such a state. */
  ghost predicate NoCrashMisses(states: seq<Machine>, steps: seq<Step>) {
    forall i | 0 <= i < |steps| && i < |states| :: steps[i].Crashes? ==> forall pid :: !Misses(states[i], pid)
  }

  // ---- Replay ----

  lemma {:induction false} OfConcat(a: seq<Entry>, b: seq<Entry>, pid: int)
    ensures Of(a + b, pid) == Of(a, pid) + Of(b, pid)
  {
    if b == [] {
      assert a + b == a;
    } else {
      var n := |b| - 1;
      OfConcat(a, b[..n], pid);
      assert (a + b)[..|a + b| - 1] == a + b[..n];
    }
  }

  /** The producer a replay starts from. */
  function Base(ps: Producers, pid: int, c: seq<Entry>): Producer
    requires c != []
  {
    if pid in ps then ps[pid] else NewProducer(c[0].epoch)
  }

  /** Slot `j` is untouched by the replay, or holds a replayed batch. */
  predicate SlotFrom(p: Producer, base: Producer, c: seq<Entry>, j: int)
    requires RingOk(p) && RingOk(base) && 0 <= j < RING_SIZE
  {
    p.ring[j] == base.ring[j] || exists k | 0 <= k < |c| :: p.ring[j] == SlotOf(c[k])
  }

  /**
   After replay a producer describes its last replayed batch and holds the
   last five in ring order; the slots no batch reached are as they were.
   */
  predicate ReplayedTo(p: Producer, base: Producer, c: seq<Entry>) {
    var n := |c|;
    && RingOk(p) && RingOk(base) && n > 0
    && LastIs(p, c[n - 1])
    && p.ringHead == (base.ringHead + n) % RING_SIZE
    && (forall k | 0 <= k < n && n - RING_SIZE <= k :: p.ring[(base.ringHead + k) % RING_SIZE] == SlotOf(c[k]))
    && (forall d | n <= d < RING_SIZE :: Untouched(p, base, d))
    && (forall j | 0 <= j < RING_SIZE :: SlotFrom(p, base, c, j))
  }

  predicate Untouched(p: Producer, base: Producer, d: int)
    requires RingOk(p) && RingOk(base) && d >= 0
  {
    var j := (base.ringHead + d) % RING_SIZE; p.ring[j] == base.ring[j]
  }

  lemma ReplayFirst(base: Producer, e: Entry, now: int)
    requires RingOk(base)
    ensures ReplayedTo(RecordIn(base, e.epoch, e.firstSeq, e.lastSeq, e.base, now), base, [e])
  {
    var p := RecordIn(base, e.epoch, e.firstSeq, e.lastSeq, e.base, now);
    forall j | 0 <= j < RING_SIZE ensures SlotFrom(p, base, [e], j) {
      if j == base.ringHead {
        assert p.ring[j] == SlotOf([e][0]);
      }
    }
  }

  lemma SlotFromMore(p: Producer, base: Producer, c: seq<Entry>, e: Entry, now: int, j: int)
    requires RingOk(p) && RingOk(base) && 0 <= j < RING_SIZE && SlotFrom(p, base, c, j)
    ensures SlotFrom(RecordIn(p, e.epoch, e.firstSeq, e.lastSeq, e.base, now), base, c + [e], j)
  {
    var q, d := RecordIn(p, e.epoch, e.firstSeq, e.lastSeq, e.base, now), c + [e];
    if j == p.ringHead {
      assert q.ring[j] == SlotOf(d[|c|]);
    } else if p.ring[j] != base.ring[j] {
      var k :| 0 <= k < |c| && p.ring[j] == SlotOf(c[k]);
      assert d[k] == c[k];
    }
  }

  lemma ReplayMore(p: Producer, base: Producer, c: seq<Entry>, e: Entry, now: int)
    requires ReplayedTo(p, base, c)
    ensures ReplayedTo(RecordIn(p, e.epoch, e.firstSeq, e.lastSeq, e.base, now), base, c + [e])
  {
    hide SlotFrom;
    var n := |c|;
    HeadStep(base.ringHead, n);
    var q, d := RecordIn(p, e.epoch, e.firstSeq, e.lastSeq, e.base, now), c + [e];
    forall k | 0 <= k < n + 1 && n + 1 - RING_SIZE <= k
      ensures q.ring[(base.ringHead + k) % RING_SIZE] == SlotOf(d[k])
    {
      if k < n {
        OtherSlot(base.ringHead, k, n);
        assert d[k] == c[k];
      }
    }
    forall i | n + 1 <= i < RING_SIZE ensures Untouched(q, base, i) {
      assert Untouched(p, base, i);
      OtherSlot(base.ringHead, n, i);
    }
    forall j | 0 <= j < RING_SIZE ensures SlotFrom(q, base, d, j) {
      SlotFromMore(p, base, c, e, now, j);
    }
  }

  lemma HeadStep(head: int, n: int)
    ensures ((head + n) % RING_SIZE + 1) % RING_SIZE == (head + (n + 1)) % RING_SIZE
  {
  }

  lemma OtherSlot(head: int, k: int, n: int)
    requires k < n < k + RING_SIZE
    ensures (head + k) % RING_SIZE != (head + n) % RING_SIZE
  {
  }

  /** What replay does to each producer: those with a replayed batch describe the last one, the rest stay. */
  lemma {:induction false} ReplayIs(ps: Producers, es: seq<Entry>, now: int, pid: int)
    requires AllRingsOk(ps) && pid >= 0
    ensures var r, c := Replayed(ps, es, now), Of(es, pid);
            if c == [] then (pid in r <==> pid in ps) && (pid in ps ==> r[pid] == ps[pid])
            else pid in r && ReplayedTo(r[pid], Base(ps, pid, c), c)
    decreases |es|
  {
    hide Replayed, Of, ReplayedTo, RecordIn, NewProducer;
    if es == [] {
      ReplayNothing(ps, now, pid);
    } else {
      var n := |es| - 1;
      var e := es[n];
      ReplayIs(ps, es[..n], now, pid);
      ReplayStep(ps, es, now);
      OfStep(es, pid);
      var r, c := Replayed(ps, es[..n], now), Of(es[..n], pid);
      if e.pid == pid {
        if c == [] {
          RingsOkAt(ps, pid, e);
          assert c + [e] == [e];
          ReplayFirst(Base(ps, pid, [e]), e, now);
        } else {
          ReplayMore(r[pid], Base(ps, pid, c), c, e, now);
        }
      }
    }
  }

  lemma ReplayNothing(ps: Producers, now: int, pid: int)
    requires AllRingsOk(ps)
    ensures Replayed(ps, [], now) == ps && Of([], pid) == []
  {
  }

  lemma RingsOkAt(ps: Producers, pid: int, e: Entry)
    requires AllRingsOk(ps)
    ensures RingOk(Base(ps, pid, [e]))
  {
  }

  lemma ReplayStep(ps: Producers, es: seq<Entry>, now: int)
    requires AllRingsOk(ps) && es != []
    ensures var n := |es| - 1;
            var e := es[n];
            var r := Replayed(ps, es[..n], now);
            Replayed(ps, es, now) ==
            if e.pid < 0 then r else Recorded(r, e.pid, e.epoch, e.firstSeq, e.lastSeq, e.base, now)
  {
  }

  lemma OfStep(es: seq<Entry>, pid: int)
    requires es != []
    ensures var n := |es| - 1;
            Of(es, pid) == if es[n].pid == pid then Of(es[..n], pid) + [es[n]] else Of(es[..n], pid)
  {
  }

  // ---- The invariant ----

  /** The state knows the producer of history `h` by its last batch, or not at all when `h` is empty. */
  predicate Knows(ps: Producers, pid: int, h: seq<Entry>) {
    if h == [] then pid !in ps else pid in ps && LastIs(ps[pid], h[|h| - 1])
  }

  /** The batches of `pid` that have been recorded. */
  function RecordedOf(m: Machine, pid: int): seq<Entry> {
    Of(RecordedLog(m), pid)
  }

  predicate InHand(m: Machine, pid: int) {
    || (m.phase.Admitted? && m.phase.request.pid == pid)
    || (m.phase.Logged? && m.phase.entry.pid == pid)
  }

  /** A producer is known by its recorded batches; while its request is in hand it may also be forgotten. */
  predicate PidOk(m: Machine, pid: int) {
    && WellChained(Of(m.log, pid))
    && (Knows(m.producers, pid, RecordedOf(m, pid)) || (InHand(m, pid) && pid !in m.producers))
  }

  predicate PhaseOk(m: Machine) {
    match m.phase
    case Ready => true
    case Admitted(r) =>
      && WellFormed(r)
      && (r.pid >= 0 ==> Continues(Of(m.log, r.pid), Entry(r.pid, r.epoch, r.firstSeq, r.lastSeq, m.next)))
    case Logged(e) => e.pid >= 0 && m.active < |m.log| && m.log[|m.log| - 1] == e
  }

  /** The snapshot knows each producer by the batches it accounts for, except one it had just forgotten. */
  predicate SnapshotOk(m: Machine, pid: int)
    requires m.taken <= |m.log|
  {
    match m.snapshot
    case None => m.taken == 0 && m.forgot.None?
    case Some(ps) => if m.forgot == Some(pid) then pid !in ps else Knows(ps, pid, Of(m.log[..m.taken], pid))
  }

  /** Every used slot is a logged batch of its producer. */
  predicate Genuine(ps: Producers, log: seq<Entry>) {
    forall pid | pid in ps && pid >= 0 :: RingGenuine(ps[pid], log, pid)
  }

  predicate RingGenuine(p: Producer, log: seq<Entry>, pid: int) {
    forall j | 0 <= j < |p.ring| :: SlotGenuine(p.ring[j], log, pid)
  }

  predicate SlotGenuine(slot: Slot, log: seq<Entry>, pid: int) {
    slot == EMPTY_SLOT || exists e | e in log :: e.pid == pid && slot == SlotOf(e)
  }

  ghost predicate Inv(m: Machine) {
    && m.active <= |m.log| && m.taken <= |m.log|
    && AllRingsOk(m.producers) && Genuine(m.producers, RecordedLog(m))
    && (m.snapshot.Some? ==> AllRingsOk(m.snapshot.value) && Genuine(m.snapshot.value, m.log[..m.taken]))
    && PhaseOk(m)
    && AllSeqOk(m.log)
    && Placed(m.log, m.next)
    && (forall pid | pid >= 0 :: PidOk(m, pid) && SnapshotOk(m, pid))
  }

  /** Batches take consecutive, disjoint offset ranges below the next offset. */
  predicate Placed(log: seq<Entry>, next: int) {
    && (forall i | 0 <= i < |log| :: log[i].Count() >= 1 && log[i].base + log[i].Count() <= next)
    && (forall i, j | 0 <= i < j < |log| :: log[i].base + log[i].Count() <= log[j].base)
  }

  predicate AllSeqOk(log: seq<Entry>) {
    forall i | 0 <= i < |log| && log[i].pid >= 0 :: SeqOk(log[i])
  }

  // ---- Every step keeps it ----

  lemma GenuineStays(ps: Producers, log: seq<Entry>, e: Entry)
    requires Genuine(ps, log)
    ensures Genuine(ps, log + [e])
  {
    forall pid | pid in ps && pid >= 0 ensures RingGenuine(ps[pid], log + [e], pid) {
      RingGenuineStays(ps[pid], log, e, pid);
    }
  }

  lemma RingGenuineStays(p: Producer, log: seq<Entry>, e: Entry, pid: int)
    requires RingGenuine(p, log, pid)
    ensures RingGenuine(p, log + [e], pid)
  {
    forall j | 0 <= j < |p.ring| ensures SlotGenuine(p.ring[j], log + [e], pid) {
      if p.ring[j] != EMPTY_SLOT {
        var f :| f in log && f.pid == pid && p.ring[j] == SlotOf(f);
        assert f in log + [e];
      }
    }
  }

  lemma LastOfHistory(m: Machine, pid: int)
    requires AllSeqOk(m.log) && pid >= 0 && Of(m.log, pid) != []
    ensures var h := Of(m.log, pid); SeqOk(h[|h| - 1])
  {
    var h := Of(m.log, pid);
    OfMembers(m.log, pid);
    hide Of;
    assert h[|h| - 1] in h;
  }

  /** The gate admits only what continues the producer's logged history. */
  lemma GateAdmits(ps: Producers, h: seq<Entry>, r: Request, e: Entry, now: int)
    requires WellFormed(r) && r.pid >= 0 && !Expired(ps, r.pid, now) && Knows(ps, r.pid, h)
    requires r == Request(e.pid, e.epoch, e.firstSeq, e.lastSeq) && (h != [] ==> SeqOk(h[|h| - 1]))
    ensures VerdictOn(ps, r.pid, r.epoch, r.firstSeq, r.lastSeq, now).Accept? <==> Continues(h, e)
  {
    hide Judge;
    if h != [] {
      AcceptedFollows(ps[r.pid], h[|h| - 1], e);
    }
  }

  /** Validation changes the state only by forgetting the producer of a batch it accepts. */
  lemma GateForgets(ps: Producers, r: Request, now: int)
    requires !Expired(ps, r.pid, now)
    ensures var ps' := Forgotten(ps, r.pid, r.epoch, r.firstSeq, now);
            && (ps' == ps || (ps' == ps - {r.pid} && VerdictOn(ps, r.pid, r.epoch, r.firstSeq, r.lastSeq, now).Accept?))
  {
    hide Lookup;
  }

  lemma KeptByGates(m: Machine, step: Step)
    requires Inv(m) && Enabled(m, step) && step.Gates?
    ensures Inv(Next(m, step))
  {
    hide Of, WellChained, RingGenuine, VerdictOn, Forgotten, LastIs, AllSeqOk;
    var m', r, now := Next(m, step), step.request, step.now;
    var e := Entry(r.pid, r.epoch, r.firstSeq, r.lastSeq, m.next);
    if r.pid >= 0 {
      assert PidOk(m, r.pid);
      var h := Of(m.log, r.pid);
      if h != [] {
        LastOfHistory(m, r.pid);
      }
      GateAdmits(m.producers, h, r, e, now);
      GateForgets(m.producers, r, now);
    }
    forall pid | pid >= 0 ensures PidOk(m', pid) && SnapshotOk(m', pid) {
      assert PidOk(m, pid) && SnapshotOk(m, pid);
    }
  }

  lemma KeptByWrites(m: Machine, step: Step)
    requires Inv(m) && Enabled(m, step) && step.Writes?
    ensures Inv(Next(m, step))
  {
    hide Of, WellChained, RingGenuine, Genuine, Follows, SeqOk, LastIs;
    var m', r := Next(m, step), m.phase.request;
    var e := Entry(r.pid, r.epoch, r.firstSeq, r.lastSeq, m.next);
    GenuineStays(m.producers, m.log, e);
    WrittenSeqOk(r, e);
    assert m'.log[..|m'.log| - 1] == m.log && m'.log[..m.taken] == m.log[..m.taken];
    forall pid | pid >= 0 ensures PidOk(m', pid) && SnapshotOk(m', pid) {
      assert PidOk(m, pid) && SnapshotOk(m, pid);
      OfAppend(m.log, e, pid);
      if pid == r.pid {
        ExtendChained(Of(m.log, pid), e);
      }
    }
  }

  lemma WrittenSeqOk(r: Request, e: Entry)
    requires WellFormed(r) && r == Request(e.pid, e.epoch, e.firstSeq, e.lastSeq)
    ensures e.pid >= 0 ==> SeqOk(e)
  {
  }

  lemma RecordGenuine(p: Producer, e: Entry, now: int, log: seq<Entry>)
    requires RingOk(p) && RingGenuine(p, log, e.pid) && e in log
    ensures RingGenuine(RecordIn(p, e.epoch, e.firstSeq, e.lastSeq, e.base, now), log, e.pid)
  {
    var q := RecordIn(p, e.epoch, e.firstSeq, e.lastSeq, e.base, now);
    forall j | 0 <= j < |q.ring| ensures SlotGenuine(q.ring[j], log, e.pid) {
      if j == p.ringHead {
        assert q.ring[j] == SlotOf(e);
      } else {
        assert q.ring[j] == p.ring[j];
      }
    }
  }

  lemma NewGenuine(epoch: int, log: seq<Entry>, pid: int)
    ensures RingOk(NewProducer(epoch)) && RingGenuine(NewProducer(epoch), log, pid)
  {
  }

  lemma RecordedGenuine(ps: Producers, log: seq<Entry>, e: Entry, now: int)
    requires AllRingsOk(ps) && Genuine(ps, log) && e in log && e.pid >= 0
    ensures Genuine(Recorded(ps, e.pid, e.epoch, e.firstSeq, e.lastSeq, e.base, now), log)
  {
    hide RingGenuine, NewProducer;
    NewGenuine(e.epoch, log, e.pid);
    RecordGenuine(if e.pid in ps then ps[e.pid] else NewProducer(e.epoch), e, now, log);
  }

  lemma KeptByRecords(m: Machine, step: Step)
    requires Inv(m) && Enabled(m, step) && step.Records?
    ensures Inv(Next(m, step))
  {
    hide Of, WellChained, Genuine, Placed, AllSeqOk, Recorded, Knows, AllRingsOk;
    var m', e := Next(m, step), m.phase.entry;
    GenuineStays(m.producers, RecordedLog(m), e);
    assert RecordedLog(m) + [e] == m.log && e in m.log;
    RecordedGenuine(m.producers, m.log, e, step.now);
    forall pid | pid >= 0 ensures PidOk(m', pid) && SnapshotOk(m', pid) {
      assert PidOk(m, pid) && SnapshotOk(m, pid);
      OfStep(m.log, pid);
      RecordedKnows(m.producers, e, step.now, pid, Of(m.log, pid));
    }
    RecordedRings(m.producers, e, step.now);
  }

  lemma RecordedRings(ps: Producers, e: Entry, now: int)
    requires AllRingsOk(ps)
    ensures AllRingsOk(Recorded(ps, e.pid, e.epoch, e.firstSeq, e.lastSeq, e.base, now))
  {
  }

  lemma RecordedKnows(ps: Producers, e: Entry, now: int, pid: int, h: seq<Entry>)
    requires AllRingsOk(ps)
    ensures var ps' := Recorded(ps, e.pid, e.epoch, e.firstSeq, e.lastSeq, e.base, now);
            if pid == e.pid then (h != [] && h[|h| - 1] == e ==> Knows(ps', pid, h))
            else Knows(ps', pid, h) == Knows(ps, pid, h)
  {
  }

  lemma {:induction false} UsedMembers(ring: seq<Slot>)
    ensures forall slot | slot in Used(ring) :: slot in ring
  {
    if ring != [] {
      UsedMembers(ring[..|ring| - 1]);
    }
  }

  lemma NormalizedGenuine(p: Producer, log: seq<Entry>, pid: int)
    requires RingOk(p) && RingGenuine(p, log, pid)
    ensures RingGenuine(Normalized(p), log, pid)
  {
    hide SlotGenuine, Used;
    UsedMembers(p.ring);
    var q := Normalized(p);
    NothingUsed(log, pid);
    forall j | 0 <= j < |q.ring| ensures SlotGenuine(q.ring[j], log, pid) {
      if j < |Used(p.ring)| {
        assert Used(p.ring)[j] in Used(p.ring);
        var i :| 0 <= i < |p.ring| && p.ring[i] == q.ring[j];
      }
    }
  }

  lemma NothingUsed(log: seq<Entry>, pid: int)
    ensures SlotGenuine(EMPTY_SLOT, log, pid)
  {
  }

  lemma NormalizedLast(p: Producer, e: Entry)
    requires RingOk(p)
    ensures LastIs(Normalized(p), e) <==> LastIs(p, e)
  {
  }

  lemma KnowsNormalized(ps: Producers, pid: int, h: seq<Entry>)
    requires AllRingsOk(ps) && Knows(ps, pid, h)
    ensures Knows(NormalizedProducers(ps), pid, h)
  {
    hide Normalized, LastIs;
    if h != [] {
      NormalizedLast(ps[pid], h[|h| - 1]);
    }
  }

  lemma KeptByTakesSnapshot(m: Machine, step: Step)
    requires Inv(m) && Enabled(m, step) && step.TakesSnapshot?
    ensures Inv(Next(m, step))
  {
    hide Of, WellChained, RingGenuine, Follows, SeqOk, Normalized, LastIs;
    var m' := Next(m, step);
    assert m'.log[..m'.taken] == RecordedLog(m);
    forall pid | pid in m.producers && pid >= 0 ensures RingGenuine(Normalized(m.producers[pid]), RecordedLog(m), pid) {
      NormalizedGenuine(m.producers[pid], RecordedLog(m), pid);
    }
    forall pid | pid >= 0 ensures PidOk(m', pid) && SnapshotOk(m', pid) {
      assert PidOk(m, pid);
      if Knows(m.producers, pid, RecordedOf(m, pid)) {
        KnowsNormalized(m.producers, pid, RecordedOf(m, pid));
      }
    }
  }

  // ---- Recovery ----

  /** The state a replay starts from. */
  function Start(m: Machine): Producers {
    if m.snapshot.Some? then m.snapshot.value else map[]
  }

  /**
   A snapshot that accounts for the first `q` batches, and a replay from batch
   `a` on, know a producer by its last batch exactly when it logged something
   in the replayed part, or nothing between the two.
   */
  lemma EarlierSnapshotExactly(ps: Producers, log: seq<Entry>, next: int, q: nat, a: nat, now: int, pid: nat)
    requires AllRingsOk(ps) && q <= |log| && a <= |log| && Placed(log, next) && Knows(ps, pid, Of(log[..q], pid))
    ensures Knows(Replayed(ps, log[a..], now), pid, Of(log, pid)) <==>
            Of(log[a..], pid) != [] || q > a || Of(log[q..a], pid) == []
  {
    hide Of, Replayed, Placed;
    assert log == log[..a] + log[a..];
    OfConcat(log[..a], log[a..], pid);
    ReplayIs(ps, log[a..], now, pid);
    if q > a {
      assert log[..q] == log[..a] + log[a..q] && log[a..] == log[a..q] + log[q..];
      OfConcat(log[..a], log[a..q], pid);
      OfConcat(log[a..q], log[q..], pid);
    } else {
      assert log[..a] == log[..q] + log[q..a];
      OfConcat(log[..q], log[q..a], pid);
      if Of(log[..q], pid) != [] && Of(log[q..a], pid) != [] {
        LaterBatchDiffers(log, next, q, a, pid);
      }
    }
  }

  /** Where the last batch of a producer stands. */
  lemma LastAt(log: seq<Entry>, lo: nat, hi: nat, pid: int) returns (i: nat)
    requires lo <= hi <= |log| && Of(log[lo..hi], pid) != []
    ensures var h := Of(log[lo..hi], pid); lo <= i < hi && log[i] == h[|h| - 1]
  {
    var part := log[lo..hi];
    var h := Of(part, pid);
    OfMembers(part, pid);
    hide Of;
    assert h[|h| - 1] in h;
    var k: nat :| k < |part| && part[k] == h[|h| - 1];
    i := lo + k;
  }

  lemma LaterBatchDiffers(log: seq<Entry>, next: int, q: nat, a: nat, pid: int)
    requires q <= a <= |log| && Placed(log, next) && Of(log[..q], pid) != [] && Of(log[q..a], pid) != []
    ensures var x, y := Of(log[..q], pid), Of(log[q..a], pid);
            x[|x| - 1].base + x[|x| - 1].Count() < y[|y| - 1].base + y[|y| - 1].Count()
  {
    hide Of, Placed;
    assert log[0..q] == log[..q];
    var i := LastAt(log, 0, q, pid);
    var j := LastAt(log, q, a, pid);
    EarlierEnds(log, next, i, j);
  }

  lemma EarlierEnds(log: seq<Entry>, next: int, i: nat, j: nat)
    requires Placed(log, next) && i < j < |log|
    ensures log[i].base + log[i].Count() < log[j].base + log[j].Count()
  {
    assert log[j].Count() >= 1;
  }

  lemma RecoveredFromStart(m: Machine, now: int)
    requires Enabled(m, Crashes(now))
    ensures AllRingsOk(Start(m)) && Recovered(m, now) == Replayed(Start(m), m.log[m.active..], now)
  {
  }

  /** Restore and replay know a producer by its last logged batch, exactly when they do not miss any. */
  lemma RecoveryKnows(m: Machine, now: int, pid: int)
    requires Inv(m) && Enabled(m, Crashes(now)) && pid >= 0
    ensures Knows(Recovered(m, now), pid, Of(m.log, pid)) <==> !Misses(m, pid)
  {
    hide Of, WellChained, RingGenuine, Genuine, PhaseOk, AllSeqOk, LastIs, Replayed, PidOk, Placed, Recovered;
    assert SnapshotOk(m, pid);
    RecoveredFromStart(m, now);
    if m.forgot == Some(pid) {
      ForgottenKnows(m, now, pid);
    } else {
      assert m.log[..0] == [];
      ReplayNothing(Start(m), now, pid);
      EarlierSnapshotExactly(Start(m), m.log, m.next, m.taken, m.active, now, pid);
    }
  }

  lemma ForgottenKnows(m: Machine, now: int, pid: int)
    requires m.active <= |m.log| && m.taken <= |m.log| && pid >= 0 && AllRingsOk(Start(m))
    requires m.forgot == Some(pid) && pid !in Start(m)
    ensures Knows(Replayed(Start(m), m.log[m.active..], now), pid, Of(m.log, pid)) <==> !Misses(m, pid)
  {
    hide Of, LastIs, Replayed;
    ReplayIs(Start(m), m.log[m.active..], now, pid);
    assert m.log == m.log[..m.active] + m.log[m.active..];
    OfConcat(m.log[..m.active], m.log[m.active..], pid);
    if m.taken <= m.active {
      assert m.log[..m.active] == m.log[..m.taken] + m.log[m.taken..m.active];
      OfConcat(m.log[..m.taken], m.log[m.taken..m.active], pid);
    } else {
      assert m.log[..m.taken] == m.log[..m.active] + m.log[m.active..m.taken];
      assert m.log[m.active..] == m.log[m.active..m.taken] + m.log[m.taken..];
      OfConcat(m.log[..m.active], m.log[m.active..m.taken], pid);
      OfConcat(m.log[m.active..m.taken], m.log[m.taken..], pid);
      assert Of([], pid) == [] by {
        ReplayNothing(Start(m), now, pid);
      }
    }
  }

  lemma RecoveryGenuine(m: Machine, now: int, pid: int)
    requires Inv(m) && Enabled(m, Crashes(now)) && pid >= 0 && pid in Recovered(m, now)
    ensures RingGenuine(Recovered(m, now)[pid], m.log, pid)
    ensures Of(m.log[m.active..], pid) == [] ==> RingGenuine(Recovered(m, now)[pid], m.log[..m.taken], pid)
  {
    hide Of, WellChained, PhaseOk, AllSeqOk, LastIs, Replayed, PidOk, SnapshotOk, RingGenuine, Recovered;
    var ps, c := Start(m), Of(m.log[m.active..], pid);
    RecoveredFromStart(m, now);
    ReplayIs(ps, m.log[m.active..], now, pid);
    if pid in ps {
      GenuineLater(ps[pid], m.log, m.taken, pid);
    }
    if c != [] {
      NewGenuine(c[0].epoch, m.log, pid);
      ReplayedGenuine(m, Recovered(m, now)[pid], Base(ps, pid, c), pid);
    }
  }

  lemma GenuineLater(p: Producer, log: seq<Entry>, n: nat, pid: int)
    requires n <= |log| && RingGenuine(p, log[..n], pid)
    ensures RingGenuine(p, log, pid)
  {
    forall j | 0 <= j < |p.ring| ensures SlotGenuine(p.ring[j], log, pid) {
      if p.ring[j] != EMPTY_SLOT {
        var f :| f in log[..n] && f.pid == pid && p.ring[j] == SlotOf(f);
        assert f in log;
      }
    }
  }

  lemma ReplayedGenuine(m: Machine, p: Producer, base: Producer, pid: int)
    requires m.active <= |m.log| && ReplayedTo(p, base, Of(m.log[m.active..], pid)) && RingGenuine(base, m.log, pid)
    ensures RingGenuine(p, m.log, pid)
  {
    hide Of, SlotGenuine, LastIs;
    var c := Of(m.log[m.active..], pid);
    forall j | 0 <= j < |p.ring| ensures SlotGenuine(p.ring[j], m.log, pid) {
      assert SlotFrom(p, base, c, j);
      if p.ring[j] != base.ring[j] {
        var k :| 0 <= k < |c| && p.ring[j] == SlotOf(c[k]);
        LoggedGenuine(m.log, m.active, pid, k);
      }
    }
  }

  lemma LoggedGenuine(log: seq<Entry>, a: nat, pid: int, k: nat)
    requires a <= |log| && k < |Of(log[a..], pid)|
    ensures SlotGenuine(SlotOf(Of(log[a..], pid)[k]), log, pid)
  {
    var e := Of(log[a..], pid)[k];
    OfMembers(log[a..], pid);
    hide Of;
    assert e in Of(log[a..], pid);
    assert e in log;
  }

  lemma KeptByCrashes(m: Machine, step: Step)
    requires Inv(m) && Enabled(m, step) && step.Crashes?
    ensures Inv(Next(m, step)) <==> forall pid :: !Misses(m, pid)
  {
    hide Of, WellChained, RingGenuine, Knows, Recovered, Misses;
    var m' := Next(m, step);
    RecoveryRings(m, step.now);
    OnlyNamedMissed(m);
    forall pid | pid >= 0
      ensures PidOk(m', pid) <==> !Misses(m, pid)
      ensures SnapshotOk(m', pid)
    {
      assert PidOk(m, pid) && SnapshotOk(m, pid);
      RecoveryKnows(m, step.now, pid);
    }
    forall pid | pid >= 0 && pid in m'.producers ensures RingGenuine(m'.producers[pid], m.log, pid) {
      RecoveryGenuine(m, step.now, pid);
    }
    if pid :| Misses(m, pid) {
      assert !PidOk(m', pid);
    }
  }

  lemma OnlyNamedMissed(m: Machine)
    ensures forall pid | Misses(m, pid) :: pid >= 0
  {
  }

  lemma RecoveryRings(m: Machine, now: int)
    requires Enabled(m, Crashes(now))
    ensures AllRingsOk(Recovered(m, now))
  {
  }

  // ---- Over whole runs ----

  /** Every step keeps the invariant, but for a crash that makes recovery miss a producer, and that one never does. */
  lemma StepKeeps(m: Machine, step: Step)
    requires Inv(m) && Enabled(m, step)
    ensures Inv(Next(m, step)) <==> (step.Crashes? ==> forall pid :: !Misses(m, pid))
  {
    hide *;
    match step
    case Gates(_, _) => KeptByGates(m, step);
    case Writes(_) => KeptByWrites(m, step);
    case Records(_) => KeptByRecords(m, step);
    case TakesSnapshot => KeptByTakesSnapshot(m, step);
    case Crashes(_) => KeptByCrashes(m, step);
  }

  lemma {:induction false} RunKeeps(states: seq<Machine>, steps: seq<Step>, i: nat)
    requires IsRun(states, steps) && NoCrashMisses(states, steps) && i < |states|
    ensures Inv(states[i])
  {
    hide Enabled, Next, Misses;
    if i > 0 {
      RunKeeps(states, steps, i - 1);
      StepKeeps(states[i - 1], steps[i - 1]);
    }
  }

  /** Exactly-once survives crashes: every producer's logged batches still form one chain per epoch. */
  lemma ChainsSurviveCrashes(states: seq<Machine>, steps: seq<Step>, i: nat, pid: nat)
    requires IsRun(states, steps) && NoCrashMisses(states, steps) && i < |states|
    ensures WellChained(Of(states[i].log, pid))
  {
    hide Enabled, Next, Misses;
    RunKeeps(states, steps, i);
    assert PidOk(states[i], pid);
  }

  /** A crash between requests loses nothing of what is known of a producer, exactly when recovery misses none of it. */
  lemma RecoveryIsExact(m: Machine, now: int, pid: nat)
    requires Inv(m) && m.phase.Ready? && Enabled(m, Crashes(now))
    ensures var r := Recovered(m, now);
            (if pid in r then pid in m.producers && SameLast(r[pid], m.producers[pid]) else pid !in m.producers)
            <==> !Misses(m, pid)
  {
    hide Of, Recovered, WellChained, SnapshotOk, PhaseOk, AllSeqOk;
    RecoveryKnows(m, now, pid);
    assert PidOk(m, pid);
    if Misses(m, pid) {
      MissedHasBatches(m, pid);
    }
  }

  predicate SameLast(p: Producer, q: Producer) {
    p.lastSeq == q.lastSeq && p.lastEpoch == q.lastEpoch && p.lastOffset == q.lastOffset
  }

  lemma MissedHasBatches(m: Machine, pid: int)
    requires Misses(m, pid)
    ensures Of(m.log, pid) != []
  {
    hide Of;
    assert m.log == m.log[..m.active] + m.log[m.active..] == m.log[..m.taken] + m.log[m.taken..];
    OfConcat(m.log[..m.taken], m.log[m.taken..], pid);
    if m.taken <= m.active {
      assert m.log[m.taken..] == m.log[m.taken..m.active] + m.log[m.active..];
      OfConcat(m.log[m.taken..m.active], m.log[m.active..], pid);
    } else {
      OfNone(pid);
    }
  }

  lemma OfNone(pid: int)
    ensures Of([], pid) == []
  {
  }

  /**
   What a recovered producer ends with: the last of its first batches, all of
   them unless recovery misses some; its ring holds no others.
   */
  lemma RecoveredEnd(m: Machine, now: int, pid: int) returns (n: nat)
    requires Inv(m) && Enabled(m, Crashes(now)) && pid >= 0 && pid in Recovered(m, now)
    ensures n <= |m.log| && Of(m.log[..n], pid) != []
    ensures var p, h := Recovered(m, now)[pid], Of(m.log[..n], pid);
            LastIs(p, h[|h| - 1]) && RingGenuine(p, m.log[..n], pid)
    ensures !Misses(m, pid) ==> n == |m.log|
  {
    hide Of, Recovered, WellChained, PhaseOk, AllSeqOk, PidOk, Placed, RingGenuine, LastIs, Replayed;
    RecoveryKnows(m, now, pid);
    RecoveryGenuine(m, now, pid);
    assert m.log[..|m.log|] == m.log;
    if Misses(m, pid) {
      n := m.taken;
      RecoveredFromStart(m, now);
      ReplayIs(Start(m), m.log[m.active..], now, pid);
      assert SnapshotOk(m, pid);
    } else {
      n := |m.log|;
    }
  }

  /** A producer's most recent batches of the active segment, up to five, are all back in its ring. */
  lemma RecentAreBack(m: Machine, now: int, pid: nat, k: nat) returns (j: nat)
    requires Inv(m) && Enabled(m, Crashes(now)) && InWindow(Of(m.log[m.active..], pid), k)
    ensures var r := Recovered(m, now);
            pid in r && j < |r[pid].ring| && r[pid].ring[j] == SlotOf(Of(m.log[m.active..], pid)[k])
  {
    hide Of, WellChained, Replayed, PhaseOk, AllSeqOk, PidOk, SnapshotOk;
    var ps := if m.snapshot.Some? then m.snapshot.value else map[];
    var c := Of(m.log[m.active..], pid);
    ReplayIs(ps, m.log[m.active..], now, pid);
    j := (Base(ps, pid, c).ringHead + k) % RING_SIZE;
  }

  /** No two of the batches start with the same sequence number: one epoch, no wrap. */
  predicate DistinctSequences(h: seq<Entry>) {
    forall i, j | 0 <= i < j < |h| :: h[i].firstSeq != h[j].firstSeq
  }

  lemma SameSequenceSameBatch(h: seq<Entry>, a: Entry, b: Entry)
    requires DistinctSequences(h) && a in h && b in h && a.firstSeq == b.firstSeq
    ensures a == b
  {
  }

  /** After a crash, a retry of such a batch is answered with the offset it was logged at. */
  lemma RetryAfterCrash(m: Machine, now: int, pid: nat, k: nat)
    requires Inv(m) && Enabled(m, Crashes(now)) && InWindow(Of(m.log[m.active..], pid), k)
    requires DistinctSequences(Of(m.log, pid))
    requires var h, e := Of(m.log, pid), Of(m.log[m.active..], pid)[k];
             h != [] && h[|h| - 1].epoch == e.epoch && e.firstSeq <= h[|h| - 1].lastSeq < MAX_INT32
    ensures var r, e := Recovered(m, now), Of(m.log[m.active..], pid)[k];
            pid in r && Judge(r[pid], e.epoch, e.firstSeq, e.lastSeq) == Duplicate(e.base)
  {
    hide Of, WellChained, Recovered, PhaseOk, PidOk, SnapshotOk, DistinctSequences, Lookup, SlotGenuine;
    var r, e, h := Recovered(m, now), Of(m.log[m.active..], pid)[k], Of(m.log, pid);
    RecoveryKnows(m, now, pid);
    RecoveryGenuine(m, now, pid);
    var j := RecentAreBack(m, now, pid, k);
    ActiveIsLogged(m, pid, k);
    assert Matches(r[pid].ring[j], e.firstSeq, e.lastSeq);
    var i := Lookup(r[pid].ring, e.firstSeq, e.lastSeq);
    var f := GenuineEntry(r[pid].ring[i], m.log, pid);
    SameSequenceSameBatch(h, e, f);
  }

  lemma GenuineEntry(slot: Slot, log: seq<Entry>, pid: int) returns (f: Entry)
    requires SlotGenuine(slot, log, pid) && slot.firstSeq >= 0
    ensures f in Of(log, pid) && slot == SlotOf(f)
  {
    OfMembers(log, pid);
    hide Of;
    f :| f in log && f.pid == pid && slot == SlotOf(f);
  }

  lemma ActiveIsLogged(m: Machine, pid: int, k: nat)
    requires AllSeqOk(m.log) && pid >= 0 && m.active <= |m.log| && k < |Of(m.log[m.active..], pid)|
    ensures Of(m.log[m.active..], pid)[k] in Of(m.log, pid) && SeqOk(Of(m.log[m.active..], pid)[k])
  {
    var e := Of(m.log[m.active..], pid)[k];
    OfMembers(m.log[m.active..], pid);
    OfMembers(m.log, pid);
    hide Of;
    assert e in Of(m.log[m.active..], pid);
    assert e in m.log;
  }

  /** A duplicate answered after a crash is a logged batch of that producer with those sequence numbers. */
  lemma DuplicateAfterCrash(m: Machine, now: int, r: Request) returns (f: Entry)
    requires Inv(m) && Enabled(m, Crashes(now)) && r.pid >= 0 && r.pid in Recovered(m, now)
    requires Judge(Recovered(m, now)[r.pid], r.epoch, r.firstSeq, r.lastSeq).Duplicate?
    ensures f in Of(m.log, r.pid) && f.firstSeq == r.firstSeq && f.lastSeq == r.lastSeq
    ensures Judge(Recovered(m, now)[r.pid], r.epoch, r.firstSeq, r.lastSeq) == Duplicate(f.base)
    ensures (forall e | e in Of(m.log, r.pid) :: e.epoch == f.epoch) ==> f.epoch == r.epoch
  {
    hide Of, WellChained, Recovered, PhaseOk, PidOk, SnapshotOk, SlotGenuine, Misses;
    var p := Recovered(m, now)[r.pid];
    RecoveryGenuine(m, now, r.pid);
    var i := Lookup(p.ring, r.firstSeq, r.lastSeq);
    f := GenuineEntry(p.ring[i], m.log, r.pid);
    var n := RecoveredEnd(m, now, r.pid);
    EarlierIsLogged(m.log, n, r.pid);
  }

  lemma EarlierIsLogged(log: seq<Entry>, n: nat, pid: int)
    requires n <= |log| && Of(log[..n], pid) != []
    ensures Of(log[..n], pid) <= Of(log, pid)
    ensures var h := Of(log[..n], pid); h[|h| - 1] in Of(log, pid)
  {
    hide Of;
    assert log == log[..n] + log[n..];
    OfConcat(log[..n], log[n..], pid);
    var h := Of(log[..n], pid);
    assert h[|h| - 1] == Of(log, pid)[|h| - 1];
  }
}
