/**
 Where crash recovery of the producer state falls short, and exactly when: a
 roll whose snapshot has not been written yet, a snapshot taken in the gap of
 an epoch change, and slots of an older epoch that a replay leaves in the ring.
 */
module RecoveryLimits {
  import opened Options
  import opened Bytes
  import opened Idempotence
  import opened ExactlyOnce
  import opened ProducerSnapshots
  import opened Recovery = ProducerRecovery

  // ---- How recovery comes to miss a producer ----

  /** The producer of the request in hand is forgotten, and has no batch in the active segment. */
  predicate BadGap(m: Machine)
    requires m.active <= |m.log|
  {
    InGap(m) && m.phase.request.pid >= 0 && Of(m.log[m.active..], m.phase.request.pid) == []
  }

  /** A new snapshot misses a producer exactly when it is taken in such a gap. */
  lemma SnapshotMissesExactly(m: Machine, pid: int)
    requires Recovery.Inv(m)
    ensures Enabled(m, TakesSnapshot)
    ensures Misses(Next(m, TakesSnapshot), pid) <==> BadGap(m) && m.phase.request.pid == pid
  {
    hide Of, Normalized, Recovery.PidOk, SnapshotOk, Genuine, AllSeqOk, Placed, WellFormed, Continues;
    OfNone(pid);
    var m' := Next(m, TakesSnapshot);
    assert m.taken <= m.active ==> m.log[m.active..m.active] == [];
    assert m'.log[..m'.taken] == RecordedLog(m);
    assert m'.taken >= m'.active && Between(m') == [];
    if m.phase.Logged? && m.phase.entry.pid == pid {
      OfStep(m.log[m.active..], pid);
    }
  }

  /**
   A roll makes recovery miss exactly the producers, other than the one that
   writes, that logged something since the snapshot, or that it had forgotten.
   */
  lemma RollMissesExactly(m: Machine, pid: int)
    requires Recovery.Inv(m) && Enabled(m, Writes(true))
    ensures Misses(Next(m, Writes(true)), pid) <==>
            && pid >= 0 && pid != m.phase.request.pid
            && (Of(m.log[m.taken..], pid) != [] || (m.forgot == Some(pid) && Of(m.log[..m.taken], pid) != []))
  {
    hide Of, Recovery.PidOk, SnapshotOk, Genuine, Placed, AllSeqOk, PhaseOk, AllRingsOk;
    var m' := Next(m, Writes(true));
    var e := m'.log[|m.log|];
    assert m'.log[m'.active..] == [e] == [] + [e] && Between(m') == m.log[m.taken..];
    assert m'.log[..m.taken] == m.log[..m.taken];
    OfNone(pid);
    OfAppend([], e, pid);
  }

  // ---- What follows from it ----

  /** The verdict on a request is the one its producer's logged history calls for. */
  predicate JudgedByLog(ps: Producers, m: Machine, r: Request, now: int) {
    VerdictOn(ps, r.pid, r.epoch, r.firstSeq, r.lastSeq, now).Accept? <==>
    Continues(Of(m.log, r.pid), Entry(r.pid, r.epoch, r.firstSeq, r.lastSeq, m.next))
  }

  /**
   The batches missed are hidden by a wrap: the last one the snapshot accounts
   for ends with the epoch and sequence number of the last one logged.
   */
  predicate HiddenByWrap(m: Machine, pid: int)
    requires m.taken <= |m.log|
  {
    var x, y := Of(m.log[..m.taken], pid), Of(m.log, pid);
    && m.forgot != Some(pid) && x != [] && y != []
    && x[|x| - 1].epoch == y[|y| - 1].epoch && x[|x| - 1].lastSeq == y[|y| - 1].lastSeq
  }

  /** A batch that does not continue the log, but that the recovered state takes for the next one. */
  function Again(ps: Producers, last: Entry): Request {
    if last.pid in ps then
      var p := ps[last.pid];
      var first := if p.lastSeq == MAX_INT32 then 0 else p.lastSeq + 1;
      Request(last.pid, p.lastEpoch, first, first)
    else Request(last.pid, if last.lastSeq == MAX_INT32 then last.epoch - 1 else last.epoch, 0, 0)
  }

  /**
   After a crash the gate judges every request by the log, exactly when
   recovery misses no producer, or only such that a wrap hides it.
   */
  lemma CrashSafeExactly(m: Machine, now: int)
    requires Recovery.Inv(m) && Enabled(m, Crashes(now))
    ensures var ps := Recovered(m, now);
            (forall r: Request, later: int | WellFormed(r) && r.pid >= 0 && !Expired(ps, r.pid, later) ::
               JudgedByLog(ps, m, r, later)) <==>
            (forall pid | Misses(m, pid) :: HiddenByWrap(m, pid))
  {
    hide Of, Recovered, VerdictOn, Continues, LastIs, WellChained, Genuine, SnapshotOk, Recovery.PidOk, PhaseOk;
    hide AllSeqOk, Placed, Misses, HiddenByWrap, Expired;
    var ps := Recovered(m, now);
    if pid :| Misses(m, pid) && !HiddenByWrap(m, pid) {
      OnlyNamedMissed(m);
      var later := NotExpired(ps, pid);
      var r := MissedIsMisjudged(m, now, pid, later);
    } else {
      forall r: Request, later: int | WellFormed(r) && r.pid >= 0 && !Expired(ps, r.pid, later)
        ensures JudgedByLog(ps, m, r, later)
      {
        ElseJudgedByLog(m, now, r, later);
      }
    }
  }

  lemma NotExpired(ps: Producers, pid: int) returns (later: int)
    ensures !Expired(ps, pid, later)
  {
    later := if pid in ps then ps[pid].lastTimestamp else 0;
  }

  lemma ElseJudgedByLog(m: Machine, now: int, r: Request, later: int)
    requires Recovery.Inv(m) && Enabled(m, Crashes(now)) && WellFormed(r) && r.pid >= 0
    requires !Expired(Recovered(m, now), r.pid, later) && (Misses(m, r.pid) ==> HiddenByWrap(m, r.pid))
    ensures JudgedByLog(Recovered(m, now), m, r, later)
  {
    hide Of, Recovered, VerdictOn, LastIs, WellChained, Genuine, SnapshotOk, Recovery.PidOk, PhaseOk;
    hide AllSeqOk, Placed, Misses, Expired;
    var ps, h, pid := Recovered(m, now), Of(m.log, r.pid), r.pid;
    var e := Entry(r.pid, r.epoch, r.firstSeq, r.lastSeq, m.next);
    RecoveryKnows(m, now, pid);
    if Misses(m, pid) {
      var x := Of(m.log[..m.taken], pid);
      MissedIsStale(m, now, pid);
      LoggedSeqOk(m, m.taken, pid);
      GateAdmits(ps, x, r, e, later);
    } else {
      if h != [] {
        LastOfHistory(m, pid);
      }
      GateAdmits(ps, h, r, e, later);
    }
  }

  lemma LoggedSeqOk(m: Machine, n: nat, pid: int)
    requires AllSeqOk(m.log) && pid >= 0 && n <= |m.log| && Of(m.log[..n], pid) != []
    ensures var h := Of(m.log[..n], pid); SeqOk(h[|h| - 1])
  {
    hide Of;
    assert m.log[0..n] == m.log[..n];
    var i := LastAt(m.log, 0, n, pid);
    OfPid(m.log[..n], pid);
  }

  lemma OfPid(log: seq<Entry>, pid: int)
    requires Of(log, pid) != []
    ensures var h := Of(log, pid); h[|h| - 1].pid == pid
  {
    var h := Of(log, pid);
    OfMembers(log, pid);
    hide Of;
    assert h[|h| - 1] in h;
  }

  /** A missed producer is known as the snapshot had it, or not at all. */
  lemma MissedIsStale(m: Machine, now: int, pid: int)
    requires Recovery.Inv(m) && Enabled(m, Crashes(now)) && Misses(m, pid)
    ensures m.forgot == Some(pid) || Of(m.log[..m.taken], pid) == [] ==> pid !in Recovered(m, now)
    ensures m.forgot != Some(pid) ==> Knows(Recovered(m, now), pid, Of(m.log[..m.taken], pid))
  {
    hide Of, LastIs, WellChained, Genuine, Recovery.PidOk, PhaseOk, AllSeqOk, Placed, Recovered, Replayed;
    RecoveredFromStart(m, now);
    ReplayIs(Start(m), m.log[m.active..], now, pid);
    assert SnapshotOk(m, pid);
    assert m.log[..0] == [];
    OfNone(pid);
  }

  lemma MissedIsMisjudged(m: Machine, now: int, pid: int, later: int) returns (r: Request)
    requires Recovery.Inv(m) && Enabled(m, Crashes(now)) && Misses(m, pid) && !HiddenByWrap(m, pid)
    requires !Expired(Recovered(m, now), pid, later)
    ensures Of(m.log, pid) != []
    ensures var h := Of(m.log, pid); r == Again(Recovered(m, now), h[|h| - 1]) && !Follows(h[|h| - 1], EntryAt(m, r))
    ensures r.pid == pid && WellFormed(r) && !JudgedByLog(Recovered(m, now), m, r, later)
    ensures VerdictOn(Recovered(m, now), r.pid, r.epoch, r.firstSeq, r.lastSeq, later).Accept?
  {
    hide Of, WellChained, Genuine, PhaseOk, AllSeqOk, Placed, Recovered, SnapshotOk, Judge;
    var ps := Recovered(m, now);
    MissedHasBatches(m, pid);
    var h := Of(m.log, pid);
    LastOfHistory(m, pid);
    OfPid(m.log, pid);
    MissedIsStale(m, now, pid);
    r := Again(ps, h[|h| - 1]);
    if pid in ps {
      var x := Of(m.log[..m.taken], pid);
      EarlierIsLogged(m.log, m.taken, pid);
      LoggedSeqOk(m, m.taken, pid);
      assert Recovery.PidOk(m, pid);
      EpochsRise(h, |x| - 1, |h| - 1);
      StaleAccepts(ps[pid], x[|x| - 1], h[|h| - 1], EntryAt(m, r));
    }
  }

  function EntryAt(m: Machine, r: Request): Entry {
    Entry(r.pid, r.epoch, r.firstSeq, r.lastSeq, m.next)
  }

  /** A state that ends with `x` accepts what comes after `x`, which does not come after the later `y`. */
  lemma StaleAccepts(p: Producer, x: Entry, y: Entry, e: Entry)
    requires LastIs(p, x) && SeqOk(x) && SeqOk(y) && x.epoch <= y.epoch
    requires x.epoch != y.epoch || x.lastSeq != y.lastSeq
    requires e.epoch == x.epoch && e.firstSeq == e.lastSeq == if x.lastSeq == MAX_INT32 then 0 else x.lastSeq + 1
    ensures Judge(p, e.epoch, e.firstSeq, e.lastSeq).Accept? && !Follows(y, e)
    ensures p.lastSeq == x.lastSeq && p.lastEpoch == x.epoch && 0 <= e.firstSeq <= MAX_INT32
  {
  }

  /** Then a batch that does not continue its producer's history is appended, and the history is no longer a chain. */
  lemma MissedCrashBreaks(m: Machine, now: int, pid: int, later: int)
    requires Recovery.Inv(m) && Enabled(m, Crashes(now)) && Misses(m, pid) && !HiddenByWrap(m, pid)
    requires !Expired(Recovered(m, now), pid, later)
    ensures Of(m.log, pid) != []
    ensures var h, m1 := Of(m.log, pid), Next(m, Crashes(now));
            var again := Again(Recovered(m, now), h[|h| - 1]);
            && again.pid == pid && Enabled(m1, Gates(again, later))
            && var m2 := Next(m1, Gates(again, later));
            && Enabled(m2, Writes(false))
            && !WellChained(Of(Next(m2, Writes(false)).log, pid))
  {
    hide Of, Recovered, WellChained, Genuine, SnapshotOk, PhaseOk, AllSeqOk, Placed, Recovery.PidOk, Misses,
         HiddenByWrap;
    hide VerdictOn, Expired, Again;
    RecoveryRings(m, now);
    var again := MissedIsMisjudged(m, now, pid, later);
    var h, e := Of(m.log, pid), EntryAt(m, again);
    ForgetsOne(Recovered(m, now), again, later);
    OfAppend(m.log, e, pid);
    BrokenChain(h, e);
  }

  lemma ForgetsOne(ps: Producers, r: Request, now: int)
    requires AllRingsOk(ps)
    ensures AllRingsOk(Forgotten(ps, r.pid, r.epoch, r.firstSeq, now))
  {
  }

  lemma BrokenChain(h: seq<Entry>, e: Entry)
    requires h != [] && !Follows(h[|h| - 1], e)
    ensures !WellChained(h + [e])
  {
    assert !ChainedAt(h + [e], |h|);
  }

  // ---- Runs that show it ----

  lemma RunExtends(states: seq<Machine>, steps: seq<Step>, step: Step)
    returns (states': seq<Machine>, steps': seq<Step>)
    requires Recovery.IsRun(states, steps) && Enabled(states[|steps|], step)
    ensures states' == states + [Next(states[|steps|], step)] && steps' == steps + [step]
    ensures Recovery.IsRun(states', steps')
    ensures |states'| == |steps'| + 1
  {
    hide Enabled, Next;
    states', steps' := states + [Next(states[|steps|], step)], steps + [step];
    forall i | 0 <= i < |steps'|
      ensures Enabled(states'[i], steps'[i]) && states'[i + 1] == Next(states'[i], steps'[i])
    {
      if i < |steps| {
        assert states'[i] == states[i] && states'[i + 1] == states[i + 1] && steps'[i] == steps[i];
      }
    }
  }

  lemma FreshRun()
    ensures Recovery.IsRun([FRESH], [])
  {
  }

  /** One request gated, written and recorded. */
  lemma RunProduces(states: seq<Machine>, steps: seq<Step>, r: Request, rolls: bool, now: int)
    returns (states': seq<Machine>, steps': seq<Step>)
    requires Recovery.IsRun(states, steps) && Enabled(states[|steps|], Gates(r, now)) && r.pid >= 0
    requires VerdictOn(states[|steps|].producers, r.pid, r.epoch, r.firstSeq, r.lastSeq, now).Accept?
    ensures Recovery.IsRun(states', steps') && |states'| == |steps'| + 1 && |steps'| == |steps| + 3
    ensures states <= states' && steps <= steps'
    ensures forall i | |steps| <= i < |steps'| :: !steps'[i].Crashes?
    ensures steps'[|steps'| - 1] == Records(now)
    ensures var m, m' := states[|steps|], states'[|steps'|];
            var e := Entry(r.pid, r.epoch, r.firstSeq, r.lastSeq, m.next);
            var ps := Forgotten(m.producers, r.pid, r.epoch, r.firstSeq, now);
            && AllRingsOk(ps)
            && m' == Machine(Recorded(ps, e.pid, e.epoch, e.firstSeq, e.lastSeq, e.base, now), m.log + [e],
                             m.next + e.Count(), if rolls then |m.log| else m.active, m.snapshot, Ready,
                             m.taken, m.forgot)
  {
    hide Judge, Of, VerdictOn;
    var s1, t1 := RunExtends(states, steps, Gates(r, now));
    var s2, t2 := RunExtends(s1, t1, Writes(rolls));
    states', steps' := RunExtends(s2, t2, Records(now));
  }

  /** Producer `p` logs a batch, then `q` logs one that rolls the segment. */
  lemma TwoSegments(p: nat, q: nat, now: int) returns (states: seq<Machine>, steps: seq<Step>)
    requires p != q
    ensures Recovery.IsRun(states, steps) && |steps| == 6 && |states| == 7 && NoCrashMisses(states, steps)
    ensures steps[5] == Records(now) && Enabled(states[6], Crashes(now))
    ensures var first, second := Entry(p, 0, 0, 1, 0), Entry(q, 0, 0, 0, 2);
            && states[6] == Machine(map[p := RecordIn(NewProducer(0), 0, 0, 1, 0, now),
                                        q := RecordIn(NewProducer(0), 0, 0, 0, 2, now)],
                                    [first, second], 3, 1, None, Ready, 0, None)
  {
    hide Recovery.IsRun, Misses;
    FreshRun();
    var s1, t1 := RunProduces([FRESH], [], Request(p, 0, 0, 1), false, now);
    states, steps := RunProduces(s1, t1, Request(q, 0, 0, 0), true, now);
    assert forall i | 0 <= i < 3 :: steps[i] == t1[i];
  }

  /** A run that ends with a snapshot in the gap: `p` bumps its epoch after the roll, and the snapshot comes next. */
  lemma GapSnapshotReachable(p: nat, q: nat, now: int) returns (states: seq<Machine>, steps: seq<Step>)
    requires p != q
    ensures Recovery.IsRun(states, steps) && NoCrashMisses(states, steps) && steps != []
    ensures steps[|steps| - 1] == TakesSnapshot
    ensures Misses(states[|steps|], p) && !HiddenByWrap(states[|steps|], p)
  {
    hide Recovery.IsRun, Normalized;
    var s1, t1 := TwoSegments(p, q, now);
    var m := s1[6];
    OneEach(p, q, m.log[0], m.log[1]);
    var s2, t2 := RunExtends(s1, t1, Gates(Request(p, 1, 0, 0), now));
    states, steps := RunExtends(s2, t2, TakesSnapshot);
    assert m.log[m.active..] == [m.log[1]] && m.log[..2] == m.log;
    NoNewCrash(s1, t1, states, steps);
  }

  /**
   A run with a crash between a roll and its snapshot: the batch that `p`
   logged before the roll is accepted and appended a second time.
   */
  lemma RollCrashBreaks(p: nat, q: nat, now: int) returns (states: seq<Machine>, steps: seq<Step>)
    requires p != q
    ensures Recovery.IsRun(states, steps) && |steps| == 9 && steps[5] == Records(now) && steps[6] == Crashes(now)
    ensures states[6].active == 1 && states[6].snapshot.None? && Misses(states[6], p)
    ensures Of(states[9].log, p) == [Entry(p, 0, 0, 1, 0), Entry(p, 0, 0, 1, 3)] && !WellChained(Of(states[9].log, p))
  {
    hide Recovery.IsRun, RecordIn, Replayed, Of, Misses, WellChained;
    var s1, t1 := TwoSegments(p, q, now);
    var m, again := s1[6], Entry(p, 0, 0, 1, 3);
    LostByRoll(m, p, q, now);
    RecoveryRings(m, now);
    var s2, t2 := RunExtends(s1, t1, Crashes(now));
    var s3, t3 := RunExtends(s2, t2, Gates(Request(p, 0, 0, 1), now));
    states, steps := RunExtends(s3, t3, Writes(false));
    OfAppend(m.log, again, p);
    BrokenChain(Of(m.log, p), again);
  }

  lemma LostByRoll(m: Machine, p: nat, q: nat, now: int)
    requires p != q && m.active == 1 && m.snapshot.None? && m.taken == 0 && m.forgot.None?
    requires |m.log| == 2 && m.log[0].pid == p && m.log[1].pid == q
    ensures Misses(m, p) && p !in Recovered(m, now) && Of(m.log, p) == [m.log[0]]
  {
    hide Replayed, Of;
    OneEach(p, q, m.log[0], m.log[1]);
    assert m.log == [m.log[0], m.log[1]] && m.log[1..] == [m.log[1]] && m.log[0..1] == [m.log[0]] == [] + [m.log[0]];
    OfNone(p);
    OfAppend([], m.log[0], p);
    ReplayIs(map[], [m.log[1]], now, p);
  }

  lemma OneEach(p: int, q: int, a: Entry, b: Entry)
    requires p != q && a.pid == p && b.pid == q
    ensures Of([a, b], p) == [a] && Of([b], p) == []
  {
    OfAppend([], a, p);
    OfAppend([], b, p);
    OfAppend([a], b, p);
    assert [] + [a] == [a] && [] + [b] == [b] && [a] + [b] == [a, b];
  }

  lemma NoNewCrash(states: seq<Machine>, steps: seq<Step>, states': seq<Machine>, steps': seq<Step>)
    requires NoCrashMisses(states, steps) && states <= states' && steps <= steps' && |states| == |steps| + 1
    requires forall i | |steps| <= i < |steps'| :: !steps'[i].Crashes?
    ensures NoCrashMisses(states', steps')
  {
    hide Misses;
    forall i | 0 <= i < |steps'| && i < |states'| && steps'[i].Crashes? ensures forall pid :: !Misses(states'[i], pid) {
      assert i < |steps| && steps'[i] == steps[i] && states'[i] == states[i];
    }
  }

  // ---- Slots of an older epoch ----

  /** The slot holds a batch of the history `h` that is older than epoch `epoch`. */
  predicate Older(slot: Slot, h: seq<Entry>, epoch: int) {
    slot.firstSeq >= 0 && exists f | f in h :: f.epoch < epoch && slot == SlotOf(f)
  }

  /** Slot `j` is such a slot, its numbers are behind the last ones, and no slot before it has the same numbers. */
  predicate StaleAt(p: Producer, h: seq<Entry>, epoch: int, j: int) {
    && 0 <= j < |p.ring| && Older(p.ring[j], h, epoch)
    && p.ring[j].firstSeq <= p.lastSeq < MAX_INT32
    && Lookup(p.ring, p.ring[j].firstSeq, p.ring[j].lastSeq) == j
  }

  /** A batch of epoch `epoch` is answered with the offset of the older batch `f`. */
  predicate AnsweredBy(p: Producer, epoch: int, firstSeq: int, lastSeq: int, h: seq<Entry>, f: Entry) {
    f in h && f.epoch < epoch && Judge(p, epoch, firstSeq, lastSeq) == Duplicate(f.base)
  }

  /**
   After a crash, some batch of the producer's last epoch is answered with an
   older epoch's offset exactly when the recovered ring has such a slot.
   */
  lemma OldEpochAnswersExactly(m: Machine, now: int, pid: nat)
    requires Recovery.Inv(m) && Enabled(m, Crashes(now)) && pid in Recovered(m, now)
    ensures var p, h := Recovered(m, now)[pid], Of(m.log, pid);
            && h != [] && (!Misses(m, pid) ==> p.lastEpoch == h[|h| - 1].epoch)
            && ((exists first, last, f :: AnsweredBy(p, p.lastEpoch, first, last, h, f)) <==>
                (exists j :: StaleAt(p, h, p.lastEpoch, j)))
  {
    hide Of, Recovered, WellChained, Placed, AllSeqOk, PhaseOk, Recovery.PidOk, SnapshotOk, SlotGenuine, Judge,
         RingGenuine, Misses;
    var p, h := Recovered(m, now)[pid], Of(m.log, pid);
    var n := RecoveredEnd(m, now, pid);
    assert m.log[..|m.log|] == m.log;
    EarlierIsLogged(m.log, n, pid);
    LoggedSeqOk(m, n, pid);
    RecoveryGenuine(m, now, pid);
    if first, last, f :| AnsweredBy(p, p.lastEpoch, first, last, h, f) {
      StaleFromAnswer(m, p, pid, first, last, f);
      assert StaleAt(p, h, p.lastEpoch, Lookup(p.ring, first, last));
    }
    if j :| StaleAt(p, h, p.lastEpoch, j) {
      var f :| f in h && f.epoch < p.lastEpoch && p.ring[j] == SlotOf(f);
      JudgedStale(p, p.lastEpoch, j);
      assert AnsweredBy(p, p.lastEpoch, f.firstSeq, f.lastSeq, h, f);
    }
  }

  lemma JudgedStale(p: Producer, epoch: int, j: nat)
    requires j < |p.ring| && p.lastEpoch == epoch && p.ring[j].firstSeq <= p.lastSeq < MAX_INT32
    requires Lookup(p.ring, p.ring[j].firstSeq, p.ring[j].lastSeq) == j
    ensures Judge(p, epoch, p.ring[j].firstSeq, p.ring[j].lastSeq) == Duplicate(p.ring[j].baseOffset)
  {
  }

  lemma StaleFromAnswer(m: Machine, p: Producer, pid: nat, first: int, last: int, f: Entry)
    requires Placed(m.log, m.next) && RingGenuine(p, m.log, pid) && p.lastSeq <= MAX_INT32
    requires AnsweredBy(p, p.lastEpoch, first, last, Of(m.log, pid), f)
    ensures StaleAt(p, Of(m.log, pid), p.lastEpoch, Lookup(p.ring, first, last))
  {
    hide Of, Placed, Lookup;
    var k := Lookup(p.ring, first, last);
    assert k < |p.ring| && p.ring[k].firstSeq == first && p.ring[k].lastSeq == last;
    var g := GenuineEntry(p.ring[k], m.log, pid);
    SameBaseSameEntry(m.log, m.next, pid, f, g);
  }

  lemma SameBaseSameEntry(log: seq<Entry>, next: int, pid: int, f: Entry, g: Entry)
    requires Placed(log, next) && f in Of(log, pid) && g in Of(log, pid) && f.base == g.base
    ensures f == g
  {
    OfMembers(log, pid);
    hide Of;
    var i :| 0 <= i < |log| && log[i] == f;
    var j :| 0 <= j < |log| && log[j] == g;
    assert log[i].Count() >= 1 && log[j].Count() >= 1;
    assert i == j;
  }

  lemma {:induction false} EpochsRise(h: seq<Entry>, i: nat, j: nat)
    requires WellChained(h) && i <= j < |h|
    ensures h[i].epoch <= h[j].epoch
  {
    if i < j {
      EpochsRise(h, i, j - 1);
      assert ChainedAt(h, j);
    }
  }

  /** The batch a duplicate is answered with is of the request's own epoch, unless the slot found is such a slot. */
  lemma DuplicateEpochExactly(m: Machine, now: int, r: Request) returns (f: Entry)
    requires Recovery.Inv(m) && Enabled(m, Crashes(now)) && r.pid >= 0 && r.pid in Recovered(m, now)
    requires Judge(Recovered(m, now)[r.pid], r.epoch, r.firstSeq, r.lastSeq).Duplicate?
    ensures var p, h := Recovered(m, now)[r.pid], Of(m.log, r.pid);
            && f in h && f.firstSeq == r.firstSeq && f.lastSeq == r.lastSeq
            && Judge(p, r.epoch, r.firstSeq, r.lastSeq) == Duplicate(f.base)
            && if StaleAt(p, h, r.epoch, Lookup(p.ring, r.firstSeq, r.lastSeq)) then f.epoch < r.epoch
               else f.epoch == r.epoch
  {
    hide Of, Recovered, WellChained, Placed, AllSeqOk, PhaseOk, SnapshotOk, SlotGenuine, RingGenuine, Lookup, Misses;
    f := DuplicateAfterCrash(m, now, r);
    var p, h := Recovered(m, now)[r.pid], Of(m.log, r.pid);
    var k := Lookup(p.ring, r.firstSeq, r.lastSeq);
    var n := RecoveredEnd(m, now, r.pid);
    LoggedSeqOk(m, n, r.pid);
    RecoveryGenuine(m, now, r.pid);
    assert Recovery.PidOk(m, r.pid);
    NotNewer(m, n, p, r.pid, k, f);
    if f.epoch < r.epoch {
      StaleFromAnswer(m, p, r.pid, r.firstSeq, r.lastSeq, f);
    } else if StaleAt(p, h, r.epoch, k) {
      var g :| g in h && g.epoch < r.epoch && p.ring[k] == SlotOf(g);
      SameBaseSameEntry(m.log, m.next, r.pid, f, g);
    }
  }

  /** No slot is of a newer epoch than the batch its producer ends with. */
  lemma NotNewer(m: Machine, n: nat, p: Producer, pid: int, k: nat, f: Entry)
    requires n <= |m.log| && Of(m.log[..n], pid) != [] && WellChained(Of(m.log, pid)) && Placed(m.log, m.next)
    requires var h := Of(m.log[..n], pid); LastIs(p, h[|h| - 1]) && RingGenuine(p, m.log[..n], pid)
    requires k < |p.ring| && p.ring[k].firstSeq >= 0 && f in Of(m.log, pid) && p.ring[k].baseOffset == f.base
    ensures f.epoch <= p.lastEpoch
  {
    hide Of, WellChained, Placed, SlotGenuine;
    var part, h := Of(m.log[..n], pid), Of(m.log, pid);
    EarlierIsLogged(m.log, n, pid);
    var g := GenuineEntry(p.ring[k], m.log[..n], pid);
    var i: nat :| i < |part| && part[i] == g;
    assert h[i] == g && h[i] in h;
    SameBaseSameEntry(m.log, m.next, pid, f, g);
    EpochsRise(h, i, |part| - 1);
  }

  /** The slot that the batch after `d` more is recorded in. */
  function SlotAfter(p: Producer, d: nat): Slot
    requires RingOk(p)
  {
    p.ring[(p.ringHead + d) % RING_SIZE]
  }

  /** What the replay started from holds such a slot, at a place no replayed batch reached. */
  predicate LeftOver(base: Producer, n: nat, h: seq<Entry>, epoch: int)
    requires RingOk(base)
  {
    exists d | n <= d < RING_SIZE :: Older(SlotAfter(base, d), h, epoch)
  }

  /** One of the last five replayed batches is older than the last one's epoch. */
  predicate ReplayedOld(c: seq<Entry>, h: seq<Entry>, epoch: int) {
    exists k | 0 <= k < |c| && |c| - RING_SIZE <= k :: Older(SlotOf(c[k]), h, epoch)
  }

  /**
   Such slots remain exactly when the epoch began among the last five batches
   of the active segment, or when fewer than five were replayed and the
   snapshot's ring, counted from its head, holds one at a place not reached.
   */
  lemma OlderRemainsExactly(m: Machine, now: int, pid: nat)
    requires Recovery.Inv(m) && Enabled(m, Crashes(now)) && pid in Recovered(m, now)
    ensures var p, h, c := Recovered(m, now)[pid], Of(m.log, pid), Of(m.log[m.active..], pid);
            var snap, epoch := Start(m), p.lastEpoch;
            (exists j | 0 <= j < RING_SIZE :: j < |p.ring| && Older(p.ring[j], h, epoch)) <==>
            ReplayedOld(c, h, epoch) || (pid in snap && LeftOver(snap[pid], |c|, h, epoch))
  {
    hide Of, Recovered, WellChained, Placed, AllSeqOk, PhaseOk, Recovery.PidOk, SnapshotOk, SlotGenuine, RingGenuine,
         Older;
    var p, h, c := Recovered(m, now)[pid], Of(m.log, pid), Of(m.log[m.active..], pid);
    var epoch, ps := p.lastEpoch, Start(m);
    RecoveredFromStart(m, now);
    ReplayIs(ps, m.log[m.active..], now, pid);
    if c == [] {
      AllPlaces(ps[pid], h, epoch);
    } else {
      var base := Base(ps, pid, c);
      RingAfter(p, base, c, h, epoch);
      if pid !in ps {
        NothingOlder(c[0].epoch, |c|, h, epoch);
      }
    }
  }

  lemma NothingOlder(first: int, n: nat, h: seq<Entry>, epoch: int)
    ensures RingOk(NewProducer(first)) && !LeftOver(NewProducer(first), n, h, epoch)
  {
    assert forall d: nat :: SlotAfter(NewProducer(first), d) == EMPTY_SLOT;
  }

  lemma AllPlaces(p: Producer, h: seq<Entry>, epoch: int)
    requires RingOk(p)
    ensures LeftOver(p, 0, h, epoch) <==> exists j | 0 <= j < RING_SIZE :: Older(p.ring[j], h, epoch)
  {
    hide Older;
    if j :| 0 <= j < RING_SIZE && Older(p.ring[j], h, epoch) {
      var d := Place(p.ringHead, 0, j);
      assert Older(SlotAfter(p, d), h, epoch);
    }
  }

  /** Every slot is a place not reached, or that of one of the last five batches. */
  lemma Place(head: int, n: nat, j: int) returns (d: int)
    requires 0 <= head < RING_SIZE && 0 <= j < RING_SIZE
    ensures d >= 0 && (head + d) % RING_SIZE == j
    ensures (n <= d < RING_SIZE) || (n - RING_SIZE <= d < n)
  {
    d := (j - head) % RING_SIZE;
    if d < n {
      d := n - 1 - (n - 1 - d) % RING_SIZE;
    }
  }

  lemma RingAfter(p: Producer, base: Producer, c: seq<Entry>, h: seq<Entry>, epoch: int)
    requires ReplayedTo(p, base, c)
    ensures (exists j | 0 <= j < RING_SIZE :: Older(p.ring[j], h, epoch)) <==>
            ReplayedOld(c, h, epoch) || LeftOver(base, |c|, h, epoch)
  {
    hide Older, ReplayedTo, ReplayedOld, LeftOver;
    RingOkAfter(p, base, c);
    if j :| 0 <= j < RING_SIZE && Older(p.ring[j], h, epoch) {
      OlderFrom(p, base, c, h, epoch, j);
    }
    if ReplayedOld(c, h, epoch) || LeftOver(base, |c|, h, epoch) {
      var j := OlderStays(p, base, c, h, epoch);
    }
  }

  lemma RingOkAfter(p: Producer, base: Producer, c: seq<Entry>)
    requires ReplayedTo(p, base, c)
    ensures RingOk(p) && RingOk(base)
  {
  }

  lemma OlderFrom(p: Producer, base: Producer, c: seq<Entry>, h: seq<Entry>, epoch: int, j: int)
    requires ReplayedTo(p, base, c) && 0 <= j < RING_SIZE && Older(p.ring[j], h, epoch)
    ensures ReplayedOld(c, h, epoch) || LeftOver(base, |c|, h, epoch)
  {
    hide Older, SlotFrom, LastIs;
    var d := Place(base.ringHead, |c|, j);
    if d >= |c| {
      KeptPlace(p, base, c, d);
      assert Older(SlotAfter(base, d), h, epoch);
    } else {
      assert Older(SlotOf(c[d]), h, epoch);
    }
  }

  lemma OlderStays(p: Producer, base: Producer, c: seq<Entry>, h: seq<Entry>, epoch: int) returns (j: int)
    requires ReplayedTo(p, base, c) && (ReplayedOld(c, h, epoch) || LeftOver(base, |c|, h, epoch))
    ensures 0 <= j < RING_SIZE && Older(p.ring[j], h, epoch)
  {
    hide Older, SlotFrom, LastIs, Untouched;
    if ReplayedOld(c, h, epoch) {
      var k :| 0 <= k < |c| && |c| - RING_SIZE <= k && Older(SlotOf(c[k]), h, epoch);
      j := (base.ringHead + k) % RING_SIZE;
    } else {
      var d :| |c| <= d < RING_SIZE && Older(SlotAfter(base, d), h, epoch);
      KeptPlace(p, base, c, d);
      j := (base.ringHead + d) % RING_SIZE;
    }
  }

  lemma KeptPlace(p: Producer, base: Producer, c: seq<Entry>, d: nat)
    requires ReplayedTo(p, base, c) && |c| <= d < RING_SIZE
    ensures SlotAfter(base, d) == p.ring[(base.ringHead + d) % RING_SIZE]
  {
    assert Untouched(p, base, d);
  }

  lemma ReplayTwo(ps: Producers, a: Entry, b: Entry, now: int)
    requires AllRingsOk(ps) && a.pid >= 0 && b.pid >= 0
    ensures var one := Recorded(ps, a.pid, a.epoch, a.firstSeq, a.lastSeq, a.base, now);
            && AllRingsOk(one)
            && Replayed(ps, [a, b], now) == Recorded(one, b.pid, b.epoch, b.firstSeq, b.lastSeq, b.base, now)
  {
    assert [a, b][..1] == [a] && [a][..0] == [];
    assert Replayed(ps, [a], now) == Recorded(ps, a.pid, a.epoch, a.firstSeq, a.lastSeq, a.base, now);
  }

  lemma NothingMissed(m: Machine)
    requires m.active <= m.taken && m.forgot.None?
    ensures forall pid :: !Misses(m, pid)
  {
    assert m.active <= |m.log| ==> Between(m) == [];
  }

  /** A ring read from a snapshot keeps its old slot; one begun anew with the epoch has none. */
  lemma StaleRing(now: int)
    ensures var before := Normalized(RecordIn(NewProducer(0), 0, 0, 1, 0, now));
            && RingOk(before) && RingOk(NewProducer(1))
            && Judge(RecordIn(before, 1, 0, 0, 3, now), 1, 0, 1) == Duplicate(0)
            && Judge(RecordIn(NewProducer(1), 1, 0, 0, 3, now), 1, 0, 1) == Reject(DUPLICATE_SEQUENCE_NUMBER)
  {
    var before := RecordIn(NewProducer(0), 0, 0, 1, 0, now);
    NewTracks(Entry(0, 0, 0, 1, 0), now);
    NormalizedExactly(before, [Entry(0, 0, 0, 1, 0)]);
    var after := RecordIn(before, 1, 0, 0, 3, now);
    assert after.ring[0] == Slot(0, 1, 0, -1);
    var anew := RecordIn(NewProducer(1), 1, 0, 0, 3, now);
    assert forall j | 0 <= j < RING_SIZE :: !Matches(anew.ring[j], 0, 1);
  }

  /** Producer `p` changes its epoch after the roll and its snapshot. */
  lemma EpochChange(p: nat, q: nat, now: int) returns (states: seq<Machine>, steps: seq<Step>)
    requires p != q
    ensures Recovery.IsRun(states, steps) && |steps| == 10 && |states| == 11 && NoCrashMisses(states, steps)
    ensures Enabled(states[10], Crashes(now))
    ensures var was :=
              map[p := RecordIn(NewProducer(0), 0, 0, 1, 0, now), q := RecordIn(NewProducer(0), 0, 0, 0, 2, now)];
            && AllRingsOk(was)
            && states[10] == Machine(was[p := RecordIn(NewProducer(1), 1, 0, 0, 3, now)],
                                     [Entry(p, 0, 0, 1, 0), Entry(q, 0, 0, 0, 2), Entry(p, 1, 0, 0, 3)], 4, 1,
                                     Some(NormalizedProducers(was)), Ready, 2, None)
  {
    hide Recovery.IsRun, Misses, Normalized, Lookup;
    var s1, t1 := TwoSegments(p, q, now);
    var s2, t2 := RunExtends(s1, t1, TakesSnapshot);
    states, steps := RunProduces(s2, t2, Request(p, 1, 0, 0), false, now);
    NoNewCrash(s1, t1, states, steps);
  }

  /**
   A run that shows it: after the crash a batch never sent in the new epoch is
   answered with the offset of one from the old, where the state before the
   crash refuses it.
   */
  lemma OldEpochSlotAnswers(p: nat, q: nat, now: int) returns (states: seq<Machine>, steps: seq<Step>)
    requires p != q
    ensures Recovery.IsRun(states, steps) && NoCrashMisses(states, steps) && steps != []
    ensures steps[|steps| - 1] == Crashes(now)
    ensures var m, m' := states[|steps| - 1], states[|steps|];
            && p in m.producers && Judge(m.producers[p], 1, 0, 1) == Reject(DUPLICATE_SEQUENCE_NUMBER)
            && p in m'.producers && Judge(m'.producers[p], 1, 0, 1) == Duplicate(0)
  {
    hide Recovery.IsRun, Misses, RecordIn, NewProducer, Judge, Replayed;
    StaleRing(now);
    var s1, t1 := EpochChange(p, q, now);
    var m := s1[10];
    assert m.log[m.active..] == [m.log[1], m.log[2]];
    ReplayTwo(m.snapshot.value, m.log[1], m.log[2], now);
    states, steps := RunExtends(s1, t1, Crashes(now));
    NothingMissed(m);
    assert forall i | 0 <= i < |t1| :: steps[i] == t1[i] && states[i] == s1[i];
  }
}
