/**
 Parked produce requests over runs of the commit protocol: each is answered at
 most once, success means the watermark passed it, and no wake-up is lost.
 */
module Waiters {
  import opened RecordBatch
  import opened CommitLogView
  import opened Purgatories
  import opened PartitionStates
  import opened CommitProtocol
  import opened ControlInvariant

  // ---- Each waiter is resolved at most once ----

  predicate ParkedOk(s: State) {
    && |s.outcomes| == |s.required|
    && Distinct(s.parked)
    && (forall w | w in s.parked :: w.id < |s.required| && w.required == s.required[w.id] && s.outcomes[w.id] == [])
  }

  /** A waiter has no outcome while parked, and exactly one after. */
  predicate OutcomeOk(s: State, id: nat)
    requires id < |s.outcomes| && id < |s.required|
  {
    && |s.outcomes[id]| <= 1
    && (s.outcomes[id] == [] ==> Ticket(id, s.required[id]) in s.parked)
    && (s.outcomes[id] == [Committed] ==> s.required[id] < s.part.hwm)
  }

  ghost predicate TicketInv(s: State) {
    && ParkedOk(s)
    && (forall id: nat | id < |s.required| :: OutcomeOk(s, id))
    && (forall id: nat | id < |s.required| :: OfBatch(s, s.required[id]) && s.required[id] < s.part.leo)
  }

  /** What was received stays received, and what is parked keeps its offset. */
  predicate OutcomesExtend(s: State, s': State) {
    && |s.outcomes| <= |s'.outcomes|
    && s.required <= s'.required
    && forall id | 0 <= id < |s.outcomes| :: s.outcomes[id] <= s'.outcomes[id]
  }

  lemma TicketsCompleted(s: State, step: Step, cfg: Config)
    requires ControlOk(s, cfg) && TicketInv(s) && Enabled(s, step, cfg) && step.Completes?
    ensures TicketInv(Next(s, step, cfg)) && OutcomesExtend(s, Next(s, step, cfg))
  {
    hide LogOk, AllBatches, IsrOk, StillWaiting, Distinct, Released, OfBatch;
    var s' := Next(s, step, cfg);
    var h := PcOf(s, step.t).hwm;
    StillWaitingKeeps(s.parked, RequiredOf, h);
    NonEmptyLog(s.log, cfg);
    SameBatches(s, s');
    forall w | w in s.parked ensures w.id in Released(s.parked, h) <==> w.required < h {
      ReleasedExactly(s, w, h);
    }
    forall id: nat | id < |s.required| ensures OutcomeOk(s', id) {
      assert OutcomeOk(s, id);
      if s.outcomes[id] != [] {
        NotReleased(s, id, h);
      }
    }
  }

  lemma SameBatches(s: State, s': State)
    requires s'.log == s.log
    ensures forall last | OfBatch(s, last) :: OfBatch(s', last)
  {
    forall last | OfBatch(s, last) ensures OfBatch(s', last) {
      var k :| EndsBatch(s, last, k);
      assert EndsBatch(s', last, k);
    }
  }

  lemma ReleasedExactly(s: State, w: Ticket, h: int)
    requires ParkedOk(s) && w in s.parked
    ensures w.id in Released(s.parked, h) <==> w.required < h
  {
  }

  lemma NotReleased(s: State, id: nat, h: int)
    requires ParkedOk(s) && id < |s.outcomes| && s.outcomes[id] != []
    ensures id !in Released(s.parked, h)
  {
  }

  lemma TicketsFailed(s: State, step: Step, cfg: Config)
    requires TicketInv(s) && Enabled(s, step, cfg) && step.Fails?
    ensures TicketInv(Next(s, step, cfg)) && OutcomesExtend(s, Next(s, step, cfg))
  {
    hide AllBatches, Distinct, OfBatch, Ids;
    var s' := Next(s, step, cfg);
    SameBatches(s, s');
    EmptyDistinct<Ticket>();
    forall id: nat | id < |s.required| ensures OutcomeOk(s', id) {
      assert OutcomeOk(s, id);
      ParkedIds(s, id);
      var was, now := s.outcomes[id], s'.outcomes[id];
      assert if was == [] then now[0].Failed? else now == was;
    }
  }

  lemma ParkedIds(s: State, id: nat)
    requires ParkedOk(s) && id < |s.required| && OutcomeOk(s, id)
    ensures id in Ids(s.parked) <==> s.outcomes[id] == []
  {
    assert Ticket(id, s.required[id]) in s.parked ==> id in Ids(s.parked);
  }

  lemma EmptyDistinct<W>()
    ensures Distinct<W>([])
  {
  }

  lemma TicketsParked(s: State, step: Step, cfg: Config)
    requires ControlOk(s, cfg) && TicketInv(s) && Enabled(s, step, cfg) && step.Parks?
    ensures TicketInv(Next(s, step, cfg)) && OutcomesExtend(s, Next(s, step, cfg))
  {
    hide LogOk, AllBatches, IsrOk, OfBatch;
    var s' := Next(s, step, cfg);
    SameBatches(s, s');
    NonEmptyLog(s.log, cfg);
    assert PcOk(s, PcOf(s, step.t));
    forall id: nat | id < |s'.required| ensures OutcomeOk(s', id) {
      if id < |s.required| {
        assert OutcomeOk(s, id);
      }
    }
  }

  lemma TicketsUntouched(s: State, step: Step, cfg: Config)
    requires ControlOk(s, cfg) && TicketInv(s) && Enabled(s, step, cfg)
    requires !step.Completes? && !step.Fails? && !step.Parks?
    ensures TicketInv(Next(s, step, cfg)) && OutcomesExtend(s, Next(s, step, cfg))
  {
    hide *;
    var s' := Next(s, step, cfg);
    StepKeepsControl(s, step, cfg);
    TicketFieldsSame(s, step, cfg);
    TicketsStay(s, s');
  }

  lemma TicketFieldsSame(s: State, step: Step, cfg: Config)
    requires Enabled(s, step, cfg)
    requires !step.Completes? && !step.Fails? && !step.Parks?
    ensures var s' := Next(s, step, cfg);
            s'.parked == s.parked && s'.required == s.required && s'.outcomes == s.outcomes
  {
    hide AllBatches, LogAppend, Rebase, Fetch, Advance, Shrink, Expand, Lagging, Returning;
  }

  lemma TicketsStay(s: State, s': State)
    requires TicketInv(s) && Extends(s, s')
    requires s'.parked == s.parked && s'.required == s.required && s'.outcomes == s.outcomes
    ensures TicketInv(s') && OutcomesExtend(s, s')
  {
    hide AllBatches, Distinct, OfBatch;
    forall id: nat | id < |s'.required| ensures OutcomeOk(s', id) && OfBatch(s', s'.required[id]) {
      assert OutcomeOk(s, id);
      OfBatchStays(s, s', s.required[id]);
    }
  }

  lemma StepKeepsTickets(s: State, step: Step, cfg: Config)
    requires ControlOk(s, cfg) && TicketInv(s) && Enabled(s, step, cfg)
    ensures TicketInv(Next(s, step, cfg)) && OutcomesExtend(s, Next(s, step, cfg))
  {
    hide *;
    match step
    case Completes(_) => TicketsCompleted(s, step, cfg);
    case Fails(_) => TicketsFailed(s, step, cfg);
    case Parks(_) => TicketsParked(s, step, cfg);
    case _ => TicketsUntouched(s, step, cfg);
  }

  // ---- No lost wake-up ----

  /**
   A thread at `pc` will still look at waiter `w` with a watermark above it, or
   has yet to read the watermark for it.
   */
  predicate Covers(pc: Pc, w: Ticket) {
    || (pc.MustComplete? && w.required < pc.hwm)
    || (pc.MustReadHwm? && pc.ticket == w)
  }

  ghost predicate Covered(s: State, w: Ticket) {
    exists t :: t in s.threads && Covers(s.threads[t], w)
  }

  ghost predicate WakeInv(s: State) {
    forall w | w in s.parked && w.required < s.part.hwm :: Covered(s, w)
  }

  /** A thread that did not cover `w` may move freely. */
  lemma StillCovered(s: State, s': State, t: nat, pc: Pc, w: Ticket)
    requires Covered(s, w) && s'.threads == s.threads[t := pc] && !Covers(PcOf(s, t), w)
    ensures Covered(s', w)
  {
    var u :| u in s.threads && Covers(s.threads[u], w);
    assert u != t;
    assert s'.threads[u] == s.threads[u];
  }

  lemma WakeByAdvances(s: State, step: Step, cfg: Config)
    requires WakeInv(s) && Enabled(s, step, cfg) && step.Advances?
    ensures WakeInv(Next(s, step, cfg))
  {
    hide IsrMinimum;
    var s' := Next(s, step, cfg);
    forall w | w in s'.parked && w.required < s'.part.hwm ensures Covered(s', w) {
      if s'.part.hwm > s.part.hwm {
        assert Covers(s'.threads[step.t], w);
      } else {
        StillCovered(s, s', step.t, s'.threads[step.t], w);
      }
    }
  }

  lemma WakeByCompletes(s: State, step: Step, cfg: Config)
    requires WakeInv(s) && Enabled(s, step, cfg) && step.Completes?
    ensures WakeInv(Next(s, step, cfg))
  {
    hide StillWaiting, Send, Released;
    var s' := Next(s, step, cfg);
    StillWaitingKeeps(s.parked, RequiredOf, PcOf(s, step.t).hwm);
    forall w | w in s'.parked && w.required < s'.part.hwm ensures Covered(s', w) {
      StillCovered(s, s', step.t, s'.threads[step.t], w);
    }
  }

  lemma WakeByParks(s: State, step: Step, cfg: Config)
    requires WakeInv(s) && Enabled(s, step, cfg) && step.Parks?
    ensures WakeInv(Next(s, step, cfg))
  {
    var s' := Next(s, step, cfg);
    forall w | w in s'.parked && w.required < s'.part.hwm ensures Covered(s', w) {
      if w in s.parked {
        StillCovered(s, s', step.t, s'.threads[step.t], w);
      } else {
        assert Covers(s'.threads[step.t], w);
      }
    }
  }

  lemma WakeByReadsHwm(s: State, step: Step, cfg: Config)
    requires WakeInv(s) && Enabled(s, step, cfg) && step.ReadsHwm?
    ensures WakeInv(Next(s, step, cfg))
  {
    var s' := Next(s, step, cfg);
    forall w | w in s'.parked && w.required < s'.part.hwm ensures Covered(s', w) {
      if Covers(PcOf(s, step.t), w) {
        assert Covers(s'.threads[step.t], w);
      } else {
        StillCovered(s, s', step.t, s'.threads[step.t], w);
      }
    }
  }

  lemma WakeByTheRest(s: State, step: Step, cfg: Config)
    requires WakeInv(s) && Enabled(s, step, cfg)
    requires !step.Advances? && !step.Completes? && !step.Parks? && !step.ReadsHwm?
    ensures WakeInv(Next(s, step, cfg))
  {
    hide AllBatches, LogAppend, Rebase, Fetch, Without, Lagging, Returning, Send;
    var s' := Next(s, step, cfg);
    assert s'.part.hwm == s.part.hwm;
    forall w | w in s'.parked && w.required < s'.part.hwm ensures Covered(s', w) {
      StillCovered(s, s', step.t, s'.threads[step.t], w);
    }
  }

  lemma StepKeepsWake(s: State, step: Step, cfg: Config)
    requires WakeInv(s) && Enabled(s, step, cfg)
    ensures WakeInv(Next(s, step, cfg))
  {
    hide *;
    match step
    case Advances(_) => WakeByAdvances(s, step, cfg);
    case Completes(_) => WakeByCompletes(s, step, cfg);
    case Parks(_) => WakeByParks(s, step, cfg);
    case ReadsHwm(_) => WakeByReadsHwm(s, step, cfg);
    case _ => WakeByTheRest(s, step, cfg);
  }

  // ---- Over whole runs ----

  lemma {:induction false} RunKeepsWaiters(states: seq<State>, steps: seq<Step>, i: nat, cfg: Config)
    requires IsRun(states, steps, cfg) && i < |states|
    ensures TicketInv(states[i]) && WakeInv(states[i])
  {
    hide ControlOk, Enabled, Next, TicketInv, WakeInv, OutcomesExtend;
    if i == 0 {
      NoWaitersYet(states[0], cfg);
    } else {
      RunKeepsWaiters(states, steps, i - 1, cfg);
      RunKeepsControl(states, steps, i - 1, cfg);
      StepKeepsTickets(states[i - 1], steps[i - 1], cfg);
      StepKeepsWake(states[i - 1], steps[i - 1], cfg);
    }
  }

  lemma NoWaitersYet(s: State, cfg: Config)
    requires Init(s, cfg)
    ensures TicketInv(s) && WakeInv(s)
  {
  }

  /**
   In every run a waiter's channel receives at most one value, and receives
   success only once the watermark has passed the waiter's offset.
   */
  lemma ResolvedAtMostOnce(states: seq<State>, steps: seq<Step>, i: nat, id: nat, cfg: Config)
    requires IsRun(states, steps, cfg) && i < |states| && id < |states[i].required|
    ensures |states[i].outcomes| == |states[i].required|
    ensures |states[i].outcomes[id]| <= 1
    ensures states[i].outcomes[id] == [] <==> Ticket(id, states[i].required[id]) in states[i].parked
    ensures states[i].outcomes[id] == [Committed] ==> states[i].required[id] < states[i].part.hwm
    ensures states[i].required[id] < states[i].part.leo
  {
    RunKeepsWaiters(states, steps, i, cfg);
    assert OutcomeOk(states[i], id);
  }

  /** What a waiter received is final. */
  lemma {:induction false} OutcomeIsFinal(states: seq<State>, steps: seq<Step>, i: nat, j: nat, id: nat, cfg: Config)
    requires IsRun(states, steps, cfg) && i <= j < |states| && id < |states[i].outcomes|
    ensures id < |states[j].outcomes| && states[i].outcomes[id] <= states[j].outcomes[id]
    ensures states[i].outcomes[id] != [] ==> states[j].outcomes[id] == states[i].outcomes[id]
    decreases j
  {
    hide ControlOk, Enabled, Next, Init;
    if i < j {
      OutcomeIsFinal(states, steps, i, j - 1, id, cfg);
      RunKeepsWaiters(states, steps, j - 1, cfg);
      RunKeepsWaiters(states, steps, j, cfg);
      RunKeepsControl(states, steps, j - 1, cfg);
      StepKeepsTickets(states[j - 1], steps[j - 1], cfg);
      assert OutcomeOk(states[j], id);
    }
  }

  /** When every thread is idle, no waiter below the watermark is still parked. */
  lemma NoLostWakeup(states: seq<State>, steps: seq<Step>, i: nat, cfg: Config)
    requires IsRun(states, steps, cfg) && i < |states|
    ensures forall w | w in states[i].parked && w.required < states[i].part.hwm :: Covered(states[i], w)
    ensures (forall t | t in states[i].threads :: states[i].threads[t].Idle?) ==>
              forall w | w in states[i].parked :: states[i].part.hwm <= w.required
  {
    RunKeepsWaiters(states, steps, i, cfg);
  }

  // ---- Nothing stalls ----

  /** The thread has changed what bounds the watermark and will still advance it. */
  predicate Owes(pc: Pc) {
    pc.MustAdvance? || (pc.Ticking? && pc.changed)
  }

  /** The watermark is as far as the LEO and all in-sync reports allow, or some thread will still advance it. */
  ghost predicate UpToDate(s: State) {
    || (exists t | t in s.threads :: Owes(s.threads[t]))
    || (forall h | AllReached(s.part, h) :: h <= s.part.hwm)
  }

  /** The step that advances takes the watermark exactly as far as they allow. */
  lemma AdvancesExactly(s: State, t: nat, cfg: Config)
    requires Enabled(s, Advances(t), cfg)
    ensures var s' := Next(s, Advances(t), cfg);
            && (forall h :: h <= s'.part.hwm <==> h <= s.part.hwm || AllReached(s.part, h))
            && (forall h :: AllReached(s'.part, h) <==> AllReached(s.part, h))
  {
    hide AllReached;
    AdvanceExactly(s.part);
    AdvancedSame(s.part);
  }

  /**
   An advance, with the release that follows it, resolves every parked waiter
   that the LEO and every in-sync report have passed.
   */
  lemma AdvanceReleases(s: State, t: nat, w: Ticket, s2: State, cfg: Config)
    requires Enabled(s, Advances(t), cfg) && AllReached(s.part, w.required + 1) && s.part.hwm <= w.required
    requires PcOf(s2, t) == PcOf(Next(s, Advances(t), cfg), t) && w in s2.parked && w.id < |s2.outcomes|
    ensures Enabled(s2, Completes(t), cfg)
    ensures var s3 := Next(s2, Completes(t), cfg);
            w !in s3.parked && s3.outcomes[w.id] == s2.outcomes[w.id] + [Committed]
  {
    hide AllReached, StillWaiting;
    AdvancesExactly(s, t, cfg);
    StillWaitingIs(s2.parked, PcOf(s2, t).hwm, w);
  }

  lemma {:induction false} StillWaitingIs(parked: seq<Ticket>, h: int, w: Ticket)
    ensures w in StillWaiting(parked, RequiredOf, h) <==> w in parked && h <= w.required
  {
    if parked != [] {
      StillWaitingIs(parked[..|parked| - 1], h, w);
      assert parked == parked[..|parked| - 1] + [parked[|parked| - 1]];
    }
  }

  lemma StepKeepsUpToDate(s: State, step: Step, cfg: Config)
    requires UpToDate(s) && Enabled(s, step, cfg)
    ensures UpToDate(Next(s, step, cfg))
  {
    hide AllReached, Advance, AllBatches, LogAppend, Rebase, Fetch, Without, Lagging, Returning, Send, StillWaiting;
    var s' := Next(s, step, cfg);
    if step.Advances? {
      AdvancesExactly(s, step.t, cfg);
    } else if step.RaisesLeo? || step.Reports? || (step.TickContinues? && PcOf(s', step.t) != Idle) {
      assert Owes(s'.threads[step.t]);
    } else {
      assert !Owes(PcOf(s, step.t)) && s'.part == s.part;
      if t :| t in s.threads && Owes(s.threads[t]) {
        assert t in s'.threads && s'.threads[t] == s.threads[t];
      }
    }
  }

  lemma {:induction false} RunKeepsUpToDate(states: seq<State>, steps: seq<Step>, i: nat, cfg: Config)
    requires IsRun(states, steps, cfg) && i < |states|
    ensures UpToDate(states[i])
  {
    hide Enabled, Next, UpToDate;
    if i == 0 {
      InitUpToDate(states[0], cfg);
    } else {
      RunKeepsUpToDate(states, steps, i - 1, cfg);
      StepKeepsUpToDate(states[i - 1], steps[i - 1], cfg);
    }
  }

  lemma InitUpToDate(s: State, cfg: Config)
    requires Init(s, cfg)
    ensures UpToDate(s)
  {
  }

  /**
   When every thread is idle, the watermark is exactly as far as the LEO and
   the in-sync reports have ever let it, and no waiter they have passed is parked.
   */
  lemma NothingStalls(states: seq<State>, steps: seq<Step>, i: nat, cfg: Config)
    requires IsRun(states, steps, cfg) && i < |states|
    requires forall t | t in states[i].threads :: states[i].threads[t].Idle?
    ensures forall h | AllReached(states[i].part, h) :: h <= states[i].part.hwm
    ensures forall w | w in states[i].parked :: !AllReached(states[i].part, w.required + 1)
  {
    hide Enabled, Next, Init, AllReached;
    RunKeepsUpToDate(states, steps, i, cfg);
    NoLostWakeup(states, steps, i, cfg);
  }
}
