/**
 What every step of the commit protocol keeps, whatever followers are sent: a
 gap-free log, a watermark within the LEO within the log, a well-formed ISR,
 and threads that speak of batches in the log.
 */
module ControlInvariant {
  import opened RecordBatch
  import opened CommitLogView
  import opened Purgatories
  import opened PartitionStates
  import opened CommitProtocol

  /** The leader's log: gap-free from 0, of whole batches. */
  predicate LogOk(log: Log, cfg: Config) {
    && cfg.segmentBytes > 0
    && GapFree(log)
    && LogStart(log) == 0
    && AllWhole(AllBatches(log))
  }

  predicate PartOk(s: State)
    requires s.log != []
  {
    && 0 <= s.part.hwm <= s.part.leo <= LogEnd(s.log)
    && IsrOk(s.part)
    && (forall id | id in s.part.replicas && id != s.part.leader :: id in s.followers)
  }

  /** `last` is the last offset of the leader's batch `k`. */
  predicate EndsBatch(s: State, last: int, k: nat) {
    k < |AllBatches(s.log)| && AllBatches(s.log)[k].LastOffset() == last
  }

  ghost predicate OfBatch(s: State, last: int) {
    exists k :: EndsBatch(s, last, k)
  }

  ghost predicate AfterOk(s: State, a: After) {
    a.Park? ==> OfBatch(s, a.last) && a.last < s.part.leo
  }

  ghost predicate PcOk(s: State, pc: Pc) {
    match pc
    case MustRaiseLeo(last, _) => OfBatch(s, last)
    case MustAdvance(a) => AfterOk(s, a)
    case MustComplete(h, a) => h <= s.part.hwm && AfterOk(s, a)
    case MustPark(last) => OfBatch(s, last) && last < s.part.leo
    case Ticking(out, back, _) =>
      s.part.leader !in out && s.part.leader !in back && forall id | id in back :: id in s.part.replicas
    case _ => true
  }

  ghost predicate ThreadsOk(s: State) {
    forall t | t in s.threads :: PcOk(s, s.threads[t])
  }

  ghost predicate ControlOk(s: State, cfg: Config) {
    LogOk(s.log, cfg) && s.log != [] && PartOk(s) && ThreadsOk(s)
  }

  /** Logs, copies, the LEO and the watermark only grow. */
  predicate Extends(s: State, s': State) {
    && s.log != [] && s'.log != []
    && LogEnd(s.log) <= LogEnd(s'.log)
    && AllBatches(s.log) <= AllBatches(s'.log)
    && s.followers.Keys == s'.followers.Keys
    && (forall f | f in s.followers :: s.followers[f].batches <= s'.followers[f].batches)
    && s.part.hwm <= s'.part.hwm && s.part.leo <= s'.part.leo
    && s.part.leader == s'.part.leader && s.part.replicas == s'.part.replicas
  }

  lemma OfBatchStays(s: State, s': State, last: int)
    requires Extends(s, s') && OfBatch(s, last)
    ensures OfBatch(s', last)
  {
    var k :| EndsBatch(s, last, k);
    assert EndsBatch(s', last, k);
  }

  lemma PcOkStays(s: State, s': State, pc: Pc)
    requires Extends(s, s') && PcOk(s, pc)
    ensures PcOk(s', pc)
  {
    hide AllBatches, OfBatch;
    forall last | OfBatch(s, last) ensures OfBatch(s', last) {
      OfBatchStays(s, s', last);
    }
  }

  /** A step's effect on the threads: the stepping one moves to `pc`, the others stay. */
  lemma ThreadsStay(s: State, s': State, t: nat, pc: Pc)
    requires Extends(s, s') && ThreadsOk(s) && s'.threads == s.threads[t := pc] && PcOk(s', pc)
    ensures ThreadsOk(s')
  {
    hide PcOk;
    forall u | u in s'.threads ensures PcOk(s', s'.threads[u]) {
      if u != t {
        PcOkStays(s, s', s.threads[u]);
      }
    }
  }

  // ---- The log ----

  lemma WholeCount(b: Batch)
    requires Whole(b)
    ensures b.count >= 1 && |b.raw| >= 8
  {
  }

  lemma NonEmptyLog(log: Log, cfg: Config)
    requires LogOk(log, cfg)
    ensures log != []
  {
  }

  /** Appending one whole batch at the log's end. */
  lemma LogGrows(log: Log, b: Batch, cfg: Config)
    requires LogOk(log, cfg) && Whole(b)
    requires 0 <= LogEnd(log) < 0x8000_0000_0000_0000
    ensures var log' := LogAppend(log, [Rebase(b, LogEnd(log))], cfg.segmentBytes, cfg.indexInterval);
            && LogOk(log', cfg)
            && AllBatches(log') == AllBatches(log) + [Rebase(b, LogEnd(log))]
            && LogEnd(log') == LogEnd(log) + b.count
  {
    hide Whole, AllBatches, LogAppend;
    WholeCount(b);
    var b' := Rebase(b, LogEnd(log));
    RebaseWhole(b, LogEnd(log));
    assert OffsetAt(LogEnd(log), [b'], 0) == b'.base;
    LogAppendGapFree(log, [b'], cfg.segmentBytes, cfg.indexInterval);
    AllBatchesAppend(log, [b'], cfg.segmentBytes, cfg.indexInterval);
  }

  lemma OffsetsOrder(all: seq<Batch>, m: nat, n: nat)
    requires Contiguous(0, all) && m <= n <= |all|
    ensures OffsetAt(0, all, m) <= OffsetAt(0, all, n)
    ensures OffsetAt(0, all, m) == OffsetAt(0, all, n) ==> m == n
    decreases n - m
  {
    if m < n {
      OffsetsOrder(all, m, n - 1);
      assert all[n - 1].base == OffsetAt(0, all, n - 1);
    }
  }

  lemma LogFacts(log: Log, cfg: Config)
    requires LogOk(log, cfg)
    ensures log != [] && Contiguous(0, AllBatches(log)) && AllWhole(AllBatches(log))
    ensures LogEnd(log) == OffsetAt(0, AllBatches(log), |AllBatches(log)|)
  {
    AllBatchesContiguous(log);
  }

  lemma EndsBatchInLog(s: State, last: int, k: nat, cfg: Config)
    requires LogOk(s.log, cfg) && EndsBatch(s, last, k)
    ensures s.log != [] && 0 <= last < LogEnd(s.log)
  {
    hide AllBatches, GapFree, AllWhole;
    var all := AllBatches(s.log);
    LogFacts(s.log, cfg);
    assert all[k].base == OffsetAt(0, all, k);
    OffsetsOrder(all, 0, k);
    OffsetsOrder(all, k + 1, |all|);
  }

  // ---- Every step keeps it ----

  lemma AppendKeeps(s: State, step: Step, cfg: Config)
    requires ControlOk(s, cfg) && Enabled(s, step, cfg) && step.LogAppends?
    ensures ControlOk(Next(s, step, cfg), cfg) && Extends(s, Next(s, step, cfg))
  {
    hide LogOk, AllBatches, LogAppend, Whole;
    var s' := Next(s, step, cfg);
    LogGrows(s.log, step.batch, cfg);
    NonEmptyLog(s'.log, cfg);
    WholeCount(step.batch);
    assert EndsBatch(s', s'.threads[step.t].last, |AllBatches(s.log)|);
    ThreadsStay(s, s', step.t, s'.threads[step.t]);
  }

  lemma ApplyKeeps(s: State, step: Step, cfg: Config)
    requires ControlOk(s, cfg) && Enabled(s, step, cfg) && step.FollowerAppends?
    ensures ControlOk(Next(s, step, cfg), cfg) && Extends(s, Next(s, step, cfg))
  {
    hide LogOk, AllBatches, IsrOk, RecordTotal, Rebase;
    ThreadsStay(s, Next(s, step, cfg), step.t, Idle);
  }

  /** The log and the copies stay as they are. */
  lemma SameLog(s: State, s': State, t: nat, pc: Pc, cfg: Config)
    requires ControlOk(s, cfg) && s'.log == s.log && s'.followers == s.followers && s'.threads == s.threads[t := pc]
    requires PartOk(s') && PcOk(s', pc)
    requires s.part.hwm <= s'.part.hwm && s.part.leo <= s'.part.leo
    requires s.part.leader == s'.part.leader && s.part.replicas == s'.part.replicas
    ensures ControlOk(s', cfg) && Extends(s, s')
  {
    hide LogOk, AllBatches, PcOk, PartOk;
    ThreadsStay(s, s', t, pc);
  }

  lemma AfterOkElsewhere(s: State, s': State, a: After)
    requires s'.log == s.log && s.part.leo <= s'.part.leo && AfterOk(s, a)
    ensures AfterOk(s', a) && (s'.part.hwm >= 0 ==> PcOk(s', Resume(a)))
  {
    if a.Park? {
      var k :| EndsBatch(s, a.last, k);
      assert EndsBatch(s', a.last, k);
    }
  }

  lemma RaiseKeeps(s: State, step: Step, cfg: Config)
    requires ControlOk(s, cfg) && Enabled(s, step, cfg) && step.RaisesLeo?
    ensures ControlOk(Next(s, step, cfg), cfg) && Extends(s, Next(s, step, cfg))
  {
    hide LogOk, AllBatches, Distinct;
    var s' := Next(s, step, cfg);
    var k :| EndsBatch(s, PcOf(s, step.t).last, k);
    EndsBatchInLog(s, PcOf(s, step.t).last, k, cfg);
    assert EndsBatch(s', PcOf(s, step.t).last, k);
    SameLog(s, s', step.t, s'.threads[step.t], cfg);
  }

  lemma AdvanceKeeps(s: State, step: Step, cfg: Config)
    requires ControlOk(s, cfg) && Enabled(s, step, cfg) && (step.Advances? || step.Completes?)
    ensures ControlOk(Next(s, step, cfg), cfg) && Extends(s, Next(s, step, cfg))
  {
    hide LogOk, AllBatches, Distinct, IsrMinimum, OfBatch, StillWaiting, Send, Released;
    var s' := Next(s, step, cfg);
    AfterOkElsewhere(s, s', PcOf(s, step.t).then_);
    SameLog(s, s', step.t, s'.threads[step.t], cfg);
  }

  lemma TickKeeps(s: State, step: Step, cfg: Config)
    requires ControlOk(s, cfg) && Enabled(s, step, cfg) && step.TickContinues?
    ensures ControlOk(Next(s, step, cfg), cfg) && Extends(s, Next(s, step, cfg))
  {
    hide LogOk, AllBatches, Without, IsrOk;
    var s' := Next(s, step, cfg);
    var Ticking(out, back, changed) := PcOf(s, step.t);
    if out != [] {
      ShrinkKeepsIsr(s.part, out[0]);
    } else if back != [] {
      ExpandKeepsIsr(s.part, back[0]);
    }
    SameLog(s, s', step.t, s'.threads[step.t], cfg);
  }

  lemma TheRestKeeps(s: State, step: Step, cfg: Config)
    requires ControlOk(s, cfg) && Enabled(s, step, cfg)
    requires !step.LogAppends? && !step.FollowerAppends? && !step.RaisesLeo? && !step.Advances? && !step.Completes?
    requires !step.TickContinues?
    ensures ControlOk(Next(s, step, cfg), cfg) && Extends(s, Next(s, step, cfg))
  {
    hide LogOk, AllBatches, Distinct, Send, Fetch, OfBatch;
    var s' := Next(s, step, cfg);
    SameLog(s, s', step.t, s'.threads[step.t], cfg);
  }

  lemma StepKeepsControl(s: State, step: Step, cfg: Config)
    requires ControlOk(s, cfg) && Enabled(s, step, cfg)
    ensures ControlOk(Next(s, step, cfg), cfg) && Extends(s, Next(s, step, cfg))
  {
    hide *;
    match step
    case LogAppends(_, _, _) => AppendKeeps(s, step, cfg);
    case FollowerAppends(_) => ApplyKeeps(s, step, cfg);
    case RaisesLeo(_) => RaiseKeeps(s, step, cfg);
    case Advances(_) => AdvanceKeeps(s, step, cfg);
    case Completes(_) => AdvanceKeeps(s, step, cfg);
    case TickContinues(_) => TickKeeps(s, step, cfg);
    case _ => TheRestKeeps(s, step, cfg);
  }

  lemma InitControl(s: State, cfg: Config)
    requires Init(s, cfg)
    ensures ControlOk(s, cfg) && AllBatches(s.log) == []
  {
    assert AllBatches([]) == [];
  }

  /** It holds in every state of every run. */
  lemma {:induction false} RunKeepsControl(states: seq<State>, steps: seq<Step>, i: nat, cfg: Config)
    requires IsRun(states, steps, cfg) && i < |states|
    ensures ControlOk(states[i], cfg)
  {
    hide ControlOk, Enabled, Next, Init;
    if i == 0 {
      InitControl(states[0], cfg);
    } else {
      RunKeepsControl(states, steps, i - 1, cfg);
      StepKeepsControl(states[i - 1], steps[i - 1], cfg);
    }
  }

  /**
   Over every run the log, the copies, the LEO and the watermark only grow, and
   the watermark stays within the log.
   */
  lemma {:induction false} NothingShrinks(states: seq<State>, steps: seq<Step>, i: nat, j: nat, cfg: Config)
    requires IsRun(states, steps, cfg) && i <= j < |states|
    ensures Extends(states[i], states[j])
    ensures 0 <= states[j].part.hwm <= states[j].part.leo <= LogEnd(states[j].log)
    decreases j
  {
    hide Enabled, Next, Init, AllBatches, LogOk;
    RunKeepsControl(states, steps, j, cfg);
    if i < j {
      NothingShrinks(states, steps, i, j - 1, cfg);
      RunKeepsControl(states, steps, j - 1, cfg);
      StepKeepsControl(states[j - 1], steps[j - 1], cfg);
    }
  }
}
