/**
 End-to-end durability: a produce request answered with success was held by
 every in-sync replica when the watermark passed it.
 */
module Durability {
  import opened RecordBatch
  import opened CommitLogView
  import opened Purgatories
  import opened PartitionStates
  import opened CommitProtocol
  import opened ControlInvariant
  import opened CommitInvariant
  import opened Waiters

  /** Follower `f` holds, byte for byte and in order, every leader batch that starts at or below `offset`. */
  predicate HoldsThrough(s: State, f: int, offset: int) {
    && f in s.followers
    && s.followers[f].batches <= AllBatches(s.log)
    && forall k | 0 <= k < |AllBatches(s.log)| && AllBatches(s.log)[k].base <= offset ::
         k < |s.followers[f].batches|
  }

  predicate AllInSyncHold(s: State, offset: int) {
    forall f | f in s.part.isr && f != s.part.leader :: HoldsThrough(s, f, offset)
  }

  lemma FetchedThrough(s: State, f: int, offset: int, cfg: Config)
    requires LogOk(s.log, cfg) && CopiesOk(s) && f in s.followers && offset < s.followers[f].fetchOffset
    ensures HoldsThrough(s, f, offset)
  {
    hide AllBatches, LogOk, AllWhole;
    var all, m := AllBatches(s.log), |s.followers[f].batches|;
    LogFacts(s.log, cfg);
    forall k | 0 <= k < |all| && all[k].base <= offset ensures k < m {
      assert all[k].base == OffsetAt(0, all, k);
      if m <= k {
        OffsetsOrder(all, m, k);
      }
    }
  }

  /** The step that takes the watermark past an offset finds that offset on every in-sync replica. */
  lemma PassingIsSafe(s: State, step: Step, offset: int, cfg: Config)
    requires Inv(s, cfg) && Enabled(s, step, cfg)
    requires 0 <= offset && s.part.hwm <= offset < Next(s, step, cfg).part.hwm
    ensures step.Advances? && AllInSyncHold(s, offset) && s.log != [] && offset < LogEnd(s.log)
  {
    hide LogOk, CopiesOk, AllBatches, LogAppend, Rebase, Fetch, Without, Lagging, Returning, Send, HoldsThrough,
         ThreadsOk, OffsetAt;
    NonEmptyLog(s.log, cfg);
    forall f | f in s.part.isr && f != s.part.leader ensures HoldsThrough(s, f, offset) {
      assert IsMinimum(s.part, IsrMinimum(s.part));
      FetchedThrough(s, f, offset, cfg);
    }
  }

  /** A watermark that is past an offset passed it at some step. */
  lemma {:induction false} SomeStepPassed(states: seq<State>, steps: seq<Step>, i: nat, offset: int, cfg: Config)
    returns (j: nat)
    requires IsRun(states, steps, cfg) && i < |states| && 0 <= offset < states[i].part.hwm
    ensures j < i && states[j].part.hwm <= offset < states[j + 1].part.hwm
  {
    hide Enabled, Next;
    if states[i - 1].part.hwm <= offset {
      j := i - 1;
    } else {
      j := SomeStepPassed(states, steps, i - 1, offset, cfg);
    }
  }

  /**
   If a waiter was released with success, then at the step where the watermark
   passed its offset every follower then in the ISR held a byte-identical copy
   of the leader's batches through that offset; the waiter's own batch is one
   of them.
   */
  lemma ReleasedIsDurable(states: seq<State>, steps: seq<Step>, i: nat, id: nat, cfg: Config) returns (j: nat)
    requires IsRun(states, steps, cfg) && GoodRun(states, steps, cfg) && i < |states| && id < |states[i].outcomes|
    requires states[i].outcomes[id] == [Committed]
    ensures id < |states[i].required|
    ensures var o := states[i].required[id];
            && j < i && states[j].part.hwm <= o < states[j + 1].part.hwm
            && AllInSyncHold(states[j], o)
            && OfBatch(states[j], o)
  {
    hide Inv, Enabled, Next, Init, AllInSyncHold, OfBatch;
    RunKeepsWaiters(states, steps, i, cfg);
    RunKeeps(states, steps, i, cfg);
    assert OutcomeOk(states[i], id);
    var o := states[i].required[id];
    OfBatchIsOffset(states[i], o, cfg);
    j := SomeStepPassed(states, steps, i, o, cfg);
    RunKeeps(states, steps, j, cfg);
    PassingIsSafe(states[j], steps[j], o, cfg);
    NothingShrinks(states, steps, j, i, cfg);
    RunKeepsControl(states, steps, j, cfg);
    RunKeepsControl(states, steps, i, cfg);
    OfEarlierBatch(states[j], states[i], o, cfg);
  }

  /** A batch that ends below an earlier state's log end was already there. */
  lemma OfEarlierBatch(s: State, s': State, last: int, cfg: Config)
    requires ControlOk(s, cfg) && ControlOk(s', cfg) && Extends(s, s') && OfBatch(s', last) && last < LogEnd(s.log)
    ensures OfBatch(s, last)
  {
    hide LogOk, AllBatches, AllWhole, CopiesOk, ThreadsOk;
    var all := AllBatches(s'.log);
    LogFacts(s.log, cfg);
    LogFacts(s'.log, cfg);
    var k: nat :| EndsBatch(s', last, k);
    var n := |AllBatches(s.log)|;
    if n <= k {
      OffsetsOrder(all, n, k);
    }
    assert EndsBatch(s, last, k);
  }

  lemma OfBatchIsOffset(s: State, last: int, cfg: Config)
    requires Inv(s, cfg) && OfBatch(s, last)
    ensures 0 <= last
  {
    hide LogOk, AllBatches;
    var k :| EndsBatch(s, last, k);
    EndsBatchInLog(s, last, k, cfg);
  }

  // ---- Other promises of every run ----

  /** Each follower's copy is a byte-exact prefix of the leader's log, and it fetches at its own end. */
  lemma FollowerIsPrefix(states: seq<State>, steps: seq<Step>, i: nat, f: int, cfg: Config)
    requires IsRun(states, steps, cfg) && GoodRun(states, steps, cfg) && i < |states| && f in states[i].followers
    ensures var copy := states[i].followers[f];
            && copy.batches <= AllBatches(states[i].log)
            && copy.fetchOffset == copy.nextOffset == OffsetAt(0, AllBatches(states[i].log), |copy.batches|)
  {
    hide AllBatches, OffsetAt, Enabled, Next, Init, IsRun;
    RunKeeps(states, steps, i, cfg);
  }
}
