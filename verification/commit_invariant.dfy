/**
 What every step of the commit protocol keeps about the copies as long as
 fetches are answered well: followers hold byte-exact prefixes of the leader's
 log, and no replica is credited with more than it holds.
 */
module CommitInvariant {
  import opened Options
  import opened RecordBatch
  import opened LogView
  import opened CommitLogView
  import opened PartitionStates
  import opened Replication
  import opened CommitProtocol
  import opened ControlInvariant

  predicate CopiesOk(s: State) {
    forall f | f in s.followers :: SyncedTo(s.followers[f], 0, AllBatches(s.log), |s.followers[f].batches|)
  }

  /** No follower is credited with more than it holds. */
  predicate ReportsOk(s: State) {
    forall f | f in s.part.reported :: f in s.followers && s.part.reported[f] <= s.followers[f].fetchOffset
  }

  /** `offset` is where the leader's batch `m` starts (or the log ends), and the follower holds all before it. */
  predicate Asked(s: State, f: int, offset: int, m: nat) {
    && f in s.followers
    && m <= |s.followers[f].batches|
    && m <= |AllBatches(s.log)|
    && offset == OffsetAt(0, AllBatches(s.log), m)
  }

  /** Once the follower has patched in its own offset, the records are `n` leader batches from `m` on. */
  predicate RunAt(all: seq<Batch>, m: nat, n: nat, records: Option<seq<Batch>>) {
    records.Some? ==>
      && 0 < n && m + n <= |all|
      && (records.value == all[m..m + n] || (n == 1 && LooksLike(records.value, all[m])))
  }

  predicate LooksLike(bs: seq<Batch>, wanted: Batch) {
    |bs| == 1 && |bs[0].raw| >= 8 && Rebase(bs[0], wanted.base) == wanted
  }

  /** A thread that serves a fetch asks for a batch boundary the follower has reached, and has a run from there. */
  ghost predicate AskOk(s: State, pc: Pc) {
    match pc
    case MustReport(f, offset, _) => exists m :: Asked(s, f, offset, m)
    case MustAdvance(Answer(f, offset, _)) => exists m :: Asked(s, f, offset, m)
    case MustComplete(_, Answer(f, offset, _)) => exists m :: Asked(s, f, offset, m)
    case MustAnswer(f, offset, _) => exists m :: Asked(s, f, offset, m)
    case Answered(f, offset, records) =>
      exists m, n :: Asked(s, f, offset, m) && RunAt(AllBatches(s.log), m, n, records)
    case _ => true
  }

  ghost predicate AsksOk(s: State) {
    forall t | t in s.threads :: AskOk(s, s.threads[t])
  }

  ghost predicate Inv(s: State, cfg: Config) {
    && ControlOk(s, cfg)
    && CopiesOk(s)
    && ReportsOk(s)
    && AsksOk(s)
  }

  lemma AskedStays(s: State, s': State, f: int, offset: int, m: nat)
    requires Extends(s, s') && Asked(s, f, offset, m)
    ensures Asked(s', f, offset, m)
  {
  }

  lemma AskOkStays(s: State, s': State, pc: Pc)
    requires Extends(s, s') && AskOk(s, pc)
    ensures AskOk(s', pc)
  {
    hide AllBatches, Asked;
    forall f, offset, m: nat | Asked(s, f, offset, m) ensures Asked(s', f, offset, m) {
      AskedStays(s, s', f, offset, m);
    }
    if pc.Answered? {
      var m, n :| Asked(s, pc.follower, pc.offset, m) && RunAt(AllBatches(s.log), m, n, pc.records);
      RunStays(AllBatches(s.log), AllBatches(s'.log), m, n, pc.records);
    }
  }

  lemma RunStays(all: seq<Batch>, all': seq<Batch>, m: nat, n: nat, records: Option<seq<Batch>>)
    requires all <= all' && RunAt(all, m, n, records)
    ensures RunAt(all', m, n, records)
  {
    hide Rebase;
    if records.Some? {
      assert all[m..m + n] == all'[m..m + n];
    }
  }

  lemma AsksStay(s: State, s': State, t: nat, pc: Pc)
    requires Extends(s, s') && AsksOk(s) && s'.threads == s.threads[t := pc] && AskOk(s', pc)
    ensures AsksOk(s')
  {
    hide AskOk;
    forall u | u in s'.threads ensures AskOk(s', s'.threads[u]) {
      if u != t {
        AskOkStays(s, s', s.threads[u]);
      }
    }
  }

  // ---- The copies ----

  lemma LongerLog(s: State, s': State)
    requires CopiesOk(s) && s'.followers == s.followers && AllBatches(s.log) <= AllBatches(s'.log)
    ensures CopiesOk(s')
  {
    hide AllBatches;
    forall f | f in s'.followers ensures SyncedTo(s'.followers[f], 0, AllBatches(s'.log), |s'.followers[f].batches|) {
      assert SyncedTo(s.followers[f], 0, AllBatches(s.log), |s.followers[f].batches|);
    }
  }

  /** A response that was asked for at the copy's end extends the copy, which stays a prefix. */
  lemma CopyGrows(copy: Follower, all: seq<Batch>, m: nat, n: nat, records: Option<seq<Batch>>)
    requires Contiguous(0, all) && AllWhole(all) && SyncedTo(copy, 0, all, |copy.batches|)
    requires m <= |copy.batches| && copy.fetchOffset == OffsetAt(0, all, m) && RunAt(all, m, n, records)
    requires records.Some? ==> records.value != [] && |records.value[0].raw| >= 8
    ensures var copy' := Replication.Apply(copy, records);
            && SyncedTo(copy', 0, all, |copy'.batches|)
            && copy.batches <= copy'.batches
            && copy.fetchOffset <= copy'.fetchOffset
  {
    hide AllWhole, OffsetAt, Rebase, RecordTotal, Contiguous;
    OffsetsOrder(all, m, |copy.batches|);
    if records.Some? {
      WholeFacts(all);
      BoundaryIs(0, all, m);
      AppliesAlike(copy, all, m, n, records.value);
      ApplyExact(copy, 0, all, m, n);
      OffsetsOrder(all, m, m + n);
    }
  }

  /** A batch that looks like the wanted one has the effect of the wanted one. */
  lemma AppliesAlike(copy: Follower, all: seq<Batch>, m: nat, n: nat, bs: seq<Batch>)
    requires m < |all| && RunAt(all, m, n, Some(bs)) && bs != [] && |bs[0].raw| >= 8 && |all[m].raw| >= 8
    requires copy.nextOffset == all[m].base && Rebase(all[m], all[m].base) == all[m]
    ensures Replication.Apply(copy, Some(bs)) == Replication.Apply(copy, Some(all[m..m + n]))
  {
    if n == 1 {
      assert all[m..m + 1] == [all[m]];
      assert bs[1..] == [] == all[m..m + 1][1..];
      assert bs[..0] == [] == [all[m]][..0];
    }
  }

  lemma KeptByFollowerAppends(s: State, step: Step, cfg: Config)
    requires Inv(s, cfg) && Enabled(s, step, cfg) && step.FollowerAppends?
    ensures Inv(Next(s, step, cfg), cfg)
  {
    hide LogOk, AllBatches, Replication.Apply, SyncedTo, Contiguous, AllWhole, OffsetAt, IsrOk;
    StepKeepsControl(s, step, cfg);
    LogFacts(s.log, cfg);
    var s' := Next(s, step, cfg);
    var Answered(f, offset, records) := PcOf(s, step.t);
    assert AskOk(s, PcOf(s, step.t));
    var m, n :| Asked(s, f, offset, m) && RunAt(AllBatches(s.log), m, n, records);
    CopyGrows(s.followers[f], AllBatches(s.log), m, n, records);
    AsksStay(s, s', step.t, Idle);
  }

  // ---- The other steps ----

  lemma AskedElsewhere(s: State, s': State, f: int, offset: int, m: nat)
    requires s'.log == s.log && s'.followers == s.followers && Asked(s, f, offset, m)
    ensures Asked(s', f, offset, m)
  {
  }

  lemma KeptByReports(s: State, step: Step, cfg: Config)
    requires Inv(s, cfg) && Enabled(s, step, cfg) && step.Reports?
    ensures Inv(Next(s, step, cfg), cfg)
  {
    hide LogOk, AllBatches, Contiguous, AllWhole, OffsetAt, IsrOk;
    StepKeepsControl(s, step, cfg);
    LogFacts(s.log, cfg);
    var s' := Next(s, step, cfg);
    var MustReport(f, offset, maxBytes) := PcOf(s, step.t);
    assert AskOk(s, PcOf(s, step.t));
    var m :| Asked(s, f, offset, m);
    OffsetsOrder(AllBatches(s.log), m, |s.followers[f].batches|);
    AskedElsewhere(s, s', f, offset, m);
    AsksStay(s, s', step.t, MustAdvance(Answer(f, offset, maxBytes)));
  }

  /** A step that leaves the copies and the reports alone, and whose thread asks for nothing new. */
  lemma KeptByTheRest(s: State, step: Step, cfg: Config)
    requires Inv(s, cfg) && Enabled(s, step, cfg)
    requires !step.FollowerAppends? && !step.Reports? && !step.Answers? && !step.SendsFetch?
    ensures Inv(Next(s, step, cfg), cfg)
  {
    hide LogOk, AllBatches, IsrOk, Send, Lagging, Returning, LogAppend, SyncedTo;
    StepKeepsControl(s, step, cfg);
    var s' := Next(s, step, cfg);
    LongerLog(s, s');
    SameAsk(s, step, cfg);
    AsksStay(s, s', step.t, s'.threads[step.t]);
  }

  lemma SameAsk(s: State, step: Step, cfg: Config)
    requires AsksOk(s) && Enabled(s, step, cfg) && Extends(s, Next(s, step, cfg))
    requires !step.FollowerAppends? && !step.Reports? && !step.Answers? && !step.SendsFetch?
    ensures var s' := Next(s, step, cfg);
            && s'.threads == s.threads[step.t := PcOf(s', step.t)] && AskOk(s', PcOf(s', step.t))
            && s'.followers == s.followers && s'.part.reported == s.part.reported
  {
    hide LogOk, AllBatches, IsrOk, Send, Lagging, Returning, LogAppend, Asked, RunAt, Extends, Fetch, Rebase;
    hide IsrMinimum, Without, Released, Whole;
    var s' := Next(s, step, cfg);
    if step.Advances? || step.Completes? {
      AskOkStays(s, s', PcOf(s, step.t));
    }
  }

  lemma KeptBySendsFetch(s: State, step: Step, cfg: Config)
    requires Inv(s, cfg) && Enabled(s, step, cfg) && step.SendsFetch?
    ensures Inv(Next(s, step, cfg), cfg)
  {
    hide LogOk, AllBatches, IsrOk, OffsetAt;
    StepKeepsControl(s, step, cfg);
    var s' := Next(s, step, cfg);
    assert Asked(s', step.follower, s.followers[step.follower].fetchOffset, |s.followers[step.follower].batches|);
    AsksStay(s, s', step.t, s'.threads[step.t]);
  }

  // ---- Answers ----

  /** A good answer is a run of the leader's batches that starts where it was asked to, and no other answer is. */
  lemma AnswerIsRun(log: Log, m: nat, maxBytes: int, visible: int, cfg: Config) returns (n: nat)
    requires LogOk(log, cfg) && m <= |AllBatches(log)|
    ensures var all, offset := AllBatches(log), OffsetAt(0, AllBatches(log), m);
            var r := Fetch(log, offset, maxBytes, visible);
            && (GoodAnswer(log, offset, r) ==> RunAt(all, m, n, r))
            && (!GoodAnswer(log, offset, r) ==> forall k: nat :: !RunAt(all, m, k, r))
  {
    hide Fetch, AllBatches, StartsExactly, Whole, Rebase, OffsetAt;
    var all, offset := AllBatches(log), OffsetAt(0, AllBatches(log), m);
    LogFacts(log, cfg);
    n := 0;
    if m == |all| {
      assert all[..m] == all;
      FetchAtEnd(Follower(all, offset, offset), log, maxBytes, visible);
    } else {
      BoundaryIs(0, all, m);
      n := FetchAtBoundary(log, m, maxBytes, visible);
      var r := Fetch(log, offset, maxBytes, visible);
      if r.Some? && !StartsExactly(log, offset) {
        assert r.value[0] == all[m - 1];
        EarlyAnswer(log, m, r.value, cfg);
        n := 1;
      }
    }
  }

  /** An answer that starts one batch early is good only as a batch that looks like the wanted one. */
  lemma EarlyAnswer(log: Log, m: nat, bs: seq<Batch>, cfg: Config)
    requires LogOk(log, cfg) && 0 < m < |AllBatches(log)| && bs != [] && bs[0] == AllBatches(log)[m - 1]
    requires !StartsExactly(log, AllBatches(log)[m].base)
    ensures var all := AllBatches(log);
            && (GoodAnswer(log, all[m].base, Some(bs)) <==> LooksLike(bs, all[m]))
            && forall k: nat :: RunAt(all, m, k, Some(bs)) ==> LooksLike(bs, all[m])
  {
    hide AllBatches, Whole, OffsetAt, StartsExactly;
    var all := AllBatches(log);
    LogFacts(log, cfg);
    BoundaryIs(0, all, m - 1);
    BoundaryIs(0, all, m);
    OffsetsOrder(all, m - 1, m);
    forall k: nat | RunAt(all, m, k, Some(bs)) ensures LooksLike(bs, all[m]) {
      assert all[m..m + k][0] == all[m];
    }
    if |bs| == 1 && |bs[0].raw| >= 8 && Rebase(bs[0], all[m].base) in all {
      OneBatchThere(0, all, m, Rebase(bs[0], all[m].base));
    }
  }

  /** The step that answers a fetch keeps the invariant exactly when the answer is good. */
  lemma KeptByAnswers(s: State, step: Step, cfg: Config)
    requires Inv(s, cfg) && Enabled(s, step, cfg) && step.Answers?
    ensures Inv(Next(s, step, cfg), cfg) <==> GoodStep(s, step, cfg)
  {
    hide LogOk, AllBatches, IsrOk, Fetch, OffsetAt, GoodAnswer, RunAt;
    StepKeepsControl(s, step, cfg);
    var s' := Next(s, step, cfg);
    var MustAnswer(f, offset, maxBytes) := PcOf(s, step.t);
    assert AskOk(s, PcOf(s, step.t));
    var m: nat :| Asked(s, f, offset, m);
    var n := AnswerIsRun(s.log, m, maxBytes, step.visible, cfg);
    AskedElsewhere(s, s', f, offset, m);
    if GoodStep(s, step, cfg) {
      assert RunAt(AllBatches(s'.log), m, n, s'.threads[step.t].records);
      AsksStay(s, s', step.t, s'.threads[step.t]);
    } else {
      forall m': nat, k: nat | Asked(s', f, offset, m')
        ensures !RunAt(AllBatches(s'.log), m', k, s'.threads[step.t].records)
      {
        OneAsked(s, f, offset, m, m', cfg);
      }
      assert !AskOk(s', s'.threads[step.t]);
    }
  }

  lemma OneAsked(s: State, f: int, offset: int, m: nat, m': nat, cfg: Config)
    requires LogOk(s.log, cfg) && Asked(s, f, offset, m) && m' <= |AllBatches(s.log)|
    requires offset == OffsetAt(0, AllBatches(s.log), m')
    ensures m == m'
  {
    hide LogOk, AllBatches, OffsetAt;
    LogFacts(s.log, cfg);
    if m < m' {
      OffsetsOrder(AllBatches(s.log), m, m');
    } else {
      OffsetsOrder(AllBatches(s.log), m', m);
    }
  }

  // ---- Over whole runs ----

  /** Every step keeps the invariant, but for an answer that is not good, and that one never does. */
  lemma StepKeeps(s: State, step: Step, cfg: Config)
    requires Inv(s, cfg) && Enabled(s, step, cfg)
    ensures Inv(Next(s, step, cfg), cfg) <==> GoodStep(s, step, cfg)
  {
    hide *;
    OnlyAnswersMatter(s, step, cfg);
    match step
    case FollowerAppends(_) => KeptByFollowerAppends(s, step, cfg);
    case Reports(_) => KeptByReports(s, step, cfg);
    case Answers(_, _) => KeptByAnswers(s, step, cfg);
    case SendsFetch(_, _, _) => KeptBySendsFetch(s, step, cfg);
    case _ => KeptByTheRest(s, step, cfg);
  }

  lemma OnlyAnswersMatter(s: State, step: Step, cfg: Config)
    requires Enabled(s, step, cfg)
    ensures !step.Answers? ==> GoodStep(s, step, cfg)
  {
  }

  lemma InitOk(s: State, cfg: Config)
    requires Init(s, cfg)
    ensures Inv(s, cfg)
  {
    InitControl(s, cfg);
  }

  /** The invariant holds in every state of every run whose fetches are all answered well. */
  lemma {:induction false} RunKeeps(states: seq<State>, steps: seq<Step>, i: nat, cfg: Config)
    requires IsRun(states, steps, cfg) && GoodRun(states, steps, cfg) && i < |states|
    ensures Inv(states[i], cfg)
  {
    hide Inv, Enabled, Next, Init, GoodStep;
    if i == 0 {
      InitOk(states[0], cfg);
    } else {
      RunKeeps(states, steps, i - 1, cfg);
      StepKeeps(states[i - 1], steps[i - 1], cfg);
    }
  }

  // ---- Runs of large batches ----

  /** Every appended batch is at least the index interval long. */
  predicate LargeBatches(steps: seq<Step>, cfg: Config) {
    forall i | 0 <= i < |steps| && steps[i].LogAppends? :: cfg.indexInterval <= |steps[i].batch.raw|
  }

  /** The log was indexed in one lifetime, and all its batches are large. */
  predicate AllIndexed(log: Log, cfg: Config) {
    OneLifetime(log, cfg.indexInterval) && AllAtLeast(AllBatches(log), cfg.indexInterval)
  }

  lemma IndexedStep(s: State, step: Step, cfg: Config)
    requires Inv(s, cfg) && AllIndexed(s.log, cfg) && Enabled(s, step, cfg)
    requires step.LogAppends? ==> cfg.indexInterval <= |step.batch.raw|
    ensures GoodStep(s, step, cfg) && AllIndexed(Next(s, step, cfg).log, cfg)
  {
    hide LogOk, AllBatches, LogAppend, Whole, Fetch, OffsetAt, StartsExactly, OneLifetime, IsrOk;
    if step.LogAppends? {
      IndexedAppend(s.log, step.batch, cfg);
    } else if step.Answers? {
      var MustAnswer(f, offset, maxBytes) := PcOf(s, step.t);
      assert AskOk(s, PcOf(s, step.t));
      var m: nat :| Asked(s, f, offset, m);
      IndexedAnswer(s.log, m, maxBytes, step.visible, cfg);
    }
  }

  lemma IndexedAppend(log: Log, b: Batch, cfg: Config)
    requires LogOk(log, cfg) && AllIndexed(log, cfg) && Whole(b) && cfg.indexInterval <= |b.raw| && log != []
    requires 0 <= LogEnd(log) < 0x8000_0000_0000_0000 && IndexInRange(Active(log))
    ensures |b.raw| >= 8
    ensures AllIndexed(LogAppend(log, [Rebase(b, LogEnd(log))], cfg.segmentBytes, cfg.indexInterval), cfg)
  {
    hide LogOk, AllBatches, LogAppend, Whole, OneLifetime;
    WholeCount(b);
    LogGrows(log, b, cfg);
    OneLifetimeAppend(log, Rebase(b, LogEnd(log)), cfg.segmentBytes, cfg.indexInterval);
  }

  lemma IndexedAnswer(log: Log, m: nat, maxBytes: int, visible: int, cfg: Config)
    requires LogOk(log, cfg) && AllIndexed(log, cfg) && m <= |AllBatches(log)|
    ensures var offset := OffsetAt(0, AllBatches(log), m);
            GoodAnswer(log, offset, Fetch(log, offset, maxBytes, visible))
  {
    hide AllBatches, Fetch, OffsetAt, StartsExactly, OneLifetime, AllWhole;
    var all := AllBatches(log);
    LogFacts(log, cfg);
    if m == |all| {
      assert all[..m] == all;
      FetchAtEnd(Follower(all, OffsetAt(0, all, m), OffsetAt(0, all, m)), log, maxBytes, visible);
    } else {
      BoundaryIs(0, all, m);
      LargeBatchesExact(log, cfg.indexInterval, m);
    }
  }

  lemma {:induction false} IndexedRun(states: seq<State>, steps: seq<Step>, i: nat, cfg: Config)
    requires IsRun(states, steps, cfg) && LargeBatches(steps, cfg) && i < |states|
    ensures Inv(states[i], cfg) && AllIndexed(states[i].log, cfg)
  {
    hide Inv, AllIndexed, Enabled, Next, Init, GoodStep;
    if i == 0 {
      InitOk(states[0], cfg);
      InitIndexed(states[0], cfg);
    } else {
      IndexedRun(states, steps, i - 1, cfg);
      IndexedStep(states[i - 1], steps[i - 1], cfg);
      StepKeeps(states[i - 1], steps[i - 1], cfg);
    }
  }

  lemma InitIndexed(s: State, cfg: Config)
    requires Init(s, cfg)
    ensures AllIndexed(s.log, cfg)
  {
    assert AllBatches([]) == [];
    assert AllBatches(s.log) == [];
    assert IndexPlan([], cfg.indexInterval) == [];
  }

  /** With batches at least the index interval long, every fetch of every run is answered well. */
  lemma LargeBatchesAreGood(states: seq<State>, steps: seq<Step>, cfg: Config)
    requires IsRun(states, steps, cfg) && LargeBatches(steps, cfg)
    ensures GoodRun(states, steps, cfg)
  {
    hide Inv, AllIndexed, Enabled, Next, Init, GoodStep;
    forall i: nat | i < |steps| ensures GoodStep(states[i], steps[i], cfg) {
      IndexedRun(states, steps, i, cfg);
      IndexedStep(states[i], steps[i], cfg);
    }
  }

  // ---- The guards ----

  /**
   The guards of the protocol's steps restrict only what arrives from outside:
   in every reachable state a thread that owes an answer can give it, and an
   answer at the follower's own offset can be appended.
   */
  lemma GuardsHold(states: seq<State>, steps: seq<Step>, i: nat, t: nat, visible: int, cfg: Config)
    requires IsRun(states, steps, cfg) && GoodRun(states, steps, cfg) && i < |states| && visible <= states[i].part.leo
    ensures var s := states[i];
            && s.log != [] && 0 <= LogEnd(s.log) && IndexInRange(Active(s.log))
            && (PcOf(s, t).MustAnswer? ==> Enabled(s, Answers(t, visible), cfg))
            && (PcOf(s, t).Answered? ==>
                  var f := PcOf(s, t).follower;
                  && f in s.followers
                  && (PcOf(s, t).offset == s.followers[f].fetchOffset ==> Enabled(s, FollowerAppends(t), cfg)))
  {
    hide Next, IsRun, LogOk, CopiesOk, IsrOk, ReportsOk, ThreadsOk, AsksOk, GapFree, GoodRun;
    RunKeeps(states, steps, i, cfg);
    var s := states[i];
    LogIsReady(s.log, cfg);
    if PcOf(s, t).Answered? {
      AnswerFits(s, t, cfg);
    }
  }

  lemma AnswerFits(s: State, t: nat, cfg: Config)
    requires LogOk(s.log, cfg) && AsksOk(s) && PcOf(s, t).Answered?
    ensures PcOf(s, t).follower in s.followers
    ensures PcOf(s, t).records.Some? ==> PcOf(s, t).records.value != [] && |PcOf(s, t).records.value[0].raw| >= 8
  {
    hide LogOk, AllBatches, Whole;
    LogFacts(s.log, cfg);
    var Answered(f, offset, records) := PcOf(s, t);
    var m: nat, n: nat :| Asked(s, f, offset, m) && RunAt(AllBatches(s.log), m, n, records);
    if records.Some? {
      if !LooksLike(records.value, AllBatches(s.log)[m]) {
        assert records.value[0] == AllBatches(s.log)[m];
        WholeCount(records.value[0]);
      }
    }
  }

  lemma LogIsReady(log: Log, cfg: Config)
    requires LogOk(log, cfg)
    ensures log != [] && GapFree(log) && 0 <= LogEnd(log) && IndexInRange(Active(log))
  {
    hide AllBatches, AllWhole;
    LogFacts(log, cfg);
    OffsetsOrder(AllBatches(log), 0, |AllBatches(log)|);
    assert ValidSeg(Active(log));
  }
}
