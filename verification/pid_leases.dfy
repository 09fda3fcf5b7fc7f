/**
 Producer-id blocks: each lease is recorded in the metadata log before any of
 its ids is issued, and a restart resumes from the largest lease it finds in
 the log's first segment.
 */
module PidLeases {
  const BLOCK_SIZE := 1000

  /**
   The manager's memory, the lease ends recorded in each segment of the
   metadata log, every id ever issued and the end of the lease it was issued under.
   */
  datatype Leases = Leases(nextBase: int, blockEnd: int, persisted: seq<seq<int>>, issued: seq<int>, under: seq<int>)

  datatype Step =
    | Allocates(rolls: bool)              // the append of a lease succeeds, in a new segment if it rolls
    | LeaseFails                          // the append fails
    | CrashesAfterAppend(rolls: bool)     // the lease is recorded, then the process dies and restarts
    | Restarts
    | Seeds(seen: int)                    // a lease record is applied while running

  const FRESH := Leases(0, 0, [[]], [], [])

  function Max(a: int, b: int): int { if a < b then b else a }

  /** The largest recorded lease end, 0 when there is none. */
  function Largest(ends: seq<int>): (m: int)
    ensures m >= 0 && (forall n | n in ends :: n <= m) && (m == 0 || m in ends)
  {
    if ends == [] then 0
    else
      var n := |ends| - 1;
      assert ends == ends[..n] + [ends[n]];
      Max(Largest(ends[..n]), ends[n])
  }

  function Logged(persisted: seq<seq<int>>, end: int, rolls: bool): seq<seq<int>>
    requires persisted != []
  {
    if rolls then persisted + [[end]]
    else persisted[|persisted| - 1 := persisted[|persisted| - 1] + [end]]
  }

  /** Some record in the log has this lease end. */
  predicate Recorded(persisted: seq<seq<int>>, end: int) {
    exists i | 0 <= i < |persisted| :: end in persisted[i]
  }

  function Seed(s: Leases, seen: int): Leases {
    s.(nextBase := Max(s.nextBase, seen), blockEnd := Max(s.blockEnd, seen))
  }

  /** Memory is empty again, and the replay of the log failed. */
  function RestartedBlind(s: Leases): Leases {
    s.(nextBase := 0, blockEnd := 0)
  }

  /** Memory is empty again and is seeded with what replaying the first segment shows. */
  function Restarted(s: Leases): Leases
    requires s.persisted != []
  {
    Seed(RestartedBlind(s), Largest(s.persisted[0]))
  }

  function Lease(s: Leases, rolls: bool): Leases
    requires s.persisted != []
  {
    var end := s.blockEnd + BLOCK_SIZE;
    s.(persisted := Logged(s.persisted, end, rolls), nextBase := Max(s.nextBase, s.blockEnd), blockEnd := end)
  }

  function Issue(s: Leases): Leases {
    s.(issued := s.issued + [s.nextBase], under := s.under + [s.blockEnd], nextBase := s.nextBase + 1)
  }

  predicate Enabled(s: Leases, step: Step) {
    && s.persisted != []
    && match step
       case LeaseFails => s.nextBase >= s.blockEnd
       case CrashesAfterAppend(_) => s.nextBase >= s.blockEnd
       case Seeds(n) => Recorded(s.persisted, n)
       case _ => true
  }

  function Next(s: Leases, step: Step): Leases
    requires Enabled(s, step)
  {
    match step
    case Allocates(rolls) => Issue(if s.nextBase >= s.blockEnd then Lease(s, rolls) else s)
    case LeaseFails => s
    case CrashesAfterAppend(rolls) => Restarted(s.(persisted := Logged(s.persisted, s.blockEnd + BLOCK_SIZE, rolls)))
    case Restarts => Restarted(s)
    case Seeds(n) => Seed(s, n)
  }

  ghost predicate IsRun(states: seq<Leases>, steps: seq<Step>) {
    && |states| == |steps| + 1 && states[0] == FRESH
    && forall i | 0 <= i < |steps| :: Enabled(states[i], steps[i]) && states[i + 1] == Next(states[i], steps[i])
  }

  // ---- The invariant ----

  predicate Ascending(ids: seq<int>) {
    forall i, j | 0 <= i < j < |ids| :: ids[i] < ids[j]
  }

  /** Ids ascend and stay below the next one, which lies in the last block of a recorded lease. */
  predicate Inv(s: Leases) {
    && s.persisted != []
    && 0 <= s.nextBase <= s.blockEnd <= s.nextBase + BLOCK_SIZE
    && (s.blockEnd == 0 || Recorded(s.persisted, s.blockEnd))
    && s.blockEnd % BLOCK_SIZE == 0
    && Ascending(s.issued)
    && (forall p | p in s.issued :: 0 <= p < s.nextBase)
    && AllBlocks(s.persisted)
    && FirstIsBehind(s.persisted, s.blockEnd)
    && |s.under| == |s.issued|
    && (forall i | 0 <= i < |s.issued| :: IssuedUnder(s, i))
  }

  /** Lease ends are positive and fall on block boundaries. */
  predicate AllBlocks(persisted: seq<seq<int>>) {
    forall i, n | 0 <= i < |persisted| && n in persisted[i] :: n > 0 && n % BLOCK_SIZE == 0
  }

  /** No lease of the first segment is ahead of a later segment's, nor of the lease in memory. */
  predicate FirstIsBehind(persisted: seq<seq<int>>, blockEnd: int)
    requires persisted != []
  {
    && Largest(persisted[0]) <= blockEnd
    && (forall i, n | 1 <= i < |persisted| && n in persisted[i] :: n > Largest(persisted[0]))
  }

  /** An id lies in the last block of the lease it was issued under, and that lease is on record. */
  predicate IssuedUnder(s: Leases, i: int)
    requires 0 <= i < |s.issued| == |s.under|
  {
    Recorded(s.persisted, s.under[i]) && s.under[i] - BLOCK_SIZE <= s.issued[i] < s.under[i]
  }

  lemma StillRecorded(persisted: seq<seq<int>>, end: int, rolls: bool, n: int)
    requires persisted != []
    ensures Recorded(Logged(persisted, end, rolls), n) <==> n == end || Recorded(persisted, n)
  {
    var after := Logged(persisted, end, rolls);
    var last := |persisted| - 1;
    if Recorded(persisted, n) {
      var i :| 0 <= i < |persisted| && n in persisted[i];
      assert n in after[i];
    }
    assert end in after[|after| - 1];
    if Recorded(after, n) && n != end {
      var i :| 0 <= i < |after| && n in after[i];
      assert i < |persisted| && n in persisted[i];
    }
  }

  lemma LoggedBlocks(persisted: seq<seq<int>>, end: int, rolls: bool)
    requires persisted != [] && end > 0 && end % BLOCK_SIZE == 0 && AllBlocks(persisted)
    ensures AllBlocks(Logged(persisted, end, rolls))
  {
  }

  lemma LoggedBehind(persisted: seq<seq<int>>, end: int, rolls: bool, blockEnd: int)
    requires persisted != [] && FirstIsBehind(persisted, blockEnd) && blockEnd < end
    ensures Logged(persisted, end, rolls) != [] && FirstIsBehind(Logged(persisted, end, rolls), end)
  {
    var after := Logged(persisted, end, rolls);
    if |persisted| == 1 && !rolls {
      assert after[0][..|persisted[0]|] == persisted[0];
    }
  }

  /** More records leave every issued id under a recorded lease. */
  lemma UnderStays(s: Leases, end: int, rolls: bool, i: nat)
    requires s.persisted != [] && i < |s.issued| == |s.under| && IssuedUnder(s, i)
    ensures IssuedUnder(s.(persisted := Logged(s.persisted, end, rolls)), i)
  {
    hide Recorded, Logged;
    StillRecorded(s.persisted, end, rolls, s.under[i]);
  }

  lemma LoggedSome(persisted: seq<seq<int>>, end: int, rolls: bool)
    requires persisted != []
    ensures Logged(persisted, end, rolls) != []
  {
  }

  lemma AscendingMore(ids: seq<int>, x: int)
    requires Ascending(ids) && forall p | p in ids :: p < x
    ensures Ascending(ids + [x])
  {
    assert forall i | 0 <= i < |ids| :: ids[i] in ids;
  }

  lemma LeaseKeeps(s: Leases, rolls: bool)
    requires Inv(s) && s.nextBase >= s.blockEnd
    ensures Inv(Lease(s, rolls)) && Lease(s, rolls).nextBase < Lease(s, rolls).blockEnd
  {
    hide Logged, Recorded, AllBlocks, FirstIsBehind, Ascending, IssuedUnder;
    var end := s.blockEnd + BLOCK_SIZE;
    StillRecorded(s.persisted, end, rolls, end);
    LoggedBlocks(s.persisted, end, rolls);
    LoggedBehind(s.persisted, end, rolls, s.blockEnd);
    forall i | 0 <= i < |s.issued| ensures IssuedUnder(Lease(s, rolls), i) {
      UnderStays(s, end, rolls, i);
      SameUnder(s.(persisted := Logged(s.persisted, end, rolls)), Lease(s, rolls), i);
    }
  }

  lemma SameUnder(s: Leases, t: Leases, i: nat)
    requires i < |s.issued| == |s.under| && |t.issued| == |t.under| && s.issued <= t.issued && s.under <= t.under
    requires s.persisted == t.persisted && IssuedUnder(s, i)
    ensures IssuedUnder(t, i)
  {
  }

  lemma IssueKeeps(s: Leases)
    requires Inv(s) && s.nextBase < s.blockEnd
    ensures Inv(Issue(s))
  {
    hide Recorded, AllBlocks, FirstIsBehind, Ascending;
    AscendingMore(s.issued, s.nextBase);
    var t := Issue(s);
    forall i | 0 <= i < |t.issued| ensures IssuedUnder(t, i) {
      if i < |s.issued| {
        SameUnder(s, t, i);
      }
    }
  }

  // ---- What a restart may do ----

  /** Every id was issued under a lease that the first segment records. */
  predicate Covered(s: Leases)
    requires s.persisted != []
  {
    forall end | end in s.under :: end in s.persisted[0]
  }

  /** Outside the first segment a lease begins at or above the first segment's largest. */
  lemma BelowExactly(s: Leases, i: nat)
    requires Inv(s) && i < |s.issued|
    ensures s.issued[i] < Largest(s.persisted[0]) <==> s.under[i] in s.persisted[0]
  {
    hide Ascending;
    var end, m := s.under[i], Largest(s.persisted[0]);
    assert IssuedUnder(s, i);
    if end !in s.persisted[0] {
      var k :| 0 <= k < |s.persisted| && end in s.persisted[k];
      assert end > m && end % BLOCK_SIZE == 0;
      assert m % BLOCK_SIZE == 0;
    }
  }

  lemma CoveredExactly(s: Leases)
    requires Inv(s)
    ensures Covered(s) <==> forall p | p in s.issued :: p < Largest(s.persisted[0])
  {
    hide Largest, Ascending, IssuedUnder, AllBlocks, FirstIsBehind, Recorded;
    if !Covered(s) {
      var end :| end in s.under && end !in s.persisted[0];
      var i: nat :| i < |s.under| && s.under[i] == end;
      BelowExactly(s, i);
      assert s.issued[i] in s.issued;
    }
    if p :| p in s.issued && p >= Largest(s.persisted[0]) {
      var i: nat :| i < |s.issued| && s.issued[i] == p;
      BelowExactly(s, i);
      var end := s.under[i];
      assert end in s.under && end !in s.persisted[0];
    }
  }

  /** A restart keeps the invariant exactly when every issued id is so covered. */
  lemma RestartKeeps(s: Leases)
    requires Inv(s)
    ensures Inv(Restarted(s)) <==> Covered(s)
  {
    hide Ascending;
    CoveredExactly(s);
    var t, m := Restarted(s), Largest(s.persisted[0]);
    if m > 0 {
      assert m in s.persisted[0];
    }
    assert t == s.(nextBase := m, blockEnd := m);
    forall i | 0 <= i < |s.issued| ensures IssuedUnder(t, i) {
      SameUnder(s, t, i);
    }
  }

  /** A one-segment log covers every id. */
  lemma OneSegmentCovers(s: Leases)
    requires Inv(s) && |s.persisted| == 1
    ensures Covered(s)
  {
    forall end | end in s.under ensures end in s.persisted[0] {
      var i :| 0 <= i < |s.under| && s.under[i] == end;
      assert IssuedUnder(s, i);
    }
  }

  /** Several allocations, one after another. */
  function Allocated(s: Leases, rolls: seq<bool>): (r: Leases)
    requires s.persisted != []
    ensures r.persisted != []
  {
    if rolls == [] then s
    else
      var n := |rolls| - 1;
      var before := Allocated(s, rolls[..n]);
      LoggedSome(before.persisted, before.blockEnd + BLOCK_SIZE, rolls[n]);
      Next(before, Allocates(rolls[n]))
  }

  function UpFrom(low: int, n: nat): (ids: seq<int>)
    ensures |ids| == n && forall k | 0 <= k < n :: ids[k] == low + k
  {
    seq(n, k => low + k)
  }

  /** From an exhausted block at `low`, allocations issue the ids from `low` on, one by one. */
  lemma {:induction false} AllocatedFrom(s: Leases, rolls: seq<bool>)
    requires s.persisted != [] && s.nextBase == s.blockEnd
    ensures var r := Allocated(s, rolls);
            && r.issued == s.issued + UpFrom(s.blockEnd, |rolls|)
            && r.nextBase == s.blockEnd + |rolls| <= r.blockEnd
    decreases |rolls|
  {
    hide Logged;
    if rolls == [] {
      assert s.issued + UpFrom(s.blockEnd, 0) == s.issued;
    } else {
      var n := |rolls| - 1;
      AllocatedFrom(s, rolls[..n]);
      assert UpFrom(s.blockEnd, n) + [s.blockEnd + n] == UpFrom(s.blockEnd, n + 1);
    }
  }

  predicate NoRepeats(ids: seq<int>) {
    forall i, j | 0 <= i < j < |ids| :: ids[i] != ids[j]
  }

  /** Some number of allocations issues an id that was issued before. */
  ghost predicate Reissues(s: Leases)
    requires s.persisted != []
  {
    exists rolls :: !NoRepeats(Allocated(s, rolls).issued)
  }

  lemma ReissuesExactly(s: Leases)
    requires s.persisted != [] && s.nextBase == s.blockEnd && Ascending(s.issued)
    ensures Reissues(s) <==> exists p :: p in s.issued && p >= s.blockEnd
  {
    hide Allocated;
    if rolls :| !NoRepeats(Allocated(s, rolls).issued) {
      AllocatedFrom(s, rolls);
      RepeatIsAbove(s.issued, s.blockEnd, |rolls|);
    }
    if p :| p in s.issued && p >= s.blockEnd {
      var n := p - s.blockEnd + 1;
      var rolls := seq(n, _ => false);
      AllocatedFrom(s, rolls);
      var i :| 0 <= i < |s.issued| && s.issued[i] == p;
      var ids := Allocated(s, rolls).issued;
      assert ids[i] == p && ids[|s.issued| + n - 1] == UpFrom(s.blockEnd, n)[n - 1] == p;
    }
  }

  lemma RepeatIsAbove(ids: seq<int>, low: int, n: nat)
    requires Ascending(ids) && !NoRepeats(ids + UpFrom(low, n))
    ensures exists p :: p in ids && p >= low
  {
    var all := ids + UpFrom(low, n);
    var i, j :| 0 <= i < j < |all| && all[i] == all[j];
    assert i < |ids| <= j;
    assert ids[i] in ids && ids[i] >= low;
  }

  /**
   After a restart some number of allocations issues an id a second time,
   exactly when some id is at or above the largest lease of the first segment,
   and exactly when some id was issued under a lease recorded elsewhere.
   */
  lemma RestartSafeExactly(s: Leases)
    requires Inv(s)
    ensures Reissues(Restarted(s)) <==> exists p :: p in s.issued && p >= Largest(s.persisted[0])
    ensures Reissues(Restarted(s)) <==> !Covered(s)
  {
    hide Reissues, Largest;
    CoveredExactly(s);
    RestartedAt(s);
    ReissuesExactly(Restarted(s));
  }

  lemma RestartedAt(s: Leases)
    requires s.persisted != []
    ensures Restarted(s) == s.(nextBase := Largest(s.persisted[0]), blockEnd := Largest(s.persisted[0]))
  {
  }

  /** After a restart whose replay failed they do, exactly when any id was ever issued. */
  lemma BlindRestartReissues(s: Leases)
    requires Inv(s)
    ensures Reissues(RestartedBlind(s)) <==> s.issued != []
  {
    hide Reissues;
    ReissuesExactly(RestartedBlind(s));
    if s.issued != [] {
      assert s.issued[0] in s.issued;
    }
  }

  // ---- Over whole runs ----

  /** Where a restart, or a crash that ends in one, takes place. */
  predicate SafeStep(s: Leases, step: Step)
    requires s.persisted != []
  {
    match step
    case Restarts => Covered(s)
    case CrashesAfterAppend(rolls) =>
      LoggedSome(s.persisted, s.blockEnd + BLOCK_SIZE, rolls);
      Covered(s.(persisted := Logged(s.persisted, s.blockEnd + BLOCK_SIZE, rolls)))
    case _ => true
  }

  lemma AppendKeeps(s: Leases, rolls: bool)
    requires Inv(s) && s.nextBase >= s.blockEnd
    ensures var t := s.(persisted := Logged(s.persisted, s.blockEnd + BLOCK_SIZE, rolls));
            Inv(t.(blockEnd := s.blockEnd + BLOCK_SIZE))
  {
    LeaseKeeps(s, rolls);
    assert Lease(s, rolls).nextBase == s.nextBase;
  }

  lemma SeedKeeps(s: Leases, n: int)
    requires Inv(s) && Recorded(s.persisted, n)
    ensures Inv(Seed(s, n))
  {
    hide Ascending, Largest;
    var i :| 0 <= i < |s.persisted| && n in s.persisted[i];
    assert n > 0 && n % BLOCK_SIZE == 0;
    var t := Seed(s, n);
    forall i | 0 <= i < |s.issued| ensures IssuedUnder(t, i) {
      SameUnder(s, t, i);
    }
  }

  /** Every step keeps the invariant, but for a restart that does not cover every id, and that one never does. */
  lemma StepKeeps(s: Leases, step: Step)
    requires Inv(s) && Enabled(s, step)
    ensures Inv(Next(s, step)) <==> SafeStep(s, step)
  {
    hide Inv, Covered, Logged, Recorded, Lease, Issue, Seed, Largest;
    match step
    case Allocates(rolls) =>
      var leased := if s.nextBase >= s.blockEnd then Lease(s, rolls) else s;
      if s.nextBase >= s.blockEnd {
        LeaseKeeps(s, rolls);
      }
      IssueKeeps(leased);
    case LeaseFails =>
    case CrashesAfterAppend(rolls) => CrashKeeps(s, rolls);
    case Restarts => RestartKeeps(s);
    case Seeds(n) => SeedKeeps(s, n);
  }

  lemma CrashKeeps(s: Leases, rolls: bool)
    requires Inv(s) && s.persisted != [] && s.nextBase >= s.blockEnd
    ensures var t := s.(persisted := Logged(s.persisted, s.blockEnd + BLOCK_SIZE, rolls));
            t.persisted != [] && (Inv(Restarted(t)) <==> Covered(t))
  {
    hide Inv, Largest, Logged;
    LoggedSome(s.persisted, s.blockEnd + BLOCK_SIZE, rolls);
    var t := s.(persisted := Logged(s.persisted, s.blockEnd + BLOCK_SIZE, rolls));
    AppendKeeps(s, rolls);
    RestartKeeps(t.(blockEnd := s.blockEnd + BLOCK_SIZE));
    assert Restarted(t.(blockEnd := s.blockEnd + BLOCK_SIZE)) == Restarted(t);
  }

  /** At every restart each id so far was issued under a lease of the first segment. */
  predicate AllCovered(states: seq<Leases>, steps: seq<Step>) {
    forall i | 0 <= i < |steps| && i < |states| :: states[i].persisted != [] ==> SafeStep(states[i], steps[i])
  }

  lemma {:induction false} RunKeeps(states: seq<Leases>, steps: seq<Step>, i: nat)
    requires IsRun(states, steps) && AllCovered(states, steps) && i < |states|
    ensures Inv(states[i])
  {
    hide Next, SafeStep;
    if i > 0 {
      RunKeeps(states, steps, i - 1);
      StepKeeps(states[i - 1], steps[i - 1]);
    }
  }

  /**
   Over any such run of allocations, failed leases, crashes and restarts no id
   is issued twice, and each issued id lies below some recorded lease end.
   */
  lemma NeverReissued(states: seq<Leases>, steps: seq<Step>, i: nat)
    requires IsRun(states, steps) && AllCovered(states, steps) && i < |states|
    ensures Ascending(states[i].issued)
    ensures forall p | p in states[i].issued :: exists end :: Recorded(states[i].persisted, end) && 0 <= p < end
  {
    hide Next, Enabled, Recorded;
    RunKeeps(states, steps, i);
    var s := states[i];
    forall p | p in s.issued ensures exists end :: Recorded(s.persisted, end) && 0 <= p < end {
      assert Recorded(s.persisted, s.blockEnd);
    }
  }

  /** The metadata log never rolls: what an operator can see to. */
  predicate NeverRolls(steps: seq<Step>) {
    forall i | 0 <= i < |steps| :: (steps[i].Allocates? || steps[i].CrashesAfterAppend?) ==> !steps[i].rolls
  }

  lemma {:induction false} OneSegmentRun(states: seq<Leases>, steps: seq<Step>, i: nat)
    requires IsRun(states, steps) && NeverRolls(steps) && i < |states|
    ensures Inv(states[i]) && |states[i].persisted| == 1
  {
    hide Inv, SafeStep;
    if i > 0 {
      OneSegmentRun(states, steps, i - 1);
      OneSegmentStep(states[i - 1], steps[i - 1]);
      StepKeeps(states[i - 1], steps[i - 1]);
    } else {
      FreshOk();
    }
  }

  lemma FreshOk()
    ensures Inv(FRESH)
  {
  }

  lemma OneSegmentStep(s: Leases, step: Step)
    requires Inv(s) && |s.persisted| == 1 && Enabled(s, step)
    requires (step.Allocates? || step.CrashesAfterAppend?) ==> !step.rolls
    ensures SafeStep(s, step) && |Next(s, step).persisted| == 1
  {
    match step
    case CrashesAfterAppend(rolls) =>
      AppendKeeps(s, rolls);
      var end := s.blockEnd + BLOCK_SIZE;
      OneSegmentCovers(s.(persisted := Logged(s.persisted, end, rolls), blockEnd := end));
    case Restarts => OneSegmentCovers(s);
    case _ =>
  }

  /** With a metadata log that never rolls no id is issued twice, whatever crashes and restarts there are. */
  lemma OneSegmentNeverReissues(states: seq<Leases>, steps: seq<Step>, i: nat)
    requires IsRun(states, steps) && NeverRolls(steps) && i < |states|
    ensures AllCovered(states, steps) && Ascending(states[i].issued)
  {
    hide Inv, SafeStep, Next;
    forall k: nat | k < |steps| ensures SafeStep(states[k], steps[k]) {
      OneSegmentRun(states, steps, k);
      OneSegmentStep(states[k], steps[k]);
    }
    NeverReissued(states, steps, i);
  }

  /** The lease that covers an id is on record before the id is handed out. */
  lemma RecordedBeforeIssued(s: Leases, rolls: bool)
    requires Inv(s)
    ensures var leased := if s.nextBase >= s.blockEnd then Lease(s, rolls) else s;
            && Next(s, Allocates(rolls)) == Issue(leased)
            && Recorded(leased.persisted, leased.blockEnd) && leased.nextBase < leased.blockEnd
  {
    StillRecorded(s.persisted, s.blockEnd + BLOCK_SIZE, rolls, s.blockEnd + BLOCK_SIZE);
  }

  /** Once the metadata log has rolled, a restart can issue an id a second time. */
  lemma SecondSegmentReissues()
    ensures var s1 := Next(FRESH, Allocates(false));
            var s2 := Next(s1, Restarts);
            var s3 := Next(s2, Allocates(true));
            var s4 := Next(s3, Restarts);
            var s5 := Next(s4, Allocates(false));
            s5.issued == [0, 1000, 1000]
  {
    var none: seq<int> := [];
    assert none + [0] == [0] && none + [1000] == [1000] && [none][0 := [1000]] == [[1000]];
    var s1 := Next(FRESH, Allocates(false));
    assert s1 == Leases(1, 1000, [[1000]], [0], [1000]);
    assert [1000][..0] == [] && Largest([1000]) == 1000;
    var s2 := Next(s1, Restarts);
    assert s2 == Leases(1000, 1000, [[1000]], [0], [1000]);
    var s3 := Next(s2, Allocates(true));
    assert s3 == Leases(1001, 2000, [[1000], [2000]], [0, 1000], [1000, 2000]);
    var s4 := Next(s3, Restarts);
    assert s4 == Leases(1000, 1000, [[1000], [2000]], [0, 1000], [1000, 2000]);
  }
}
