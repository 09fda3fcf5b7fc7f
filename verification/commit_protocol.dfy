/**
 The commit protocol of one partition as a transition system, one step per
 critical section: produce handlers append, raise the LEO and park; replica
 fetch handlers report and answer; the ISR manager ticks; any of them may
 advance the watermark and later release waiters. Threads interleave freely
 between their steps.
 */
module CommitProtocol {
  import opened Options
  import opened RecordBatch
  import opened LogView
  import opened CommitLogView
  import opened Purgatories
  import opened PartitionStates
  import opened Replication

  datatype Config = Config(segmentBytes: int, indexInterval: int, minIsr: int)

  /** A parked waiter: its identity and the last offset of its batch. */
  datatype Ticket = Ticket(id: nat, required: int)

  function RequiredOf(w: Ticket): int { w.required }

  /** What a thread does once the watermark has been dealt with. */
  datatype After =
    | Done
    | Park(last: int)
    | Answer(follower: int, offset: int, maxBytes: int)
    | CheckMin

  /** What a thread does next. */
  datatype Pc =
    | Idle
    | MustRaiseLeo(last: int, waits: bool)                        // its batch is in the log
    | MustReport(follower: int, offset: int, maxBytes: int)       // a replica fetch has arrived
    | MustAdvance(then_: After)
    | MustComplete(hwm: int, then_: After)
    | MustPark(last: int)
    | MustReadHwm(ticket: Ticket)
    | MustAnswer(follower: int, offset: int, maxBytes: int)
    | Answered(follower: int, offset: int, records: Option<seq<Batch>>)
    | Ticking(out: seq<int>, back: seq<int>, changed: bool)
    | MustCheckMin
    | MustFail

  datatype State = State(
    log: Log,
    followers: map<int, Follower>,
    part: Partition,
    parked: seq<Ticket>,
    required: seq<int>,              // of every waiter ever parked, by its id
    outcomes: seq<seq<Outcome>>,     // what its Done channel received
    threads: map<nat, Pc>)

  datatype Step =
    | LogAppends(t: nat, batch: Batch, waits: bool)
    | RaisesLeo(t: nat)
    | SendsFetch(t: nat, follower: int, maxBytes: int)
    | Reports(t: nat)
    | Advances(t: nat)
    | Completes(t: nat)
    | Parks(t: nat)
    | ReadsHwm(t: nat)
    | Answers(t: nat, visible: int)
    | FollowerAppends(t: nat)
    | Drops(t: nat)
    | TickStarts(t: nat, lagging: set<int>)
    | TickContinues(t: nat)
    | ChecksMin(t: nat)
    | Fails(t: nat)

  function PcOf(s: State, t: nat): Pc {
    if t in s.threads then s.threads[t] else Idle
  }

  function Goto(s: State, t: nat, pc: Pc): State {
    s.(threads := s.threads[t := pc])
  }

  function Resume(a: After): Pc {
    match a
    case Done => Idle
    case Park(last) => MustPark(last)
    case Answer(f, offset, maxBytes) => MustAnswer(f, offset, maxBytes)
    case CheckMin => MustCheckMin
  }

  predicate Init(s: State, cfg: Config) {
    && cfg.segmentBytes > 0
    && s.log == [Seg(0, [], [])]
    && s.part.leo == 0 && s.part.hwm == 0 && s.part.reported == map[]
    && IsrOk(s.part)
    && (forall id | id in s.part.replicas && id != s.part.leader :: id in s.followers)
    && (forall id | id in s.followers :: s.followers[id] == NEW_FOLLOWER)
    && s.parked == [] && s.required == [] && s.outcomes == [] && s.threads == map[]
  }

  ghost predicate Enabled(s: State, step: Step, cfg: Config) {
    match step
    case LogAppends(t, b, _) =>
      && PcOf(s, t).Idle? && s.log != []
      && Whole(b) && 0 <= LogEnd(s.log) < 0x8000_0000_0000_0000
      && IndexInRange(Active(s.log))
    case RaisesLeo(t) => PcOf(s, t).MustRaiseLeo?
    case SendsFetch(t, f, _) => PcOf(s, t).Idle? && f in s.followers
    case Reports(t) => PcOf(s, t).MustReport?
    case Advances(t) => PcOf(s, t).MustAdvance?
    case Completes(t) => PcOf(s, t).MustComplete?
    case Parks(t) => PcOf(s, t).MustPark?
    case ReadsHwm(t) => PcOf(s, t).MustReadHwm?
    case Answers(t, visible) => PcOf(s, t).MustAnswer? && visible <= s.part.leo && GapFree(s.log)
    case FollowerAppends(t) =>
      && PcOf(s, t).Answered?
      && PcOf(s, t).follower in s.followers
      && PcOf(s, t).offset == s.followers[PcOf(s, t).follower].fetchOffset
      && (PcOf(s, t).records.Some? ==>
            PcOf(s, t).records.value != [] && |PcOf(s, t).records.value[0].raw| >= 8)
    case Drops(t) => PcOf(s, t).Answered?
    case TickStarts(t, _) => PcOf(s, t).Idle?
    case TickContinues(t) => PcOf(s, t).Ticking?
    case ChecksMin(t) => PcOf(s, t).MustCheckMin?
    case Fails(t) => PcOf(s, t).MustFail?
  }

  /** The waiters a release up to `hwm` resolves. */
  function Released(parked: seq<Ticket>, hwm: int): set<nat> {
    set w | w in parked && w.required < hwm :: w.id
  }

  function Ids(parked: seq<Ticket>): set<nat> {
    set w | w in parked :: w.id
  }

  function Send(outcomes: seq<seq<Outcome>>, ids: set<nat>, outcome: Outcome): (r: seq<seq<Outcome>>)
    ensures |r| == |outcomes|
    ensures forall id | 0 <= id < |r| :: r[id] == outcomes[id] + if id in ids then [outcome] else []
  {
    seq(|outcomes|, id requires 0 <= id < |outcomes| => outcomes[id] + if id in ids then [outcome] else [])
  }

  function Next(s: State, step: Step, cfg: Config): State
    requires Enabled(s, step, cfg)
  {
    match step
    case LogAppends(t, b, waits) =>
      var base := LogEnd(s.log);
      Goto(s.(log := LogAppend(s.log, [Rebase(b, base)], cfg.segmentBytes, cfg.indexInterval)),
           t, MustRaiseLeo(base + b.count - 1, waits))
    case RaisesLeo(t) =>
      var MustRaiseLeo(last, waits) := PcOf(s, t);
      Goto(s.(part := RaiseLeo(s.part, last)), t, MustAdvance(if waits then Park(last) else Done))
    case SendsFetch(t, f, maxBytes) =>
      Goto(s, t, MustReport(f, s.followers[f].fetchOffset, maxBytes))
    case Reports(t) =>
      var MustReport(f, offset, maxBytes) := PcOf(s, t);
      Goto(s.(part := Report(s.part, f, offset)), t, MustAdvance(Answer(f, offset, maxBytes)))
    case Advances(t) =>
      var a, p := PcOf(s, t).then_, Advance(s.part);
      Goto(s.(part := p), t, if p.hwm > s.part.hwm then MustComplete(p.hwm, a) else Resume(a))
    case Completes(t) =>
      var MustComplete(h, a) := PcOf(s, t);
      Goto(s.(parked := StillWaiting(s.parked, RequiredOf, h),
              outcomes := Send(s.outcomes, Released(s.parked, h), Committed)), t, Resume(a))
    case Parks(t) =>
      var w := Ticket(|s.required|, PcOf(s, t).last);
      Goto(s.(parked := s.parked + [w], required := s.required + [w.required],
              outcomes := s.outcomes + [[]]), t, MustReadHwm(w))
    case ReadsHwm(t) =>
      Goto(s, t, MustComplete(s.part.hwm, Done))
    case Answers(t, visible) =>
      var MustAnswer(f, offset, maxBytes) := PcOf(s, t);
      Goto(s, t, Answered(f, offset, Fetch(s.log, offset, maxBytes, visible)))
    case FollowerAppends(t) =>
      var Answered(f, _, records) := PcOf(s, t);
      Goto(s.(followers := s.followers[f := Replication.Apply(s.followers[f], records)]), t, Idle)
    case Drops(t) =>
      Goto(s, t, Idle)
    case TickStarts(t, lagging) =>
      Goto(s, t, Ticking(Lagging(s.part, lagging, s.part.isr), Returning(s.part, s.part.replicas), false))
    case TickContinues(t) =>
      var Ticking(out, back, changed) := PcOf(s, t);
      if out != [] then Goto(s.(part := Shrink(s.part, out[0])), t, Ticking(out[1..], back, true))
      else if back != [] then Goto(s.(part := Expand(s.part, back[0])), t, Ticking([], back[1..], true))
      else Goto(s, t, if changed then MustAdvance(CheckMin) else Idle)
    case ChecksMin(t) =>
      Goto(s, t, if |s.part.isr| < cfg.minIsr then MustFail else Idle)
    case Fails(t) =>
      Goto(s.(parked := [],
              outcomes := Send(s.outcomes, Ids(s.parked), Failed(NOT_ENOUGH_REPLICAS_AFTER_APPEND))),
           t, Idle)
  }

  ghost predicate IsRun(states: seq<State>, steps: seq<Step>, cfg: Config) {
    && |states| == |steps| + 1
    && Init(states[0], cfg)
    && forall i | 0 <= i < |steps| ::
         Enabled(states[i], steps[i], cfg) && states[i + 1] == Next(states[i], steps[i], cfg)
  }

  // ---- Answers that keep a follower in sync ----

  ghost predicate GoodStep(s: State, step: Step, cfg: Config)
    requires Enabled(s, step, cfg)
  {
    step.Answers? ==>
      var pc := PcOf(s, step.t);
      GoodAnswer(s.log, pc.offset, Fetch(s.log, pc.offset, pc.maxBytes, step.visible))
  }

  /** Every fetch of a follower is answered so. */
  ghost predicate GoodRun(states: seq<State>, steps: seq<Step>, cfg: Config)
    requires IsRun(states, steps, cfg)
  {
    forall i | 0 <= i < |steps| :: GoodStep(states[i], steps[i], cfg)
  }
}
