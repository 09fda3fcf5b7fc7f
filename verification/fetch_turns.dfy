/**
 A follower has one fetch under way at a time, so the answer it appends is
 always at the offset it has reached by then.
 */
module FetchTurns {
  import opened Options
  import opened CommitProtocol
  import CommitInvariant

  /** The follower a thread serves and the offset it asked for. */
  function Serving(pc: Pc): Option<(int, int)> {
    match pc
    case MustReport(f, offset, _) => Some((f, offset))
    case MustAdvance(Answer(f, offset, _)) => Some((f, offset))
    case MustComplete(_, Answer(f, offset, _)) => Some((f, offset))
    case MustAnswer(f, offset, _) => Some((f, offset))
    case Answered(f, offset, _) => Some((f, offset))
    case _ => None
  }

  predicate Serves(s: State, t: nat, f: int) {
    Serving(PcOf(s, t)).Some? && Serving(PcOf(s, t)).value.0 == f
  }

  /** No follower sends a fetch while another of its fetches is under way. */
  ghost predicate OneFetchEach(states: seq<State>, steps: seq<Step>) {
    forall i | 0 <= i < |steps| && i < |states| ::
      steps[i].SendsFetch? ==> forall u: nat :: !Serves(states[i], u, steps[i].follower)
  }

  /** Each follower is served by at most one thread, at the follower's own offset. */
  ghost predicate InTurn(s: State) {
    && (forall t: nat, u: nat, f: int | Serves(s, t, f) && Serves(s, u, f) :: t == u)
    && (forall t: nat, f: int | Serves(s, t, f) :: AtOwnOffset(s, t, f))
  }

  predicate AtOwnOffset(s: State, t: nat, f: int)
    requires Serves(s, t, f)
  {
    f in s.followers && s.followers[f].fetchOffset == Serving(PcOf(s, t)).value.1
  }

  lemma OtherThreads(s: State, step: Step, cfg: Config, u: nat)
    requires Enabled(s, step, cfg) && u != step.t
    ensures PcOf(Next(s, step, cfg), u) == PcOf(s, u)
  {
  }

  /** A step's own thread goes on serving the same fetch, or none, unless it takes up a new one. */
  lemma OwnThread(s: State, step: Step, cfg: Config)
    requires Enabled(s, step, cfg) && !step.SendsFetch?
    ensures var before, after := Serving(PcOf(s, step.t)), Serving(PcOf(Next(s, step, cfg), step.t));
            after.None? || after == before
    ensures step.FollowerAppends? ==> Serving(PcOf(Next(s, step, cfg), step.t)).None?
  {
  }

  lemma FollowersStay(s: State, step: Step, cfg: Config, f: int)
    requires Enabled(s, step, cfg) && !(step.FollowerAppends? && PcOf(s, step.t).follower == f)
    ensures f in s.followers ==> f in Next(s, step, cfg).followers && Next(s, step, cfg).followers[f] == s.followers[f]
  {
  }

  lemma TurnsKept(s: State, step: Step, cfg: Config)
    requires Enabled(s, step, cfg) && InTurn(s)
    requires step.SendsFetch? ==> forall u: nat :: !Serves(s, u, step.follower)
    ensures InTurn(Next(s, step, cfg))
  {
    hide Next, Enabled;
    var s' := Next(s, step, cfg);
    forall u: nat, f: int | Serves(s', u, f) ensures AtOwnOffset(s', u, f) && (Serves(s, u, f) || Takes(step, u, f)) {
      ServedBefore(s, step, cfg, u, f);
    }
  }

  /** The step takes up a fetch of follower `f`. */
  predicate Takes(step: Step, u: nat, f: int) {
    step.SendsFetch? && step.t == u && step.follower == f
  }

  lemma ServedBefore(s: State, step: Step, cfg: Config, u: nat, f: int)
    requires Enabled(s, step, cfg) && InTurn(s) && Serves(Next(s, step, cfg), u, f)
    requires step.SendsFetch? ==> forall u: nat :: !Serves(s, u, step.follower)
    ensures Serves(s, u, f) || Takes(step, u, f)
    ensures AtOwnOffset(Next(s, step, cfg), u, f)
  {
    var s' := Next(s, step, cfg);
    if Takes(step, u, f) {
    } else {
      hide Next, Enabled;
      SameServing(s, step, cfg, u, f);
      assert AtOwnOffset(s, u, f);
      if step.FollowerAppends? && PcOf(s, step.t).follower == f {
        AppenderServes(s, step, cfg);
        assert Serves(s, step.t, f);
        OwnThread(s, step, cfg);
        assert false;
      } else {
        FollowersStay(s, step, cfg, f);
      }
    }
  }

  lemma AppenderServes(s: State, step: Step, cfg: Config)
    requires Enabled(s, step, cfg) && step.FollowerAppends?
    ensures PcOf(s, step.t).Answered? && Serves(s, step.t, PcOf(s, step.t).follower)
  {
  }

  lemma SameServing(s: State, step: Step, cfg: Config, u: nat, f: int)
    requires Enabled(s, step, cfg) && Serves(Next(s, step, cfg), u, f) && !Takes(step, u, f)
    ensures Serves(s, u, f) && Serving(PcOf(s, u)) == Serving(PcOf(Next(s, step, cfg), u))
  {
    if u != step.t {
      OtherThreads(s, step, cfg, u);
    } else if !step.SendsFetch? {
      OwnThread(s, step, cfg);
    }
  }

  lemma {:induction false} TurnsOverRun(states: seq<State>, steps: seq<Step>, i: nat, cfg: Config)
    requires IsRun(states, steps, cfg) && OneFetchEach(states, steps) && i < |states|
    ensures InTurn(states[i])
  {
    hide Next, Enabled;
    if i > 0 {
      TurnsOverRun(states, steps, i - 1, cfg);
      TurnsKept(states[i - 1], steps[i - 1], cfg);
    }
  }

  /** So every answer can be appended: the model blocks no follower of a well-behaved run. */
  lemma AnswersAreAppended(states: seq<State>, steps: seq<Step>, i: nat, t: nat, cfg: Config)
    requires IsRun(states, steps, cfg) && GoodRun(states, steps, cfg) && OneFetchEach(states, steps)
    requires i < |states| && PcOf(states[i], t).Answered?
    ensures Enabled(states[i], FollowerAppends(t), cfg)
  {
    hide IsRun, GoodRun, OneFetchEach, Enabled;
    TurnsOverRun(states, steps, i, cfg);
    CommitInvariant.GuardsHold(states, steps, i, t, states[i].part.leo, cfg);
    var f := PcOf(states[i], t).follower;
    assert Serves(states[i], t, f);
    assert AtOwnOffset(states[i], t, f);
  }
}
