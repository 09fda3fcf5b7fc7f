/**
 One consumer group: members join, a barrier closes each generation, the
 leader hands out assignments. Each locked section is a function on the value
 `Group`; replies sent to waiting members are kept in the order they are sent.
 */
module Groups {
  import opened Options
  import opened Bytes
  import opened Ordering

  const MEMBER_ID_REQUIRED := 79
  const UNKNOWN_MEMBER_ID := 25

  datatype Phase = Empty | PreparingRebalance | CompletingRebalance | Stable | Dead

  const REBALANCE_IN_PROGRESS := 27
  const ILLEGAL_GENERATION := 22

  type Assignments = map<string, seq<Byte>>

  /** A reply to a waiting join; only the leader's lists the members. */
  datatype JoinReply = JoinReply(memberId: string, generation: int, leader: string, members: set<string>)

  datatype SyncReply = SyncReply(memberId: string, generation: int, assignment: Option<seq<Byte>>)

  /** A closed join barrier: the generation, its leader and its members at that moment. */
  datatype Closing = Closing(generation: int, leader: string, members: set<string>)

  /**
   `closings` and `given` record, for each generation, how its barrier closed
   and the one map its leader handed in.
   */
  datatype Group = Group(
    phase: Phase, generation: int, leader: string, members: set<string>,
    pendingJoins: seq<string>, pendingSyncs: seq<string>, assignment: Option<Assignments>,
    joinReplies: seq<JoinReply>, syncReplies: seq<SyncReply>,
    closings: seq<Closing>, given: map<int, Assignments>)

  const NEW_GROUP := Group(Empty, 0, "", {}, [], [], None, [], [], [], map[])

  // ---- The locked sections ----

  function Prepare(g: Group): Group {
    g.(phase := PreparingRebalance, generation := g.generation + 1, leader := "", assignment := None,
       pendingJoins := [], pendingSyncs := [])
  }

  function JoinRepliesFor(g: Group, ids: seq<string>, leader: string): seq<JoinReply> {
    if ids == [] then []
    else
      var n := |ids| - 1;
      JoinRepliesFor(g, ids[..n], leader) +
      [JoinReply(ids[n], g.generation, leader, if ids[n] == leader then g.members else {})]
  }

  /** Closes the join barrier if as many joins wait as there are members; with none of either the code panics. */
  function CloseIfComplete(g: Group): Option<Group> {
    if g.phase != PreparingRebalance || |g.pendingJoins| != |g.members| then Some(g)
    else if g.pendingJoins == [] then None
    else
      var leader := g.pendingJoins[0];
      Some(g.(leader := leader, phase := CompletingRebalance, pendingJoins := [],
              joinReplies := g.joinReplies + JoinRepliesFor(g, g.pendingJoins, leader),
              closings := g.closings + [Closing(g.generation, leader, g.members)]))
  }

  function Joined(g: Group, id: string): Option<Group> {
    var g1 := g.(members := g.members + {id});
    var g2 := if g.phase in {Stable, Empty, Dead} then Prepare(g1) else g1;
    CloseIfComplete(g2.(pendingJoins := g2.pendingJoins + [id]))
  }

  /** A member leaves or its session expires. */
  function Removed(g: Group, id: string): Group {
    if id !in g.members then g
    else if g.members == {id} then g.(members := {}, phase := Dead)
    else Prepare(g.(members := g.members - {id}))
  }

  /** The rebalance timer of some generation fires: members that have not rejoined are dropped. */
  function TimedOut(g: Group, expected: int): Option<Group> {
    if g.generation != expected then Some(g)
    else CloseIfComplete(g.(members := set id | id in g.members && id in g.pendingJoins))
  }

  function SyncError(g: Group, generation: int): int {
    if generation != g.generation then ILLEGAL_GENERATION
    else if g.phase != CompletingRebalance then REBALANCE_IN_PROGRESS
    else 0
  }

  function AssignmentOf(m: Assignments, id: string): Option<seq<Byte>> {
    if id in m then Some(m[id]) else None
  }

  function SyncRepliesFor(g: Group, ids: seq<string>, m: Assignments): seq<SyncReply> {
    if ids == [] then []
    else
      var n := |ids| - 1;
      SyncRepliesFor(g, ids[..n], m) + [SyncReply(ids[n], g.generation, AssignmentOf(m, ids[n]))]
  }

  function Synced(g: Group, id: string, generation: int, assignments: Option<Assignments>): Group {
    if SyncError(g, generation) != 0 then g
    else if id == g.leader && assignments.Some? then
      var m := assignments.value;
      g.(assignment := assignments, phase := Stable, pendingSyncs := [],
         syncReplies :=
           g.syncReplies + [SyncReply(id, g.generation, AssignmentOf(m, id))] + SyncRepliesFor(g, g.pendingSyncs, m),
         given := g.given[g.generation := m])
    else if g.assignment.Some? then
      g.(syncReplies := g.syncReplies + [SyncReply(id, g.generation, AssignmentOf(g.assignment.value, id))])
    else g.(pendingSyncs := g.pendingSyncs + [id])
  }

  // ---- Runs ----

  datatype Step =
    | Joins(id: string)
    | Leaves(id: string)
    | TimesOut(expected: int)
    | Syncs(id: string, generation: int, assignments: Option<Assignments>)

  /** The group after a step, or nothing when the step panics; a join needs a member id. */
  function Next(g: Group, step: Step): Option<Group> {
    match step
    case Joins(id) => if id == "" then Some(g) else Joined(g, id)
    case Leaves(id) => Some(Removed(g, id))
    case TimesOut(expected) => TimedOut(g, expected)
    case Syncs(id, generation, assignments) => Some(Synced(g, id, generation, assignments))
  }

  ghost predicate IsRun(groups: seq<Group>, steps: seq<Step>) {
    && |groups| == |steps| + 1 && groups[0] == NEW_GROUP
    && forall i | 0 <= i < |steps| :: Next(groups[i], steps[i]) == Some(groups[i + 1])
  }

  /** Exactly one kind of step panics: a timeout of the current generation while nobody has joined it yet. */
  lemma PanicsExactly(g: Group, step: Step)
    ensures Next(g, step).None? <==>
            step.TimesOut? && step.expected == g.generation && g.phase == PreparingRebalance && g.pendingJoins == []
  {
    if step.TimesOut? && g.pendingJoins == [] {
      assert (set id | id in g.members && id in g.pendingJoins) == {};
    }
  }

  /** A run that comes to it: of two members the first leaves, and the timer fires before the second joins again. */
  lemma PanicIsReachable() returns (groups: seq<Group>, steps: seq<Step>)
    ensures IsRun(groups, steps) && Next(groups[|steps|], TimesOut(2)).None?
  {
    var g1 := AfterFirstJoin("a");
    var g2 := g1.(members := {"a", "b"}, pendingJoins := ["b"]);
    assert Next(g1, Joins("b")) == Some(g2) by {
      assert g1.members + {"b"} == {"a", "b"} && g1.pendingJoins + ["b"] == ["b"];
    }
    var g3 := Prepare(g2.(members := {"b"}));
    assert Next(g2, Leaves("a")) == Some(g3) by {
      assert "b" in g2.members && "b" !in {"a"};
      assert g2.members - {"a"} == {"b"};
    }
    groups, steps := [NEW_GROUP, g1, g2, g3], [Joins("a"), Joins("b"), Leaves("a")];
    PanicsExactly(g3, TimesOut(2));
  }

  /** The group after its first member has joined: the barrier closes at once. */
  lemma AfterFirstJoin(id: string) returns (g: Group)
    requires id != ""
    ensures Next(NEW_GROUP, Joins(id)) == Some(g)
    ensures g == Group(CompletingRebalance, 1, id, {id}, [], [], None, [JoinReply(id, 1, id, {id})], [],
                       [Closing(1, id, {id})], map[])
  {
    var ids := [] + [id];
    assert ids == [id] && ids[..0] == [] && {} + {id} == {id};
    g := Group(CompletingRebalance, 1, id, {id}, [], [], None, [JoinReply(id, 1, id, {id})], [],
               [Closing(1, id, {id})], map[]);
    var before := Prepare(NEW_GROUP.(members := {id})).(pendingJoins := [id]);
    assert JoinRepliesFor(before, [id], id) == [JoinReply(id, 1, id, {id})];
    assert before.joinReplies + [JoinReply(id, 1, id, {id})] == g.joinReplies;
    assert before.closings + [Closing(1, id, {id})] == g.closings;
    assert CloseIfComplete(before) == Some(g);
  }

  // ---- What a closed barrier means ----

  predicate Distinct(ids: seq<string>) {
    forall i, j | 0 <= i < j < |ids| :: ids[i] != ids[j]
  }

  lemma {:induction false} DistinctExactly(ids: seq<string>)
    ensures |set id | id in ids| <= |ids|
    ensures |set id | id in ids| == |ids| <==> Distinct(ids)
  {
    if ids != [] {
      var n := |ids| - 1;
      DistinctExactly(ids[..n]);
      var before := set id | id in ids[..n];
      assert ids == ids[..n] + [ids[n]];
      assert (set id | id in ids) == before + {ids[n]};
      if ids[n] in before {
        var i :| 0 <= i < n && ids[i] == ids[n];
        assert before + {ids[n]} == before;
      }
    }
  }

  lemma SubsetOfSize(a: set<string>, b: set<string>)
    requires a <= b && |a| == |b|
    ensures a == b
  {
    assert a + (b - a) == b;
    assert b - a == {};
  }

  /**
   The barrier counts waiting joins, not members: when it closes, every member
   has joined the new generation exactly when no member waits twice.
   */
  lemma AllJoinedExactly(g: Group)
    requires Inv(g) && g.phase == PreparingRebalance && |g.pendingJoins| == |g.members|
    ensures (forall id | id in g.members :: id in g.pendingJoins) <==> Distinct(g.pendingJoins)
  {
    var joined := set id | id in g.pendingJoins;
    DistinctExactly(g.pendingJoins);
    assert joined <= g.members;
    if |joined| == |g.members| {
      SubsetOfSize(joined, g.members);
    } else {
      assert joined != g.members;
    }
  }

  /** A member that joins an open barrier as one of two, while one join waits, closes it. */
  lemma SecondJoinCloses(g: Group)
    requires g.phase == PreparingRebalance && g.members == {"a", "b"} && g.pendingJoins == ["b"]
    ensures var replies := JoinRepliesFor(g.(pendingJoins := ["b", "b"]), ["b", "b"], "b");
            Next(g, Joins("b")) ==
            Some(g.(leader := "b", phase := CompletingRebalance, joinReplies := g.joinReplies + replies,
                    closings := g.closings + [Closing(g.generation, "b", {"a", "b"})], pendingJoins := []))
  {
    hide JoinRepliesFor;
    assert g.members + {"b"} == {"a", "b"} && ["b"] + ["b"] == ["b", "b"];
    TwoMembers();
    assert g.(members := g.members + {"b"}) == g;
  }

  lemma JoinReopens(g: Group)
    requires g.phase == Stable && g.members == {"a"}
    ensures Next(g, Joins("b")) == Some(Prepare(g.(members := {"a", "b"})).(pendingJoins := ["b"]))
  {
    hide JoinRepliesFor;
    assert g.members + {"b"} == {"a", "b"} && [] + ["b"] == ["b"];
    TwoMembers();
  }

  /** A run in which one member joins twice, and the barrier closes without the other. */
  lemma BarrierClosesWithout() returns (groups: seq<Group>, steps: seq<Step>)
    ensures IsRun(groups, steps)
    ensures var g := groups[|steps|];
            && Closing(2, "b", {"a", "b"}) in g.closings
            && forall r | r in g.joinReplies && r.generation == 2 :: r.memberId == "b"
  {
    hide Joined;
    var g1 := AfterFirstJoin("a");
    var none: Assignments := map[];
    var sync := Syncs("a", 1, Some(none));
    var g2 := Next(g1, sync).value;
    JoinReopens(g2);
    var g3 := Next(g2, Joins("b")).value;
    SecondJoinCloses(g3);
    var g4 := Next(g3, Joins("b")).value;
    JoinRepliesExactly(g3.(pendingJoins := ["b", "b"]), g3.joinReplies, ["b", "b"], "b");
    groups, steps := [NEW_GROUP, g1, g2, g3, g4], [Joins("a"), sync, Joins("b"), Joins("b")];
    assert g4.closings[|g3.closings|] == Closing(2, "b", {"a", "b"});
  }

  lemma TwoMembers()
    ensures |{"a", "b"}| == 2
  {
    assert "a"[0] != "b"[0];
  }

  // ---- What every step keeps ----

  predicate ClosingsOk(g: Group) {
    && (forall i, j | 0 <= i < j < |g.closings| :: g.closings[i].generation < g.closings[j].generation)
    && (forall c | c in g.closings :: c.generation <= g.generation && c.leader in c.members)
    && (g.phase in {Empty, PreparingRebalance} ==> forall c | c in g.closings :: c.generation < g.generation)
  }

  /** A reply to a join names the leader its generation's barrier closed with. */
  predicate JoinReplyOk(closings: seq<Closing>, r: JoinReply) {
    exists c | c in closings ::
      c.generation == r.generation && c.leader == r.leader && r.memberId in c.members &&
      r.members == if r.memberId == r.leader then c.members else {}
  }

  /** A reply to a sync is the member's entry in the one map its generation's leader handed in. */
  predicate SyncReplyOk(given: map<int, Assignments>, r: SyncReply) {
    r.generation in given && r.assignment == AssignmentOf(given[r.generation], r.memberId)
  }

  predicate PhaseOk(g: Group) {
    && (g.phase != Dead ==> forall id | id in g.pendingJoins :: id in g.members)
    && (g.phase in {Empty, PreparingRebalance, CompletingRebalance} ==> g.assignment.None? && g.generation !in g.given)
    && (forall n | n in g.given :: n <= g.generation)
    && "" !in g.members
  }

  predicate Inv(g: Group) {
    && ClosingsOk(g)
    && PhaseOk(g)
    && (forall r | r in g.joinReplies :: JoinReplyOk(g.closings, r))
    && (forall r | r in g.syncReplies :: SyncReplyOk(g.given, r))
  }

  /** Generations never go back, and what was recorded of one never changes. */
  predicate Extends(g: Group, g': Group) {
    && g.generation <= g'.generation
    && g.closings <= g'.closings
    && g.joinReplies <= g'.joinReplies && g.syncReplies <= g'.syncReplies
    && (forall n | n in g.given :: n in g'.given && g'.given[n] == g.given[n])
  }

  /** One reply for each waiting join, in order; the leader's alone lists the members. */
  predicate Welcomed(before: seq<JoinReply>, after: seq<JoinReply>, ids: seq<string>, generation: int, leader: string,
                     members: set<string>)
  {
    && |after| == |before| + |ids| && after[..|before|] == before
    && forall i | 0 <= i < |ids| ::
         after[|before| + i] == JoinReply(ids[i], generation, leader, if ids[i] == leader then members else {})
  }

  lemma NewWelcome(before: seq<JoinReply>, after: seq<JoinReply>, ids: seq<string>, generation: int, leader: string,
                   members: set<string>, r: JoinReply)
    requires Welcomed(before, after, ids, generation, leader, members) && r in after && r !in before
    ensures r.memberId in ids
    ensures r == JoinReply(r.memberId, generation, leader, if r.memberId == leader then members else {})
  {
    var new_ := after[|before|..];
    assert after == before + new_;
    var k :| 0 <= k < |new_| && new_[k] == r;
    assert ids[k] == r.memberId;
  }

  lemma {:induction false} JoinRepliesExactly(g: Group, before: seq<JoinReply>, ids: seq<string>, leader: string)
    ensures Welcomed(before, before + JoinRepliesFor(g, ids, leader), ids, g.generation, leader, g.members)
  {
    if ids != [] {
      var n := |ids| - 1;
      JoinRepliesExactly(g, before, ids[..n], leader);
      var less := before + JoinRepliesFor(g, ids[..n], leader);
      var after := before + JoinRepliesFor(g, ids, leader);
      assert after[..|before|] == before && after == less + [after[|less|]];
    }
  }

  /** One reply for each waiting sync, in order: the member's entry in the map, if it has one. */
  predicate Answered(before: seq<SyncReply>, after: seq<SyncReply>, ids: seq<string>, generation: int, m: Assignments) {
    && |after| == |before| + |ids| && after[..|before|] == before
    && forall i | 0 <= i < |ids| ::
         after[|before| + i] == SyncReply(ids[i], generation, if ids[i] in m then Some(m[ids[i]]) else None)
  }

  lemma NewAnswer(before: seq<SyncReply>, after: seq<SyncReply>, ids: seq<string>, generation: int, m: Assignments,
                  r: SyncReply)
    requires Answered(before, after, ids, generation, m) && r in after && r !in before
    ensures r.memberId in ids
    ensures r == SyncReply(r.memberId, generation, if r.memberId in m then Some(m[r.memberId]) else None)
  {
    var new_ := after[|before|..];
    assert after == before + new_;
    var k :| 0 <= k < |new_| && new_[k] == r;
    assert ids[k] == r.memberId;
  }

  lemma {:induction false} SyncRepliesExactly(g: Group, before: seq<SyncReply>, ids: seq<string>, m: Assignments)
    ensures Answered(before, before + SyncRepliesFor(g, ids, m), ids, g.generation, m)
  {
    if ids != [] {
      var n := |ids| - 1;
      SyncRepliesExactly(g, before, ids[..n], m);
      var less := before + SyncRepliesFor(g, ids[..n], m);
      var after := before + SyncRepliesFor(g, ids, m);
      assert after[..|before|] == before && after == less + [after[|less|]];
    }
  }

  lemma OneAnswer(before: seq<SyncReply>, id: string, generation: int, m: Assignments)
    ensures Answered(before, before + [SyncReply(id, generation, AssignmentOf(m, id))], [id], generation, m)
  {
  }

  /** The leader's sync answers the leader and every waiting member from its map. */
  lemma LeaderAnswers(g: Group, m: Assignments)
    requires g.phase == CompletingRebalance
    ensures var g' := Synced(g, g.leader, g.generation, Some(m));
            Answered(g.syncReplies, g'.syncReplies, [g.leader] + g.pendingSyncs, g.generation, m)
  {
    var mine := SyncReply(g.leader, g.generation, if g.leader in m then Some(m[g.leader]) else None);
    var before := g.syncReplies + [mine];
    SyncRepliesExactly(g, before, g.pendingSyncs, m);
    var after := before + SyncRepliesFor(g, g.pendingSyncs, m);
    hide SyncRepliesFor;
    var ids := [g.leader] + g.pendingSyncs;
    assert after[..|g.syncReplies|] == before[..|g.syncReplies|] == g.syncReplies;
    assert after[|g.syncReplies|] == after[..|before|][|g.syncReplies|] == mine;
    forall i | 0 < i < |ids|
      ensures after[|g.syncReplies| + i] ==
              SyncReply(ids[i], g.generation, if ids[i] in m then Some(m[ids[i]]) else None)
    {
      assert ids[i] == g.pendingSyncs[i - 1];
    }
  }

  lemma ClosingKeeps(g: Group)
    requires Inv(g) && g.phase == PreparingRebalance && |g.pendingJoins| == |g.members| && g.pendingJoins != []
    ensures var g' := CloseIfComplete(g).value;
            Inv(g') && Extends(g, g')
  {
    var g' := CloseIfComplete(g).value;
    var leader := g.pendingJoins[0];
    assert leader in g.pendingJoins;
    var c := Closing(g.generation, leader, g.members);
    JoinRepliesExactly(g, g.joinReplies, g.pendingJoins, leader);
    hide JoinRepliesFor, Welcomed;
    assert c in g'.closings;
    forall r | r in g'.joinReplies ensures JoinReplyOk(g'.closings, r) {
      if r in g.joinReplies {
        ReplyStays(g.closings, c, r);
      } else {
        NewWelcome(g.joinReplies, g'.joinReplies, g.pendingJoins, g.generation, leader, g.members, r);
      }
    }
    assert forall x | x in g'.closings :: x in g.closings || x == c;
    assert forall i | 0 <= i < |g.closings| :: g.closings[i] in g.closings;
  }

  lemma ReplyStays(closings: seq<Closing>, c: Closing, r: JoinReply)
    requires JoinReplyOk(closings, r)
    ensures JoinReplyOk(closings + [c], r)
  {
    var d :| d in closings && d.generation == r.generation && d.leader == r.leader && r.memberId in d.members &&
             r.members == if r.memberId == r.leader then d.members else {};
    assert d in closings + [c];
  }

  lemma CloseKeeps(g: Group)
    requires Inv(g)
    ensures CloseIfComplete(g).Some? ==> Inv(CloseIfComplete(g).value) && Extends(g, CloseIfComplete(g).value)
  {
    hide Inv, Extends, JoinRepliesFor;
    if g.phase == PreparingRebalance && |g.pendingJoins| == |g.members| && g.pendingJoins != [] {
      ClosingKeeps(g);
    } else {
      SameGroup(g);
    }
  }

  lemma SameGroup(g: Group)
    ensures Extends(g, g)
  {
  }

  lemma JoinKeeps(g: Group, id: string)
    requires Inv(g) && id != ""
    ensures Joined(g, id).Some? ==> Inv(Joined(g, id).value) && Extends(g, Joined(g, id).value)
  {
    hide CloseIfComplete, JoinReplyOk, SyncReplyOk;
    var g1 := g.(members := g.members + {id});
    assert g.phase != Dead ==> Inv(g1);
    var g2 := if g.phase in {Stable, Empty, Dead} then Prepare(g1) else g1;
    var g3 := g2.(pendingJoins := g2.pendingJoins + [id]);
    assert Inv(g3);
    CloseKeeps(g3);
  }

  lemma RemoveKeeps(g: Group, id: string)
    requires Inv(g)
    ensures Inv(Removed(g, id)) && Extends(g, Removed(g, id))
  {
    hide JoinReplyOk, SyncReplyOk;
  }

  lemma TimeoutKeeps(g: Group, expected: int)
    requires Inv(g)
    ensures TimedOut(g, expected).Some? ==> Inv(TimedOut(g, expected).value) && Extends(g, TimedOut(g, expected).value)
  {
    hide CloseIfComplete, JoinReplyOk, SyncReplyOk;
    var g1 := g.(members := set id | id in g.members && id in g.pendingJoins);
    assert Inv(g1);
    CloseKeeps(g1);
  }

  lemma SyncKeeps(g: Group, id: string, generation: int, assignments: Option<Assignments>)
    requires Inv(g)
    ensures Inv(Synced(g, id, generation, assignments)) && Extends(g, Synced(g, id, generation, assignments))
  {
    hide JoinReplyOk;
    var g' := Synced(g, id, generation, assignments);
    if SyncError(g, generation) == 0 && id == g.leader && assignments.Some? {
      LeaderAnswers(g, assignments.value);
      hide SyncRepliesFor, Answered;
      forall r | r in g'.syncReplies ensures SyncReplyOk(g'.given, r) {
        if r in g.syncReplies {
          assert SyncReplyOk(g.given, r);
        } else {
          NewAnswer(g.syncReplies, g'.syncReplies, [id] + g.pendingSyncs, generation, assignments.value, r);
        }
      }
    }
  }

  lemma StepKeeps(g: Group, step: Step)
    requires Inv(g)
    ensures Next(g, step).Some? ==> Inv(Next(g, step).value) && Extends(g, Next(g, step).value)
  {
    hide Inv, Extends, Joined, Removed, TimedOut, Synced;
    match step
    case Joins(id) =>
      SameGroup(g);
      if id != "" {
        JoinKeeps(g, id);
      }
    case Leaves(id) => RemoveKeeps(g, id);
    case TimesOut(expected) => TimeoutKeeps(g, expected);
    case Syncs(id, generation, assignments) => SyncKeeps(g, id, generation, assignments);
  }

  lemma {:induction false} RunKeeps(groups: seq<Group>, steps: seq<Step>, i: nat)
    requires IsRun(groups, steps) && i < |groups|
    ensures Inv(groups[i])
  {
    hide Inv, Extends, Next;
    if i == 0 {
      NewGroupOk();
    } else {
      RunKeeps(groups, steps, i - 1);
      StepKeeps(groups[i - 1], steps[i - 1]);
    }
  }

  lemma NewGroupOk()
    ensures Inv(NEW_GROUP)
  {
  }

  /** The generation never decreases, and no record of an earlier one is ever changed. */
  lemma {:induction false} NothingIsTakenBack(groups: seq<Group>, steps: seq<Step>, i: nat, j: nat)
    requires IsRun(groups, steps) && i <= j < |groups|
    ensures Extends(groups[i], groups[j])
    decreases j
  {
    hide Inv, Next;
    if i < j {
      NothingIsTakenBack(groups, steps, i, j - 1);
      RunKeeps(groups, steps, j - 1);
      StepKeeps(groups[j - 1], steps[j - 1]);
    }
  }

  /**
   In every run each generation's barrier closes at most once, and all replies
   to joins of one generation name the same leader, a member at that closing.
   */
  lemma OneLeaderPerGeneration(groups: seq<Group>, steps: seq<Step>, i: nat, a: JoinReply, b: JoinReply)
    requires IsRun(groups, steps) && i < |groups|
    requires a in groups[i].joinReplies && b in groups[i].joinReplies && a.generation == b.generation
    ensures a.leader == b.leader
    ensures exists c | c in groups[i].closings ::
              c.generation == a.generation && c.leader == a.leader && a.leader in c.members &&
              a.memberId in c.members && b.memberId in c.members
  {
    RunKeeps(groups, steps, i);
    var g := groups[i];
    var c :| c in g.closings && c.generation == a.generation && c.leader == a.leader && a.memberId in c.members;
    var d :| d in g.closings && d.generation == b.generation && d.leader == b.leader && b.memberId in d.members;
    SameClosing(g, c, d);
  }

  lemma SameClosing(g: Group, c: Closing, d: Closing)
    requires ClosingsOk(g) && c in g.closings && d in g.closings && c.generation == d.generation
    ensures c == d
  {
    var i :| 0 <= i < |g.closings| && g.closings[i] == c;
    var j :| 0 <= j < |g.closings| && g.closings[j] == d;
    assert i == j;
  }

  /** All sync replies of one generation come from one map, even across later changes of the group. */
  lemma OneAssignmentPerGeneration(groups: seq<Group>, steps: seq<Step>, i: nat, j: nat, a: SyncReply)
    requires IsRun(groups, steps) && i <= j < |groups| && a in groups[i].syncReplies
    ensures a.generation in groups[j].given && a in groups[j].syncReplies
    ensures var m := groups[j].given[a.generation];
            a.assignment == if a.memberId in m then Some(m[a.memberId]) else None
  {
    hide Next;
    RunKeeps(groups, steps, i);
    NothingIsTakenBack(groups, steps, i, j);
    assert SyncReplyOk(groups[i].given, a);
  }

  /**
   When the leader of a completing rebalance syncs with its map, it and every
   waiting member is answered from that map, and so is every sync of that
   generation ever answered.
   */
  lemma EveryoneGetsTheLeadersMap(groups: seq<Group>, steps: seq<Step>, i: nat, j: nat, m: Assignments, a: SyncReply)
    requires IsRun(groups, steps) && i < j < |groups|
    requires groups[i].phase == CompletingRebalance
    requires steps[i] == Syncs(groups[i].leader, groups[i].generation, Some(m))
    requires a in groups[j].syncReplies && a.generation == groups[i].generation
    ensures Answered(groups[i].syncReplies, groups[i + 1].syncReplies, [groups[i].leader] + groups[i].pendingSyncs,
                     groups[i].generation, m)
    ensures a.assignment == if a.memberId in m then Some(m[a.memberId]) else None
  {
    hide SyncRepliesFor, Answered;
    LeaderAnswers(groups[i], m);
    assert groups[i + 1].given[a.generation] == m;
    hide Next;
    NothingIsTakenBack(groups, steps, i + 1, j);
    OneAssignmentPerGeneration(groups, steps, j, j, a);
  }

  /** While a rebalance is completing no assignment is stored, so the stored one is never served in `SyncGroup`. */
  lemma CompletingHasNoAssignment(groups: seq<Group>, steps: seq<Step>, i: nat)
    requires IsRun(groups, steps) && i < |groups| && groups[i].phase == CompletingRebalance
    ensures groups[i].assignment.None? && groups[i].generation !in groups[i].given
  {
    RunKeeps(groups, steps, i);
  }

  /** The barrier closes: the first to wait leads, and every waiting join is answered. */
  predicate Closes(g: Group, g': Group) {
    && g.pendingJoins != []
    && g'.phase == CompletingRebalance && g'.leader == g.pendingJoins[0] && g'.pendingJoins == []
    && g'.generation == g.generation && g'.members == g.members
    && g'.pendingSyncs == g.pendingSyncs && g'.syncReplies == g.syncReplies && g'.assignment == g.assignment
    && Welcomed(g.joinReplies, g'.joinReplies, g.pendingJoins, g.generation, g.pendingJoins[0], g.members)
  }

  lemma CloseExactly(g: Group)
    ensures var r := CloseIfComplete(g);
            if g.phase == PreparingRebalance && |g.pendingJoins| == |g.members| then
              r.Some? == (g.pendingJoins != []) && (r.Some? ==> Closes(g, r.value))
            else r == Some(g)
  {
    hide JoinRepliesFor, Welcomed;
    if g.pendingJoins != [] {
      JoinRepliesExactly(g, g.joinReplies, g.pendingJoins, g.pendingJoins[0]);
    }
  }

  /**
   What a join does: the member is in, a settled group opens the next
   generation, and the barrier closes once as many joins wait as there are
   members; the first to wait leads.
   */
  predicate Admitted(g: Group, g': Group, id: string) {
    var reopens := g.phase in {Stable, Empty, Dead};
    var waiting := (if reopens then [] else g.pendingJoins) + [id];
    && g'.members == g.members + {id} && g'.generation == g.generation + (if reopens then 1 else 0)
    && if (reopens || g.phase == PreparingRebalance) && |waiting| == |g'.members| then
         && g'.phase == CompletingRebalance && g'.leader == waiting[0] && g'.pendingJoins == []
         && Welcomed(g.joinReplies, g'.joinReplies, waiting, g'.generation, waiting[0], g'.members)
       else
         && g'.phase == (if reopens then PreparingRebalance else g.phase)
         && g'.pendingJoins == waiting && g'.joinReplies == g.joinReplies
  }

  lemma JoinAdmits(g: Group, id: string)
    ensures Joined(g, id).Some? && Admitted(g, Joined(g, id).value, id)
  {
    hide CloseIfComplete, Welcomed;
    var g1 := g.(members := g.members + {id});
    var g2 := if g.phase in {Stable, Empty, Dead} then Prepare(g1) else g1;
    CloseExactly(g2.(pendingJoins := g2.pendingJoins + [id]));
  }

  /** The timer of the current generation: members that do not wait are out, and the barrier may close. */
  ghost predicate Dropped(g: Group, g': Group) {
    && (forall id :: id in g'.members <==> id in g.members && id in g.pendingJoins)
    && if g.phase == PreparingRebalance && |g.pendingJoins| == |g'.members| then Closes(g.(members := g'.members), g')
       else g' == g.(members := g'.members)
  }

  lemma TimeoutDrops(g: Group, expected: int)
    ensures g.generation != expected ==> TimedOut(g, expected) == Some(g)
    ensures g.generation == expected && TimedOut(g, expected).Some? ==> Dropped(g, TimedOut(g, expected).value)
  {
    hide CloseIfComplete, Welcomed;
    CloseExactly(g.(members := set id | id in g.members && id in g.pendingJoins));
  }

  // ---- The code ----

  class GroupMeta {
    var phase: Phase
    var generation: int
    var leader: string
    var members: set<string>
    var pendingJoins: seq<string>
    var pendingSyncs: seq<string>
    var leaderAssignment: Option<Assignments>
    var joinReplies: seq<JoinReply>      // what the join channels received
    var syncReplies: seq<SyncReply>      // what the sync channels received
    ghost var closings: seq<Closing>
    ghost var given: map<int, Assignments>

    ghost function View(): Group
      reads this
    {
      Group(phase, generation, leader, members, pendingJoins, pendingSyncs, leaderAssignment,
            joinReplies, syncReplies, closings, given)
    }

    constructor ()
      ensures View() == NEW_GROUP
    {
      phase, generation, leader, members := Empty, 0, "", {};
      pendingJoins, pendingSyncs, leaderAssignment := [], [], None;
      joinReplies, syncReplies := [], [];
      closings, given := [], map[];
    }

    method TransitionToPrepareRebalance()
      modifies this
      ensures View() == Prepare(old(View()))
      ensures phase == PreparingRebalance && generation == old(generation) + 1 && members == old(members)
      ensures leader == "" && leaderAssignment == None && pendingJoins == [] && pendingSyncs == []
    {
      phase := PreparingRebalance;
      generation := generation + 1;
      leader := "";
      leaderAssignment := None;
      pendingJoins := [];
      pendingSyncs := [];
    }

    method SendJoinReplies()
      modifies `joinReplies
      ensures joinReplies == old(joinReplies) + JoinRepliesFor(View(), pendingJoins, leader)
    {
      ghost var g := View();
      for i := 0 to |pendingJoins|
        invariant joinReplies == old(joinReplies) + JoinRepliesFor(g, pendingJoins[..i], leader)
      {
        assert pendingJoins[..i + 1][..i] == pendingJoins[..i];
        var pj := pendingJoins[i];
        joinReplies := joinReplies + [JoinReply(pj, generation, leader, if pj == leader then members else {})];
      }
      assert pendingJoins[..|pendingJoins|] == pendingJoins;
      SameJoinReplies(g, View(), pendingJoins, leader);
    }

    method SendSyncReplies(m: Assignments)
      modifies `syncReplies
      ensures syncReplies == old(syncReplies) + SyncRepliesFor(View(), pendingSyncs, m)
    {
      ghost var g := View();
      for i := 0 to |pendingSyncs|
        invariant syncReplies == old(syncReplies) + SyncRepliesFor(g, pendingSyncs[..i], m)
      {
        assert pendingSyncs[..i + 1][..i] == pendingSyncs[..i];
        var ps := pendingSyncs[i];
        syncReplies := syncReplies + [SyncReply(ps, generation, AssignmentOf(m, ps))];
      }
      assert pendingSyncs[..|pendingSyncs|] == pendingSyncs;
      SameSyncReplies(g, View(), pendingSyncs, m);
    }

    /** Replies to every waiting join once the barrier is complete; false stands for an index out of range. */
    method MaybeCloseJoinBarrier() returns (ok: bool)
      modifies this
      ensures match CloseIfComplete(old(View()))
              case None => !ok
              case Some(g) => ok && View() == g
      ensures if old(phase) == PreparingRebalance && |old(pendingJoins)| == |old(members)| then
                ok == (old(pendingJoins) != []) && (ok ==> Closes(old(View()), View()))
              else ok && unchanged(this)
    {
      hide JoinRepliesFor, Closes;
      ghost var before := View();
      CloseExactly(before);
      if phase != PreparingRebalance || |pendingJoins| != |members| {
        return true;
      }
      if |pendingJoins| == 0 {
        return false;
      }
      leader := pendingJoins[0];
      phase := CompletingRebalance;
      SendJoinReplies();
      SameJoinReplies(View(), before, pendingJoins, leader);
      closings := closings + [Closing(generation, leader, members)];
      pendingJoins := [];
      return true;
    }

    method JoinGroup(memberId: string) returns (err: int, ok: bool)
      modifies this
      ensures match Next(old(View()), Joins(memberId))
              case None => !ok
              case Some(g) => ok && View() == g
      ensures ok && err == if memberId == "" then 79 else 0
      ensures memberId == "" ==> unchanged(this)
      ensures memberId != "" ==> Admitted(old(View()), View(), memberId)
    {
      if memberId == "" {
        return MEMBER_ID_REQUIRED, true;
      }
      hide CloseIfComplete, Admitted, Closes;
      JoinAdmits(View(), memberId);
      members := members + {memberId};
      if phase in {Stable, Empty, Dead} {
        TransitionToPrepareRebalance();
      }
      pendingJoins := pendingJoins + [memberId];
      ok := MaybeCloseJoinBarrier();
      err := 0;
    }

    /** The common part of leaving and of being evicted when the session expires. */
    method RemoveMember(memberId: string) returns (err: int)
      modifies this
      ensures View() == Removed(old(View()), memberId)
      ensures err == if memberId in old(members) then 0 else 25
      ensures members == old(members) - {memberId} && unchanged(`joinReplies, `syncReplies)
      ensures err != 0 ==> unchanged(this)
      ensures err == 0 && members == {} ==> phase == Dead && generation == old(generation)
      ensures err == 0 && members != {} ==>
                && phase == PreparingRebalance && generation == old(generation) + 1
                && leader == "" && leaderAssignment == None && pendingJoins == [] && pendingSyncs == []
    {
      if memberId !in members {
        return UNKNOWN_MEMBER_ID;
      }
      ghost var before := members;
      members := members - {memberId};
      assert members == {} <==> before == {memberId};
      if members == {} {
        phase := Dead;
      } else {
        TransitionToPrepareRebalance();
      }
      err := 0;
    }

    method OnRebalanceTimeout(expected: int) returns (ok: bool)
      modifies this
      ensures match TimedOut(old(View()), expected)
              case None => !ok
              case Some(g) => ok && View() == g
      ensures old(generation) != expected ==> ok && unchanged(this)
      ensures old(generation) == expected && ok ==> Dropped(old(View()), View())
    {
      hide CloseIfComplete, Closes, Dropped;
      TimeoutDrops(View(), expected);
      if generation != expected {
        return true;
      }
      ghost var before := View();
      var joined: set<string> := {};
      for i := 0 to |pendingJoins|
        invariant View() == before && joined == set id | id in pendingJoins[..i]
      {
        joined := joined + {pendingJoins[i]};
      }
      var todo := members;
      while todo != {}
        invariant todo <= before.members
        invariant View() == before.(members := set id | id in before.members && (id in todo || id in joined))
        decreases todo
      {
        SomeName(todo);
        var id :| id in todo;
        if id !in joined {
          members := members - {id};
        }
        todo := todo - {id};
      }
      assert members == set id | id in before.members && id in before.pendingJoins;
      ok := MaybeCloseJoinBarrier();
    }

    method SyncGroup(memberId: string, generationId: int, assignments: Option<Assignments>) returns (err: int)
      modifies this
      ensures View() == Synced(old(View()), memberId, generationId, assignments)
      ensures err == if generationId != old(generation) then 22 else if old(phase) != CompletingRebalance then 27 else 0
      ensures err != 0 ==> unchanged(this)
      ensures unchanged(`generation, `members, `leader, `pendingJoins, `joinReplies)
      ensures err == 0 && memberId == old(leader) && assignments.Some? ==>
                && phase == Stable && leaderAssignment == assignments && pendingSyncs == []
                && Answered(old(syncReplies), syncReplies, [memberId] + old(pendingSyncs), generation,
                            assignments.value)
                && given == old(given)[generation := assignments.value]
      ensures err == 0 && !(memberId == old(leader) && assignments.Some?) ==>
                && unchanged(`phase, `leaderAssignment, `given)
                && match old(leaderAssignment) {
                     case Some(m) =>
                       && Answered(old(syncReplies), syncReplies, [memberId], generation, m)
                       && pendingSyncs == old(pendingSyncs)
                     case None => pendingSyncs == old(pendingSyncs) + [memberId] && syncReplies == old(syncReplies)
                   }
    {
      hide SyncRepliesFor, Answered;
      if generationId != generation {
        return ILLEGAL_GENERATION;
      }
      if phase != CompletingRebalance {
        return REBALANCE_IN_PROGRESS;
      }
      err := 0;
      if memberId == leader && assignments.Some? {
        leaderAssignment := assignments;
        var m := assignments.value;
        syncReplies := syncReplies + [SyncReply(memberId, generation, AssignmentOf(m, memberId))];
        SendSyncReplies(m);
        SameSyncReplies(View(), old(View()), pendingSyncs, m);
        LeaderAnswers(old(View()), m);
        pendingSyncs := [];
        phase := Stable;
        given := given[generation := m];
      } else if leaderAssignment.Some? {
        OneAnswer(syncReplies, memberId, generation, leaderAssignment.value);
        syncReplies := syncReplies + [SyncReply(memberId, generation, AssignmentOf(leaderAssignment.value, memberId))];
      } else {
        pendingSyncs := pendingSyncs + [memberId];
      }
    }
  }

  lemma {:induction false} SameJoinReplies(g: Group, h: Group, ids: seq<string>, leader: string)
    requires g.generation == h.generation && g.members == h.members
    ensures JoinRepliesFor(g, ids, leader) == JoinRepliesFor(h, ids, leader)
  {
    if ids != [] {
      SameJoinReplies(g, h, ids[..|ids| - 1], leader);
    }
  }

  lemma {:induction false} SameSyncReplies(g: Group, h: Group, ids: seq<string>, m: Assignments)
    requires g.generation == h.generation
    ensures SyncRepliesFor(g, ids, m) == SyncRepliesFor(h, ids, m)
  {
    if ids != [] {
      SameSyncReplies(g, h, ids[..|ids| - 1], m);
    }
  }
}
