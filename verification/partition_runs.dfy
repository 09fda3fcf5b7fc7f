/**
 The partition state alone, under every order of its locked sections and
 whatever offsets replicas report.
 */
module PartitionRuns {
  import opened Purgatories
  import opened PartitionStates

  /** One locked section. */
  datatype Move =
    | Raises(lastOffset: int)
    | Reports(follower: int, upto: int)
    | Advances
    | Shrinks(follower: int)
    | Expands(follower: int)

  /** A tick only ever drops or adds followers of the partition. */
  predicate Allowed(p: Partition, m: Move) {
    match m
    case Shrinks(f) => f != p.leader
    case Expands(f) => f != p.leader && f in p.replicas
    case _ => true
  }

  function Moved(p: Partition, m: Move): Partition {
    match m
    case Raises(last) => RaiseLeo(p, last)
    case Reports(f, upto) => Report(p, f, upto)
    case Advances => Advance(p)
    case Shrinks(f) => Shrink(p, f)
    case Expands(f) => Expand(p, f)
  }

  function After(p: Partition, moves: seq<Move>): Partition {
    if moves == [] then p else Moved(After(p, moves[..|moves| - 1]), moves[|moves| - 1])
  }

  predicate AllAllowed(p: Partition, moves: seq<Move>) {
    forall i | 0 <= i < |moves| :: Allowed(p, moves[i])
  }

  lemma MoveKeeps(p: Partition, m: Move)
    requires Allowed(p, m) && p.hwm <= p.leo && IsrOk(p)
    ensures var q := Moved(p, m);
            && q.leader == p.leader && q.replicas == p.replicas
            && p.leo <= q.leo && p.hwm <= q.hwm <= q.leo && IsrOk(q)
  {
    hide Distinct, Without;
    match m
    case Shrinks(f) => ShrinkKeepsIsr(p, f);
    case Expands(f) => ExpandKeepsIsr(p, f);
    case _ =>
  }

  /** LEO and HWM never go back, HWM stays behind LEO, and the ISR stays well formed. */
  lemma {:induction false} RunKeepsWatermarks(p: Partition, moves: seq<Move>)
    requires AllAllowed(p, moves) && p.hwm <= p.leo && IsrOk(p)
    ensures var q := After(p, moves);
            && q.leader == p.leader && q.replicas == p.replicas
            && p.leo <= q.leo && p.hwm <= q.hwm <= q.leo && IsrOk(q)
    decreases |moves|
  {
    hide IsrOk, Moved;
    if moves != [] {
      var n := |moves| - 1;
      RunKeepsWatermarks(p, moves[..n]);
      assert Allowed(p, moves[n]);
      MoveKeeps(After(p, moves[..n]), moves[n]);
    }
  }

  // ---- When every in-sync follower has reported the watermark ----

  predicate Backed(p: Partition) {
    forall id | id in p.isr && id != p.leader :: p.hwm <= Reported(p, id)
  }

  /** The two ways to lose it: an in-sync follower reports less, or one that is behind comes back. */
  predicate Unbacks(p: Partition, m: Move) {
    match m
    case Reports(f, upto) => f in p.isr && f != p.leader && upto < p.hwm
    case Expands(f) => Reported(p, f) < p.hwm
    case _ => false
  }

  /** Exactly those moves lose it. */
  lemma BackedExactly(p: Partition, m: Move)
    requires Backed(p) && Allowed(p, m)
    ensures Backed(Moved(p, m)) <==> !Unbacks(p, m)
  {
    hide Without, MinOver;
    var q := Moved(p, m);
    match m
    case Reports(f, upto) =>
      assert Reported(q, f) == upto;
      assert forall id | id != f :: Reported(q, id) == Reported(p, id);
    case Expands(f) =>
      assert f in q.isr;
    case _ =>
      assert forall id :: Reported(q, id) == Reported(p, id);
  }

  /** Because a tick decides from a snapshot, an interleaved append can make it add a follower behind the watermark. */
  lemma StaleSnapshotUnbacks(leader: int, follower: int)
    requires leader != follower
    ensures var p := Partition(leader, [leader, follower], [leader], 0, 0, map[follower := 0]);
            && Backed(p)
            && Returning(p, p.replicas) == [follower]
            && var q := After(p, [Raises(0), Advances]);
            && Backed(q) && q.hwm == 1
            && Unbacks(q, Expands(follower))
            && !Backed(Moved(q, Expands(follower)))
  {
    var p := Partition(leader, [leader, follower], [leader], 0, 0, map[follower := 0]);
    assert p.replicas[..1] == [leader] && [leader][..0] == [];
    assert Returning(p, [leader]) == [];
    var raised := RaiseLeo(p, 0);
    assert [Raises(0), Advances][..1] == [Raises(0)] && [Raises(0)][..0] == [];
    assert After(p, [Raises(0)]) == raised;
    var q := Advance(raised);
    assert After(p, [Raises(0), Advances]) == q;
    assert q.hwm == 1;
    BackedExactly(q, Expands(follower));
  }

  // ---- Undisturbed operations ----

  /** Whole operations that run without interleaving. */
  datatype Op =
    | Append(lastOffset: int)
    | ReplicaFetch(follower: int, upto: int)
    | Tick(lagging: set<int>)

  function Done(p: Partition, op: Op): Partition {
    match op
    case Append(last) => Advance(RaiseLeo(p, last))
    case ReplicaFetch(f, upto) => Advance(Report(p, f, upto))
    case Tick(lagging) => Ticked(p, lagging)
  }

  function AfterOps(p: Partition, ops: seq<Op>): Partition {
    if ops == [] then p else Done(AfterOps(p, ops[..|ops| - 1]), ops[|ops| - 1])
  }

  /** Each replica reports no less than it reported before. */
  predicate ReportsRise(p: Partition, ops: seq<Op>) {
    forall i | 0 <= i < |ops| && ops[i].ReplicaFetch? ::
      Reported(AfterOps(p, ops[..i]), ops[i].follower) <= ops[i].upto
  }

  lemma {:induction false} ShrinkAllKeeps(p: Partition, ids: seq<int>)
    requires Backed(p) && IsrOk(p) && p.leader !in ids
    ensures var q := ShrinkAll(p, ids);
            Backed(q) && IsrOk(q) && q == p.(isr := q.isr)
    decreases |ids|
  {
    if ids != [] {
      var n := |ids| - 1;
      ShrinkAllKeeps(p, ids[..n]);
      var q := ShrinkAll(p, ids[..n]);
      hide IsrOk, Backed, ShrinkAll;
      ShrinkKeepsIsr(q, ids[n]);
      BackedExactly(q, Shrinks(ids[n]));
    }
  }

  lemma {:induction false} ExpandAllKeeps(p: Partition, ids: seq<int>)
    requires Backed(p) && IsrOk(p) && p.leader !in ids
    requires forall id | id in ids :: id in p.replicas && p.hwm <= Reported(p, id)
    ensures var q := ExpandAll(p, ids);
            Backed(q) && IsrOk(q) && q == p.(isr := q.isr)
    decreases |ids|
  {
    if ids != [] {
      var n := |ids| - 1;
      ExpandAllKeeps(p, ids[..n]);
      var q := ExpandAll(p, ids[..n]);
      hide IsrOk, Backed, ExpandAll;
      assert ids[n] in ids;
      ExpandKeepsIsr(q, ids[n]);
      BackedExactly(q, Expands(ids[n]));
    }
  }

  /** An undisturbed tick keeps the ISR well formed and the watermark backed. */
  lemma TickKeeps(p: Partition, lagging: set<int>)
    requires Backed(p) && IsrOk(p) && p.hwm <= p.leo
    ensures var q := Ticked(p, lagging);
            Backed(q) && IsrOk(q) && p.hwm <= q.hwm <= q.leo == p.leo
  {
    hide IsrOk, Backed, ShrinkAll, ExpandAll, IsrMinimum, Lagging, Returning;
    var out, back := Lagging(p, lagging, p.isr), Returning(p, p.replicas);
    ShrinkAllKeeps(p, out);
    var q := ShrinkAll(p, out);
    ExpandAllKeeps(q, back);
    var r := ExpandAll(q, back);
    BackedExactly(r, Advances);
    MoveKeeps(r, Advances);
  }

  /** With undisturbed operations and rising reports, every in-sync follower has reported the watermark. */
  lemma {:induction false} UndisturbedStaysBacked(p: Partition, ops: seq<Op>)
    requires Backed(p) && IsrOk(p) && p.hwm <= p.leo && ReportsRise(p, ops)
    ensures var q := AfterOps(p, ops);
            Backed(q) && IsrOk(q) && p.hwm <= q.hwm <= q.leo
    decreases |ops|
  {
    if ops != [] {
      var n := |ops| - 1;
      assert forall i | 0 <= i < n :: ops[..n][..i] == ops[..i];
      UndisturbedStaysBacked(p, ops[..n]);
      OpKeeps(AfterOps(p, ops[..n]), ops[n]);
    }
  }

  lemma OpKeeps(p: Partition, op: Op)
    requires Backed(p) && IsrOk(p) && p.hwm <= p.leo
    requires op.ReplicaFetch? ==> Reported(p, op.follower) <= op.upto
    ensures var q := Done(p, op);
            Backed(q) && IsrOk(q) && p.hwm <= q.hwm <= q.leo
  {
    hide Advance, Ticked, Distinct;
    match op
    case Append(last) =>
      BackedExactly(p, Raises(last));
      MoveKeeps(p, Raises(last));
      BackedExactly(RaiseLeo(p, last), Advances);
      MoveKeeps(RaiseLeo(p, last), Advances);
    case ReplicaFetch(f, upto) =>
      BackedExactly(p, Reports(f, upto));
      MoveKeeps(p, Reports(f, upto));
      BackedExactly(Report(p, f, upto), Advances);
      MoveKeeps(Report(p, f, upto), Advances);
    case Tick(lagging) =>
      TickKeeps(p, lagging);
  }
}
