/**
 A partition's replication state on its leader. Each locked section of the
 code is a function on the value `Partition`; the class runs those sections in
 place and drives the purgatory between them.
 */
module PartitionStates {
  import opened Purgatories

  datatype Partition = Partition(leader: int, replicas: seq<int>, isr: seq<int>, leo: int, hwm: int,
                                 reported: map<int, int>)

  /** The offset a replica last reported; one that never reported counts as 0. */
  function Reported(p: Partition, id: int): int {
    if id in p.reported then p.reported[id] else 0
  }

  /** What replica `id` bounds the high watermark by: the leader by its LEO alone. */
  function Bound(p: Partition, id: int): int {
    if id == p.leader then p.leo else Reported(p, id)
  }

  /** The least of the LEO and the offsets reported by the in-sync followers. */
  predicate IsMinimum(p: Partition, m: int) {
    && m <= p.leo
    && (forall id | id in p.isr :: m <= Bound(p, id))
    && (m == p.leo || exists id | id in p.isr :: m == Bound(p, id))
  }

  function MinOver(p: Partition, ids: seq<int>): (m: int)
    ensures m <= p.leo
    ensures forall id | id in ids :: m <= Bound(p, id)
    ensures m == p.leo || exists id | id in ids :: m == Bound(p, id)
  {
    if ids == [] then p.leo
    else
      var n := |ids| - 1;
      var m := MinOver(p, ids[..n]);
      assert ids == ids[..n] + [ids[n]];
      if Bound(p, ids[n]) < m then Bound(p, ids[n]) else m
  }

  function IsrMinimum(p: Partition): (m: int)
    ensures IsMinimum(p, m)
  {
    MinOver(p, p.isr)
  }

  /** The LEO and every in-sync follower's report are at `h` or beyond. */
  predicate AllReached(p: Partition, h: int) {
    && h <= p.leo
    && forall id | id in p.isr && id != p.leader :: h <= if id in p.reported then p.reported[id] else 0
  }

  function Max(a: int, b: int): int { if a < b then b else a }

  /** What stands before what in `r` also does so in `xs`. */
  predicate OrderKept(r: seq<int>, xs: seq<int>) {
    forall i, j | 0 <= i < j < |r| :: Before(xs, r[i], r[j])
  }

  predicate Before(xs: seq<int>, a: int, b: int) {
    exists i, j | 0 <= i < j < |xs| :: xs[i] == a && xs[j] == b
  }

  function Without(xs: seq<int>, x: int): (r: seq<int>)
    ensures forall y :: y in r <==> y in xs && y != x
  {
    if xs == [] then []
    else
      var n := |xs| - 1;
      assert xs == xs[..n] + [xs[n]];
      Without(xs[..n], x) + if xs[n] == x then [] else [xs[n]]
  }

  lemma {:induction false} WithoutDistinct(xs: seq<int>, x: int)
    requires Distinct(xs)
    ensures Distinct(Without(xs, x))
  {
    if xs != [] {
      var n := |xs| - 1;
      WithoutDistinct(xs[..n], x);
      assert xs[n] !in xs[..n];
    }
  }

  lemma {:induction false} WithoutExactly(xs: seq<int>, x: int)
    ensures OrderKept(Without(xs, x), xs) && multiset(Without(xs, x)) == multiset(xs)[x := 0]
  {
    if xs != [] {
      var n := |xs| - 1;
      WithoutExactly(xs[..n], x);
      assert xs == xs[..n] + [xs[n]];
      OrderStays(Without(xs[..n], x), xs[..n], xs[n]);
      if xs[n] != x {
        OrderMore(Without(xs[..n], x), xs[..n], xs[n]);
      }
    }
  }

  lemma OrderStays(r: seq<int>, xs: seq<int>, y: int)
    requires OrderKept(r, xs)
    ensures OrderKept(r, xs + [y])
  {
    forall i, j | 0 <= i < j < |r| ensures Before(xs + [y], r[i], r[j]) {
      var a, b :| 0 <= a < b < |xs| && xs[a] == r[i] && xs[b] == r[j];
      assert (xs + [y])[a] == r[i] && (xs + [y])[b] == r[j];
    }
  }

  lemma OrderMore(r: seq<int>, xs: seq<int>, y: int)
    requires OrderKept(r, xs + [y]) && forall z | z in r :: z in xs
    ensures OrderKept(r + [y], xs + [y])
  {
    forall i, j | 0 <= i < j < |r + [y]| ensures Before(xs + [y], (r + [y])[i], (r + [y])[j]) {
      if j == |r| {
        assert r[i] in r;
        var a :| 0 <= a < |xs| && xs[a] == r[i];
        assert (xs + [y])[a] == r[i] && (xs + [y])[|xs|] == y;
      } else {
        assert Before(xs + [y], r[i], r[j]);
      }
    }
  }

  // ---- The locked sections ----

  function Report(p: Partition, follower: int, upto: int): Partition {
    p.(reported := p.reported[follower := upto])
  }

  function RaiseLeo(p: Partition, lastOffset: int): Partition {
    p.(leo := Max(p.leo, lastOffset + 1))
  }

  /** The high watermark moves up to the minimum over the in-sync replicas, never down. */
  function Advance(p: Partition): Partition {
    p.(hwm := Max(p.hwm, IsrMinimum(p)))
  }

  /** The new watermark is the old one or what all have reached, whichever is further. */
  lemma AdvanceExactly(p: Partition)
    ensures Advance(p) == p.(hwm := Advance(p).hwm)
    ensures forall h :: h <= Advance(p).hwm <==> h <= p.hwm || AllReached(p, h)
    ensures forall m | IsMinimum(p, m) :: Advance(p).hwm == if p.hwm < m then m else p.hwm
  {
    var m := IsrMinimum(p);
    assert forall h :: h <= m <==> AllReached(p, h) by {
      MinimumIsReached(p, m);
    }
    forall n | IsMinimum(p, n) ensures n == m {
      MinimumIsReached(p, n);
      assert AllReached(p, n) && AllReached(p, m);
    }
  }

  /** What all have reached does not depend on the watermark. */
  lemma AdvancedSame(p: Partition)
    ensures Advance(p).isr == p.isr && forall h :: AllReached(Advance(p), h) <==> AllReached(p, h)
  {
  }

  lemma MinimumIsReached(p: Partition, m: int)
    requires IsMinimum(p, m)
    ensures forall h :: h <= m <==> AllReached(p, h)
  {
    forall h ensures h <= m <==> AllReached(p, h) {
      if h <= m {
        forall id | id in p.isr && id != p.leader ensures h <= if id in p.reported then p.reported[id] else 0 {
          assert m <= Bound(p, id);
        }
      } else if m != p.leo {
        var id :| id in p.isr && m == Bound(p, id);
      }
    }
  }

  function Shrink(p: Partition, follower: int): Partition {
    p.(isr := Without(p.isr, follower))
  }

  function Expand(p: Partition, follower: int): Partition {
    p.(isr := Without(p.isr, follower) + [follower])
  }

  /** A dropped follower no longer bounds the watermark; the others still do. */
  lemma ShrinkFrees(p: Partition, follower: int)
    ensures Shrink(p, follower) == p.(isr := Shrink(p, follower).isr)
    ensures forall h :: AllReached(Shrink(p, follower), h) <==>
              && h <= p.leo
              && forall id | id in p.isr && id != p.leader && id != follower ::
                   h <= if id in p.reported then p.reported[id] else 0
  {
  }

  /** An added follower bounds it from then on. */
  lemma ExpandBinds(p: Partition, follower: int)
    requires follower != p.leader
    ensures Expand(p, follower) == p.(isr := Expand(p, follower).isr)
    ensures forall h :: AllReached(Expand(p, follower), h) <==>
              AllReached(p, h) && h <= if follower in p.reported then p.reported[follower] else 0
  {
  }

  /** The ISR has no duplicates, lies within the replicas and holds the leader. */
  predicate IsrOk(p: Partition) {
    && Distinct(p.isr)
    && p.leader in p.isr
    && forall id | id in p.isr :: id in p.replicas
  }

  lemma ShrinkKeepsIsr(p: Partition, follower: int)
    requires IsrOk(p) && follower != p.leader
    ensures IsrOk(Shrink(p, follower))
  {
    WithoutDistinct(p.isr, follower);
  }

  lemma ExpandKeepsIsr(p: Partition, follower: int)
    requires IsrOk(p) && follower in p.replicas
    ensures IsrOk(Expand(p, follower))
  {
    WithoutDistinct(p.isr, follower);
    var rest := Without(p.isr, follower);
    hide Without;
    assert forall i | 0 <= i < |rest| :: rest[i] in rest;
  }

  // ---- One tick of the ISR manager, from a snapshot ----

  /** In-sync followers to drop: those the snapshot shows as lagging. */
  function Lagging(snap: Partition, lagging: set<int>, ids: seq<int>): (r: seq<int>)
    ensures forall id :: id in r <==> id in ids && id != snap.leader && id in lagging
  {
    if ids == [] then []
    else
      var n := |ids| - 1;
      assert ids == ids[..n] + [ids[n]];
      Lagging(snap, lagging, ids[..n]) + if ids[n] != snap.leader && ids[n] in lagging then [ids[n]] else []
  }

  predicate CaughtUp(snap: Partition, id: int) {
    id != snap.leader && id !in snap.isr && id in snap.reported && snap.hwm <= snap.reported[id]
  }

  /** Replicas to add: those out of the ISR whose reported offset has reached the watermark. */
  function Returning(snap: Partition, ids: seq<int>): (r: seq<int>)
    ensures forall id :: id in r <==> id in ids && CaughtUp(snap, id)
  {
    if ids == [] then []
    else
      var n := |ids| - 1;
      assert ids == ids[..n] + [ids[n]];
      Returning(snap, ids[..n]) + if CaughtUp(snap, ids[n]) then [ids[n]] else []
  }

  function ShrinkAll(p: Partition, ids: seq<int>): Partition {
    if ids == [] then p else Shrink(ShrinkAll(p, ids[..|ids| - 1]), ids[|ids| - 1])
  }

  function ExpandAll(p: Partition, ids: seq<int>): Partition {
    if ids == [] then p else Expand(ExpandAll(p, ids[..|ids| - 1]), ids[|ids| - 1])
  }

  lemma {:induction false} ShrinkAllIsr(p: Partition, ids: seq<int>)
    ensures ShrinkAll(p, ids) == p.(isr := ShrinkAll(p, ids).isr)
  {
    if ids != [] {
      ShrinkAllIsr(p, ids[..|ids| - 1]);
    }
  }

  lemma {:induction false} ExpandAllIsr(p: Partition, ids: seq<int>)
    ensures ExpandAll(p, ids) == p.(isr := ExpandAll(p, ids).isr)
  {
    if ids != [] {
      ExpandAllIsr(p, ids[..|ids| - 1]);
    }
  }

  lemma {:induction false} ShrinkAllMembers(p: Partition, ids: seq<int>)
    ensures forall id :: id in ShrinkAll(p, ids).isr <==> id in p.isr && id !in ids
  {
    if ids != [] {
      ShrinkAllMembers(p, ids[..|ids| - 1]);
      assert ids == ids[..|ids| - 1] + [ids[|ids| - 1]];
    }
  }

  lemma {:induction false} ExpandAllMembers(p: Partition, ids: seq<int>)
    ensures forall id :: id in ExpandAll(p, ids).isr <==> id in p.isr || id in ids
  {
    if ids != [] {
      ExpandAllMembers(p, ids[..|ids| - 1]);
      assert ids == ids[..|ids| - 1] + [ids[|ids| - 1]];
    }
  }

  /** In sync after a tick: who was and does not lag, and who was not but has reached the watermark. */
  predicate StaysOrReturns(p: Partition, lagging: set<int>, id: int) {
    || (id in p.isr && (id == p.leader || id !in lagging))
    || (&& id in p.replicas && id != p.leader && id !in p.isr
        && id in p.reported && p.hwm <= p.reported[id])
  }

  /** Those are the ISR after a tick, and a tick that changes it takes the watermark as far as all have reached. */
  ghost predicate IsTicked(p: Partition, q: Partition, lagging: set<int>) {
    && q == p.(isr := q.isr, hwm := q.hwm)
    && (forall id :: id in q.isr <==> StaysOrReturns(p, lagging, id))
    && ((forall id :: id in q.isr <==> id in p.isr) ==> q == p)
    && ((exists id :: (id in q.isr) != (id in p.isr)) ==> forall h :: h <= q.hwm <==> h <= p.hwm || AllReached(q, h))
  }

  lemma TickedIsr(p: Partition, lagging: set<int>)
    ensures IsTicked(p, Ticked(p, lagging), lagging)
  {
    hide Lagging, Returning, ShrinkAll, ExpandAll, MinOver, Without;
    var out, back := Lagging(p, lagging, p.isr), Returning(p, p.replicas);
    ShrinkAllMembers(p, out);
    ShrinkAllIsr(p, out);
    ExpandAllMembers(ShrinkAll(p, out), back);
    ExpandAllIsr(ShrinkAll(p, out), back);
    var q := ExpandAll(ShrinkAll(p, out), back);
    AdvanceExactly(q);
    AdvancedSame(q);
    if out != [] {
      assert out[0] in out;
      assert (out[0] in q.isr) != (out[0] in p.isr);
    } else if back != [] {
      assert back[0] in back && CaughtUp(p, back[0]);
      assert (back[0] in q.isr) != (back[0] in p.isr);
    }
  }

  /** The partition after an undisturbed tick. */
  function Ticked(p: Partition, lagging: set<int>): Partition {
    var out, back := Lagging(p, lagging, p.isr), Returning(p, p.replicas);
    if out == [] && back == [] then p else Advance(ExpandAll(ShrinkAll(p, out), back))
  }

  const NOT_ENOUGH_REPLICAS_AFTER_APPEND: int := 20

  class PartitionState {
    const leader: int
    const replicas: seq<int>
    const purgatory: Purgatory
    var isr: seq<int>
    var leo: int
    var hwm: int
    var reported: map<int, int>

    ghost function View(): Partition
      reads this
    {
      Partition(leader, replicas, isr, leo, hwm, reported)
    }

    constructor (leader: int, replicas: seq<int>, isr: seq<int>)
      ensures View() == Partition(leader, replicas, isr, 0, 0, map[])
      ensures purgatory.Valid() && purgatory.parked == [] && fresh(purgatory) && fresh(purgatory.slots)
    {
      this.leader := leader;
      this.replicas := replicas;
      this.isr := isr;
      leo, hwm, reported := 0, 0, map[];
      purgatory := new Purgatory();
    }

    /** The locked part of `AdvanceHWM`. */
    method AdvanceLocked() returns (advanced: bool)
      modifies this
      ensures View() == Advance(old(View()))
      ensures View() == old(View()).(hwm := hwm) && (advanced <==> hwm > old(hwm))
      ensures forall h :: h <= hwm <==> h <= old(hwm) || AllReached(old(View()), h)
    {
      hide AllReached, IsMinimum;
      AdvanceExactly(View());
      var newHwm := leo;
      var i := 0;
      while i < |isr|
        invariant 0 <= i <= |isr|
        invariant newHwm == MinOver(View(), isr[..i])
      {
        assert isr[..i + 1][..i] == isr[..i];
        var id := isr[i];
        if id != leader {
          var upto := if id in reported then reported[id] else 0;
          if upto < newHwm {
            newHwm := upto;
          }
        }
        i := i + 1;
      }
      assert isr[..i] == isr;
      advanced := newHwm > hwm;
      if advanced {
        hwm := newHwm;
      }
    }

    /** Advances the watermark, then, outside the lock, releases the waiters it passed. */
    method AdvanceHWM()
      requires purgatory.Valid()
      modifies this, purgatory, purgatory.slots, purgatory.parked
      ensures purgatory.Valid() && purgatory.slots == old(purgatory.slots)
      ensures View() == Advance(old(View()))
      ensures View() == old(View()).(hwm := hwm)
      ensures forall h :: h <= hwm <==> h <= old(hwm) || AllReached(old(View()), h)
      ensures forall w | w in old(purgatory.parked) && old(hwm) <= w.requiredOffset ::
                w !in purgatory.parked <==> AllReached(old(View()), w.requiredOffset + 1)
      ensures purgatory.parked == if hwm > old(hwm) then StillWaiting(old(purgatory.parked), RequiredOffset, hwm)
                                  else old(purgatory.parked)
      ensures forall w | w in purgatory.parked :: w in old(purgatory.parked)
      ensures forall w | w in old(purgatory.parked) && w !in purgatory.parked ::
                w.requiredOffset < hwm && w.closed && w.sent == [Committed]
    {
      hide StillWaiting, Distinct, MinOver;
      var advanced := AdvanceLocked();
      StillWaitingKeeps(purgatory.parked, RequiredOffset, hwm);
      if advanced {
        purgatory.CompleteUpTo(hwm);
      }
    }

    method UpdateReplicaLEO(follower: int, upto: int)
      requires purgatory.Valid()
      modifies this, purgatory, purgatory.slots, purgatory.parked
      ensures purgatory.Valid() && purgatory.slots == old(purgatory.slots)
      ensures View() == Advance(Report(old(View()), follower, upto))
      ensures View() == old(View()).(hwm := hwm, reported := old(reported)[follower := upto])
      ensures forall h :: h <= hwm <==> h <= old(hwm) || AllReached(View(), h)
      ensures purgatory.parked == if hwm > old(hwm) then StillWaiting(old(purgatory.parked), RequiredOffset, hwm)
                                  else old(purgatory.parked)
      ensures forall w | w in purgatory.parked :: w in old(purgatory.parked)
      ensures forall w | w in old(purgatory.parked) && w !in purgatory.parked ::
                w.requiredOffset < hwm && w.closed && w.sent == [Committed]
    {
      hide StillWaiting, Distinct, MinOver;
      reported := reported[follower := upto];
      AdvanceHWM();
    }

    method OnLeaderAppend(lastOffset: int)
      requires purgatory.Valid()
      modifies this, purgatory, purgatory.slots, purgatory.parked
      ensures purgatory.Valid() && purgatory.slots == old(purgatory.slots)
      ensures View() == Advance(RaiseLeo(old(View()), lastOffset))
      ensures View() == old(View()).(hwm := hwm, leo := if old(leo) <= lastOffset then lastOffset + 1 else old(leo))
      ensures forall h :: h <= hwm <==> h <= old(hwm) || AllReached(View(), h)
      ensures purgatory.parked == if hwm > old(hwm) then StillWaiting(old(purgatory.parked), RequiredOffset, hwm)
                                  else old(purgatory.parked)
      ensures forall w | w in purgatory.parked :: w in old(purgatory.parked)
      ensures forall w | w in old(purgatory.parked) && w !in purgatory.parked ::
                w.requiredOffset < hwm && w.closed && w.sent == [Committed]
    {
      hide StillWaiting, Distinct, MinOver;
      if lastOffset + 1 > leo {
        leo := lastOffset + 1;
      }
      AdvanceHWM();
    }

    method RemoveFromISR(follower: int)
      modifies this
      ensures View() == Shrink(old(View()), follower)
      ensures View() == old(View()).(isr := isr)
      ensures forall id :: id in isr <==> id in old(isr) && id != follower
      ensures OrderKept(isr, old(isr)) && multiset(isr) == multiset(old(isr))[follower := 0]
    {
      WithoutExactly(isr, follower);
      var rest := CopyWithout(isr, follower);
      isr := rest;
    }

    method AddToISR(follower: int)
      modifies this
      ensures View() == Expand(old(View()), follower)
      ensures View() == old(View()).(isr := isr)
      ensures isr != [] && isr[|isr| - 1] == follower
      ensures forall id :: id in isr[..|isr| - 1] <==> id in old(isr) && id != follower
      ensures OrderKept(isr[..|isr| - 1], old(isr))
      ensures multiset(isr[..|isr| - 1]) == multiset(old(isr))[follower := 0]
    {
      WithoutExactly(isr, follower);
      var rest := CopyWithout(isr, follower);
      isr := rest + [follower];
      assert isr[..|isr| - 1] == rest;
    }
  }

  method CopyWithout(xs: seq<int>, x: int) returns (r: seq<int>)
    ensures r == Without(xs, x)
  {
    r := [];
    var i := 0;
    while i < |xs|
      invariant 0 <= i <= |xs|
      invariant r == Without(xs[..i], x)
    {
      assert xs[..i + 1][..i] == xs[..i];
      if xs[i] != x {
        r := r + [xs[i]];
      }
      i := i + 1;
    }
    assert xs[..i] == xs;
  }

  /** The shrinking loop of a tick. */
  method DropLagging(ps: PartitionState, snapIsr: seq<int>, lagging: set<int>) returns (changed: bool)
    requires snapIsr == ps.isr
    modifies ps
    ensures var out := Lagging(old(ps.View()), lagging, snapIsr);
            ps.View() == ShrinkAll(old(ps.View()), out) && (changed <==> out != [])
  {
    hide Lagging, ShrinkAll, Without;
    ghost var before := ps.View();
    ghost var out: seq<int> := [];
    LaggingNone(before, lagging, snapIsr);
    changed := false;
    var i := 0;
    while i < |snapIsr|
      invariant 0 <= i <= |snapIsr|
      invariant out == Lagging(before, lagging, snapIsr[..i]) && (changed <==> out != [])
      invariant ps.View() == ShrinkAll(before, out)
    {
      LaggingStep(before, lagging, snapIsr, i, out);
      if snapIsr[i] != ps.leader && snapIsr[i] in lagging {
        ps.RemoveFromISR(snapIsr[i]);
        changed := true;
        out := out + [snapIsr[i]];
      }
      i := i + 1;
    }
    assert snapIsr[..i] == snapIsr;
  }

  lemma LaggingNone(p: Partition, lagging: set<int>, ids: seq<int>)
    ensures Lagging(p, lagging, ids[..0]) == [] && ShrinkAll(p, []) == p
  {
  }

  lemma LaggingStep(p: Partition, lagging: set<int>, ids: seq<int>, i: nat, out: seq<int>)
    requires i < |ids| && out == Lagging(p, lagging, ids[..i])
    ensures Lagging(p, lagging, ids[..i + 1]) ==
            out + if ids[i] != p.leader && ids[i] in lagging then [ids[i]] else []
    ensures ShrinkAll(p, out + [ids[i]]) == Shrink(ShrinkAll(p, out), ids[i])
  {
    assert ids[..i + 1][..i] == ids[..i];
    assert (out + [ids[i]])[..|out|] == out;
  }

  /** The expanding loop of a tick, deciding from the snapshot `snap`. */
  method AddReturning(ps: PartitionState, snapIsr: seq<int>, snapReported: map<int, int>, snapHwm: int,
                      ghost snap: Partition)
    returns (changed: bool)
    requires snap == Partition(ps.leader, ps.replicas, snapIsr, snap.leo, snapHwm, snapReported)
    modifies ps
    ensures var back := Returning(snap, ps.replicas);
            ps.View() == ExpandAll(old(ps.View()), back) && (changed <==> back != [])
  {
    hide Returning, ExpandAll, Without;
    ghost var before := ps.View();
    ghost var back: seq<int> := [];
    ReturningNone(snap, ps.replicas, before);
    changed := false;
    var i := 0;
    while i < |ps.replicas|
      invariant 0 <= i <= |ps.replicas|
      invariant back == Returning(snap, ps.replicas[..i]) && (changed <==> back != [])
      invariant ps.View() == ExpandAll(before, back)
    {
      ReturningStep(snap, ps.replicas, i, before, back);
      var r := ps.replicas[i];
      if r != ps.leader && r !in snapIsr && r in snapReported && snapReported[r] >= snapHwm {
        ps.AddToISR(r);
        changed := true;
        back := back + [r];
      }
      i := i + 1;
    }
    assert ps.replicas[..i] == ps.replicas;
  }

  lemma ReturningNone(snap: Partition, ids: seq<int>, p: Partition)
    ensures Returning(snap, ids[..0]) == [] && ExpandAll(p, []) == p
  {
  }

  lemma ReturningStep(snap: Partition, ids: seq<int>, i: nat, p: Partition, back: seq<int>)
    requires i < |ids| && back == Returning(snap, ids[..i])
    ensures Returning(snap, ids[..i + 1]) == back + if CaughtUp(snap, ids[i]) then [ids[i]] else []
    ensures ExpandAll(p, back + [ids[i]]) == Expand(ExpandAll(p, back), ids[i])
  {
    assert ids[..i + 1][..i] == ids[..i];
    assert (back + [ids[i]])[..|back|] == back;
  }

  /**
   One tick over a partition this broker leads: drop lagging followers, add
   back those that caught up, advance the watermark, and, when too few
   replicas remain, fail whoever is still parked.
   */
  method Tick(ps: PartitionState, lagging: set<int>, minIsr: int)
    requires ps.purgatory.Valid()
    modifies ps, ps.purgatory, ps.purgatory.slots, ps.purgatory.parked
    ensures ps.purgatory.Valid()
    ensures ps.View() == Ticked(old(ps.View()), lagging)
    ensures IsTicked(old(ps.View()), ps.View(), lagging)
    ensures ps.View() != old(ps.View()) && |ps.isr| < minIsr ==> ps.purgatory.parked == []
    ensures forall w | w in ps.purgatory.parked :: w in old(ps.purgatory.parked)
    ensures forall w | w in old(ps.purgatory.parked) && w !in ps.purgatory.parked ::
              && w.closed
              && (w.requiredOffset < ps.hwm || |ps.isr| < minIsr)
              && w.sent == [if w.requiredOffset < ps.hwm && ps.hwm > old(ps.hwm) then Committed
                            else Failed(NOT_ENOUGH_REPLICAS_AFTER_APPEND)]
  {
    hide StillWaiting, Distinct, MinOver, Without, Lagging, Returning, ShrinkAll, ExpandAll, IsTicked, AllReached;
    ghost var snap := ps.View();
    var snapIsr, snapReported, snapHwm := ps.isr, ps.reported, ps.hwm;
    LaggingNone(snap, lagging, snapIsr);
    ReturningNone(snap, ps.replicas, snap);
    TickedIsr(snap, lagging);
    var dropped := DropLagging(ps, snapIsr, lagging);
    var added := AddReturning(ps, snapIsr, snapReported, snapHwm, snap);
    if dropped || added {
      ShrinkAllIsr(snap, Lagging(snap, lagging, snapIsr));
      ExpandAllIsr(ShrinkAll(snap, Lagging(snap, lagging, snapIsr)), Returning(snap, ps.replicas));
      ps.AdvanceHWM();
      StillWaitingKeeps(old(ps.purgatory.parked), RequiredOffset, ps.hwm);
      if |ps.isr| < minIsr {
        ps.purgatory.FailAll(NOT_ENOUGH_REPLICAS_AFTER_APPEND);
      }
    }
  }
}
