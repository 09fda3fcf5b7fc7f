/**
 The purgatory of one partition: parked `acks=-1` waiters, each with a
 one-slot Done channel that is sent a value and closed when it is resolved.
 */
module Purgatories {

  datatype Outcome = Committed | Failed(code: int)

  /** The waiters whose offset the high watermark has not passed, in their order. */
  function StillWaiting<W>(ws: seq<W>, required: W -> int, hwm: int): seq<W> {
    if ws == [] then []
    else
      var n := |ws| - 1;
      StillWaiting(ws[..n], required, hwm) + if required(ws[n]) < hwm then [] else [ws[n]]
  }

  predicate Distinct<W(==)>(ws: seq<W>) {
    forall i, j | 0 <= i < j < |ws| :: ws[i] != ws[j]
  }

  /** It keeps exactly the waiters at or above the watermark, and repeats none. */
  lemma {:induction false} StillWaitingKeeps<W>(ws: seq<W>, required: W -> int, hwm: int)
    ensures forall w :: w in StillWaiting(ws, required, hwm) <==> w in ws && hwm <= required(w)
    ensures Distinct(ws) ==> Distinct(StillWaiting(ws, required, hwm))
    ensures |StillWaiting(ws, required, hwm)| <= |ws|
  {
    if ws != [] {
      var n := |ws| - 1;
      StillWaitingKeeps(ws[..n], required, hwm);
      assert ws == ws[..n] + [ws[n]];
    }
  }

  lemma StillWaitingStep<W>(ws: seq<W>, i: nat, required: W -> int, hwm: int)
    requires i < |ws|
    ensures StillWaiting(ws[..i + 1], required, hwm) ==
            StillWaiting(ws[..i], required, hwm) + if required(ws[i]) < hwm then [] else [ws[i]]
  {
    assert ws[..i + 1][..i] == ws[..i];
  }

  class Waiter {
    const requiredOffset: int
    var sent: seq<Outcome>   // what the Done channel has accepted; its capacity is one
    var closed: bool

    ghost predicate Unresolved()
      reads this
    {
      sent == [] && !closed
    }

    constructor (requiredOffset: int)
      ensures this.requiredOffset == requiredOffset && Unresolved()
    {
      this.requiredOffset := requiredOffset;
      sent := [];
      closed := false;
    }

    /** Sends without blocking, then closes; closing a closed channel would panic. */
    method Resolve(outcome: Outcome)
      requires !closed
      modifies this
      ensures closed && sent == if old(sent) == [] then [outcome] else old(sent)
    {
      if |sent| < 1 {
        sent := sent + [outcome];
      }
      closed := true;
    }
  }

  function RequiredOffset(w: Waiter): int { w.requiredOffset }

  class Purgatory {
    var slots: array<Waiter?>
    var count: nat
    ghost var parked: seq<Waiter>

    ghost predicate Valid()
      reads this, slots, parked
    {
      && count == |parked| <= slots.Length
      && (forall i | 0 <= i < count :: slots[i] == parked[i])
      && (forall i | 0 <= i < count :: parked[i].Unresolved())
      && Distinct(parked)
    }

    constructor ()
      ensures Valid() && parked == [] && fresh(slots)
    {
      slots := new Waiter?[4](_ => null);
      count := 0;
      parked := [];
    }

    method Add(w: Waiter)
      requires Valid() && w.Unresolved() && w !in parked
      modifies this, slots
      ensures Valid() && parked == old(parked) + [w]
      ensures slots == old(slots) || fresh(slots)
    {
      if count == slots.Length {
        var bigger := new Waiter?[2 * count + 1](_ => null);
        forall i | 0 <= i < count {
          bigger[i] := slots[i];
        }
        slots := bigger;
      }
      slots[count] := w;
      count := count + 1;
      parked := parked + [w];
    }

    /**
     Resolves with success exactly the waiters below `hwm` and compacts the
     rest to the front of the same array, keeping their order.
     */
    method CompleteUpTo(hwm: int)
      requires Valid()
      modifies this, slots, parked
      ensures Valid() && slots == old(slots)
      ensures parked == StillWaiting(old(parked), RequiredOffset, hwm)
      ensures forall w | w in parked :: w in old(parked)
      ensures forall w | w in old(parked) ::
                if w.requiredOffset < hwm then w.closed && w.sent == [Committed] else w in parked && w.Unresolved()
    {
      hide StillWaiting, Distinct;
      ghost var all := parked;
      ghost var front: seq<Waiter> := [];
      StillWaitingNone(all, hwm);
      var kept, i := 0, 0;
      while i < count
        modifies slots, all
        invariant 0 <= kept == |front| <= i <= count
        invariant front == StillWaiting(all[..i], RequiredOffset, hwm)
        invariant forall j | 0 <= j < kept :: slots[j] == front[j]
        invariant forall j | i <= j < count :: slots[j] == all[j] && all[j].Unresolved()
        invariant forall j | 0 <= j < i ::
                    if all[j].requiredOffset < hwm then all[j].closed && all[j].sent == [Committed]
                    else all[j].Unresolved()
      {
        StillWaitingStep(all, i, RequiredOffset, hwm);
        DistinctAt(all, i);
        var w := slots[i];
        if w.requiredOffset < hwm {
          w.Resolve(Committed);
        } else {
          slots[kept] := w;
          kept := kept + 1;
          front := front + [w];
        }
        i := i + 1;
      }
      assert all[..i] == all;
      StillWaitingKeeps(all, RequiredOffset, hwm);
      forall k | 0 <= k < kept ensures front[k].Unresolved() {
        assert front[k] in front;
      }
      count := kept;
      parked := front;
    }

    /** Resolves every parked waiter with the error. */
    method FailAll(code: int)
      requires Valid()
      modifies this, slots, parked
      ensures Valid() && parked == []
      ensures forall w | w in old(parked) :: w.closed && w.sent == [Failed(code)]
    {
      ghost var all := parked;
      var i := 0;
      while i < count
        modifies all
        invariant 0 <= i <= count
        invariant forall j | 0 <= j < i :: all[j].closed && all[j].sent == [Failed(code)]
        invariant forall j | i <= j < count :: all[j].Unresolved()
      {
        slots[i].Resolve(Failed(code));
        i := i + 1;
      }
      count := 0;
      parked := [];
    }
  }

  lemma StillWaitingNone(ws: seq<Waiter>, hwm: int)
    ensures StillWaiting(ws[..0], RequiredOffset, hwm) == []
  {
  }

  lemma DistinctAt(ws: seq<Waiter>, i: nat)
    requires Distinct(ws) && i < |ws|
    ensures forall j | 0 <= j < |ws| && j != i :: ws[j] != ws[i]
  {
  }
}
