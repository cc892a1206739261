/** Capacity gates and leases (concurrency.py, lines 16-97). A body guarded by the gate's condition
    awaits nothing but the wait itself, so each guarded body is one atomic step. */
module Capacity {
  import opened Folds

  // ----- the guarded bodies, on values -----

  datatype Gate = Gate(limit: nat, inUse: nat, maxObserved: nat)

  datatype Lease = Lease(acquired: bool, released: bool)

  const FRESH_LEASE := Lease(false, false)
  const HELD_LEASE := Lease(true, false)

  function Claimed(g: Gate): Gate
  {
    g.(inUse := g.inUse + 1, maxObserved := if g.maxObserved < g.inUse + 1 then g.inUse + 1 else g.maxObserved)
  }

  predicate Holds(lease: Lease)
  {
    lease.acquired && !lease.released
  }

  // ----- the objects -----

  class CapacityGate {
    const limit: nat
    var inUse: nat
    var maxObservedInUse: nat

    function State(): Gate
      reads this
    {
      Gate(limit, inUse, maxObservedInUse)
    }

    constructor (limit: nat)
      ensures State() == Gate(limit, 0, 0)
    {
      this.limit := limit;
      inUse := 0;
      maxObservedInUse := 0;
    }

    method Claim()
      modifies this
      ensures State() == Claimed(old(State()))
    {
      inUse := inUse + 1;
      maxObservedInUse := if maxObservedInUse < inUse then inUse else maxObservedInUse;
    }

    /** A lease is granted at once or not at all. */
    method TryLease() returns (granted: bool)
      modifies this
      ensures granted <==> old(inUse) < limit
      ensures State() == if granted then Claimed(old(State())) else old(State())
    {
      if inUse >= limit {
        return false;
      }
      Claim();
      return true;
    }

    /** `error` is the source's "capacity lease released more than once". */
    method Release() returns (error: bool)
      modifies this
      ensures error <==> old(inUse) == 0
      ensures State() == if error then old(State()) else old(State()).(inUse := old(inUse) - 1)
    {
      if inUse <= 0 {
        return true;
      }
      inUse := inUse - 1;
      return false;
    }
  }

  class CapacityLease {
    const gate: CapacityGate
    var acquired: bool
    var released: bool

    function State(): Lease
      reads this
    {
      Lease(acquired, released)
    }

    constructor (gate: CapacityGate, acquired: bool)
      ensures this.gate == gate && State() == Lease(acquired, false)
    {
      this.gate := gate;
      this.acquired := acquired;
      released := false;
    }

    /** Releasing twice, or before acquiring, does nothing. */
    method Release() returns (error: bool)
      modifies this, gate
      ensures Holds(old(State())) ==> State() == old(State()).(released := true) && (error <==> old(gate.inUse) == 0)
      ensures Holds(old(State())) ==>
          gate.State() == if error then old(gate.State()) else old(gate.State()).(inUse := old(gate.inUse) - 1)
      ensures !Holds(old(State())) ==> State() == old(State()) && gate.State() == old(gate.State()) && !error
    {
      if !acquired || released {
        return false;
      }
      released := true;
      error := gate.Release();
    }
  }

  /** A gate needs a positive limit. */
  method NewGate(limit: int) returns (gate: CapacityGate?)
    ensures gate != null <==> limit > 0
    ensures gate != null ==> fresh(gate) && gate.State() == Gate(limit, 0, 0)
  {
    if limit <= 0 {
      return null;
    }
    gate := new CapacityGate(limit);
  }

  // ----- every interleaving -----

  /** A lease as the tasks see it; `waiting` while its one entering task waits inside `_acquire`. */
  datatype Holder = Holder(lease: Lease, waiting: bool)

  datatype System = System(gate: Gate, holders: map<nat, Holder>, doubleRelease: bool)

  datatype Action =
    | Create(id: nat)
    | Enter(id: nat)
    | Wake(id: nat)
    | CancelWait(id: nat)
    | TryLease(id: nat)
    | Release(id: nat)

  /** One atomic step; an action that is not possible in `s` leaves it unchanged. */
  function Step(s: System, a: Action): System
  {
    match a
    case Create(id) =>
      if id in s.holders then s else s.(holders := s.holders[id := Holder(FRESH_LEASE, false)])
    case Enter(id) =>
      if id !in s.holders || s.holders[id].waiting || s.holders[id].lease.acquired then s
      else if s.gate.inUse < s.gate.limit then Granted(s, id)
      else s.(holders := s.holders[id := s.holders[id].(waiting := true)])
    case Wake(id) =>
      if id in s.holders && s.holders[id].waiting && s.gate.inUse < s.gate.limit then Granted(s, id) else s
    case CancelWait(id) =>
      if id !in s.holders || !s.holders[id].waiting then s
      else s.(holders := s.holders[id := s.holders[id].(waiting := false)])
    case TryLease(id) =>
      if id in s.holders || s.gate.inUse >= s.gate.limit then s
      else s.(gate := Claimed(s.gate), holders := s.holders[id := Holder(HELD_LEASE, false)])
    case Release(id) =>
      if id !in s.holders || !Holds(s.holders[id].lease) then s
      else
        var freed := s.(holders := s.holders[id := s.holders[id].(lease := s.holders[id].lease.(released := true))]);
        if s.gate.inUse == 0 then freed.(doubleRelease := true)
        else freed.(gate := s.gate.(inUse := s.gate.inUse - 1))
  }

  function Granted(s: System, id: nat): System
    requires id in s.holders
  {
    s.(gate := Claimed(s.gate), holders := s.holders[id := Holder(s.holders[id].lease.(acquired := true), false)])
  }

  function Idle(limit: nat): System
  {
    System(Gate(limit, 0, 0), map[], false)
  }

  ghost function Run(limit: nat, actions: seq<Action>): System
  {
    Fold(Step, Idle(limit), actions)
  }

  ghost function HeldIds(s: System): set<nat>
  {
    set id | id in s.holders && Holds(s.holders[id].lease)
  }

  /** A lease waits only before it is acquired and is released only after. */
  ghost predicate InOrder(s: System)
  {
    forall id :: id in s.holders ==>
      (s.holders[id].waiting ==> !s.holders[id].lease.acquired)
        && (s.holders[id].lease.released ==> s.holders[id].lease.acquired)
  }

  ghost predicate Counted(s: System)
  {
    s.gate.inUse == |HeldIds(s)| && s.gate.inUse <= s.gate.maxObserved <= s.gate.limit && !s.doubleRelease
  }

  ghost predicate Conserved(s: System)
  {
    InOrder(s) && Counted(s)
  }

  lemma StepInOrder(s: System, a: Action)
    requires InOrder(s)
    ensures InOrder(Step(s, a))
  {
  }

  /** A step changes at most whether its own lease is held, and the count with it. */
  lemma StepHeld(s: System, a: Action)
    requires InOrder(s) && (a.id in HeldIds(s) ==> s.gate.inUse > 0)
    ensures var t := Step(s, a);
      && t.doubleRelease == s.doubleRelease
      && (|| (HeldIds(t) == HeldIds(s) && t.gate == s.gate)
          || (a.id !in HeldIds(s) && HeldIds(t) == HeldIds(s) + {a.id} && s.gate.inUse < s.gate.limit
              && t.gate == Claimed(s.gate))
          || (a.id in HeldIds(s) && HeldIds(t) == HeldIds(s) - {a.id} && t.gate == s.gate.(inUse := s.gate.inUse - 1)))
  {
    assert forall id :: id != a.id ==> (id in HeldIds(Step(s, a)) <==> id in HeldIds(s));
  }

  lemma StepCounted(s: System, a: Action)
    requires InOrder(s) && Counted(s)
    ensures Counted(Step(s, a))
  {
    StepHeld(s, a);
  }

  lemma RunConserved(limit: nat, actions: seq<Action>)
    ensures Conserved(Run(limit, actions)) && Run(limit, actions).gate.limit == limit
  {
    var inv := (s: System, done: seq<Action>) => Conserved(s) && s.gate.limit == limit;
    assert HeldIds(Idle(limit)) == {};
    forall s, front, a | inv(s, front) ensures inv(Step(s, a), front + [a]) {
      StepInOrder(s, a);
      StepCounted(s, a);
    }
    FoldKeeps(Step, Idle(limit), actions, inv);
  }

  /** In every interleaving of acquiring, waiting, cancelling and releasing, the count is the number
      of acquired and unreleased leases, it stays within the limit, and the double-release error is
      unreachable. */
  lemma CapacityConserved(limit: nat, actions: seq<Action>)
    ensures var s := Run(limit, actions);
      && s.gate.inUse == |HeldIds(s)|
      && s.gate.inUse <= s.gate.maxObserved <= limit
      && !s.doubleRelease
  {
    RunConserved(limit, actions);
  }

  /** The recorded maximum is the peak of the count over the run. */
  lemma {:induction false} MaximumIsPeak(limit: nat, actions: seq<Action>)
    ensures forall n :: 0 <= n <= |actions| ==>
        Run(limit, actions[..n]).gate.inUse <= Run(limit, actions).gate.maxObserved
    ensures exists n ::
        0 <= n <= |actions| && Run(limit, actions[..n]).gate.inUse == Run(limit, actions).gate.maxObserved
  {
    assert actions[..|actions|] == actions;
    if actions == [] {
    } else {
      var m := |actions| - 1;
      var front, last := actions[..m], actions[m];
      MaximumIsPeak(limit, front);
      assert forall n :: 0 <= n <= m ==> front[..n] == actions[..n];
      StepMaximum(Run(limit, front), last);
      var k :| 0 <= k <= m && Run(limit, front[..k]).gate.inUse == Run(limit, front).gate.maxObserved;
      if Run(limit, actions).gate.maxObserved == Run(limit, front).gate.maxObserved {
        assert Run(limit, actions[..k]).gate.inUse == Run(limit, actions).gate.maxObserved;
      } else {
        assert Run(limit, actions[..|actions|]).gate.inUse == Run(limit, actions).gate.maxObserved;
      }
      forall n | 0 <= n <= |actions|
        ensures Run(limit, actions[..n]).gate.inUse <= Run(limit, actions).gate.maxObserved
      {
        if n <= m {
          assert Run(limit, front[..n]).gate.inUse <= Run(limit, front).gate.maxObserved;
        } else {
          CapacityConserved(limit, actions);
        }
      }
    }
  }

  lemma StepMaximum(s: System, a: Action)
    ensures var t := Step(s, a).gate;
      t.maxObserved == s.gate.maxObserved || (s.gate.maxObserved < t.maxObserved == t.inUse)
  {
  }

  /** Once every lease is released or was never acquired, the gate is free again. */
  lemma AllReleasedIsFree(limit: nat, actions: seq<Action>)
    ensures (forall id :: id in Run(limit, actions).holders ==> !Holds(Run(limit, actions).holders[id].lease)) <==>
            Run(limit, actions).gate.inUse == 0
  {
    var s := Run(limit, actions);
    CapacityConserved(limit, actions);
    if s.gate.inUse == 0 {
      assert HeldIds(s) == {};
      assert forall id :: id in s.holders && Holds(s.holders[id].lease) ==> id in HeldIds(s);
    } else {
      var id :| id in HeldIds(s);
    }
  }

  lemma StepKeepsReleased(s: System, a: Action, id: nat)
    requires id in s.holders && s.holders[id].lease.acquired && (s.holders[id].lease.released || a == Release(id))
    ensures id in Step(s, a).holders && Step(s, a).holders[id].lease == Lease(true, true)
  {
  }

  /** A lease that was acquired and then released never holds a slot again, whatever else happens. */
  lemma {:induction false} ReleasedForGood(limit: nat, front: seq<Action>, id: nat, back: seq<Action>)
    requires id in Run(limit, front).holders && Run(limit, front).holders[id].lease.acquired
    ensures var s := Run(limit, front + [Release(id)] + back);
      id in s.holders && s.holders[id].lease == Lease(true, true)
  {
    var inv := (s: System, done: seq<Action>) => id in s.holders && s.holders[id].lease == Lease(true, true);
    var released := Run(limit, front + [Release(id)]);
    FoldNext(Step, Idle(limit), front, Release(id));
    StepKeepsReleased(Run(limit, front), Release(id), id);
    forall s, past, a | inv(s, past) ensures inv(Step(s, a), past + [a]) {
      StepKeepsReleased(s, a, id);
    }
    FoldKeeps(Step, released, back, inv);
    FoldConcat(Step, Idle(limit), front + [Release(id)], back);
  }

  // ----- exactly when a lease is granted, waits and is given back -----

  predicate Waits(s: System, id: nat)
  {
    id in s.holders && s.holders[id].waiting
  }

  /** The lease is there, not yet acquired, and its task asks for the slot now. */
  predicate Asks(s: System, a: Action, id: nat)
  {
    || (a == Enter(id) && id in s.holders && !Waits(s, id) && !s.holders[id].lease.acquired)
    || (a == Wake(id) && Waits(s, id))
    || (a == TryLease(id) && id !in s.holders)
  }

  /** A lease is granted when its task asks and fewer leases than the limit are held. */
  ghost function Grants(id: nat): (System, Action) -> bool
  {
    (s: System, a: Action) => Asks(s, a, id) && |HeldIds(s)| < s.gate.limit
  }

  ghost function GivesBack(id: nat): (System, Action) -> bool
  {
    (s: System, a: Action) => a == Release(id) && id in HeldIds(s)
  }

  lemma StepLease(s: System, a: Action, id: nat)
    requires Conserved(s)
    ensures var t := Step(s, a);
      && (id in t.holders && t.holders[id].lease.acquired <==>
          (id in s.holders && s.holders[id].lease.acquired) || Grants(id)(s, a))
      && (id in t.holders && t.holders[id].lease.released <==>
          (id in s.holders && s.holders[id].lease.released) || GivesBack(id)(s, a))
  {
  }

  /** A slot is held exactly when it was and is not given back now, or is granted now. */
  lemma StepHeldIff(s: System, a: Action, id: nat)
    requires Conserved(s)
    ensures id in HeldIds(Step(s, a)) <==> (id in HeldIds(s) && a != Release(id)) || Grants(id)(s, a)
  {
    StepLease(s, a, id);
  }

  /** A lease exists once it was created, or granted at once. */
  lemma StepKnown(s: System, a: Action, id: nat)
    requires Conserved(s)
    ensures id in Step(s, a).holders <==> id in s.holders || a == Create(id) || Grants(id)(s, a)
  {
  }

  /** A lease waits exactly from asking in vain until it is granted or its wait is cancelled. */
  lemma StepWaits(s: System, a: Action, id: nat)
    requires Conserved(s)
    ensures Waits(Step(s, a), id) <==>
            || (Waits(s, id) && a != CancelWait(id) && !Grants(id)(s, a))
            || (a.Enter? && Asks(s, a, id) && !Grants(id)(s, a))
  {
  }

  /** A lease was acquired exactly when it was once asked for while fewer leases than the limit were held, and
      released exactly when it was given back while held. */
  lemma {:induction false} LeaseIff(limit: nat, actions: seq<Action>, id: nat)
    ensures var s := Run(limit, actions);
      && (id in s.holders && s.holders[id].lease.acquired <==> Happened(Step, Idle(limit), actions, Grants(id)))
      && (id in s.holders && s.holders[id].lease.released <==> Happened(Step, Idle(limit), actions, GivesBack(id)))
  {
    if actions == [] {
    } else {
      var front, last := actions[..|actions| - 1], actions[|actions| - 1];
      LeaseIff(limit, front, id);
      RunConserved(limit, front);
      StepLease(Run(limit, front), last, id);
      HappenedNext(Step, Idle(limit), actions, Grants(id));
      HappenedNext(Step, Idle(limit), actions, GivesBack(id));
    }
  }

  /** No slot is lost: in every run, a task that waits can have its lease exactly when fewer leases than the
      limit are held. */
  lemma WaiterGetsFreeSlot(limit: nat, actions: seq<Action>, id: nat)
    requires Waits(Run(limit, actions), id)
    ensures id in HeldIds(Step(Run(limit, actions), Wake(id))) <==> |HeldIds(Run(limit, actions))| < limit
  {
    RunConserved(limit, actions);
    StepLease(Run(limit, actions), Wake(id), id);
    assert InOrder(Run(limit, actions));
  }
}
