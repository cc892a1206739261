/** Sharing one computation among concurrent calls with one key (concurrency.py, lines 266-320). The
    guarded bodies await nothing, and the leader's future is resolved and cleaned up without an await
    in between, so each action below is one atomic step. */
module Singleflight {
  import opened Folds

  // ----- the guarded bodies -----

  /** The in-flight futures by key; a future is named by the order of its creation. */
  class SingleflightGroup<K(==)> {
    var inflight: map<K, nat>
    var created: nat

    constructor ()
      ensures inflight == map[] && created == 0
    {
      inflight, created := map[], 0;
    }

    method Join(key: K) returns (flight: nat, leader: bool)
      modifies this
      ensures leader <==> key !in old(inflight)
      ensures flight == if leader then old(created) else old(inflight)[key]
      ensures inflight == (if leader then old(inflight)[key := flight] else old(inflight))
      ensures created == old(created) + if leader then 1 else 0
    {
      if key in inflight {
        return inflight[key], false;
      }
      flight, leader := created, true;
      created := created + 1;
      inflight := inflight[key := flight];
    }

    /** Only the future that is still registered is taken out. */
    method Cleanup(key: K, flight: nat)
      modifies this`inflight
      ensures inflight == Cleaned(old(inflight), key, flight)
    {
      if key in inflight && inflight[key] == flight {
        inflight := inflight - {key};
      }
    }
  }

  function Cleaned<K(==)>(inflight: map<K, nat>, key: K, flight: nat): map<K, nat>
  {
    if key in inflight && inflight[key] == flight then inflight - {key} else inflight
  }

  // ----- every interleaving -----

  /** How a call ended: with the outcome of its flight, or cancelled by its own task. `O` covers the
      values, exceptions and cancellation a leader's computation can end with. */
  datatype End<O> = Got(outcome: O) | CancelledSelf

  datatype Call<K, O> =
    | Leading(key: K, flight: nat, began: nat)
    | Following(key: K, flight: nat, began: nat)
    | Ended(key: K, flight: nat, began: nat, end: End<O>)

  datatype Resolved<O> = Resolved(leader: nat, outcome: O, at: nat)

  /** `now` counts the steps taken. */
  datatype Group<K, O> = Group(
    inflight: map<K, nat>,
    resolved: map<nat, Resolved<O>>,
    calls: map<nat, Call<K, O>>,
    created: nat,
    now: nat)

  datatype Action<K, O> =
    | Do(call: nat, key: K)
    | Finish(call: nat, outcome: O)
    | Deliver(call: nat)
    | CancelFollower(call: nat)

  predicate Enabled<K(==), O>(g: Group<K, O>, a: Action<K, O>)
  {
    match a
    case Do(call, _) => call !in g.calls
    case Finish(call, _) => call in g.calls && g.calls[call].Leading?
    case Deliver(call) => call in g.calls && g.calls[call].Following? && g.calls[call].flight in g.resolved
    case CancelFollower(call) => call in g.calls && g.calls[call].Following?
  }

  /** One atomic step; an action that is not possible in `g` leaves it unchanged. */
  function Step<K(==), O>(g: Group<K, O>, a: Action<K, O>): Group<K, O>
  {
    if !Enabled(g, a) then g
    else
      var later := g.(now := g.now + 1);
      match a
      case Do(call, key) =>
        if key in g.inflight then later.(calls := g.calls[call := Following(key, g.inflight[key], g.now)])
        else
          later.(inflight := g.inflight[key := g.created],
                 calls := g.calls[call := Leading(key, g.created, g.now)],
                 created := g.created + 1)
      case Finish(call, outcome) =>
        var c := g.calls[call];
        later.(inflight := Cleaned(g.inflight, c.key, c.flight),
               resolved := g.resolved[c.flight := Resolved(call, outcome, g.now)],
               calls := g.calls[call := Ended(c.key, c.flight, c.began, Got(outcome))])
      case Deliver(call) =>
        var c := g.calls[call];
        later.(calls := g.calls[call := Ended(c.key, c.flight, c.began, Got(g.resolved[c.flight].outcome))])
      case CancelFollower(call) =>
        var c := g.calls[call];
        later.(calls := g.calls[call := Ended(c.key, c.flight, c.began, CancelledSelf)])
  }

  function EmptyGroup<K, O>(): Group<K, O>
  {
    Group(map[], map[], map[], 0, 0)
  }

  /** An in-flight future is unresolved and led by exactly one call, the only one leading its key. */
  ghost predicate LedOnce<K(!new), O(!new)>(g: Group<K, O>)
  {
    && (forall c :: c in g.calls && g.calls[c].Leading? ==>
        g.calls[c].key in g.inflight && g.inflight[g.calls[c].key] == g.calls[c].flight)
    && (forall c, d :: c in g.calls && d in g.calls && g.calls[c].Leading? && g.calls[d].Leading? ==>
        g.calls[c].key == g.calls[d].key ==> c == d)
    && (forall k :: k in g.inflight ==> g.inflight[k] < g.created && g.inflight[k] !in g.resolved)
    && (forall j, k :: j in g.inflight && k in g.inflight && g.inflight[j] == g.inflight[k] ==> j == k)
    && (forall f :: f in g.resolved ==> f < g.created)
  }

  /** A future was resolved with the outcome its leader returned. */
  ghost predicate ResolvedByLeader<K(!new), O(!new)>(g: Group<K, O>)
  {
    forall f :: f in g.resolved ==>
      && g.resolved[f].leader in g.calls
      && var leader := g.calls[g.resolved[f].leader];
         leader.Ended? && leader.flight == f && leader.end == Got(g.resolved[f].outcome)
  }

  ghost predicate CallLive<K(!new), O(!new)>(g: Group<K, O>, c: nat)
    requires c in g.calls
  {
    var call := g.calls[c];
    && call.flight < g.created && call.began <= g.now
    && (call.flight in g.resolved ==> call.began <= g.resolved[call.flight].at)
    && (call.flight !in g.resolved && !call.Ended? ==> call.key in g.inflight && g.inflight[call.key] == call.flight)
    && (call.Ended? && call.end.Got? ==>
        call.flight in g.resolved && call.end.outcome == g.resolved[call.flight].outcome)
  }

  /** A call shares the flight of its key, which was not yet resolved when the call began. */
  ghost predicate JoinedLive<K(!new), O(!new)>(g: Group<K, O>)
  {
    forall c :: c in g.calls ==> CallLive(g, c)
  }

  ghost predicate Sound<K(!new), O(!new)>(g: Group<K, O>)
  {
    LedOnce(g) && ResolvedByLeader(g) && JoinedLive(g)
  }

  lemma DoKeepsLedOnce<K(!new), O(!new)>(g: Group<K, O>, a: Action<K, O>)
    requires LedOnce(g) && a.Do? && Enabled(g, a)
    ensures LedOnce(Step(g, a))
  {
    var h := Step(g, a);
    assert forall c :: c in h.calls && c != a.call ==> c in g.calls && h.calls[c] == g.calls[c];
    forall c | c in h.calls && h.calls[c].Leading? && h.calls[c].key == a.key && c != a.call
      ensures h.calls[a.call].Following?
    {
      assert g.calls[c].key in g.inflight;
    }
    forall c | c in h.calls && h.calls[c].Leading?
      ensures h.calls[c].key in h.inflight && h.inflight[h.calls[c].key] == h.calls[c].flight
    {
      assert c == a.call || (c in g.calls && g.calls[c].Leading?);
    }
  }

  lemma FinishKeepsLedOnce<K(!new), O(!new)>(g: Group<K, O>, a: Action<K, O>)
    requires LedOnce(g) && a.Finish? && Enabled(g, a)
    ensures LedOnce(Step(g, a))
    ensures Step(g, a).inflight == g.inflight - {g.calls[a.call].key}
  {
    var h, call := Step(g, a), g.calls[a.call];
    assert h.inflight == g.inflight - {call.key};
    assert forall c :: c in h.calls && h.calls[c].Leading? ==> c in g.calls && h.calls[c] == g.calls[c] && c != a.call;
  }

  lemma EndKeepsLedOnce<K(!new), O(!new)>(g: Group<K, O>, a: Action<K, O>)
    requires LedOnce(g) && (a.Deliver? || a.CancelFollower?) && Enabled(g, a)
    ensures LedOnce(Step(g, a))
  {
    var h := Step(g, a);
    assert forall c :: c in h.calls && h.calls[c].Leading? ==> c in g.calls && h.calls[c] == g.calls[c];
  }

  lemma StepKeepsResolvedByLeader<K(!new), O(!new)>(g: Group<K, O>, a: Action<K, O>)
    requires ResolvedByLeader(g)
    ensures ResolvedByLeader(Step(g, a))
  {
    var h := Step(g, a);
    forall f | f in h.resolved
      ensures h.resolved[f].leader in h.calls
      ensures var leader := h.calls[h.resolved[f].leader];
              leader.Ended? && leader.flight == f && leader.end == Got(h.resolved[f].outcome)
    {
      assert f in g.resolved || (Enabled(g, a) && a.Finish? && g.calls[a.call].flight == f);
    }
  }

  lemma DoKeepsLive<K(!new), O(!new)>(g: Group<K, O>, a: Action<K, O>, c: nat)
    requires LedOnce(g) && JoinedLive(g) && a.Do? && Enabled(g, a) && c in Step(g, a).calls
    ensures CallLive(Step(g, a), c)
  {
    if c != a.call { assert CallLive(g, c); }
  }

  lemma FinishKeepsLive<K(!new), O(!new)>(g: Group<K, O>, a: Action<K, O>, c: nat)
    requires LedOnce(g) && JoinedLive(g) && a.Finish? && Enabled(g, a) && c in Step(g, a).calls
    ensures CallLive(Step(g, a), c)
  {
    FinishKeepsLedOnce(g, a);
    assert CallLive(g, c) && CallLive(g, a.call);
    assert g.calls[a.call].flight !in g.resolved;
  }

  lemma EndKeepsLive<K(!new), O(!new)>(g: Group<K, O>, a: Action<K, O>, c: nat)
    requires JoinedLive(g) && (a.Deliver? || a.CancelFollower?) && Enabled(g, a) && c in Step(g, a).calls
    ensures CallLive(Step(g, a), c)
  {
    assert CallLive(g, c);
  }

  lemma StepKeepsSound<K(!new), O(!new)>(g: Group<K, O>, a: Action<K, O>)
    requires Sound(g)
    ensures Sound(Step(g, a))
  {
    StepKeepsResolvedByLeader(g, a);
    if Enabled(g, a) {
      match a
      case Do(_, _) =>
        DoKeepsLedOnce(g, a);
        forall c | c in Step(g, a).calls ensures CallLive(Step(g, a), c) { DoKeepsLive(g, a, c); }
      case Finish(_, _) =>
        FinishKeepsLedOnce(g, a);
        forall c | c in Step(g, a).calls ensures CallLive(Step(g, a), c) { FinishKeepsLive(g, a, c); }
      case _ =>
        EndKeepsLedOnce(g, a);
        forall c | c in Step(g, a).calls ensures CallLive(Step(g, a), c) { EndKeepsLive(g, a, c); }
    }
  }

  // ----- whole runs -----

  ghost function Run<K(!new), O(!new)>(actions: seq<Action<K, O>>): Group<K, O>
  {
    Fold(Step, EmptyGroup(), actions)
  }

  lemma RunSound<K(!new), O(!new)>(actions: seq<Action<K, O>>)
    ensures Sound(Run(actions))
  {
    var inv := (g: Group<K, O>, done: seq<Action<K, O>>) => Sound(g);
    forall g, front, a | inv(g, front) ensures inv(Step(g, a), front + [a]) {
      StepKeepsSound(g, a);
    }
    FoldKeeps(Step, EmptyGroup(), actions, inv);
  }

  /** At any time at most one computation runs for a key. */
  lemma OneLeaderPerKey<K(!new), O(!new)>(actions: seq<Action<K, O>>, c: nat, d: nat)
    requires c in Run(actions).calls && d in Run(actions).calls
    requires Run(actions).calls[c].Leading? && Run(actions).calls[d].Leading?
    requires Run(actions).calls[c].key == Run(actions).calls[d].key
    ensures c == d
  {
    RunSound(actions);
  }

  /** A call that was not cancelled itself ends with exactly what the leader of its flight ended with,
      and that flight had not finished when the call began. */
  lemma FollowersShareOutcome<K(!new), O(!new)>(actions: seq<Action<K, O>>, c: nat)
    requires c in Run(actions).calls && Run(actions).calls[c].Ended? && Run(actions).calls[c].end.Got?
    ensures var g := Run(actions);
      && g.calls[c].flight in g.resolved
      && var flight := g.resolved[g.calls[c].flight];
      && flight.leader in g.calls && g.calls[flight.leader].Ended?
      && g.calls[flight.leader].flight == g.calls[c].flight
      && g.calls[c].end == g.calls[flight.leader].end == Got(flight.outcome)
      && g.calls[c].began <= flight.at
  {
    RunSound(actions);
    assert CallLive(Run(actions), c);
  }

  /** Finishing takes exactly the leader's own future out of the mapping. */
  lemma CleanupIsOwn<K(!new), O(!new)>(actions: seq<Action<K, O>>, call: nat, outcome: O)
    requires Enabled(Run(actions), Finish(call, outcome))
    ensures var g := Run(actions);
      && g.calls[call].key in g.inflight && g.inflight[g.calls[call].key] == g.calls[call].flight
      && Step(g, Finish(call, outcome)).inflight == g.inflight - {g.calls[call].key}
  {
    RunSound(actions);
    FinishKeepsLedOnce(Run(actions), Finish(call, outcome));
  }

  ghost predicate SameBut<K(!new), O(!new)>(g: Group<K, O>, h: Group<K, O>, call: nat)
  {
    && g.inflight == h.inflight && g.resolved == h.resolved && g.created == h.created && g.now == h.now
    && g.calls - {call} == h.calls - {call}
    && call in g.calls && call in h.calls && !g.calls[call].Leading? && !h.calls[call].Leading?
  }

  /** Whatever happens after a follower is cancelled, every other call goes the way it would have gone
      had the follower kept waiting. */
  lemma {:induction false} CancelledFollowerDisturbsNothing<K(!new), O(!new)>(g: Group<K, O>, call: nat,
                                                                              later: seq<Action<K, O>>)
    requires call in g.calls && g.calls[call].Following?
    requires forall a :: a in later ==> a.call != call
    ensures SameBut(Fold(Step, Step(g, CancelFollower(call)), later), Fold(Step, g.(now := g.now + 1), later), call)
  {
    if later == [] {
      var h := Step(g, CancelFollower(call));
      assert h.calls - {call} == g.calls - {call};
    } else {
      var front, last := later[..|later| - 1], later[|later| - 1];
      CancelledFollowerDisturbsNothing(g, call, front);
      assert last in later;
      SameButStep(Fold(Step, Step(g, CancelFollower(call)), front), Fold(Step, g.(now := g.now + 1), front), call,
        last);
    }
  }

  lemma SameButStep<K(!new), O(!new)>(g: Group<K, O>, h: Group<K, O>, call: nat, a: Action<K, O>)
    requires SameBut(g, h, call) && a.call != call
    ensures SameBut(Step(g, a), Step(h, a), call)
  {
    assert a.call in g.calls <==> a.call in g.calls - {call};
    assert a.call in h.calls <==> a.call in h.calls - {call};
    assert a.call in g.calls ==>
      g.calls[a.call] == (g.calls - {call})[a.call] == (h.calls - {call})[a.call] == h.calls[a.call];
    assert Enabled(g, a) <==> Enabled(h, a);
    if Enabled(g, a) {
      var g', h' := Step(g, a), Step(h, a);
      assert g'.calls[a.call] == h'.calls[a.call];
      assert g'.calls - {call} == (g.calls - {call})[a.call := g'.calls[a.call]];
      assert h'.calls - {call} == (h.calls - {call})[a.call := h'.calls[a.call]];
    }
  }

  // ----- what becomes of each call -----

  /** A computation runs for the key. */
  predicate InFlight<K(==), O>(g: Group<K, O>, key: K)
  {
    key in g.inflight
  }

  /** The action brings the call to `to`. */
  ghost predicate Brings<K(!new), O(!new)>(g: Group<K, O>, a: Action<K, O>, call: nat, to: Call<K, O>)
  {
    match a
    case Do(c, key) =>
      && c == call && call !in g.calls && to.key == key && to.began == g.now
      && (if InFlight(g, key) then to.Following? && to.flight == g.inflight[key]
          else to.Leading? && to.flight == g.created)
    case Finish(c, outcome) =>
      c == call && call in g.calls && g.calls[call].Leading? && EndsWith(g.calls[call], to, Got(outcome))
    case Deliver(c) =>
      && c == call && call in g.calls && g.calls[call].Following? && g.calls[call].flight in g.resolved
      && EndsWith(g.calls[call], to, Got(g.resolved[g.calls[call].flight].outcome))
    case CancelFollower(c) =>
      c == call && call in g.calls && g.calls[call].Following? && EndsWith(g.calls[call], to, CancelledSelf)
  }

  predicate EndsWith<K(==), O(==)>(from: Call<K, O>, to: Call<K, O>, end: End<O>)
  {
    to.Ended? && to.key == from.key && to.flight == from.flight && to.began == from.began && to.end == end
  }

  ghost predicate IsCall<K(!new), O(!new)>(g: Group<K, O>, call: nat, c: Call<K, O>)
  {
    call in g.calls && g.calls[call] == c
  }

  ghost predicate Acts<K(!new), O(!new)>(g: Group<K, O>, a: Action<K, O>, call: nat)
  {
    exists to :: Brings(g, a, call, to)
  }

  /** A call changes exactly as its own actions say. */
  lemma StepCall<K(!new), O(!new)>(g: Group<K, O>, a: Action<K, O>, call: nat, c: Call<K, O>)
    ensures IsCall(Step(g, a), call, c) <==> (IsCall(g, call, c) && !Acts(g, a, call)) || Brings(g, a, call, c)
  {
    if Enabled(g, a) && a.call == call {
      assert Brings(g, a, call, Step(g, a).calls[call]);
    }
  }

  /** Every flight that is not over has a call that leads it. */
  ghost predicate AllLed<K(!new), O(!new)>(g: Group<K, O>)
  {
    forall k :: k in g.inflight ==> exists c :: Leads(g, c, k)
  }

  ghost predicate Leads<K(!new), O(!new)>(g: Group<K, O>, c: nat, key: K)
  {
    c in g.calls && g.calls[c].Leading? && g.calls[c].key == key && key in g.inflight
      && g.calls[c].flight == g.inflight[key]
  }

  lemma StepKeepsLeader<K(!new), O(!new)>(g: Group<K, O>, a: Action<K, O>, c: nat, key: K)
    requires LedOnce(g) && Leads(g, c, key) && key in Step(g, a).inflight
    ensures Leads(Step(g, a), c, key)
  {
    if a.Finish? && Enabled(g, a) { FinishKeepsLedOnce(g, a); }
  }

  lemma StepKeepsLed<K(!new), O(!new)>(g: Group<K, O>, a: Action<K, O>)
    requires Sound(g) && AllLed(g)
    ensures AllLed(Step(g, a))
  {
    var h := Step(g, a);
    forall k | k in h.inflight ensures exists c :: Leads(h, c, k) {
      if k in g.inflight {
        var c :| Leads(g, c, k);
        StepKeepsLeader(g, a, c, k);
      } else {
        assert Leads(h, a.call, k);
      }
    }
  }

  lemma {:induction false} RunLed<K(!new), O(!new)>(actions: seq<Action<K, O>>)
    ensures AllLed(Run(actions))
  {
    if actions == [] {
    } else {
      var front := actions[..|actions| - 1];
      RunLed(front);
      RunSound(front);
      StepKeepsLed(Run(front), actions[|actions| - 1]);
    }
  }

  lemma FollowerCanEnd<K(!new), O(!new)>(g: Group<K, O>, call: nat)
    requires Sound(g) && AllLed(g) && call in g.calls && g.calls[call].Following?
    ensures
      || (exists c :: Leads(g, c, g.calls[call].key) && g.calls[c].flight == g.calls[call].flight)
      || (Enabled(g, Deliver(call))
          && Step(g, Deliver(call)).calls[call].end == Got(g.resolved[g.calls[call].flight].outcome))
  {
    assert CallLive(g, call);
    if g.calls[call].flight !in g.resolved {
      var c :| Leads(g, c, g.calls[call].key);
    }
  }

  /** No follower waits in vain: its flight is led by a call that still runs, or is resolved, so that the
      outcome can be delivered at once. */
  lemma FollowersCanEnd<K(!new), O(!new)>(actions: seq<Action<K, O>>, call: nat)
    requires call in Run(actions).calls && Run(actions).calls[call].Following?
    ensures var g := Run(actions);
      || (exists c :: Leads(g, c, g.calls[call].key) && g.calls[c].flight == g.calls[call].flight)
      || (Enabled(g, Deliver(call))
          && Step(g, Deliver(call)).calls[call].end == Got(g.resolved[g.calls[call].flight].outcome))
  {
    RunSound(actions);
    RunLed(actions);
    FollowerCanEnd(Run(actions), call);
  }
}
