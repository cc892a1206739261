/** A scheduler run among the other users of the providers' gates (scheduler/fetch.py, lines 41-58, over
    concurrency.py, lines 16-97): its leases are slots of gates on which other tasks act at any time. */
module SchedulerLeases {
  import opened Folds
  import Capacity
  import FetchScheduler

  type Provider = FetchScheduler.Provider

  /** The run takes or gives back a lease, or another task acts on a gate. */
  datatype Action = Own(event: FetchScheduler.LeaseEvent) | Other(provider: Provider, action: Capacity.Action)

  /** `taken` counts the run's leases so far; each is named `first` plus its number, on its gate. */
  datatype Gates = Gates(systems: map<Provider, Capacity.System>, first: nat, taken: nat)

  function Acted(g: Gates, provider: Provider, action: Capacity.Action): Gates
  {
    if provider !in g.systems then g
    else g.(systems := g.systems[provider := Capacity.Step(g.systems[provider], action)])
  }

  function Step(g: Gates, a: Action): Gates
  {
    match a
    case Own(Taken(provider)) => Acted(g, provider, Capacity.TryLease(g.first + g.taken)).(taken := g.taken + 1)
    case Own(GivenBack(provider)) =>
      if g.taken == 0 then g else Acted(g, provider, Capacity.Release(g.first + g.taken - 1))
    case Other(provider, action) => Acted(g, provider, action)
  }

  /** What the run itself does in an interleaving. */
  function Events(actions: seq<Action>): seq<FetchScheduler.LeaseEvent>
  {
    if actions == [] then []
    else
      var front, last := Events(actions[..|actions| - 1]), actions[|actions| - 1];
      if last.Own? then front + [last.event] else front
  }

  /** Other tasks name their own leases. */
  ghost predicate Foreign(actions: seq<Action>, first: nat)
  {
    forall i :: 0 <= i < |actions| && actions[i].Other? ==> actions[i].action.id < first
  }

  ghost predicate HoldsSlot(g: Gates, provider: Provider, id: nat)
  {
    provider in g.systems && id in Capacity.HeldIds(g.systems[provider])
  }

  /** Each lease is given back before the next is taken. */
  ghost predicate Alternates(events: seq<FetchScheduler.LeaseEvent>)
  {
    forall k :: 0 <= k < |events| ==> InTurn(events, k)
  }

  predicate InTurn(events: seq<FetchScheduler.LeaseEvent>, k: nat)
    requires k < |events|
  {
    if k % 2 == 0 then events[k].Taken? else events[k] == FetchScheduler.GivenBack(events[k - 1].provider)
  }

  ghost predicate Follows(front: seq<FetchScheduler.LeaseEvent>, last: FetchScheduler.LeaseEvent)
  {
    if |front| % 2 == 0 then last.Taken? else last == FetchScheduler.GivenBack(front[|front| - 1].provider)
  }

  lemma AlternatesNext(front: seq<FetchScheduler.LeaseEvent>, last: FetchScheduler.LeaseEvent)
    ensures Alternates(front + [last]) <==> Alternates(front) && Follows(front, last)
  {
    var events := front + [last];
    forall k: nat | k < |front| ensures InTurn(events, k) <==> InTurn(front, k) {}
    assert InTurn(events, |front|) <==> Follows(front, last);
  }

  lemma {:induction false} BalancedAlternates(order: seq<Provider>)
    ensures Alternates(FetchScheduler.Balanced(order)) && |FetchScheduler.Balanced(order)| == 2 * |order|
  {
    if order == [] {
    } else {
      var front, provider := order[..|order| - 1], order[|order| - 1];
      BalancedAlternates(front);
      FetchScheduler.BalancedNext(front, provider);
      assert front + [provider] == order;
      LeaseAlternates(FetchScheduler.Balanced(front), provider);
    }
  }

  lemma LeaseAlternates(events: seq<FetchScheduler.LeaseEvent>, provider: Provider)
    requires Alternates(events) && |events| % 2 == 0
    ensures Alternates(events + [FetchScheduler.Taken(provider)] + [FetchScheduler.GivenBack(provider)])
  {
    var taken := events + [FetchScheduler.Taken(provider)];
    AlternatesNext(events, FetchScheduler.Taken(provider));
    assert |taken| % 2 == 1 && taken[|taken| - 1] == FetchScheduler.Taken(provider);
    AlternatesNext(taken, FetchScheduler.GivenBack(provider));
  }

  lemma PrefixAlternates(events: seq<FetchScheduler.LeaseEvent>, prefix: seq<FetchScheduler.LeaseEvent>)
    requires Alternates(events) && prefix <= events
    ensures Alternates(prefix)
  {
    forall k: nat | k < |prefix| ensures InTurn(prefix, k) { assert InTurn(events, k); }
  }

  /** The run holds no slot but that of the lease it took last, while it has not given it back. */
  ghost predicate OnlyLast(g: Gates, events: seq<FetchScheduler.LeaseEvent>)
  {
    && g.taken == (|events| + 1) / 2
    && forall provider: Provider, id: nat :: HoldsSlot(g, provider, id) && id >= g.first ==>
         |events| % 2 == 1 && events[|events| - 1].provider == provider && id == g.first + g.taken - 1
  }

  lemma OthersUntouched(s: Capacity.System, a: Capacity.Action, id: nat)
    requires id != a.id
    ensures id in Capacity.HeldIds(Capacity.Step(s, a)) <==> id in Capacity.HeldIds(s)
  {
  }

  lemma ReleasedIsFree(s: Capacity.System, id: nat)
    ensures id !in Capacity.HeldIds(Capacity.Step(s, Capacity.Release(id)))
  {
  }

  lemma ActedElsewhere(g: Gates, provider: Provider, action: Capacity.Action, p: Provider, id: nat)
    requires p != provider || id != action.id
    ensures HoldsSlot(Acted(g, provider, action), p, id) <==> HoldsSlot(g, p, id)
  {
    if p == provider && p in g.systems { OthersUntouched(g.systems[p], action, id); }
  }

  lemma TakenKeepsLast(g: Gates, events: seq<FetchScheduler.LeaseEvent>, provider: Provider)
    requires OnlyLast(g, events) && |events| % 2 == 0
    ensures OnlyLast(Step(g, Own(FetchScheduler.Taken(provider))), events + [FetchScheduler.Taken(provider)])
  {
    var action := Capacity.TryLease(g.first + g.taken);
    var after := Step(g, Own(FetchScheduler.Taken(provider)));
    forall p: Provider, id: nat | HoldsSlot(after, p, id) && id >= g.first ensures p == provider && id == action.id {
      assert HoldsSlot(Acted(g, provider, action), p, id);
      if p != provider || id != action.id { ActedElsewhere(g, provider, action, p, id); }
    }
  }

  lemma GivenBackKeepsLast(g: Gates, events: seq<FetchScheduler.LeaseEvent>, provider: Provider)
    requires OnlyLast(g, events) && |events| % 2 == 1 && events[|events| - 1].provider == provider
    ensures OnlyLast(Step(g, Own(FetchScheduler.GivenBack(provider))), events + [FetchScheduler.GivenBack(provider)])
  {
    var action := Capacity.Release(g.first + g.taken - 1);
    forall p: Provider, id: nat | id >= g.first ensures !HoldsSlot(Acted(g, provider, action), p, id) {
      if p != provider || id != action.id {
        ActedElsewhere(g, provider, action, p, id);
      } else if p in g.systems {
        ReleasedIsFree(g.systems[p], id);
      }
    }
  }

  lemma OtherKeepsLast(g: Gates, events: seq<FetchScheduler.LeaseEvent>, provider: Provider, action: Capacity.Action)
    requires OnlyLast(g, events) && action.id < g.first
    ensures OnlyLast(Step(g, Other(provider, action)), events)
  {
    forall p: Provider, id: nat | HoldsSlot(Acted(g, provider, action), p, id) && id >= g.first
      ensures HoldsSlot(g, p, id)
    {
      ActedElsewhere(g, provider, action, p, id);
    }
  }

  lemma StepKeepsFirst(g: Gates, a: Action)
    ensures Step(g, a).first == g.first && Step(g, a).systems.Keys == g.systems.Keys
  {
  }

  ghost predicate Idle(g: Gates)
  {
    g.taken == 0 && forall provider: Provider, id: nat :: HoldsSlot(g, provider, id) ==> id < g.first
  }

  lemma {:induction false} RunOnlyLast(g: Gates, actions: seq<Action>)
    requires Idle(g) && Foreign(actions, g.first) && Alternates(Events(actions))
    ensures OnlyLast(Fold(Step, g, actions), Events(actions)) && Fold(Step, g, actions).first == g.first
  {
    if actions == [] {
    } else {
      var front, last := actions[..|actions| - 1], actions[|actions| - 1];
      var before, events := Fold(Step, g, front), Events(front);
      EventsNext(actions);
      if last.Own? { AlternatesNext(events, last.event); }
      RunOnlyLast(g, front);
      StepKeepsFirst(before, last);
      match last
      case Own(Taken(provider)) => TakenKeepsLast(before, events, provider);
      case Own(GivenBack(provider)) => GivenBackKeepsLast(before, events, provider);
      case Other(provider, action) => OtherKeepsLast(before, events, provider, action);
    }
  }

  lemma EventsNext(actions: seq<Action>)
    requires actions != []
    ensures var front, last := Events(actions[..|actions| - 1]), actions[|actions| - 1];
      Events(actions) == if last.Own? then front + [last.event] else front
  {
  }

  lemma AtMostOneSlot(g: Gates, events: seq<FetchScheduler.LeaseEvent>, p: Provider, q: Provider, i: nat, j: nat)
    requires OnlyLast(g, events) && HoldsSlot(g, p, i) && HoldsSlot(g, q, j) && i >= g.first && j >= g.first
    ensures p == q && i == j && |events| % 2 == 1
  {
  }

  lemma PartAlternates(order: seq<Provider>, events: seq<FetchScheduler.LeaseEvent>)
    requires events <= FetchScheduler.Balanced(order)
    ensures Alternates(events)
    ensures |events| % 2 == 1 ==> events != FetchScheduler.Balanced(order)
  {
    BalancedAlternates(order);
    PrefixAlternates(FetchScheduler.Balanced(order), events);
  }

  /** Whatever other tasks do to the gates meanwhile, a scheduler run never holds two slots, and once it
      is over, however it ended, it holds no slot of any gate. `FetchScheduler.FetchUntilAccepted` gives
      `Balanced(order)` at every exit; before, the run has done a part of it. */
  lemma RunHoldsOneSlot(g: Gates, actions: seq<Action>, order: seq<Provider>, p: Provider, q: Provider, i: nat, j: nat)
    requires Idle(g) && Foreign(actions, g.first) && Events(actions) <= FetchScheduler.Balanced(order)
    requires HoldsSlot(Fold(Step, g, actions), p, i) && HoldsSlot(Fold(Step, g, actions), q, j) && i >= g.first
        && j >= g.first
    ensures p == q && i == j && Events(actions) != FetchScheduler.Balanced(order)
  {
    PartAlternates(order, Events(actions));
    RunOnlyLast(g, actions);
    AtMostOneSlot(Fold(Step, g, actions), Events(actions), p, q, i, j);
  }

  lemma FinishedRunHoldsNone(g: Gates, actions: seq<Action>, order: seq<Provider>, p: Provider, id: nat)
    requires Idle(g) && Foreign(actions, g.first) && Events(actions) == FetchScheduler.Balanced(order)
    ensures HoldsSlot(Fold(Step, g, actions), p, id) ==> id < g.first
  {
    if HoldsSlot(Fold(Step, g, actions), p, id) && id >= g.first { RunHoldsOneSlot(g, actions, order, p, p, id, id); }
  }

  // ----- exactly when a slot is held -----

  ghost predicate Sound(g: Gates)
  {
    forall p: Provider :: p in g.systems ==> Capacity.Conserved(g.systems[p])
  }

  /** The run takes the slot, or another task does; either way the gate grants it only when it has room. */
  ghost predicate Takes(g: Gates, a: Action, p: Provider, id: nat)
  {
    p in g.systems
    && match a
       case Own(Taken(provider)) =>
         provider == p && Capacity.Grants(id)(g.systems[p], Capacity.TryLease(g.first + g.taken))
       case Other(provider, action) => provider == p && Capacity.Grants(id)(g.systems[p], action)
       case _ => false
  }

  /** The run gives back the lease it took last, or another task its own. */
  predicate Frees(g: Gates, a: Action, p: Provider, id: nat)
  {
    match a
    case Own(GivenBack(provider)) => provider == p && g.taken > 0 && id == g.first + g.taken - 1
    case Other(provider, action) => provider == p && action == Capacity.Release(id)
    case _ => false
  }

  lemma StepKeepsSound(g: Gates, a: Action)
    requires Sound(g)
    ensures Sound(Step(g, a))
  {
    forall p: Provider, action: Capacity.Action | p in g.systems
      ensures Capacity.Conserved(Capacity.Step(g.systems[p], action))
    {
      Capacity.StepInOrder(g.systems[p], action);
      Capacity.StepCounted(g.systems[p], action);
    }
  }

  /** In every interleaving a slot of a gate is held exactly from the step that takes it to the step that
      frees it. */
  lemma SlotIff(g: Gates, a: Action, p: Provider, id: nat)
    requires Sound(g)
    ensures HoldsSlot(Step(g, a), p, id) <==> (HoldsSlot(g, p, id) && !Frees(g, a, p, id)) || Takes(g, a, p, id)
  {
    if p in g.systems {
      match a
      case Own(Taken(_)) => Capacity.StepHeldIff(g.systems[p], Capacity.TryLease(g.first + g.taken), id);
      case Own(GivenBack(_)) =>
        if g.taken > 0 { Capacity.StepHeldIff(g.systems[p], Capacity.Release(g.first + g.taken - 1), id); }
      case Other(_, action) => Capacity.StepHeldIff(g.systems[p], action, id);
    }
  }
}
