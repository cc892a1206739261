/** `url_fetch` as its callers see it (orchestrators/fetch.py, lines 36-62): concurrent requests for one
    URL and focus share one run of the serialized workflow. A run of the workflow is the task of the
    call that leads the flight; when it is done, its flight is resolved in the same step. */
module FetchRequests {
  import opened Folds
  import opened Options
  import opened UrlStore
  import Protocol = FetchProtocol
  import Flights = Singleflight

  type Key = (Url, Protocol.Focus)

  datatype Daemon = Daemon(group: Flights.Group<Key, Protocol.Result>, world: Protocol.World)

  datatype Action =
    | Fetch(call: nat, url: Url, focus: Protocol.Focus)
    | Proceed(action: Protocol.Action)
    | Deliver(call: nat)
    | CancelFollower(call: nat)

  /** The flight of a leader whose workflow is done ends with the workflow's result. */
  function Resolve(group: Flights.Group<Key, Protocol.Result>, world: Protocol.World,
                   task: nat): Flights.Group<Key, Protocol.Result>
  {
    if task in world.bodies && world.bodies[task].pc.Done? then
      Flights.Step(group, Flights.Finish(task, world.bodies[task].pc.result))
    else group
  }

  /** One atomic step; an action that is not possible in `d` leaves it unchanged. */
  function Step(d: Daemon, a: Action): Daemon
  {
    match a
    case Fetch(call, url, focus) =>
      if call in d.group.calls then d
      else
        var group := Flights.Step(d.group, Flights.Do(call, (url, focus)));
        Daemon(group,
          if group.calls[call].Leading? then Protocol.Step(d.world, Protocol.Call(call, url, focus)) else d.world)
    case Proceed(action) =>
      if action.Call? then d
      else
        var world := Protocol.Step(d.world, action);
        Daemon(if action.AdmitUrl? then d.group else Resolve(d.group, world, action.task), world)
    case Deliver(call) => d.(group := Flights.Step(d.group, Flights.Deliver(call)))
    case CancelFollower(call) => d.(group := Flights.Step(d.group, Flights.CancelFollower(call)))
  }

  /** Call `c` leads a flight exactly while its workflow runs. */
  ghost predicate LeaderRuns(calls: map<nat, Flights.Call<Key, Protocol.Result>>, bodies: map<nat, Protocol.Body>,
                             c: nat)
  {
    && (c in bodies ==>
        c in calls && calls[c].key == (bodies[c].url, bodies[c].focus) && (bodies[c].pc.Done? <==> !calls[c].Leading?))
    && (c in calls && calls[c].Leading? ==> c in bodies)
  }

  ghost predicate LeadersRun(d: Daemon)
  {
    forall c :: LeaderRuns(d.group.calls, d.world.bodies, c)
  }

  /** A resolved flight carries what its leader's workflow was done with. */
  ghost predicate Carried(d: Daemon)
  {
    forall f :: f in d.group.resolved ==>
      d.group.resolved[f].leader in d.world.bodies
        && d.world.bodies[d.group.resolved[f].leader].pc == Protocol.Done(d.group.resolved[f].outcome)
  }

  /** Calls that share a flight have the same key. */
  ghost predicate FlightHasKey(g: Flights.Group<Key, Protocol.Result>)
  {
    && (forall b, c :: b in g.calls && c in g.calls && g.calls[b].flight == g.calls[c].flight ==>
        g.calls[b].key == g.calls[c].key)
    && (forall c :: c in g.calls && g.calls[c].flight !in g.resolved ==>
        g.calls[c].key in g.inflight && g.inflight[g.calls[c].key] == g.calls[c].flight)
  }

  ghost predicate Sound(d: Daemon)
  {
    && Flights.Sound(d.group) && Flights.AllLed(d.group) && Protocol.Sound(d.world)
    && LeadersRun(d) && Carried(d) && FlightHasKey(d.group)
  }

  lemma JoinsItsKey(g: Flights.Group<Key, Protocol.Result>, call: nat, key: Key, c: nat)
    requires Flights.LedOnce(g) && Flights.JoinedLive(g) && FlightHasKey(g) && call !in g.calls && c in g.calls
    ensures var h := Flights.Step(g, Flights.Do(call, key));
      && h.calls == g.calls[call := h.calls[call]] && h.resolved == g.resolved
      && h.calls[call].key == key && key in h.inflight && h.inflight[key] == h.calls[call].flight
      && (g.calls[c].flight == h.calls[call].flight ==> g.calls[c].key == key)
      && (g.calls[c].flight !in g.resolved ==>
          g.calls[c].key in h.inflight && h.inflight[g.calls[c].key] == g.calls[c].flight)
  {
    assert Flights.CallLive(g, c);
  }

  lemma DoKeepsFlightHasKey(g: Flights.Group<Key, Protocol.Result>, call: nat, key: Key)
    requires Flights.LedOnce(g) && Flights.JoinedLive(g) && FlightHasKey(g) && call !in g.calls
    ensures FlightHasKey(Flights.Step(g, Flights.Do(call, key)))
  {
    forall c | c in g.calls ensures var h := Flights.Step(g, Flights.Do(call, key));
      && (g.calls[c].flight == h.calls[call].flight ==> g.calls[c].key == key)
      && (g.calls[c].flight !in g.resolved ==>
          g.calls[c].key in h.inflight && h.inflight[g.calls[c].key] == g.calls[c].flight)
    {
      JoinsItsKey(g, call, key, c);
    }
  }

  lemma FinishKeepsFlightHasKey(g: Flights.Group<Key, Protocol.Result>, call: nat, outcome: Protocol.Result)
    requires Flights.Sound(g) && FlightHasKey(g) && call in g.calls && g.calls[call].Leading?
    ensures FlightHasKey(Flights.Step(g, Flights.Finish(call, outcome)))
  {
    Flights.FinishKeepsLedOnce(g, Flights.Finish(call, outcome));
    var h := Flights.Step(g, Flights.Finish(call, outcome));
    forall c | c in h.calls
      ensures c in g.calls && h.calls[c].flight == g.calls[c].flight && h.calls[c].key == g.calls[c].key {}
    forall c | c in h.calls && h.calls[c].flight !in h.resolved ensures h.calls[c].key != g.calls[call].key {
      assert g.inflight[g.calls[call].key] == g.calls[call].flight;
    }
  }

  lemma EndKeepsFlightHasKey(g: Flights.Group<Key, Protocol.Result>, a: Flights.Action<Key, Protocol.Result>)
    requires FlightHasKey(g) && (a.Deliver? || a.CancelFollower?)
    ensures FlightHasKey(Flights.Step(g, a))
  {
    var h := Flights.Step(g, a);
    forall c | c in h.calls
      ensures c in g.calls && h.calls[c].flight == g.calls[c].flight && h.calls[c].key == g.calls[c].key {}
  }

  /** Only a call adds a task. */
  lemma ProceedAddsNoTask(w: Protocol.World, a: Protocol.Action)
    requires !a.Call?
    ensures Protocol.Step(w, a).bodies.Keys == w.bodies.Keys
  {
  }

  lemma FetchKeepsLeaders(d: Daemon, call: nat, url: Url, focus: Protocol.Focus)
    requires LeadersRun(d) && call !in d.group.calls
    ensures LeadersRun(Step(d, Fetch(call, url, focus)))
  {
    var e := Step(d, Fetch(call, url, focus));
    assert LeaderRuns(d.group.calls, d.world.bodies, call);
    forall c ensures LeaderRuns(e.group.calls, e.world.bodies, c) {
      assert LeaderRuns(d.group.calls, d.world.bodies, c);
    }
  }

  lemma FetchKeepsCarried(d: Daemon, call: nat, url: Url, focus: Protocol.Focus)
    requires Carried(d) && call !in d.group.calls
    ensures Carried(Step(d, Fetch(call, url, focus)))
  {
  }

  lemma FetchKeepsSound(d: Daemon, call: nat, url: Url, focus: Protocol.Focus)
    requires Sound(d) && call !in d.group.calls
    ensures Sound(Step(d, Fetch(call, url, focus)))
  {
    Flights.StepKeepsSound(d.group, Flights.Do(call, (url, focus)));
    Flights.StepKeepsLed(d.group, Flights.Do(call, (url, focus)));
    DoKeepsFlightHasKey(d.group, call, (url, focus));
    Protocol.StepKeepsSound(d.world, Protocol.Call(call, url, focus));
    FetchKeepsLeaders(d, call, url, focus);
    FetchKeepsCarried(d, call, url, focus);
  }

  lemma ProceedKeepsLeader(d: Daemon, a: Protocol.Action, c: nat)
    requires LeadersRun(d) && !a.Call?
    ensures var e := Step(d, Proceed(a)); LeaderRuns(e.group.calls, e.world.bodies, c)
  {
    assert LeaderRuns(d.group.calls, d.world.bodies, c);
    ProceedAddsNoTask(d.world, a);
    if c in d.world.bodies { Protocol.StepFrame(d.world, a, c); }
    if !a.AdmitUrl? { assert LeaderRuns(d.group.calls, d.world.bodies, a.task); }
  }

  lemma ProceedKeepsCarried(d: Daemon, a: Protocol.Action)
    requires LeadersRun(d) && Carried(d) && !a.Call?
    ensures Carried(Step(d, Proceed(a)))
  {
    var e := Step(d, Proceed(a));
    forall f | f in e.group.resolved
      ensures e.group.resolved[f].leader in e.world.bodies
      ensures e.world.bodies[e.group.resolved[f].leader].pc == Protocol.Done(e.group.resolved[f].outcome)
    {
      if f in d.group.resolved && e.group.resolved[f] == d.group.resolved[f] {
        Protocol.StepFrame(d.world, a, d.group.resolved[f].leader);
      }
    }
  }

  lemma ResolveKeepsGroup(group: Flights.Group<Key, Protocol.Result>, world: Protocol.World, task: nat)
    requires Flights.Sound(group) && Flights.AllLed(group) && FlightHasKey(group)
    ensures Flights.Sound(Resolve(group, world, task)) && Flights.AllLed(Resolve(group, world, task))
    ensures FlightHasKey(Resolve(group, world, task))
  {
    if task in world.bodies && world.bodies[task].pc.Done? {
      var outcome := world.bodies[task].pc.result;
      Flights.StepKeepsSound(group, Flights.Finish(task, outcome));
      Flights.StepKeepsLed(group, Flights.Finish(task, outcome));
      if task in group.calls && group.calls[task].Leading? { FinishKeepsFlightHasKey(group, task, outcome); }
    }
  }

  lemma ProceedKeepsSound(d: Daemon, a: Protocol.Action)
    requires Sound(d) && !a.Call?
    ensures Sound(Step(d, Proceed(a)))
  {
    Protocol.StepKeepsSound(d.world, a);
    if !a.AdmitUrl? { ResolveKeepsGroup(d.group, Protocol.Step(d.world, a), a.task); }
    ProceedKeepsCarried(d, a);
    forall c ensures var e := Step(d, Proceed(a)); LeaderRuns(e.group.calls, e.world.bodies, c) {
      ProceedKeepsLeader(d, a, c);
    }
  }

  lemma EndKeepsLeaders(d: Daemon, a: Action)
    requires LeadersRun(d) && (a.Deliver? || a.CancelFollower?)
    ensures LeadersRun(Step(d, a))
  {
    var e := Step(d, a);
    forall c ensures LeaderRuns(e.group.calls, e.world.bodies, c) {
      assert LeaderRuns(d.group.calls, d.world.bodies, c);
    }
  }

  lemma EndKeepsSound(d: Daemon, a: Action)
    requires Sound(d) && (a.Deliver? || a.CancelFollower?)
    ensures Sound(Step(d, a))
  {
    var inner := if a.Deliver? then Flights.Deliver(a.call) else Flights.CancelFollower(a.call);
    Flights.StepKeepsSound(d.group, inner);
    Flights.StepKeepsLed(d.group, inner);
    EndKeepsFlightHasKey(d.group, inner);
    EndKeepsLeaders(d, a);
  }

  lemma StepKeepsSound(d: Daemon, a: Action)
    requires Sound(d)
    ensures Sound(Step(d, a))
  {
    match a
    case Fetch(call, url, focus) => if call !in d.group.calls { FetchKeepsSound(d, call, url, focus); }
    case Proceed(action) => if !action.Call? { ProceedKeepsSound(d, action); }
    case _ => EndKeepsSound(d, a);
  }

  ghost function Run(providers: bool, actions: seq<Action>): Daemon
  {
    Fold(Step, Daemon(Flights.EmptyGroup(), Protocol.Initial(providers)), actions)
  }

  lemma RunSound(providers: bool, actions: seq<Action>)
    ensures Sound(Run(providers, actions))
  {
    var inv := (d: Daemon, done: seq<Action>) => Sound(d);
    forall d, front, a | inv(d, front) ensures inv(Step(d, a), front + [a]) {
      StepKeepsSound(d, a);
    }
    FoldKeeps(Step, Daemon(Flights.EmptyGroup(), Protocol.Initial(providers)), actions, inv);
  }

  ghost predicate Returned(d: Daemon, call: nat, key: Key, result: Protocol.Result)
  {
    call in d.group.calls && d.group.calls[call].key == key && d.group.calls[call].Ended?
      && d.group.calls[call].end == Flights.Got(result)
  }

  /** Whatever a request got, leader or follower, one run of the workflow for its own URL and focus
      was done with it, and that run was not done when the request began. */
  lemma RequestGotItsWorkflow(providers: bool, actions: seq<Action>, call: nat, key: Key, result: Protocol.Result)
    requires Returned(Run(providers, actions), call, key, result)
    ensures var d := Run(providers, actions);
      && d.group.calls[call].flight in d.group.resolved
      && var flight := d.group.resolved[d.group.calls[call].flight];
      && flight.leader in d.world.bodies
      && (d.world.bodies[flight.leader].url, d.world.bodies[flight.leader].focus) == key
      && d.world.bodies[flight.leader].pc == Protocol.Done(result)
      && d.group.calls[call].began <= flight.at
  {
    var d := Run(providers, actions);
    RunSound(providers, actions);
    assert Flights.CallLive(d.group, call);
    var leader := d.group.resolved[d.group.calls[call].flight].leader;
    assert LeaderRuns(d.group.calls, d.world.bodies, leader);
  }

  /** Every text a request gets is the URL's one stored content, or a summary of it, after that content
      passed the safety check in the section that produced the text. */
  lemma RequestTextsPassedSafety(providers: bool, actions: seq<Action>, call: nat, key: Key, result: Protocol.Result)
    requires Returned(Run(providers, actions), call, key, result)
    ensures !result.Impossible?
    ensures result.Content? || result.Summary? ==>
      var d := Run(providers, actions);
      && key.0 in d.world.records
      && (if result.Content? then result.text else result.source) == d.world.records[key.0].content != ""
      && (result.Content? <==> key.1.None?)
      && exists leader :: leader in d.world.bodies && d.world.bodies[leader].pc == Protocol.Done(result)
           && d.world.bodies[leader].passed == Some(d.world.records[key.0].content)
  {
    var d := Run(providers, actions);
    RequestGotItsWorkflow(providers, actions, call, key, result);
    RunSound(providers, actions);
    var b := d.world.bodies[d.group.resolved[d.group.calls[call].flight].leader];
    assert Protocol.RecordFits(b, d.world.records) && Protocol.TaskFits(b);
  }

  /** Any two requests for a URL without a focus that get content get the same non-empty text. */
  lemma UnfocusedRequestsAgree(providers: bool, actions: seq<Action>, c: nat, d: nat, url: Url, one: Protocol.Result,
                               other: Protocol.Result)
    requires Returned(Run(providers, actions), c, (url, None), one) && one.Content?
    requires Returned(Run(providers, actions), d, (url, None), other) && other.Content?
    ensures one == other && one.text != ""
  {
    RequestTextsPassedSafety(providers, actions, c, (url, None), one);
    RequestTextsPassedSafety(providers, actions, d, (url, None), other);
  }

  // ----- the two parts of a run -----

  /** What an action does to the workflows: the leader of a new flight calls one, and every other step of a
      workflow is its own. */
  function WorldActions(d: Daemon, a: Action): seq<Protocol.Action>
  {
    match a
    case Fetch(call, url, focus) =>
      if call in d.group.calls || Flights.InFlight(d.group, (url, focus)) then []
      else [Protocol.Call(call, url, focus)]
    case Proceed(action) => if action.Call? then [] else [action]
    case _ => []
  }

  ghost function WorldHistory(providers: bool, actions: seq<Action>): seq<Protocol.Action>
  {
    if actions == [] then []
    else
      var front, last := actions[..|actions| - 1], actions[|actions| - 1];
      WorldHistory(providers, front) + WorldActions(Run(providers, front), last)
  }

  lemma StepWorld(d: Daemon, a: Action)
    ensures Step(d, a).world == Fold(Protocol.Step, d.world, WorldActions(d, a))
  {
    match a
    case Fetch(call, url, focus) => FoldOne(Protocol.Step, d.world, Protocol.Call(call, url, focus));
    case Proceed(action) => FoldOne(Protocol.Step, d.world, action);
    case _ =>
  }

  /** The workflows of the requests run as the protocol says, so everything proved of its runs holds of
      theirs. */
  lemma {:induction false} WorkflowsFollowProtocol(providers: bool, actions: seq<Action>)
    ensures Run(providers, actions).world == Protocol.Run(providers, WorldHistory(providers, actions))
  {
    if actions == [] {
    } else {
      var front, last := actions[..|actions| - 1], actions[|actions| - 1];
      WorkflowsFollowProtocol(providers, front);
      StepWorld(Run(providers, front), last);
      FoldConcat(Protocol.Step, Protocol.Initial(providers), WorldHistory(providers, front),
        WorldActions(Run(providers, front), last));
    }
  }

  /** What an action does to the flights: the flight of a leader whose workflow is done ends with its
      result. */
  function GroupActions(d: Daemon, a: Action): seq<Flights.Action<Key, Protocol.Result>>
  {
    match a
    case Fetch(call, url, focus) => [Flights.Do(call, (url, focus))]
    case Proceed(action) =>
      if action.Call? || action.AdmitUrl? then []
      else
        var bodies := Protocol.Step(d.world, action).bodies;
        if action.task in bodies && bodies[action.task].pc.Done? then
          [Flights.Finish(action.task, bodies[action.task].pc.result)]
        else []
    case Deliver(call) => [Flights.Deliver(call)]
    case CancelFollower(call) => [Flights.CancelFollower(call)]
  }

  ghost function GroupHistory(providers: bool, actions: seq<Action>): seq<Flights.Action<Key, Protocol.Result>>
  {
    if actions == [] then []
    else
      var front, last := actions[..|actions| - 1], actions[|actions| - 1];
      GroupHistory(providers, front) + GroupActions(Run(providers, front), last)
  }

  lemma StepGroup(d: Daemon, a: Action)
    ensures Step(d, a).group == Fold(Flights.Step, d.group, GroupActions(d, a))
  {
    match a
    case Fetch(call, url, focus) => FoldOne(Flights.Step, d.group, Flights.Do(call, (url, focus)));
    case Proceed(action) =>
      if !action.Call? && !action.AdmitUrl? {
        var bodies := Protocol.Step(d.world, action).bodies;
        if action.task in bodies && bodies[action.task].pc.Done? {
          FoldOne(Flights.Step, d.group, Flights.Finish(action.task, bodies[action.task].pc.result));
        }
      }
    case Deliver(call) => FoldOne(Flights.Step, d.group, Flights.Deliver(call));
    case CancelFollower(call) => FoldOne(Flights.Step, d.group, Flights.CancelFollower(call));
  }

  /** The requests share flights as a singleflight group does. */
  lemma {:induction false} RequestsFollowFlights(providers: bool, actions: seq<Action>)
    ensures Run(providers, actions).group == Flights.Run(GroupHistory(providers, actions))
  {
    if actions == [] {
    } else {
      var front, last := actions[..|actions| - 1], actions[|actions| - 1];
      RequestsFollowFlights(providers, front);
      StepGroup(Run(providers, front), last);
      FoldConcat(Flights.Step, Flights.EmptyGroup(), GroupHistory(providers, front),
        GroupActions(Run(providers, front), last));
    }
  }

  /** No request waits in vain: the workflow it shares still runs, for its own URL and focus, or its result can
      be delivered at once. */
  lemma RequestsCanEnd(providers: bool, actions: seq<Action>, call: nat, key: Key)
    requires var d := Run(providers, actions);
      call in d.group.calls && d.group.calls[call].Following? && d.group.calls[call].key == key
    ensures var d := Run(providers, actions);
      || (exists leader :: Shares(d, call, leader, key))
      || (exists result :: Returned(Step(d, Deliver(call)), call, key, result))
  {
    var d := Run(providers, actions);
    RunSound(providers, actions);
    Flights.FollowerCanEnd(d.group, call);
    if leader :| Flights.Leads(d.group, leader, key) && d.group.calls[leader].flight == d.group.calls[call].flight {
      LeaderShares(d, call, leader, key);
    } else {
      DeliveredAtOnce(d, call, key);
    }
  }

  /** The workflow of `leader`, for the same URL and focus, still runs, and `call` waits for its result. */
  ghost predicate Shares(d: Daemon, call: nat, leader: nat, key: Key)
  {
    && Protocol.CalledWith(d.world, leader, key.0, key.1) && !d.world.bodies[leader].pc.Done?
    && call in d.group.calls && leader in d.group.calls && d.group.calls[leader].flight == d.group.calls[call].flight
  }

  lemma LeaderShares(d: Daemon, call: nat, leader: nat, key: Key)
    requires LeadersRun(d) && Flights.Leads(d.group, leader, key)
    requires call in d.group.calls && d.group.calls[leader].flight == d.group.calls[call].flight
    ensures Shares(d, call, leader, key)
  {
    assert LeaderRuns(d.group.calls, d.world.bodies, leader);
  }

  lemma DeliveredAtOnce(d: Daemon, call: nat, key: Key)
    requires Flights.Enabled(d.group, Flights.Deliver(call)) && d.group.calls[call].key == key
    ensures exists result :: Returned(Step(d, Deliver(call)), call, key, result)
  {
    assert Returned(Step(d, Deliver(call)), call, key, d.group.resolved[d.group.calls[call].flight].outcome);
  }
}
