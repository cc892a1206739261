/** The daemon's shutdown protocol (daemon.py, lines 99-107, 319-437 and 508-564). The bodies under the
    state lock await nothing, and a workflow looks its runtime up before its first await. One action is
    everything a task does between two awaits that can suspend it. */
module Shutdown {
  import opened Folds
  import opened Options

  // ----- the shared state -----

  /** `coordinator` is whether the shutdown task was created; `runtime` and `server` whether the daemon
      still has them; `ready` whether shutdown requests may be answered. */
  datatype Shared = Shared(shuttingDown: bool, coordinator: bool, active: set<nat>, runtime: bool, server: bool,
      ready: bool)

  const RUNNING := Shared(false, false, {}, true, true, false)

  class ForegroundDaemon {
    var shuttingDown: bool
    var shutdownTask: bool
    var activeWorkflows: set<nat>
    var runtime: bool
    var server: bool
    var shutdownResponseReady: bool

    function State(): Shared
      reads this
    {
      Shared(shuttingDown, shutdownTask, activeWorkflows, runtime, server, shutdownResponseReady)
    }

    /** A daemon that has started: its runtime is built and its socket is served. */
    constructor ()
      ensures State() == RUNNING
    {
      shuttingDown, shutdownTask, activeWorkflows := false, false, {};
      runtime, server, shutdownResponseReady := true, true, false;
    }

    method BeginShutdown() returns (created: bool)
      modifies this
      ensures created <==> !old(shutdownTask)
      ensures State() == Begun(old(State()))
    {
      created := !shutdownTask;
      if !shutdownTask {
        shuttingDown := true;
        shutdownTask := true;
      }
    }

    /** A workflow is admitted unless shutdown has begun. */
    method Admit(task: nat) returns (admitted: bool)
      modifies this
      ensures admitted <==> !old(shuttingDown)
      ensures State() == if admitted then Admitted(old(State()), task) else old(State())
    {
      if shuttingDown {
        return false;
      }
      activeWorkflows := activeWorkflows + {task};
      return true;
    }

    method Discard(task: nat)
      modifies this
      ensures State() == Discarded(old(State()), task)
    {
      activeWorkflows := activeWorkflows - {task};
    }

    /** The runtime is taken before it is closed, so it is closed at most once. */
    method TakeRuntime() returns (taken: bool)
      modifies this
      ensures taken == old(runtime)
      ensures State() == Taken(old(State()))
    {
      taken := runtime;
      runtime := false;
    }

    method CloseServer()
      modifies this
      ensures State() == Served(old(State()))
    {
      server := false;
      shutdownResponseReady := true;
    }
  }

  function Begun(s: Shared): Shared
  {
    if s.coordinator then s else s.(shuttingDown := true, coordinator := true)
  }

  function Admitted(s: Shared, task: nat): Shared
  {
    s.(active := s.active + {task})
  }

  function Discarded(s: Shared, task: nat): Shared
  {
    s.(active := s.active - {task})
  }

  function Taken(s: Shared): Shared
  {
    s.(runtime := false)
  }

  function Served(s: Shared): Shared
  {
    s.(server := false, ready := true)
  }

  // ----- every interleaving -----

  /** A connection's task: reading, running an admitted workflow, waiting to answer a shutdown request,
      or over. */
  datatype Task = Reading | Running | AwaitingReply | Finished

  datatype Coordinator = NotCreated | Created | Waiting | Gathering | Closing | ClosingServer | Over

  /** What held when a shutdown request was answered. */
  datatype Reply = Reply(task: nat, closed: bool, aborted: bool)

  /** `snapshot` is the workflows' tasks the coordinator found; `admissions` and `closings` count; `closed`
      is whether closing the runtime came to an end; `aborted` whether the coordinator was cancelled;
      `missing` whether an admitted workflow found no runtime; `cancelled` the tasks the coordinator
      cancelled. */
  datatype Daemon = Daemon(
    shared: Shared,
    tasks: map<nat, Task>,
    coordinator: Coordinator,
    snapshot: Option<set<nat>>,
    admissions: nat,
    closings: nat,
    closed: bool,
    aborted: bool,
    missing: bool,
    cancelled: set<nat>,
    replies: seq<Reply>)

  datatype Action =
    | Connect(task: nat)
    | Request(task: nat)            // a business request: admitted or refused
    | Leave(task: nat)              // its workflow ends, and the connection goes on
    | LeaveAndFinish(task: nat)     // its workflow ends with the connection's task
    | RequestShutdown(task: nat)
    | Answer(task: nat)
    | Finish(task: nat)             // the connection ends, or its task is cancelled
    | Stop                          // the daemon's own task is interrupted
    | Snapshot
    | AllFinished
    | GraceEnds
    | RuntimeClosed
    | ServerClosed
    | Abort

  predicate At(d: Daemon, task: nat, pc: Task)
  {
    task in d.tasks && d.tasks[task] == pc
  }

  predicate AllDone(d: Daemon)
  {
    d.snapshot.Some? ==> forall t :: t in d.snapshot.value ==> At(d, t, Finished)
  }

  predicate Enabled(d: Daemon, a: Action)
  {
    match a
    case Connect(task) => task !in d.tasks && d.shared.server
    case Request(task) => At(d, task, Reading)
    case Leave(task) => At(d, task, Running)
    case LeaveAndFinish(task) => At(d, task, Running)
    case RequestShutdown(task) => At(d, task, Reading)
    case Answer(task) => At(d, task, AwaitingReply) && d.shared.ready
    case Finish(task) => At(d, task, Reading) || At(d, task, AwaitingReply)
    case Stop => true
    case Snapshot => d.coordinator.Created?
    case AllFinished => (d.coordinator.Waiting? || d.coordinator.Gathering?) && AllDone(d)
    case GraceEnds => d.coordinator.Waiting? && d.snapshot.Some? && !AllDone(d)
    case RuntimeClosed => d.coordinator.Closing?
    case ServerClosed => d.coordinator.ClosingServer?
    case Abort => !d.coordinator.NotCreated? && !d.coordinator.Over?
  }

  function Begin(d: Daemon): Daemon
  {
    d.(shared := Begun(d.shared), coordinator := if d.shared.coordinator then d.coordinator else Created)
  }

  /** One atomic step; an action that is not possible in `d` leaves it unchanged. */
  function Step(d: Daemon, a: Action): Daemon
  {
    if !Enabled(d, a) then d
    else
      match a
      case Connect(task) => d.(tasks := d.tasks[task := Reading])
      case Request(task) =>
        if d.shared.shuttingDown then d
        else d.(shared := Admitted(d.shared, task), tasks := d.tasks[task := Running],
                admissions := d.admissions + 1, missing := d.missing || !d.shared.runtime)
      case Leave(task) => d.(shared := Discarded(d.shared, task), tasks := d.tasks[task := Reading])
      case LeaveAndFinish(task) => d.(shared := Discarded(d.shared, task), tasks := d.tasks[task := Finished])
      case RequestShutdown(task) => Begin(d).(tasks := d.tasks[task := AwaitingReply])
      case Answer(task) =>
        d.(tasks := d.tasks[task := Reading], replies := d.replies + [Reply(task, d.closed, d.aborted)])
      case Finish(task) => d.(tasks := d.tasks[task := Finished])
      case Stop => Begin(d)
      case Snapshot => d.(coordinator := Waiting, snapshot := Some(d.shared.active))
      case AllFinished =>
        d.(coordinator := Closing, shared := Taken(d.shared),
          closings := if d.shared.runtime then d.closings + 1 else d.closings)
      case GraceEnds =>
        d.(coordinator := Gathering, cancelled := d.cancelled + set t | t in d.snapshot.value && !At(d, t, Finished))
      case RuntimeClosed => d.(coordinator := ClosingServer, shared := Served(d.shared), closed := true)
      case ServerClosed => d.(coordinator := Over)
      case Abort =>
        // A task cancelled before it starts never reaches its `finally`.
        d.(coordinator := Over, aborted := true,
          shared := d.shared.(ready := d.shared.ready || !d.coordinator.Created?))
  }

  const STARTED := Daemon(RUNNING, map[], NotCreated, None, 0, 0, false, false, false, {}, [])

  // ----- what every step keeps -----

  /** The active set is exactly the tasks that run a workflow. */
  ghost predicate ActiveAreRunning(d: Daemon)
  {
    forall t :: t in d.shared.active <==> At(d, t, Running)
  }

  predicate HasSnapshot(c: Coordinator)
  {
    c.Waiting? || c.Gathering? || c.Closing? || c.ClosingServer?
  }

  /** The coordinator exists from the moment shutdown begins; its snapshot covers every workflow that
      still runs, and it cancels nothing else. */
  ghost predicate Coordinated(d: Daemon)
  {
    && (d.shared.shuttingDown <==> d.shared.coordinator)
    && (d.shared.coordinator <==> !d.coordinator.NotCreated?)
    && (d.coordinator.NotCreated? || d.coordinator.Created? ==> d.snapshot.None?)
    && (HasSnapshot(d.coordinator) ==> d.snapshot.Some?)
    && (d.snapshot.Some? ==> d.shared.active <= d.snapshot.value && d.cancelled <= d.snapshot.value)
    && (d.snapshot.Some? ==> forall t :: t in d.snapshot.value ==> t in d.tasks)
    && (d.snapshot.None? ==> d.cancelled == {})
    && (d.coordinator.Closing? || d.coordinator.ClosingServer? ==> d.shared.active == {})
  }

  /** The runtime is there until it is taken, which happens once and with no workflow running. */
  ghost predicate RuntimeKept(d: Daemon)
  {
    && (!d.shared.runtime ==> d.shared.active == {} && d.shared.shuttingDown)
    && d.closings == (if d.shared.runtime then 0 else 1)
    && (d.shared.runtime ==> !d.coordinator.Closing? && !d.coordinator.ClosingServer? && !d.closed)
    && !d.missing
  }

  /** Answers wait for the runtime to be closed, unless the coordinator was aborted. */
  ghost predicate AnsweredAfterClose(d: Daemon)
  {
    && (d.shared.ready ==> d.closed || d.aborted)
    && (d.coordinator.Over? ==> d.closed || d.aborted)
    && (d.coordinator.ClosingServer? ==> d.closed)
    && (d.closed ==> d.closings == 1) && (d.closed <==> !d.shared.server)
    && (forall i :: 0 <= i < |d.replies| ==>
          && (d.replies[i].closed || d.replies[i].aborted)
          && (d.replies[i].closed ==> d.closed) && (d.replies[i].aborted ==> d.aborted))
  }

  ghost predicate Sound(d: Daemon)
  {
    ActiveAreRunning(d) && Coordinated(d) && RuntimeKept(d) && AnsweredAfterClose(d)
  }

  lemma StepKeepsActive(d: Daemon, a: Action)
    requires ActiveAreRunning(d)
    ensures ActiveAreRunning(Step(d, a))
  {
  }

  lemma StepKeepsCoordinated(d: Daemon, a: Action)
    requires ActiveAreRunning(d) && Coordinated(d)
    ensures Coordinated(Step(d, a))
  {
    if Enabled(d, a) && a.AllFinished? { AllDoneLeavesNone(d); }
  }

  lemma AllDoneLeavesNone(d: Daemon)
    requires ActiveAreRunning(d) && d.snapshot.Some? && d.shared.active <= d.snapshot.value && AllDone(d)
    ensures d.shared.active == {}
  {
    forall t ensures t !in d.shared.active {
      assert t in d.snapshot.value ==> At(d, t, Finished);
    }
  }

  lemma StepKeepsRuntime(d: Daemon, a: Action)
    requires ActiveAreRunning(d) && Coordinated(d) && RuntimeKept(d)
    ensures RuntimeKept(Step(d, a))
  {
    if a.AllFinished? { StepKeepsCoordinated(d, a); }
  }

  lemma StepKeepsAnswers(d: Daemon, a: Action)
    requires RuntimeKept(d) && AnsweredAfterClose(d)
    ensures AnsweredAfterClose(Step(d, a))
  {
  }

  lemma StepKeepsSound(d: Daemon, a: Action)
    requires Sound(d)
    ensures Sound(Step(d, a))
  {
    StepKeepsActive(d, a);
    StepKeepsCoordinated(d, a);
    StepKeepsRuntime(d, a);
    StepKeepsAnswers(d, a);
  }

  ghost function Run(actions: seq<Action>): Daemon
  {
    Fold(Step, STARTED, actions)
  }

  lemma RunSound(actions: seq<Action>)
    ensures Sound(Run(actions))
  {
    var inv := (d: Daemon, done: seq<Action>) => Sound(d);
    forall d, front, a | inv(d, front) ensures inv(Step(d, a), front + [a]) {
      StepKeepsSound(d, a);
    }
    FoldKeeps(Step, STARTED, actions, inv);
  }

  // ----- whole runs -----

  /** The runtime is closed at most once, and never while a workflow runs; no workflow is admitted
      without a runtime; the snapshot holds every workflow still running, and only its tasks are
      cancelled. */
  lemma RuntimeOutlivesWorkflows(actions: seq<Action>)
    ensures var d := Run(actions);
      && d.closings <= 1 && !d.missing
      && (d.closings == 1 ==> forall t :: !At(d, t, Running))
      && (d.snapshot.Some? ==> d.cancelled <= d.snapshot.value && forall t :: At(d, t, Running) ==>
          t in d.snapshot.value)
      && (d.snapshot.None? ==> d.cancelled == {})
  {
    RunSound(actions);
    var d := Run(actions);
    assert forall t :: At(d, t, Running) ==> t in d.shared.active;
  }

  /** Shutdown has begun in `d`, and nothing was admitted since. */
  ghost predicate NoneAdmitted(d: Daemon, e: Daemon)
  {
    && d.shared.shuttingDown && e.shared.shuttingDown && e.admissions == d.admissions
    && (!d.shared.runtime ==> !e.shared.runtime)
    && forall t :: At(e, t, Running) ==> At(d, t, Running)
  }

  lemma StepAdmitsNone(d: Daemon, a: Action)
    requires d.shared.shuttingDown
    ensures NoneAdmitted(d, Step(d, a))
  {
  }

  /** Once shutdown begins no workflow is admitted, whatever happens later, and a runtime that was taken
      never comes back. */
  lemma {:induction false} NoAdmissionAfterShutdown(d: Daemon, later: seq<Action>)
    requires d.shared.shuttingDown
    ensures NoneAdmitted(d, Fold(Step, d, later))
  {
    if later == [] {
    } else {
      var front, last := later[..|later| - 1], later[|later| - 1];
      NoAdmissionAfterShutdown(d, front);
      StepAdmitsNone(Fold(Step, d, front), last);
    }
  }

  lemma {:induction false} AbortsAreActions(actions: seq<Action>)
    requires Abort !in actions
    ensures !Run(actions).aborted
  {
    if actions == [] {
    } else {
      var front, last := actions[..|actions| - 1], actions[|actions| - 1];
      assert last in actions && forall a :: a in front ==> a in actions;
      AbortsAreActions(front);
    }
  }

  /** Every answer to a shutdown request came after the one close of the runtime ended, or after the
      coordinator was aborted; in a run without an abort, none preceded the close. */
  lemma AnswersFollowClose(actions: seq<Action>)
    ensures var d := Run(actions);
      && (forall i :: 0 <= i < |d.replies| ==> d.replies[i].closed || d.replies[i].aborted)
      && (Abort !in actions ==> forall i :: 0 <= i < |d.replies| ==> d.replies[i].closed)
      && (Abort !in actions && (d.replies != [] || d.shared.ready || d.coordinator.Over?) ==>
            d.closed && d.closings == 1 && forall t :: !At(d, t, Running))
  {
    var d := Run(actions);
    RunSound(actions);
    RuntimeOutlivesWorkflows(actions);
    if Abort !in actions { AbortsAreActions(actions); }
    if d.replies != [] { assert d.replies[0].closed || d.replies[0].aborted; }
  }

  lemma RunNext(front: seq<Action>, a: Action, actions: seq<Action>)
    requires actions == front + [a]
    ensures Run(actions) == Step(Run(front), a)
  {
    FoldNext(Step, STARTED, front, a);
  }

  // ----- who is cancelled -----

  /** The snapshot is taken while `t` runs a workflow. */
  ghost function Found(t: nat): (Daemon, Action) -> bool
  {
    (d: Daemon, a: Action) => a == Snapshot && d.coordinator.Created? && At(d, t, Running)
  }

  /** The grace period ends while `t`, found by the snapshot, is not over. */
  ghost function FoundOpen(t: nat): (Daemon, Action) -> bool
  {
    (d: Daemon, a: Action) =>
      a == GraceEnds && d.coordinator.Waiting? && d.snapshot.Some? && t in d.snapshot.value && !At(d, t, Finished)
  }

  lemma StepFinds(d: Daemon, a: Action, t: nat)
    requires ActiveAreRunning(d) && Coordinated(d)
    ensures var e := Step(d, a);
      e.snapshot.Some? && t in e.snapshot.value <==> (d.snapshot.Some? && t in d.snapshot.value) || Found(t)(d, a)
  {
  }

  /** The snapshot is exactly the tasks that ran a workflow when it was taken. */
  lemma {:induction false} SnapshotIff(actions: seq<Action>, t: nat)
    ensures (Run(actions).snapshot.Some? && t in Run(actions).snapshot.value) <==>
        Happened(Step, STARTED, actions, Found(t))
  {
    if actions == [] {
    } else {
      var front, last := actions[..|actions| - 1], actions[|actions| - 1];
      SnapshotIff(front, t);
      HappenedNext(Step, STARTED, actions, Found(t));
      RunSound(front);
      StepFinds(Run(front), last, t);
    }
  }

  lemma StepCancels(d: Daemon, a: Action, t: nat)
    ensures t in Step(d, a).cancelled <==> t in d.cancelled || FoundOpen(t)(d, a)
  {
  }

  /** A task is cancelled exactly when the snapshot found it running a workflow (`SnapshotIff`) and its
      connection was still open when the grace period ended. */
  lemma {:induction false} CancelledIff(actions: seq<Action>, t: nat)
    ensures t in Run(actions).cancelled <==> Happened(Step, STARTED, actions, FoundOpen(t))
  {
    if actions == [] {
    } else {
      var front, last := actions[..|actions| - 1], actions[|actions| - 1];
      CancelledIff(front, t);
      HappenedNext(Step, STARTED, actions, FoundOpen(t));
      StepCancels(Run(front), last, t);
    }
  }

  lemma StepKeepsFinished(d: Daemon, a: Action, t: nat)
    requires At(d, t, Finished)
    ensures At(Step(d, a), t, Finished)
    ensures t in Step(d, a).cancelled ==> t in d.cancelled
  {
  }

  lemma {:induction false} FinishedStays(d: Daemon, t: nat, later: seq<Action>)
    requires At(d, t, Finished)
    ensures At(Fold(Step, d, later), t, Finished)
    ensures t in Fold(Step, d, later).cancelled ==> t in d.cancelled
  {
    if later == [] {
    } else {
      FinishedStays(d, t, later[..|later| - 1]);
      StepKeepsFinished(Fold(Step, d, later[..|later| - 1]), later[|later| - 1], t);
    }
  }

  /** What a client can do to be left alone: run no workflow when the snapshot is taken, or close its
      connection before the grace period ends. */
  lemma LeftAlone(actions: seq<Action>, later: seq<Action>, t: nat)
    ensures !Happened(Step, STARTED, actions, Found(t)) ==> t !in Run(actions).cancelled
    ensures At(Run(actions), t, Finished) && t !in Run(actions).cancelled ==> t !in Run(actions + later).cancelled
  {
    RunSound(actions);
    SnapshotIff(actions, t);
    if At(Run(actions), t, Finished) {
      FinishedStays(Run(actions), t, later);
      FoldConcat(Step, STARTED, actions, later);
    }
  }

  /** The grace period ends while a connection of the snapshot is open. */
  ghost predicate EndsEarly(d: Daemon, a: Action)
  {
    a == GraceEnds && d.coordinator.Waiting? && !AllDone(d)
  }

  lemma StepCancelsSome(d: Daemon, a: Action)
    requires Coordinated(d)
    ensures Step(d, a).cancelled == {} <==> d.cancelled == {} && !EndsEarly(d, a)
  {
    if EndsEarly(d, a) {
      var t :| t in d.snapshot.value && !At(d, t, Finished);
      StepCancels(d, a, t);
    } else {
      forall t ensures t in Step(d, a).cancelled <==> t in d.cancelled { StepCancels(d, a, t); }
    }
  }

  /** Nobody is cancelled exactly when no grace period ends before every connection of the snapshot is
      over. */
  lemma {:induction false} NobodyCancelledIff(actions: seq<Action>)
    ensures Run(actions).cancelled == {} <==> !Happened(Step, STARTED, actions, EndsEarly)
  {
    if actions == [] {
    } else {
      var front, last := actions[..|actions| - 1], actions[|actions| - 1];
      NobodyCancelledIff(front);
      HappenedNext(Step, STARTED, actions, EndsEarly);
      RunSound(front);
      StepCancelsSome(Run(front), last);
    }
  }

  lemma ConnectStep()
    ensures Step(STARTED, Connect(0)) == STARTED.(tasks := map[0 := Reading])
  {
    assert Enabled(STARTED, Connect(0));
    assert STARTED.tasks[0 := Reading] == map[0 := Reading];
  }

  lemma Connects()
    ensures Run([Connect(0)]) == STARTED.(tasks := map[0 := Reading])
  {
    ConnectStep();
    RunNext([], Connect(0), [Connect(0)]);
  }

  lemma WorkflowRuns()
    ensures Run([Connect(0), Request(0)]) ==
        STARTED.(shared := RUNNING.(active := {0}), tasks := map[0 := Running], admissions := 1)
  {
    Connects();
    RunNext([Connect(0)], Request(0), [Connect(0), Request(0)]);
    assert {} + {0} == {0};
    assert map[0 := Reading][0 := Running] == map[0 := Running];
  }

  lemma WorkflowIsFound()
    ensures var d := Run([Connect(0), Request(0), Stop, Snapshot]);
      d.coordinator == Waiting && d.snapshot == Some({0}) && d.tasks == map[0 := Running] && d.cancelled == {}
  {
    WorkflowRuns();
    RunNext([Connect(0), Request(0)], Stop, [Connect(0), Request(0), Stop]);
    RunNext([Connect(0), Request(0), Stop], Snapshot, [Connect(0), Request(0), Stop, Snapshot]);
  }

  /** A run in which a workflow ends while the coordinator waits, its connection staying open. */
  lemma WorkflowLeavesInTime()
    ensures var d := Run([Connect(0), Request(0), Stop, Snapshot, Leave(0)]);
      d.coordinator == Waiting && d.snapshot == Some({0}) && At(d, 0, Reading) && d.cancelled == {}
  {
    WorkflowIsFound();
    RunNext([Connect(0), Request(0), Stop, Snapshot], Leave(0), [Connect(0), Request(0), Stop, Snapshot, Leave(0)]);
  }

  /** So a connection whose workflow ended in time but that stays open can be cancelled. */
  lemma IdleConnectionIsCancelled()
    ensures var d := Run([Connect(0), Request(0), Stop, Snapshot, Leave(0), GraceEnds]);
      d.cancelled == {0} && At(d, 0, Reading)
  {
    var left := Run([Connect(0), Request(0), Stop, Snapshot, Leave(0)]);
    WorkflowLeavesInTime();
    RunNext([Connect(0), Request(0), Stop, Snapshot, Leave(0)], GraceEnds,
            [Connect(0), Request(0), Stop, Snapshot, Leave(0), GraceEnds]);
    assert 0 in left.snapshot.value && !At(left, 0, Finished);
  }

  // ----- who is answered -----

  /** The coordinator is aborted before its first step. */
  ghost predicate AbortsUnstarted(d: Daemon, a: Action)
  {
    a == Abort && d.coordinator.Created?
  }

  /** Answers are unlocked by the close, or by an abort after the snapshot. */
  ghost predicate ReadyAfterSnapshot(d: Daemon)
  {
    && (d.shared.ready ==> d.snapshot.Some? && (d.coordinator.ClosingServer? || d.coordinator.Over?))
    && (d.coordinator.Over? && d.snapshot.Some? ==> d.shared.ready)
    && (d.coordinator.ClosingServer? ==> d.shared.ready)
  }

  lemma StepKeepsReady(d: Daemon, a: Action)
    requires Coordinated(d) && ReadyAfterSnapshot(d)
    ensures ReadyAfterSnapshot(Step(d, a))
  {
  }

  lemma {:induction false} RunReady(actions: seq<Action>)
    ensures ReadyAfterSnapshot(Run(actions))
  {
    if actions == [] {
    } else {
      var front := actions[..|actions| - 1];
      RunReady(front);
      RunSound(front);
      StepKeepsReady(Run(front), actions[|actions| - 1]);
    }
  }

  lemma StepOver(d: Daemon, a: Action)
    requires Coordinated(d)
    ensures var e := Step(d, a);
      e.coordinator.Over? && e.snapshot.None? <==> (d.coordinator.Over? && d.snapshot.None?) || AbortsUnstarted(d, a)
  {
  }

  lemma {:induction false} OverIff(actions: seq<Action>)
    ensures (Run(actions).coordinator.Over? && Run(actions).snapshot.None?) <==>
        Happened(Step, STARTED, actions, AbortsUnstarted)
  {
    if actions == [] {
    } else {
      var front, last := actions[..|actions| - 1], actions[|actions| - 1];
      OverIff(front);
      RunSound(front);
      HappenedNext(Step, STARTED, actions, AbortsUnstarted);
      StepOver(Run(front), last);
    }
  }

  /** Once the coordinator is over, shutdown requests can be answered, exactly unless it was aborted
      before its first step. */
  lemma AnswersLockedIff(actions: seq<Action>)
    ensures var d := Run(actions);
      && (d.coordinator.Over? ==> (d.shared.ready <==> d.snapshot.Some?))
      && (d.coordinator.Over? && !d.shared.ready <==> Happened(Step, STARTED, actions, AbortsUnstarted))
  {
    RunReady(actions);
    OverIff(actions);
  }

  lemma StepKeepsLocked(d: Daemon, a: Action)
    requires d.shared.coordinator && d.coordinator.Over? && !d.shared.ready
    ensures var e := Step(d, a);
      e.shared.coordinator && e.coordinator.Over? && !e.shared.ready && e.replies == d.replies
  {
  }

  /** From then on nothing is ever answered. */
  lemma {:induction false} LockedForGood(d: Daemon, later: seq<Action>)
    requires d.shared.coordinator && d.coordinator.Over? && !d.shared.ready
    ensures var e := Fold(Step, d, later);
      e.shared.coordinator && e.coordinator.Over? && !e.shared.ready && e.replies == d.replies
  {
    if later == [] {
    } else {
      LockedForGood(d, later[..|later| - 1]);
      StepKeepsLocked(Fold(Step, d, later[..|later| - 1]), later[|later| - 1]);
    }
  }

  lemma ShutdownRequested()
    ensures var d := Run([Connect(0), RequestShutdown(0)]);
      At(d, 0, AwaitingReply) && d.coordinator == Created && d.shared.coordinator && !d.shared.ready && d.replies == []
  {
    Connects();
    RunNext([Connect(0)], RequestShutdown(0), [Connect(0), RequestShutdown(0)]);
  }

  /** Stopping the daemon by its own method changes nothing once a request has begun the shutdown. */
  lemma StoppedAfterRequest()
    ensures Run([Connect(0), RequestShutdown(0), Stop]) == Run([Connect(0), RequestShutdown(0)])
  {
    ShutdownRequested();
    RunNext([Connect(0), RequestShutdown(0)], Stop, [Connect(0), RequestShutdown(0), Stop]);
  }

  /** A shutdown request that no continuation of its run answers. */
  lemma UnansweredRequest(later: seq<Action>)
    ensures At(Run([Connect(0), RequestShutdown(0), Stop, Abort]), 0, AwaitingReply)
    ensures Run([Connect(0), RequestShutdown(0), Stop, Abort] + later).replies == []
  {
    var actions := [Connect(0), RequestShutdown(0), Stop, Abort];
    ShutdownRequested();
    StoppedAfterRequest();
    RunNext([Connect(0), RequestShutdown(0), Stop], Abort, actions);
    LockedForGood(Run(actions), later);
    FoldConcat(Step, STARTED, actions, later);
  }

  // ----- every transition -----

  /** Shutdown begins, by a client's request or by the daemon's own task. */
  predicate Begins(d: Daemon, a: Action)
  {
    a == Stop || (a.RequestShutdown? && At(d, a.task, Reading))
  }

  /** The action brings the task to `pc`. */
  predicate Brings(d: Daemon, a: Action, task: nat, pc: Task)
  {
    match pc
    case Reading =>
      || (a == Connect(task) && task !in d.tasks && d.shared.server)
      || (a == Leave(task) && At(d, task, Running))
      || (a == Answer(task) && At(d, task, AwaitingReply) && d.shared.ready)
    case Running => a == Request(task) && At(d, task, Reading) && !d.shared.shuttingDown
    case AwaitingReply => a == RequestShutdown(task) && At(d, task, Reading)
    case Finished =>
      || (a == LeaveAndFinish(task) && At(d, task, Running))
      || (a == Finish(task) && (At(d, task, Reading) || At(d, task, AwaitingReply)))
  }

  predicate Moves(d: Daemon, a: Action, task: nat)
  {
    exists pc :: Brings(d, a, task, pc)
  }

  lemma BroughtIsThere(d: Daemon, a: Action, task: nat, pc: Task)
    requires Brings(d, a, task, pc)
    ensures At(Step(d, a), task, pc)
  {
  }

  lemma UnmovedStays(d: Daemon, a: Action, task: nat, pc: Task)
    requires !Moves(d, a, task)
    ensures At(Step(d, a), task, pc) <==> At(d, task, pc)
  {
    assert !Brings(d, a, task, Reading) && !Brings(d, a, task, Running);
    assert !Brings(d, a, task, AwaitingReply) && !Brings(d, a, task, Finished);
  }

  /** A task is somewhere exactly when it was there and did not move, or its action brings it there. */
  lemma StepTask(d: Daemon, a: Action, task: nat, pc: Task)
    ensures At(Step(d, a), task, pc) <==> (At(d, task, pc) && !Moves(d, a, task)) || Brings(d, a, task, pc)
  {
    if there :| Brings(d, a, task, there) {
      BroughtIsThere(d, a, task, there);
      if Brings(d, a, task, pc) { BroughtIsThere(d, a, task, pc); }
    } else {
      UnmovedStays(d, a, task, pc);
    }
  }

  /** The action brings the coordinator to `c`. */
  predicate Coordinates(d: Daemon, a: Action, c: Coordinator)
  {
    match c
    case NotCreated => false
    case Created => d.coordinator.NotCreated? && Begins(d, a)
    case Waiting => d.coordinator.Created? && a == Snapshot
    case Gathering => d.coordinator.Waiting? && a == GraceEnds && !AllDone(d)
    case Closing => (d.coordinator.Waiting? || d.coordinator.Gathering?) && a == AllFinished && AllDone(d)
    case ClosingServer => d.coordinator.Closing? && a == RuntimeClosed
    case Over =>
      || (d.coordinator.ClosingServer? && a == ServerClosed)
      || (!d.coordinator.NotCreated? && !d.coordinator.Over? && a == Abort)
  }

  lemma CoordinatedIsThere(d: Daemon, a: Action, c: Coordinator)
    requires Coordinated(d) && Coordinates(d, a, c)
    ensures Step(d, a).coordinator == c
  {
  }

  lemma UncoordinatedStays(d: Daemon, a: Action)
    requires Coordinated(d) && Step(d, a).coordinator != d.coordinator
    ensures Coordinates(d, a, Step(d, a).coordinator)
  {
  }

  /** The coordinator is at a stage exactly when it was there and nothing moved it, or the action brings it
      there. */
  lemma StepCoordinator(d: Daemon, a: Action, c: Coordinator)
    requires Coordinated(d)
    ensures Step(d, a).coordinator == c <==>
            (d.coordinator == c && forall e :: !Coordinates(d, a, e)) || Coordinates(d, a, c)
  {
    if e :| Coordinates(d, a, e) {
      CoordinatedIsThere(d, a, e);
      if Coordinates(d, a, c) { CoordinatedIsThere(d, a, c); }
    } else if Step(d, a).coordinator != d.coordinator {
      UncoordinatedStays(d, a);
    }
  }

  ghost predicate ClosesRuntime(d: Daemon, a: Action)
  {
    d.coordinator.Closing? && a == RuntimeClosed
  }

  ghost predicate TakesRuntime(d: Daemon, a: Action)
  {
    Coordinates(d, a, Closing)
  }

  /** Answers are unlocked. */
  ghost predicate Unlocks(d: Daemon, a: Action)
  {
    ClosesRuntime(d, a) || (a == Abort && HasSnapshot(d.coordinator))
  }

  ghost function Answers(r: Reply): (Daemon, Action) -> bool
  {
    (d: Daemon, a: Action) =>
      a == Answer(r.task) && At(d, r.task, AwaitingReply) && d.shared.ready && r.closed == d.closed
        && r.aborted == d.aborted
  }

  lemma StepFlags(d: Daemon, a: Action)
    requires Sound(d)
    ensures var e := Step(d, a);
      && (e.shared.shuttingDown <==> d.shared.shuttingDown || Begins(d, a))
      && (!e.shared.runtime <==> !d.shared.runtime || TakesRuntime(d, a))
  {
  }

  lemma StepClosing(d: Daemon, a: Action)
    requires Sound(d)
    ensures var e := Step(d, a);
      && (!e.shared.server <==> !d.shared.server || ClosesRuntime(d, a))
      && (e.closed <==> d.closed || ClosesRuntime(d, a))
      && (e.shared.ready <==> d.shared.ready || Unlocks(d, a))
  {
  }

  lemma StepReplies(d: Daemon, a: Action, r: Reply)
    ensures r in Step(d, a).replies <==> r in d.replies || Answers(r)(d, a)
  {
  }

  /** What holds of the shared state is what happened: shutdown has begun exactly when it was requested or the
      daemon was stopped, the runtime is gone exactly when the coordinator found every workflow over, the
      socket is closed exactly when the runtime was, and so on. */
  lemma {:induction false} SharedIff(actions: seq<Action>, r: Reply)
    ensures var d := Run(actions);
      && (d.shared.shuttingDown <==> Happened(Step, STARTED, actions, Begins))
      && (!d.shared.runtime <==> Happened(Step, STARTED, actions, TakesRuntime))
      && (!d.shared.server <==> Happened(Step, STARTED, actions, ClosesRuntime))
      && (d.closed <==> Happened(Step, STARTED, actions, ClosesRuntime))
      && (d.shared.ready <==> Happened(Step, STARTED, actions, Unlocks))
      && (r in d.replies <==> Happened(Step, STARTED, actions, Answers(r)))
  {
    if actions == [] {
    } else {
      var front, last := actions[..|actions| - 1], actions[|actions| - 1];
      SharedIff(front, r);
      RunSound(front);
      StepFlags(Run(front), last);
      StepClosing(Run(front), last);
      StepReplies(Run(front), last, r);
      HappenedNext(Step, STARTED, actions, Begins);
      HappenedNext(Step, STARTED, actions, TakesRuntime);
      HappenedNext(Step, STARTED, actions, ClosesRuntime);
      HappenedNext(Step, STARTED, actions, Unlocks);
      HappenedNext(Step, STARTED, actions, Answers(r));
    }
  }

  // ----- shutdown can always complete -----

  ghost function Open(d: Daemon): set<nat>
    requires d.snapshot.Some?
  {
    set t | t in d.snapshot.value && !At(d, t, Finished)
  }

  predicate Waits(d: Daemon)
  {
    (d.coordinator.Waiting? || d.coordinator.Gathering?) && d.snapshot.Some?
  }

  /** The action that ends an open connection. */
  function Ending(d: Daemon, t: nat): Action
  {
    if At(d, t, Running) then LeaveAndFinish(t) else Finish(t)
  }

  lemma EndingOpen(d: Daemon, t: nat)
    requires Sound(d) && Waits(d) && t in Open(d)
    ensures var e := Step(d, Ending(d, t));
      && Sound(e) && Waits(e) && e.snapshot == d.snapshot && e.aborted == d.aborted
      && Open(e) == Open(d) - {t}
  {
    StepKeepsSound(d, Ending(d, t));
    assert t in d.tasks;
  }

  /** Every connection of the snapshot can end. */
  lemma EndAll(d: Daemon) returns (later: seq<Action>)
    requires Sound(d) && Waits(d)
    ensures var e := Fold(Step, d, later); Sound(e) && Waits(e) && AllDone(e) && e.aborted == d.aborted
    decreases |Open(d)|
  {
    if Open(d) == {} {
      later := [];
      forall t | t in d.snapshot.value ensures At(d, t, Finished) { assert t !in Open(d); }
    } else {
      var t :| t in Open(d);
      EndingOpen(d, t);
      var rest := EndAll(Step(d, Ending(d, t)));
      later := [Ending(d, t)] + rest;
      FoldOne(Step, d, Ending(d, t));
      FoldConcat(Step, d, [Ending(d, t)], rest);
    }
  }

  /** The coordinator can be brought to wait for the connections of its snapshot. */
  lemma StartWaiting(d: Daemon) returns (later: seq<Action>)
    requires Sound(d) && (d.coordinator.NotCreated? || d.coordinator.Created? || Waits(d))
    ensures var e := Fold(Step, d, later); Sound(e) && Waits(e) && e.aborted == d.aborted
  {
    if d.coordinator.NotCreated? {
      later := [Stop, Snapshot];
      FoldOne(Step, d, Stop);
      FoldNext(Step, d, [Stop], Snapshot);
      assert [Stop] + [Snapshot] == [Stop, Snapshot];
      StepKeepsSound(d, Stop);
      StepKeepsSound(Step(d, Stop), Snapshot);
    } else if d.coordinator.Created? {
      later := [Snapshot];
      FoldOne(Step, d, Snapshot);
      StepKeepsSound(d, Snapshot);
    } else {
      later := [];
    }
  }

  /** Shutdown is complete: the runtime and the socket are closed, and every request still waiting can be
      answered. */
  ghost predicate Complete(d: Daemon)
  {
    && d.coordinator.Over? && d.closed && !d.shared.runtime && !d.shared.server && d.shared.ready
    && forall t: nat :: At(d, t, AwaitingReply) ==> Enabled(d, Answer(t))
  }

  lemma CloseDown(d: Daemon) returns (later: seq<Action>)
    requires Sound(d) && ReadyAfterSnapshot(d) && !d.coordinator.Over?
    requires HasSnapshot(d.coordinator) && (Waits(d) ==> AllDone(d))
    ensures Complete(Fold(Step, d, later))
    decreases if Waits(d) then 2 else if d.coordinator.Closing? then 1 else 0
  {
    var a := if Waits(d) then AllFinished else if d.coordinator.Closing? then RuntimeClosed else ServerClosed;
    StepKeepsSound(d, a);
    StepKeepsReady(d, a);
    FoldOne(Step, d, a);
    if d.coordinator.ClosingServer? {
      later := [a];
    } else {
      var rest := CloseDown(Step(d, a));
      later := [a] + rest;
      FoldConcat(Step, d, [a], rest);
    }
  }

  /** Whatever has happened, a shutdown that is not over can still complete: no reachable daemon is stuck. */
  lemma ShutdownCanComplete(actions: seq<Action>) returns (later: seq<Action>)
    requires !Run(actions).coordinator.Over?
    ensures Complete(Run(actions + later))
  {
    var d := Run(actions);
    RunSound(actions);
    if d.coordinator.Closing? || d.coordinator.ClosingServer? {
      RunReady(actions);
      later := CloseDown(d);
    } else {
      var first := StartWaiting(d);
      var second := EndAll(Fold(Step, d, first));
      FoldConcat(Step, d, first, second);
      FoldConcat(Step, STARTED, actions, first + second);
      RunReady(actions + (first + second));
      var third := CloseDown(Run(actions + (first + second)));
      later := first + second + third;
      FoldConcat(Step, d, first + second, third);
    }
    FoldConcat(Step, STARTED, actions, later);
  }
}
