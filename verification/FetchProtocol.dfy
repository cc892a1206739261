/** The serialized URL-fetch workflow (orchestrators/fetch.py, lines 64-190) in every interleaving of
    fetches, cancellations and searches that admit URLs. One action is everything a task does between
    two awaits that can suspend it. */
module FetchProtocol {
  import opened Folds
  import opened Options
  import opened UrlStore
  import FetchScheduler
  import KeyedLocks

  type Focus = Option<string>

  /** A summary remembers the content it was made from. `Impossible` collects the "URL disappeared",
      "accepted without candidate" and unknown-URL errors. */
  datatype Result =
    | Content(text: string)
    | Summary(text: string, source: string)
    | UnavailableMessage
    | NotAdmitted
    | Failed
    | Cancelled
    | Impossible

  /** Where a task waits: for the URL's lock, or, holding it, for a stage. */
  datatype Pc =
    | WaitLock
    | Scheduling
    | Cleaning(rawContent: string)
    | Safety(content: string)
    | Focusing(content: string)
    | Done(result: Result)

  predicate Inside(pc: Pc)
  {
    !pc.WaitLock? && !pc.Done?
  }

  /** `calls` counts the stages the task started; `scheduled` is how its scheduler run ended and
      `passed` the content it had pass the safety check. */
  datatype Body = Body(url: Url, focus: Focus, pc: Pc, calls: nat, scheduled: Option<FetchScheduler.End>,
      passed: Option<string>)

  function Starts(b: Body, pc: Pc): Body
  {
    b.(pc := pc, calls := b.calls + 1)
  }

  function Ends(b: Body, result: Result): Body
  {
    b.(pc := Done(result))
  }

  /** What awaited stages come back with. */
  datatype Completion =
    | SchedulerEnded(end: FetchScheduler.End)
    | StageText(text: string)
    | Decision(ok: bool)
    | StageFails
    | StageCancelled

  predicate Fits(pc: Pc, c: Completion)
  {
    match pc
    case Scheduling => c.SchedulerEnded? && FetchScheduler.PossibleEnd(c.end)
    case Cleaning(_) => (c.StageText? && c.text != "") || c.StageFails? || c.StageCancelled?
    case Safety(_) => c.Decision? || c.StageFails? || c.StageCancelled?
    case Focusing(_) => (c.StageText? && c.text != "") || c.StageFails? || c.StageCancelled?
    case _ => false
  }

  /** What a task does to itself and to the store between two awaits. */
  datatype Move = Move(body: Body, ops: seq<Op>)

  function After(records: Records, ops: seq<Op>): Records
  {
    if ops == [] then records else Apply(records, ops[0])
  }

  function CheckSafety(b: Body, records: Records): Body
  {
    if b.url !in records then Ends(b, Impossible) else Starts(b, Safety(records[b.url].content))
  }

  /** The rest of `_prepare_content` once the record holds raw content. */
  function CleanIfNeeded(b: Body, records: Records): Body
  {
    if b.url !in records then Ends(b, Impossible)
    else if records[b.url].content != "" then CheckSafety(b, records)
    else Starts(b, Cleaning(records[b.url].rawContent))
  }

  /** From acquiring the lock to the first stage. */
  function Entered(b: Body, records: Records, providers: bool): Body
  {
    if b.url !in records then Ends(b, NotAdmitted)
    else
      var snapshot := records[b.url];
      if !snapshot.available then Ends(b, UnavailableMessage)
      else if snapshot.content != "" then CheckSafety(b, records)
      else if snapshot.rawContent != "" then CleanIfNeeded(b, records)
      else if !providers then Ends(b, Failed)
      else Starts(b, Scheduling)
  }

  /** A store operation, and what the task goes on with once it took effect. */
  function Perform(b: Body, records: Records, op: Op, next: Records -> Body): Move
  {
    if Raises(records, op) then Move(Ends(b, Impossible), []) else Move(next(Apply(records, op)), [op])
  }

  function AfterScheduler(b: Body, records: Records, end: FetchScheduler.End): Move
  {
    match end
    case WasCancelled => Move(Ends(b, Cancelled), [])
    case Raised(_) => Move(Ends(b, Failed), [])
    case Returned(outcome) =>
      match outcome.kind
      case ExecutionFailure => Move(Ends(b, Failed), [])
      case SemanticFailure => Perform(b, records, MarkUnavailable(b.url), later => Ends(b, UnavailableMessage))
      case Accepted =>
        if outcome.candidate.None? then Move(Ends(b, Impossible), [])
        else
          var c := outcome.candidate.value;
          Perform(b, records, MergeBody(b.url, c.rawContent, c.content), later => CleanIfNeeded(b, later))
  }

  /** From the end of a stage to the next stage, or to the end of the section. */
  function Resumed(b: Body, records: Records, c: Completion): Move
  {
    match c
    case StageFails => Move(Ends(b, Failed), [])
    case StageCancelled => Move(Ends(b, Cancelled), [])
    case SchedulerEnded(end) => AfterScheduler(b.(scheduled := Some(end)), records, end)
    case StageText(text) =>
      if b.pc.Cleaning? then Perform(b, records, MergeBody(b.url, "", text), later => CheckSafety(b, later))
      else if b.pc.Focusing? then Move(Ends(b, Summary(text, b.pc.content)), [])
      else Move(b, [])
    case Decision(ok) =>
      if !b.pc.Safety? then Move(b, [])
      else if !ok then Perform(b, records, MarkUnavailable(b.url), later => Ends(b, UnavailableMessage))
      else
        var safe := b.(passed := Some(b.pc.content));
        if b.focus.None? then Move(Ends(safe, Content(b.pc.content)), [])
        else Move(Starts(safe, Focusing(b.pc.content)), [])
  }

  // ----- the workflow's code between two awaits -----

  class FetchOrchestrator {
    const store: URLStore
    const providers: bool

    constructor (store: URLStore, providers: bool)
      ensures this.store == store && this.providers == providers
    {
      this.store, this.providers := store, providers;
    }

    /** From acquiring the lock on. */
    method Enter(b: Body) returns (next: Body)
      ensures next == Entered(b, store.records, providers)
    {
      if b.url !in store.records {
        return Ends(b, NotAdmitted);
      }
      var snapshot := store.records[b.url];
      if !snapshot.available {
        return Ends(b, UnavailableMessage);
      }
      if snapshot.content != "" {
        return Starts(b, Safety(snapshot.content));
      }
      if snapshot.rawContent != "" {
        return Starts(b, Cleaning(snapshot.rawContent));
      }
      if !providers {
        return Ends(b, Failed);
      }
      return Starts(b, Scheduling);
    }

    method AfterFetch(b: Body, end: FetchScheduler.End) returns (next: Body)
      requires store.Valid()
      modifies store
      ensures store.Valid()
      ensures var move := Resumed(b, old(store.records), SchedulerEnded(end));
        next == move.body && store.records == After(old(store.records), move.ops)
    {
      var fetched := b.(scheduled := Some(end));
      if end.WasCancelled? {
        return Ends(fetched, Cancelled);
      }
      if end.Raised? || end.outcome.kind.ExecutionFailure? {
        return Ends(fetched, Failed);
      }
      if end.outcome.kind.SemanticFailure? {
        next := MarkUnavailable(fetched);
        return;
      }
      if end.outcome.candidate.None? {
        return Ends(fetched, Impossible);
      }
      var candidate := end.outcome.candidate.value;
      var merged := store.MergeBody(b.url, candidate.rawContent, candidate.content);
      if merged.None? {
        return Ends(fetched, Impossible);
      }
      if merged.value.content == "" {
        return Starts(fetched, Cleaning(merged.value.rawContent));
      }
      return Starts(fetched, Safety(merged.value.content));
    }

    method AfterCleaning(b: Body, cleaned: string) returns (next: Body)
      requires store.Valid() && b.pc.Cleaning?
      modifies store
      ensures store.Valid()
      ensures var move := Resumed(b, old(store.records), StageText(cleaned));
        next == move.body && store.records == After(old(store.records), move.ops)
    {
      var merged := store.MergeBody(b.url, "", cleaned);
      if merged.None? {
        return Ends(b, Impossible);
      }
      return Starts(b, Safety(merged.value.content));
    }

    method AfterSafety(b: Body, ok: bool) returns (next: Body)
      requires store.Valid() && b.pc.Safety?
      modifies store
      ensures store.Valid()
      ensures var move := Resumed(b, old(store.records), Decision(ok));
        next == move.body && store.records == After(old(store.records), move.ops)
    {
      if !ok {
        next := MarkUnavailable(b);
        return;
      }
      var safe := b.(passed := Some(b.pc.content));
      if b.focus.None? {
        return Ends(safe, Content(b.pc.content));
      }
      return Starts(safe, Focusing(b.pc.content));
    }

    method MarkUnavailable(b: Body) returns (next: Body)
      requires store.Valid()
      modifies store
      ensures store.Valid()
      ensures var move :=
          Perform(b, old(store.records), Op.MarkUnavailable(b.url), later => Ends(b, UnavailableMessage));
        next == move.body && store.records == After(old(store.records), move.ops)
    {
      var marked := store.MarkUnavailable(b.url);
      return Ends(b, if marked.None? then Impossible else UnavailableMessage);
    }
  }

  // ----- every interleaving -----

  datatype World = World(pool: KeyedLocks.Pool, records: Records, bodies: map<nat, Body>, providers: bool)

  datatype Action =
    | AdmitUrl(url: Url, summary: string, rawContent: string, content: string)
    | Call(task: nat, url: Url, focus: Focus)
    | CancelWait(task: nat)
    | Enter(task: nat)
    | Resume(task: nat, completion: Completion)

  predicate Enabled(w: World, a: Action)
  {
    match a
    case AdmitUrl(_, _, _, _) => true
    case Call(task, _, _) => task !in w.bodies
    case CancelWait(task) => task in w.bodies && w.bodies[task].pc.WaitLock?
    case Enter(task) =>
      && task in w.bodies && w.bodies[task].pc.WaitLock?
      && task in w.pool.tasks && w.pool.tasks[task].entry !in w.pool.locked
    case Resume(task, completion) => task in w.bodies && Fits(w.bodies[task].pc, completion)
  }

  /** A task that is done has left its section, so it gives the lock back. */
  function Settle(w: World, pool: KeyedLocks.Pool, task: nat, move: Move): World
  {
    w.(pool := if move.body.pc.Done? then KeyedLocks.Step(pool, KeyedLocks.Release(task)) else pool,
       records := After(w.records, move.ops),
       bodies := w.bodies[task := move.body])
  }

  /** One atomic step; an action that is not possible in `w` leaves it unchanged. */
  function Step(w: World, a: Action): World
  {
    if !Enabled(w, a) then w
    else
      match a
      case AdmitUrl(url, summary, rawContent, content) =>
        w.(records := Apply(w.records, Admit(url, summary, rawContent, content)))
      case Call(task, url, focus) =>
        w.(pool := KeyedLocks.Step(w.pool, KeyedLocks.Reserve(task, url)),
           bodies := w.bodies[task := Body(url, focus, WaitLock, 0, None, None)])
      case CancelWait(task) =>
        w.(pool := KeyedLocks.Step(w.pool, KeyedLocks.CancelWait(task)),
           bodies := w.bodies[task := Ends(w.bodies[task], Cancelled)])
      case Enter(task) =>
        Settle(w, KeyedLocks.Step(w.pool, KeyedLocks.Acquire(task)), task,
          Move(Entered(w.bodies[task], w.records, w.providers), []))
      case Resume(task, completion) =>
        Settle(w, w.pool, task, Resumed(w.bodies[task], w.records, completion))
  }

  function Initial(providers: bool): World
  {
    World(KeyedLocks.EMPTY_POOL, NO_RECORDS, map[], providers)
  }

  // ----- the lock excludes -----

  /** A task reserves its URL's lock from its call to its end, and holds it inside its section. */
  ghost predicate LinkedTask(tasks: map<nat, KeyedLocks.Task>, bodies: map<nat, Body>, t: nat)
  {
    && (t in tasks <==> t in bodies && !bodies[t].pc.Done?)
    && (t in tasks ==> tasks[t].key == bodies[t].url && (tasks[t].Holding? <==> Inside(bodies[t].pc)))
  }

  ghost predicate Linked(w: World)
  {
    forall t :: LinkedTask(w.pool.tasks, w.bodies, t)
  }

  ghost predicate OneInside(bodies: map<nat, Body>)
  {
    forall t, u ::
      t in bodies && u in bodies && Inside(bodies[t].pc) && Inside(bodies[u].pc) && bodies[t].url == bodies[u].url ==>
        t == u
  }

  lemma HolderIsAlone(w: World)
    requires KeyedLocks.Sound(w.pool) && Linked(w)
    ensures OneInside(w.bodies)
  {
    forall t, u | t in w.bodies && u in w.bodies && Inside(w.bodies[t].pc) && Inside(w.bodies[u].pc)
      && w.bodies[t].url == w.bodies[u].url
      ensures t == u
    {
      assert LinkedTask(w.pool.tasks, w.bodies, t) && LinkedTask(w.pool.tasks, w.bodies, u);
      assert w.pool.tasks[t].entry == w.pool.tasks[u].entry;
    }
  }

  /** How a step of the lock pool changes its tasks. */
  lemma PoolTasks(p: KeyedLocks.Pool, task: nat, key: string)
    ensures task !in p.tasks ==>
      var q := KeyedLocks.Step(p, KeyedLocks.Reserve(task, key));
      q.tasks == p.tasks[task := q.tasks[task]] && q.tasks[task].Waiting? && q.tasks[task].key == key
    ensures task in p.tasks && p.tasks[task].Waiting? ==>
      KeyedLocks.Step(p, KeyedLocks.CancelWait(task)).tasks == p.tasks - {task}
    ensures task in p.tasks && p.tasks[task].Waiting? && p.tasks[task].entry !in p.locked ==>
      KeyedLocks.Step(p, KeyedLocks.Acquire(task)).tasks ==
        p.tasks[task := KeyedLocks.Holding(p.tasks[task].key, p.tasks[task].entry)]
    ensures task in p.tasks && p.tasks[task].Holding? ==>
      KeyedLocks.Step(p, KeyedLocks.Release(task)).tasks == p.tasks - {task}
  {
  }

  lemma MovesKeepTask(b: Body, records: Records, providers: bool, c: Completion)
    ensures var e := Entered(b, records, providers); e.url == b.url && e.focus == b.focus && !e.pc.WaitLock?
    ensures Fits(b.pc, c) ==>
      var r := Resumed(b, records, c).body; r.url == b.url && r.focus == b.focus && !r.pc.WaitLock?
  {
  }

  lemma SettleKeepsLinked(w: World, pool: KeyedLocks.Pool, task: nat, move: Move)
    requires task in pool.tasks && pool.tasks[task].Holding? && pool.tasks[task].key == move.body.url
    requires !move.body.pc.WaitLock?
    requires forall t :: t != task ==> LinkedTask(pool.tasks, w.bodies, t)
    ensures Linked(Settle(w, pool, task, move))
  {
    PoolTasks(pool, task, "");
    var v := Settle(w, pool, task, move);
    forall t ensures LinkedTask(v.pool.tasks, v.bodies, t) {
      if t != task { assert LinkedTask(pool.tasks, w.bodies, t); }
    }
  }

  lemma StepKeepsLinked(w: World, a: Action)
    requires Linked(w)
    ensures Linked(Step(w, a))
  {
    if Enabled(w, a) && !a.AdmitUrl? {
      var task := a.task;
      assert LinkedTask(w.pool.tasks, w.bodies, task);
      match a
      case Call(_, url, _) =>
        PoolTasks(w.pool, task, url);
        forall t ensures LinkedTask(Step(w, a).pool.tasks, Step(w, a).bodies, t) {
          assert LinkedTask(w.pool.tasks, w.bodies, t);
        }
      case CancelWait(_) =>
        PoolTasks(w.pool, task, "");
        forall t ensures LinkedTask(Step(w, a).pool.tasks, Step(w, a).bodies, t) {
          assert LinkedTask(w.pool.tasks, w.bodies, t);
        }
      case Enter(_) =>
        PoolTasks(w.pool, task, "");
        var pool := KeyedLocks.Step(w.pool, KeyedLocks.Acquire(task));
        forall t | t != task ensures LinkedTask(pool.tasks, w.bodies, t) {
          assert LinkedTask(w.pool.tasks, w.bodies, t);
        }
        MovesKeepTask(w.bodies[task], w.records, w.providers, StageFails);
        SettleKeepsLinked(w, pool, task, Move(Entered(w.bodies[task], w.records, w.providers), []));
      case Resume(_, completion) =>
        forall t ensures LinkedTask(w.pool.tasks, w.bodies, t) {}
        MovesKeepTask(w.bodies[task], w.records, w.providers, completion);
        SettleKeepsLinked(w, w.pool, task, Resumed(w.bodies[task], w.records, completion));
    }
  }

  lemma StepKeepsPool(w: World, a: Action)
    requires KeyedLocks.Sound(w.pool)
    ensures KeyedLocks.Sound(Step(w, a).pool)
  {
    if Enabled(w, a) && !a.AdmitUrl? {
      match a
      case Call(task, url, _) => KeyedLocks.StepKeepsSound(w.pool, KeyedLocks.Reserve(task, url));
      case CancelWait(task) => KeyedLocks.StepKeepsSound(w.pool, KeyedLocks.CancelWait(task));
      case Enter(task) =>
        KeyedLocks.StepKeepsSound(w.pool, KeyedLocks.Acquire(task));
        KeyedLocks.StepKeepsSound(KeyedLocks.Step(w.pool, KeyedLocks.Acquire(task)), KeyedLocks.Release(task));
      case Resume(task, _) => KeyedLocks.StepKeepsSound(w.pool, KeyedLocks.Release(task));
    }
  }

  /** A step leaves every other task, and every task that is done, as it was. */
  lemma StepFrame(w: World, a: Action, t: nat)
    requires t in w.bodies
    ensures var v := Step(w, a);
      && t in v.bodies
      && v.bodies[t].url == w.bodies[t].url && v.bodies[t].focus == w.bodies[t].focus
      && (a.AdmitUrl? || a.task != t || w.bodies[t].pc.Done? ==> v.bodies[t] == w.bodies[t])
  {
    if Enabled(w, a) {
      match a
      case AdmitUrl(_, _, _, _) =>
      case Call(_, _, _) =>
      case CancelWait(_) =>
      case Enter(task) => MovesKeepTask(w.bodies[task], w.records, w.providers, StageFails);
      case Resume(task, c) => MovesKeepTask(w.bodies[task], w.records, w.providers, c);
    }
  }

  // ----- what each task relies on -----

  /** Whether the task's scheduler run ended accepted or with a semantic failure. */
  predicate Decisive(b: Body)
  {
    b.scheduled.Some?
      && (FetchScheduler.Accepts(b.scheduled.value) || FetchScheduler.RejectsSemantically(b.scheduled.value))
  }

  /** What the record owes a task that is in its section, and what it owes one that left. */
  ghost predicate RecordFits(b: Body, records: Records)
  {
    && (Inside(b.pc) ==> b.url in records && records[b.url].available)
    && (Decisive(b) ==> b.url in records && (records[b.url].rawContent != "" || !records[b.url].available))
    && (b.pc.Cleaning? ==> records[b.url].rawContent == b.pc.rawContent != "")
    && (b.pc.Safety? || b.pc.Focusing? ==> records[b.url].content == b.pc.content != "")
    && (b.passed.Some? ==> b.url in records && records[b.url].content == b.passed.value != "")
    && (b.pc == Done(UnavailableMessage) ==> b.url in records && !records[b.url].available)
  }

  ghost predicate TaskFits(b: Body)
  {
    && (b.pc.WaitLock? ==> b.calls == 0 && b.scheduled.None? && b.passed.None?)
    && (b.pc.Scheduling? ==> b.scheduled.None?)
    && (b.pc.Scheduling? || b.pc.Cleaning? || b.pc.Safety? ==> b.passed.None?)
    && (b.pc.Focusing? ==> b.passed == Some(b.pc.content) && b.focus.Some?)
    && (b.pc.Done? && b.pc.result.Content? ==> b.focus.None? && b.passed == Some(b.pc.result.text))
    && (b.pc.Done? && b.pc.result.Summary? ==>
        b.focus.Some? && b.passed == Some(b.pc.result.source) && b.pc.result.text != "")
    && b.pc != Done(Impossible)
  }

  ghost predicate AllFit(w: World)
  {
    forall t :: t in w.bodies ==> RecordFits(w.bodies[t], w.records) && TaskFits(w.bodies[t])
  }

  lemma EnteredFits(b: Body, records: Records, providers: bool)
    requires b.pc.WaitLock? && TaskFits(b)
    ensures RecordFits(Entered(b, records, providers), records) && TaskFits(Entered(b, records, providers))
  {
  }

  lemma SchedulerEndFits(b: Body, records: Records, end: FetchScheduler.End)
    requires b.pc.Scheduling? && FetchScheduler.PossibleEnd(end) && RecordFits(b, records) && TaskFits(b)
    ensures var move := Resumed(b, records, SchedulerEnded(end));
      RecordFits(move.body, After(records, move.ops)) && TaskFits(move.body)
  {
  }

  lemma StageEndFits(b: Body, records: Records, c: Completion)
    requires !b.pc.Scheduling? && Fits(b.pc, c) && RecordFits(b, records) && TaskFits(b)
    ensures var move := Resumed(b, records, c);
      RecordFits(move.body, After(records, move.ops)) && TaskFits(move.body)
  {
  }

  /** Another task's store operation leaves what this task relies on. */
  lemma OpKeepsFits(b: Body, records: Records, op: Op)
    requires RecordFits(b, records)
    requires op.MarkUnavailable? && op.url == b.url ==> !Inside(b.pc)
    ensures RecordFits(b, Apply(records, op))
  {
    ApplyExtends(records, op);
  }

  lemma ResumedOps(b: Body, records: Records, c: Completion)
    ensures forall op :: op in Resumed(b, records, c).ops ==> op.url == b.url
    ensures |Resumed(b, records, c).ops| <= 1
  {
  }

  lemma StepKeepsFits(w: World, a: Action)
    requires AllFit(w) && OneInside(w.bodies)
    ensures AllFit(Step(w, a))
  {
    var v := Step(w, a);
    if Enabled(w, a) {
      forall t | t in v.bodies ensures RecordFits(v.bodies[t], v.records) && TaskFits(v.bodies[t]) {
        match a
        case AdmitUrl(url, summary, rawContent, content) =>
          OpKeepsFits(w.bodies[t], w.records, Admit(url, summary, rawContent, content));
        case Call(task, _, _) => assert t != task ==> t in w.bodies;
        case CancelWait(_) =>
        case Enter(task) => if t == task { EnteredFits(w.bodies[t], w.records, w.providers); }
        case Resume(task, completion) => ResumeKeepsFits(w, task, completion, t);
      }
    }
  }

  lemma ResumeKeepsFits(w: World, task: nat, c: Completion, t: nat)
    requires AllFit(w) && OneInside(w.bodies) && t in w.bodies && Enabled(w, Resume(task, c))
    ensures var v := Step(w, Resume(task, c)); RecordFits(v.bodies[t], v.records) && TaskFits(v.bodies[t])
  {
    var b := w.bodies[task];
    if t == task {
      if b.pc.Scheduling? { SchedulerEndFits(b, w.records, c.end); } else { StageEndFits(b, w.records, c); }
    } else {
      ResumedOps(b, w.records, c);
      var ops := Resumed(b, w.records, c).ops;
      if ops != [] {
        assert ops[0].url == b.url;
        OpKeepsFits(w.bodies[t], w.records, ops[0]);
      }
    }
  }

  // ----- one decisive scheduler run -----

  /** A task that is scheduling, or whose run was decisive, is the only such task of its URL. */
  ghost predicate DecidesAlone(bodies: map<nat, Body>)
  {
    forall t, u ::
      t in bodies && u in bodies && bodies[t].url == bodies[u].url && Settling(bodies[t]) && Decisive(bodies[u]) ==>
        t == u
  }

  predicate Settling(b: Body)
  {
    b.pc.Scheduling? || Decisive(b)
  }

  lemma MoveSettles(b: Body, records: Records, providers: bool, c: Completion)
    requires TaskFits(b)
    ensures b.pc.WaitLock? ==> !Decisive(Entered(b, records, providers))
    ensures b.pc.WaitLock? && Entered(b, records, providers).pc.Scheduling? ==>
      b.url in records && records[b.url].available && records[b.url].rawContent == ""
    ensures Fits(b.pc, c) && Settling(Resumed(b, records, c).body) ==> Settling(b)
  {
  }

  lemma StepKeepsAlone(w: World, a: Action)
    requires AllFit(w) && DecidesAlone(w.bodies) && OneInside(w.bodies)
    ensures DecidesAlone(Step(w, a).bodies)
  {
    var v := Step(w, a);
    if Enabled(w, a) && !a.AdmitUrl? {
      forall t, u | t in v.bodies && u in v.bodies && v.bodies[t].url == v.bodies[u].url && Settling(v.bodies[t])
        && Decisive(v.bodies[u])
        ensures t == u
      {
        match a
        case Call(_, _, _) =>
        case CancelWait(_) =>
        case Enter(task) =>
          MoveSettles(w.bodies[task], w.records, w.providers, StageFails);
          MovesKeepTask(w.bodies[task], w.records, w.providers, StageFails);
          assert u in w.bodies && RecordFits(w.bodies[u], w.records);
        case Resume(task, c) =>
          MoveSettles(w.bodies[task], w.records, w.providers, c);
          MovesKeepTask(w.bodies[task], w.records, w.providers, c);
          ResumeKeepsAlone(w, task, c, t, u);
      }
    }
  }

  lemma ResumeKeepsAlone(w: World, task: nat, c: Completion, t: nat, u: nat)
    requires AllFit(w) && DecidesAlone(w.bodies) && OneInside(w.bodies) && Enabled(w, Resume(task, c))
    requires var v := Step(w, Resume(task, c));
      t in v.bodies && u in v.bodies && v.bodies[t].url == v.bodies[u].url && Settling(v.bodies[t])
        && Decisive(v.bodies[u])
    ensures t == u
  {
    MoveSettles(w.bodies[task], w.records, w.providers, c);
    MovesKeepTask(w.bodies[task], w.records, w.providers, c);
    assert Settling(w.bodies[t]) && Settling(w.bodies[u]) && w.bodies[t].url == w.bodies[u].url;
  }

  // ----- whole runs -----

  ghost predicate Sound(w: World)
  {
    KeyedLocks.Sound(w.pool) && Linked(w) && AllFit(w) && DecidesAlone(w.bodies)
  }

  lemma StepKeepsSound(w: World, a: Action)
    requires Sound(w)
    ensures Sound(Step(w, a))
  {
    HolderIsAlone(w);
    StepKeepsPool(w, a);
    StepKeepsLinked(w, a);
    StepKeepsFits(w, a);
    StepKeepsAlone(w, a);
  }

  ghost function Run(providers: bool, actions: seq<Action>): World
  {
    Fold(Step, Initial(providers), actions)
  }

  lemma RunSound(providers: bool, actions: seq<Action>)
    ensures Sound(Run(providers, actions))
  {
    var inv := (w: World, done: seq<Action>) => Sound(w);
    forall w, front, a | inv(w, front) ensures inv(Step(w, a), front + [a]) {
      StepKeepsSound(w, a);
    }
    FoldKeeps(Step, Initial(providers), actions, inv);
  }

  /** At most one scheduler run per URL ever ends accepted or with a semantic failure; every other run
      ends in an execution failure, a raise or a cancellation. */
  lemma OneDecisiveRunPerUrl(providers: bool, actions: seq<Action>, t: nat, u: nat)
    requires var bodies := Run(providers, actions).bodies;
      t in bodies && u in bodies && bodies[t].url == bodies[u].url && Decisive(bodies[t]) && bodies[u].scheduled.Some?
    ensures t == u || var end := Run(providers, actions).bodies[u].scheduled.value;
      end.Raised? || end.WasCancelled? || end.outcome.kind.ExecutionFailure?
  {
    RunSound(providers, actions);
  }

  /** At most one task is in a URL's section, and when every task is done the lock pool is empty. */
  lemma SectionsExclude(providers: bool, actions: seq<Action>)
    ensures var w := Run(providers, actions);
      && OneInside(w.bodies)
      && ((forall t :: t in w.bodies ==> w.bodies[t].pc.Done?) ==>
          w.pool.tasks == map[] && w.pool.table.entries == map[])
  {
    var w := Run(providers, actions);
    RunSound(providers, actions);
    HolderIsAlone(w);
    if forall t :: t in w.bodies ==> w.bodies[t].pc.Done? {
      forall t ensures t !in w.pool.tasks { assert LinkedTask(w.pool.tasks, w.bodies, t); }
      assert forall k :: k in w.pool.table.entries ==> KeyedLocks.Users(w.pool.tasks, w.pool.table.entries[k]) != {};
    }
  }

  /** Every returned text is the URL's one stored content, or a summary of it, and that content passed
      the safety check in the task's own section; the unavailable message is returned for URLs marked
      unavailable only. No error that should not happen ever does. */
  lemma TextsPassedSafety(providers: bool, actions: seq<Action>, t: nat)
    requires t in Run(providers, actions).bodies && Run(providers, actions).bodies[t].pc.Done?
    ensures var w := Run(providers, actions); var b := w.bodies[t];
      && !b.pc.result.Impossible?
      && (b.pc.result.UnavailableMessage? ==> b.url in w.records && !w.records[b.url].available)
      && (b.pc.result.Content? || b.pc.result.Summary? ==>
            && b.url in w.records && w.records[b.url].content != ""
            && b.passed == Some(w.records[b.url].content))
      && (b.pc.result.Content? ==> b.focus.None? && b.pc.result.text == w.records[b.url].content)
      && (b.pc.result.Summary? ==>
          b.focus.Some? && b.pc.result.source == w.records[b.url].content && b.pc.result.text != "")
  {
    RunSound(providers, actions);
  }

  /** Any two unfocused fetches of a URL that return content return the same non-empty text. */
  lemma UnfocusedFetchesAgree(providers: bool, actions: seq<Action>, t: nat, u: nat)
    requires var bodies := Run(providers, actions).bodies;
      && t in bodies && u in bodies && bodies[t].url == bodies[u].url
      && bodies[t].pc.Done? && bodies[t].pc.result.Content?
      && bodies[u].pc.Done? && bodies[u].pc.result.Content?
    ensures var bodies := Run(providers, actions).bodies;
      bodies[t].pc.result.text == bodies[u].pc.result.text != ""
  {
    TextsPassedSafety(providers, actions, t);
    TextsPassedSafety(providers, actions, u);
  }

  /** `url` is unavailable, and the tasks that were not yet done then call no stage. */
  ghost predicate Quiet(w: World, url: Url, done: set<nat>)
  {
    && url in w.records && !w.records[url].available
    && forall t :: t in w.bodies && t !in done && w.bodies[t].url == url ==>
         && w.bodies[t].calls == 0
         && (w.bodies[t].pc.WaitLock? || w.bodies[t].pc == Done(UnavailableMessage)
             || w.bodies[t].pc == Done(Cancelled))
  }

  lemma StepKeepsQuiet(w: World, a: Action, url: Url, done: set<nat>)
    requires Quiet(w, url, done) && (forall t :: t in done ==> t in w.bodies && w.bodies[t].pc.Done?)
    ensures Quiet(Step(w, a), url, done)
        && (forall t :: t in done ==> t in Step(w, a).bodies && Step(w, a).bodies[t].pc.Done?)
  {
    if Enabled(w, a) {
      match a
      case AdmitUrl(other, summary, rawContent, content) =>
        ApplyExtends(w.records, Admit(other, summary, rawContent, content));
      case Call(_, _, _) =>
      case CancelWait(_) =>
      case Enter(_) =>
      case Resume(task, c) => ResumeKeepsQuiet(w, task, c, url, done);
    }
  }

  lemma ResumeKeepsQuiet(w: World, task: nat, c: Completion, url: Url, done: set<nat>)
    requires Quiet(w, url, done) && (forall t :: t in done ==> t in w.bodies && w.bodies[t].pc.Done?)
    requires Enabled(w, Resume(task, c))
    ensures var v := Step(w, Resume(task, c));
      Quiet(v, url, done) && forall t :: t in done ==> t in v.bodies && v.bodies[t].pc.Done?
  {
    var ops := Resumed(w.bodies[task], w.records, c).ops;
    MovesKeepTask(w.bodies[task], w.records, w.providers, c);
    assert Inside(w.bodies[task].pc) && task !in done && w.bodies[task].url != url;
    if ops != [] { ApplyExtends(w.records, ops[0]); }
  }

  function DoneTasks(bodies: map<nat, Body>): set<nat>
  {
    set t | t in bodies && bodies[t].pc.Done?
  }

  /** Once a URL is unavailable, no stage runs for it any more: every task not yet done returns the
      unavailable message without a provider or model call, unless it is cancelled while waiting. */
  lemma UnavailableIsFinal(providers: bool, actions: seq<Action>, later: seq<Action>, url: Url)
    requires var w := Run(providers, actions); url in w.records && !w.records[url].available
    ensures Quiet(Run(providers, actions + later), url, DoneTasks(Run(providers, actions).bodies))
  {
    var w := Run(providers, actions);
    var done := DoneTasks(w.bodies);
    RunSound(providers, actions);
    var inv := (v: World, past: seq<Action>) =>
      Quiet(v, url, done) && (forall t :: t in done ==> t in v.bodies && v.bodies[t].pc.Done?);
    assert inv(w, []) by {
      forall t | t in w.bodies && t !in done && w.bodies[t].url == url
        ensures w.bodies[t].pc.WaitLock? && w.bodies[t].calls == 0
      {
        assert RecordFits(w.bodies[t], w.records) && TaskFits(w.bodies[t]);
      }
    }
    forall v, front, a | inv(v, front) ensures inv(Step(v, a), front + [a]) {
      StepKeepsQuiet(v, a, url, done);
    }
    FoldKeeps(Step, w, later, inv);
    FoldConcat(Step, Initial(providers), actions, later);
  }

  // ----- what a run's actions do to the records and to the tasks -----

  /** A stage of a task of `url` rejects it: no fetched candidate was good, or the content is not safe. */
  predicate Rejects(w: World, a: Action, url: Url)
  {
    a.Resume? && a.task in w.bodies && w.bodies[a.task].url == url
    && var b := w.bodies[a.task];
       || (b.pc.Scheduling? && a.completion.SchedulerEnded? && FetchScheduler.PossibleEnd(a.completion.end)
           && FetchScheduler.RejectsSemantically(a.completion.end))
       || (b.pc.Safety? && a.completion == Decision(false))
  }

  /** A scheduler run of a task of `url` accepts a candidate. */
  predicate Accepts(w: World, a: Action)
  {
    && a.Resume? && a.task in w.bodies && w.bodies[a.task].pc.Scheduling?
    && a.completion.SchedulerEnded? && FetchScheduler.PossibleEnd(a.completion.end)
    && FetchScheduler.Accepts(a.completion.end)
  }

  predicate Cleans(w: World, a: Action)
  {
    && a.Resume? && a.task in w.bodies && w.bodies[a.task].pc.Cleaning?
    && a.completion.StageText? && a.completion.text != ""
  }

  /** What an action offers to the store. */
  function Effects(w: World, a: Action): seq<Op>
  {
    match a
    case AdmitUrl(url, summary, rawContent, content) => [Admit(url, summary, rawContent, content)]
    case Resume(task, completion) =>
      if task !in w.bodies then []
      else if Accepts(w, a) then
        var candidate := completion.end.outcome.candidate.value;
        [MergeBody(w.bodies[task].url, candidate.rawContent, candidate.content)]
      else if Cleans(w, a) then [MergeBody(w.bodies[task].url, "", completion.text)]
      else if Rejects(w, a, w.bodies[task].url) then [MarkUnavailable(w.bodies[task].url)]
      else []
    case _ => []
  }

  lemma StepRecords(w: World, a: Action)
    requires AllFit(w)
    ensures Step(w, a).records == After(w.records, Effects(w, a))
  {
    if a.Resume? && a.task in w.bodies {
      assert RecordFits(w.bodies[a.task], w.records);
    }
  }

  /** What the actions of a run offered to the store, in order. */
  ghost function History(providers: bool, actions: seq<Action>): seq<Op>
  {
    if actions == [] then []
    else
      var front, last := actions[..|actions| - 1], actions[|actions| - 1];
      History(providers, front) + Effects(Run(providers, front), last)
  }

  lemma ReplayMore(history: seq<Op>, ops: seq<Op>)
    requires |ops| <= 1
    ensures Replay(history + ops) == After(Replay(history), ops)
  {
    if ops == [] {
      assert history + ops == history;
    } else {
      FoldNext(Apply, NO_RECORDS, history, ops[0]);
      assert history + ops == history + [ops[0]];
    }
  }

  /** The records are exactly what the searches, the accepted candidates, the cleaned texts and the
      rejections of a run make of them; no other action touches them. */
  lemma {:induction false} RecordsReplayHistory(providers: bool, actions: seq<Action>)
    ensures Run(providers, actions).records == Replay(History(providers, actions))
  {
    if actions == [] {
    } else {
      var front, last := actions[..|actions| - 1], actions[|actions| - 1];
      RecordsReplayHistory(providers, front);
      RunSound(providers, front);
      StepRecords(Run(providers, front), last);
      ReplayMore(History(providers, front), Effects(Run(providers, front), last));
    }
  }

  function RejectsUrl(url: Url): (World, Action) -> bool
  {
    (w, a) => Rejects(w, a, url)
  }

  predicate Unavailable(records: Records, url: Url)
  {
    url in records && !records[url].available
  }

  lemma StepUnavailable(w: World, a: Action, url: Url)
    requires AllFit(w)
    ensures Unavailable(Step(w, a).records, url) <==> Unavailable(w.records, url) || Rejects(w, a, url)
  {
    StepRecords(w, a);
    if a.Resume? && a.task in w.bodies {
      assert RecordFits(w.bodies[a.task], w.records);
    }
  }

  /** A URL is unavailable exactly when a stage of one of its tasks rejected it: a failure to execute,
      a raise or a cancellation never marks it. */
  lemma {:induction false} UnavailableIffRejected(providers: bool, actions: seq<Action>, url: Url)
    ensures Unavailable(Run(providers, actions).records, url) <==>
            Happened(Step, Initial(providers), actions, RejectsUrl(url))
  {
    if actions == [] {
    } else {
      var front, last := actions[..|actions| - 1], actions[|actions| - 1];
      UnavailableIffRejected(providers, front, url);
      RunSound(providers, front);
      StepUnavailable(Run(providers, front), last, url);
      HappenedNext(Step, Initial(providers), actions, RejectsUrl(url));
    }
  }

  /** The task's stage failed, its scheduler run raised or every provider of it failed. */
  predicate StageFailed(b: Body, c: Completion)
  {
    || (c.StageFails? && !b.pc.Scheduling?)
    || (b.pc.Scheduling? && c.SchedulerEnded? && (c.end.Raised? || FetchScheduler.FailsToExecute(c.end)))
  }

  predicate StageWasCancelled(b: Body, c: Completion)
  {
    (c.StageCancelled? && !b.pc.Scheduling?) || (b.pc.Scheduling? && c.SchedulerEnded? && c.end.WasCancelled?)
  }

  /** What a task finds when it gets the lock: an admitted, available URL with these bodies. */
  predicate Finds(w: World, url: Url, rawContent: string, content: string)
  {
    url in w.records && w.records[url].available
      && w.records[url].rawContent == rawContent && w.records[url].content == content
  }

  predicate FindsNoBody(w: World, url: Url)
  {
    Finds(w, url, "", "")
  }

  /** The action brings the task to `pc`. */
  ghost predicate Brings(w: World, a: Action, task: nat, pc: Pc)
  {
    Enabled(w, a) && !a.AdmitUrl? && a.task == task
    && match a
       case Call(_, _, _) => pc.WaitLock?
       case CancelWait(_) => pc == Done(Cancelled)
       case Enter(_) => EnterBrings(w, w.bodies[task].url, pc)
       case Resume(_, c) =>
         if pc.Done? then Finishes(w, a, w.bodies[task], c, pc.result) else GoesOn(w, a, w.bodies[task], c, pc)
  }

  ghost predicate EnterBrings(w: World, url: Url, pc: Pc)
  {
    match pc
    case Done(NotAdmitted) => url !in w.records
    case Done(UnavailableMessage) => Unavailable(w.records, url)
    case Done(Failed) => FindsNoBody(w, url) && !w.providers
    case Scheduling => FindsNoBody(w, url) && w.providers
    case Cleaning(rawContent) => rawContent != "" && Finds(w, url, rawContent, "")
    case Safety(content) => content != "" && exists rawContent :: Finds(w, url, rawContent, content)
    case _ => false
  }

  ghost predicate Finishes(w: World, a: Action, b: Body, c: Completion, result: Result)
  {
    match result
    case UnavailableMessage => Rejects(w, a, b.url)
    case Failed => StageFailed(b, c)
    case Cancelled => StageWasCancelled(b, c)
    case Content(text) => b.pc == Safety(text) && c == Decision(true) && b.focus.None?
    case Summary(text, source) => b.pc == Focusing(source) && c == StageText(text)
    case _ => false
  }

  /** The task goes on with the record as the action leaves it. */
  ghost predicate GoesOn(w: World, a: Action, b: Body, c: Completion, pc: Pc)
  {
    var records := After(w.records, Effects(w, a));
    match pc
    case Cleaning(rawContent) =>
      Accepts(w, a) && b.url in records && records[b.url].content == "" && records[b.url].rawContent == rawContent
    case Safety(content) =>
      (Accepts(w, a) || Cleans(w, a)) && content != "" && b.url in records && records[b.url].content == content
    case Focusing(content) => b.pc == Safety(content) && c == Decision(true) && b.focus.Some?
    case _ => false
  }

  predicate IsAt(w: World, task: nat, pc: Pc)
  {
    task in w.bodies && w.bodies[task].pc == pc
  }

  predicate Acts(w: World, a: Action, task: nat)
  {
    Enabled(w, a) && !a.AdmitUrl? && a.task == task
  }

  lemma EnterMeaning(w: World, task: nat, pc: Pc)
    requires Enabled(w, Enter(task))
    ensures IsAt(Step(w, Enter(task)), task, pc) <==> EnterBrings(w, w.bodies[task].url, pc)
  {
    var url := w.bodies[task].url;
    if url in w.records {
      assert w.records[url].available ==> Finds(w, url, w.records[url].rawContent, w.records[url].content);
    }
  }

  lemma ResumeFinishes(w: World, task: nat, c: Completion, result: Result)
    requires AllFit(w) && Enabled(w, Resume(task, c))
    ensures IsAt(Step(w, Resume(task, c)), task, Done(result)) <==>
            Finishes(w, Resume(task, c), w.bodies[task], c, result)
  {
    assert RecordFits(w.bodies[task], w.records) && TaskFits(w.bodies[task]);
  }

  lemma ResumeGoesOn(w: World, task: nat, c: Completion, pc: Pc)
    requires AllFit(w) && Enabled(w, Resume(task, c)) && !pc.Done?
    ensures IsAt(Step(w, Resume(task, c)), task, pc) <==> GoesOn(w, Resume(task, c), w.bodies[task], c, pc)
  {
    assert RecordFits(w.bodies[task], w.records) && TaskFits(w.bodies[task]);
    StepRecords(w, Resume(task, c));
  }

  /** After a step a task is at `pc` exactly when it was there and did not act, or its action brings it there. */
  lemma StepPc(w: World, a: Action, task: nat, pc: Pc)
    requires AllFit(w)
    ensures IsAt(Step(w, a), task, pc) <==> (IsAt(w, task, pc) && !Acts(w, a, task)) || Brings(w, a, task, pc)
  {
    if Acts(w, a, task) {
      match a
      case Enter(_) => EnterMeaning(w, task, pc);
      case Resume(_, c) =>
        if pc.Done? { ResumeFinishes(w, task, c, pc.result); } else { ResumeGoesOn(w, task, c, pc); }
      case _ =>
    } else if task in w.bodies {
      StepFrame(w, a, task);
    }
  }

  ghost function BringsTo(task: nat, pc: Pc): (World, Action) -> bool
  {
    (w, a) => Brings(w, a, task, pc)
  }

  /** A task ends with a result exactly when one of its actions brought it there: it failed exactly when a
      stage of it failed or there was no provider to ask, it returned a content exactly when that passed
      the safety check, and so on for each result. */
  lemma {:induction false} ResultIff(providers: bool, actions: seq<Action>, task: nat, result: Result)
    ensures IsAt(Run(providers, actions), task, Done(result)) <==>
            Happened(Step, Initial(providers), actions, BringsTo(task, Done(result)))
  {
    if actions == [] {
    } else {
      var front, last := actions[..|actions| - 1], actions[|actions| - 1];
      ResultIff(providers, front, task, result);
      RunSound(providers, front);
      StepPc(Run(providers, front), last, task, Done(result));
      HappenedNext(Step, Initial(providers), actions, BringsTo(task, Done(result)));
    }
  }

  /** A scheduler run that raised, or whose every provider failed, ends its task and leaves the records as
      they were, so a later fetch can succeed. */
  lemma FailedRunLeavesRecords(providers: bool, actions: seq<Action>, task: nat, end: FetchScheduler.End)
    requires Enabled(Run(providers, actions), Resume(task, SchedulerEnded(end)))
    requires end.Raised? || FetchScheduler.FailsToExecute(end)
    ensures var w := Run(providers, actions + [Resume(task, SchedulerEnded(end))]);
      IsAt(w, task, Done(Failed)) && w.records == Run(providers, actions).records
  {
    var w, a := Run(providers, actions), Resume(task, SchedulerEnded(end));
    RunSound(providers, actions);
    RunNext(providers, actions, a);
    StepPc(w, a, task, Done(Failed));
    StepRecords(w, a);
  }

  /** The scheduler run of the task comes back with `end`. */
  function SchedulerEnds(task: nat, end: FetchScheduler.End): (World, Action) -> bool
  {
    (w, a) => Acts(w, a, task) && a == Resume(task, SchedulerEnded(end))
  }

  /** The task's safety check passes `content`. */
  function PassesSafety(task: nat, content: string): (World, Action) -> bool
  {
    (w, a) => Acts(w, a, task) && IsAt(w, task, Safety(content)) && a == Resume(task, Decision(true))
  }

  predicate Scheduled(w: World, task: nat, end: FetchScheduler.End)
  {
    task in w.bodies && w.bodies[task].scheduled == Some(end)
  }

  predicate Passed(w: World, task: nat, content: string)
  {
    task in w.bodies && w.bodies[task].passed == Some(content)
  }

  lemma MoveRemembers(b: Body, records: Records, providers: bool, c: Completion)
    ensures var e := Entered(b, records, providers); e.scheduled == b.scheduled && e.passed == b.passed
    ensures Fits(b.pc, c) ==>
      var r := Resumed(b, records, c).body;
      && r.scheduled == (if c.SchedulerEnded? then Some(c.end) else b.scheduled)
      && r.passed == (if c == Decision(true) then Some(b.pc.content) else b.passed)
  {
  }

  /** Only the end of its scheduler run and the end of its safety check give a task something to remember. */
  lemma StepRemembers(w: World, a: Action, task: nat)
    requires AllFit(w) && task in w.bodies
    ensures task in Step(w, a).bodies
    ensures var b, v := w.bodies[task], Step(w, a).bodies[task];
      && v.scheduled == (if Acts(w, a, task) && a.Resume? && a.completion.SchedulerEnded? then Some(a.completion.end)
                         else b.scheduled)
      && v.passed == (if Acts(w, a, task) && a.Resume? && a.completion == Decision(true) then Some(b.pc.content)
                      else b.passed)
  {
    if Acts(w, a, task) {
      match a
      case Enter(_) => MoveRemembers(w.bodies[task], w.records, w.providers, StageFails);
      case Resume(_, c) => MoveRemembers(w.bodies[task], w.records, w.providers, c);
      case _ =>
    } else {
      StepFrame(w, a, task);
    }
  }

  lemma StepScheduled(w: World, a: Action, task: nat, end: FetchScheduler.End)
    requires AllFit(w)
    ensures Scheduled(Step(w, a), task, end) <==> Scheduled(w, task, end) || SchedulerEnds(task, end)(w, a)
  {
    if task in w.bodies {
      assert TaskFits(w.bodies[task]);
      StepRemembers(w, a, task);
    }
  }

  lemma StepPassed(w: World, a: Action, task: nat, content: string)
    requires AllFit(w)
    ensures Passed(Step(w, a), task, content) <==> Passed(w, task, content) || PassesSafety(task, content)(w, a)
  {
    if task in w.bodies {
      assert TaskFits(w.bodies[task]);
      StepRemembers(w, a, task);
    }
  }

  /** A task starts a stage whenever it acts and does not end. */
  lemma StepCalls(w: World, a: Action, task: nat)
    requires AllFit(w) && task in w.bodies
    ensures task in Step(w, a).bodies
    ensures var v := Step(w, a).bodies[task];
      v.calls == w.bodies[task].calls + (if Acts(w, a, task) && !v.pc.Done? then 1 else 0)
  {
    assert TaskFits(w.bodies[task]) && RecordFits(w.bodies[task], w.records);
    if !Acts(w, a, task) { StepFrame(w, a, task); }
  }

  /** What a task remembers of its scheduler run is how the run ended. */
  lemma {:induction false} ScheduledIff(providers: bool, actions: seq<Action>, task: nat, end: FetchScheduler.End)
    ensures Scheduled(Run(providers, actions), task, end) <==>
            Happened(Step, Initial(providers), actions, SchedulerEnds(task, end))
  {
    if actions == [] {
    } else {
      var front, last := actions[..|actions| - 1], actions[|actions| - 1];
      ScheduledIff(providers, front, task, end);
      RunSound(providers, front);
      StepScheduled(Run(providers, front), last, task, end);
      HappenedNext(Step, Initial(providers), actions, SchedulerEnds(task, end));
    }
  }

  /** What a task remembers as safe is what its safety check passed. */
  lemma {:induction false} PassedIff(providers: bool, actions: seq<Action>, task: nat, content: string)
    ensures Passed(Run(providers, actions), task, content) <==>
            Happened(Step, Initial(providers), actions, PassesSafety(task, content))
  {
    if actions == [] {
    } else {
      var front, last := actions[..|actions| - 1], actions[|actions| - 1];
      PassedIff(providers, front, task, content);
      RunSound(providers, front);
      StepPassed(Run(providers, front), last, task, content);
      HappenedNext(Step, Initial(providers), actions, PassesSafety(task, content));
    }
  }

  /** What a task was called with. */
  predicate CalledWith(w: World, task: nat, url: Url, focus: Focus)
  {
    task in w.bodies && w.bodies[task].url == url && w.bodies[task].focus == focus
  }

  function IsCall(task: nat, url: Url, focus: Focus): (World, Action) -> bool
  {
    (w, a) => Acts(w, a, task) && a == Call(task, url, focus)
  }

  lemma StepCalledWith(w: World, a: Action, task: nat, url: Url, focus: Focus)
    ensures CalledWith(Step(w, a), task, url, focus) <==>
            CalledWith(w, task, url, focus) || IsCall(task, url, focus)(w, a)
  {
    if task in w.bodies { StepFrame(w, a, task); }
  }

  /** A task works on the URL and the focus of its one call. */
  lemma {:induction false} CalledWithIff(providers: bool, actions: seq<Action>, task: nat, url: Url, focus: Focus)
    ensures CalledWith(Run(providers, actions), task, url, focus) <==>
            Happened(Step, Initial(providers), actions, IsCall(task, url, focus))
  {
    if actions == [] {
    } else {
      var front, last := actions[..|actions| - 1], actions[|actions| - 1];
      CalledWithIff(providers, front, task, url, focus);
      StepCalledWith(Run(providers, front), last, task, url, focus);
      HappenedNext(Step, Initial(providers), actions, IsCall(task, url, focus));
    }
  }

  /** A waiting task can enter its section exactly when no task is in a section of its URL: the lock is
      given back however a section ends. */
  lemma EntersIff(providers: bool, actions: seq<Action>, task: nat)
    requires IsAt(Run(providers, actions), task, WaitLock)
    ensures var w := Run(providers, actions);
      Enabled(w, Enter(task)) <==>
        forall u :: u in w.bodies && w.bodies[u].url == w.bodies[task].url ==> !Inside(w.bodies[u].pc)
  {
    var w := Run(providers, actions);
    RunSound(providers, actions);
    assert LinkedTask(w.pool.tasks, w.bodies, task);
    KeyedLocks.FreeIffUnheld(w.pool, task);
    var tasks, url := w.pool.tasks, w.bodies[task].url;
    forall u
      ensures u in tasks && tasks[u].key == url && tasks[u].Holding? <==>
              u in w.bodies && w.bodies[u].url == url && Inside(w.bodies[u].pc)
    {
      assert LinkedTask(tasks, w.bodies, u);
    }
  }

  // ----- a run that returns content -----

  lemma RunNext(providers: bool, front: seq<Action>, a: Action)
    ensures Run(providers, front + [a]) == Step(Run(providers, front), a)
  {
    FoldNext(Step, Initial(providers), front, a);
  }

  function FetchedOnce(content: string): FetchScheduler.End
  {
    FetchScheduler.Returned(FetchScheduler.FetchOutcome(FetchScheduler.Accepted,
      Some(FetchScheduler.Candidate(content, content)), []))
  }

  /** A task that waits for a free lock, on an admitted URL without content, goes on to its scheduler. */
  lemma SchedulesWhenFree(w: World, task: nat)
    requires Enabled(w, Enter(task)) && w.providers
    requires var b := w.bodies[task];
      b.url in w.records && w.records[b.url].available && w.records[b.url].content == ""
        && w.records[b.url].rawContent == ""
    ensures Step(w, Enter(task)).bodies[task] == Starts(w.bodies[task], Scheduling)
    ensures Step(w, Enter(task)).records == w.records
  {
  }

  lemma AdmittedAndCalled(url: Url)
    ensures var w := Run(true, [AdmitUrl(url, "a", "", ""), Call(0, url, None)]);
      && w.records == map[url := URLRecord(url, "", "", "a", true)] && w.providers
      && 0 in w.bodies && w.bodies[0] == Body(url, None, WaitLock, 0, None, None)
      && Enabled(w, Enter(0))
  {
    RunNext(true, [], AdmitUrl(url, "a", "", ""));
    assert Run(true, [AdmitUrl(url, "a", "", "")]) ==
      Initial(true).(records := map[url := URLRecord(url, "", "", "a", true)]) by {
      assert [] + [AdmitUrl(url, "a", "", "")] == [AdmitUrl(url, "a", "", "")];
    }
    RunNext(true, [AdmitUrl(url, "a", "", "")], Call(0, url, None));
    assert [AdmitUrl(url, "a", "", "")] + [Call(0, url, None)] == [AdmitUrl(url, "a", "", ""), Call(0, url, None)];
  }

  /** For any content that is not blank there is a run in which a fetch returns it. */
  lemma FetchCanReturnContent(url: Url, content: string)
    requires FetchScheduler.CheapCheck(content)
    ensures exists actions ::
        0 in Run(true, actions).bodies && Run(true, actions).bodies[0].pc == Done(Content(content))
  {
    var a2 := [AdmitUrl(url, "a", "", ""), Call(0, url, None)];
    var a3 := a2 + [Enter(0)];
    var a4 := a3 + [Resume(0, SchedulerEnded(FetchedOnce(content)))];
    var a5 := a4 + [Resume(0, Decision(true))];
    AdmittedAndCalled(url);
    SchedulesWhenFree(Run(true, a2), 0);
    RunNext(true, a2, Enter(0));
    RunNext(true, a3, Resume(0, SchedulerEnded(FetchedOnce(content))));
    RunNext(true, a4, Resume(0, Decision(true)));
    assert Run(true, a4).bodies[0].pc == Safety(content);
    assert Run(true, a5).bodies[0].pc == Done(Content(content));
  }
}
