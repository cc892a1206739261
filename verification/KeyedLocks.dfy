/** The reference-counted lock pool (concurrency.py, lines 212-263). The bodies under the pool's guard
    await nothing, so reserving and unreserving are atomic; waiting for an entry's lock is not. */
module KeyedLocks {
  import opened Folds

  // ----- the guarded bodies, on values -----

  /** The pool's entries; an entry object is named by the order of its creation. */
  datatype Table = Table(entries: map<string, nat>, references: map<nat, nat>, created: nat)

  function Reserved(table: Table, key: string): Table
  {
    if key in table.entries then
      var entry := table.entries[key];
      table.(references := table.references[entry := References(table, entry) + 1])
    else
      Table(table.entries[key := table.created], table.references[table.created := 1], table.created + 1)
  }

  function References(table: Table, entry: nat): nat
  {
    if entry in table.references then table.references[entry] else 0
  }

  /** Whether unreserving would find the entry missing from the mapping, or not referenced at all. */
  predicate UnreserveFails(table: Table, key: string, entry: nat)
  {
    References(table, entry) == 0 || (References(table, entry) == 1 && key !in table.entries)
  }

  function Unreserved(table: Table, key: string, entry: nat): Table
    requires References(table, entry) > 0
  {
    var left := table.(references := table.references[entry := References(table, entry) - 1]);
    if References(table, entry) == 1 then left.(entries := left.entries - {key}) else left
  }

  class PerKeyLockPool {
    var entries: map<string, nat>
    var references: map<nat, nat>
    var created: nat

    function State(): Table
      reads this
    {
      Table(entries, references, created)
    }

    constructor ()
      ensures State() == Table(map[], map[], 0)
    {
      entries, references, created := map[], map[], 0;
    }

    method Reserve(key: string) returns (entry: nat)
      modifies this
      ensures State() == Reserved(old(State()), key)
      ensures key in entries && entry == entries[key]
    {
      if key !in entries {
        entries := entries[key := created];
        references := references[created := 0];
        created := created + 1;
      }
      entry := entries[key];
      references := references[entry := References(State(), entry) + 1];
    }

    method Unreserve(key: string, entry: nat)
      requires !UnreserveFails(State(), key, entry)
      modifies this
      ensures State() == Unreserved(old(State()), key, entry)
    {
      references := references[entry := References(State(), entry) - 1];
      if references[entry] == 0 {
        entries := entries - {key};
      }
    }
  }

  // ----- every interleaving -----

  /** A task that has reserved `key`: it waits for the entry's lock, or holds it. */
  datatype Task = Waiting(key: string, entry: nat) | Holding(key: string, entry: nat)

  /** `failed` records a missing entry, a negative count, or the release of a lock not held. */
  datatype Pool = Pool(table: Table, locked: set<nat>, tasks: map<nat, Task>, failed: bool)

  datatype Action =
    | Reserve(task: nat, key: string)
    | Acquire(task: nat)
    | CancelWait(task: nat)
    | Release(task: nat)

  function Leave(p: Pool, task: nat): Pool
    requires task in p.tasks
  {
    var t := p.tasks[task];
    if UnreserveFails(p.table, t.key, t.entry) then p.(tasks := p.tasks - {task}, failed := true)
    else p.(table := Unreserved(p.table, t.key, t.entry), tasks := p.tasks - {task})
  }

  /** One atomic step; an action that is not possible in `p` leaves it unchanged. */
  function Step(p: Pool, a: Action): Pool
  {
    match a
    case Reserve(task, key) =>
      if task in p.tasks then p
      else
        var table := Reserved(p.table, key);
        p.(table := table, tasks := p.tasks[task := Waiting(key, table.entries[key])])
    case Acquire(task) =>
      if task in p.tasks && p.tasks[task].Waiting? && p.tasks[task].entry !in p.locked then
        p.(locked := p.locked + {p.tasks[task].entry},
          tasks := p.tasks[task := Holding(p.tasks[task].key, p.tasks[task].entry)])
      else p
    case CancelWait(task) =>
      if task in p.tasks && p.tasks[task].Waiting? then Leave(p, task) else p
    case Release(task) =>
      if task in p.tasks && p.tasks[task].Holding? then
        Leave(p.(locked := p.locked - {p.tasks[task].entry}, failed := p.failed || p.tasks[task].entry !in p.locked),
          task)
      else p
  }

  const EMPTY_POOL := Pool(Table(map[], map[], 0), {}, map[], false)

  ghost function Users(tasks: map<nat, Task>, entry: nat): set<nat>
  {
    set t | t in tasks && tasks[t].entry == entry
  }

  /** All reservers of a key share the mapped entry. */
  ghost predicate Shared(table: Table, tasks: map<nat, Task>)
  {
    forall t :: t in tasks ==> tasks[t].key in table.entries && table.entries[tasks[t].key] == tasks[t].entry
  }

  /** No entry is mapped from two keys, and new entries are new. */
  ghost predicate Distinct(table: Table)
  {
    && (forall k :: k in table.entries ==> table.entries[k] < table.created)
    && (forall j, k :: j in table.entries && k in table.entries && table.entries[j] == table.entries[k] ==> j == k)
  }

  /** A mapped entry is referenced once for each holder and waiter, and there is one. */
  ghost predicate Counted(table: Table, tasks: map<nat, Task>)
  {
    forall k :: k in table.entries ==> References(table, table.entries[k]) == |Users(tasks, table.entries[k])| > 0
  }

  ghost predicate Referenced(table: Table, tasks: map<nat, Task>)
  {
    Shared(table, tasks) && Distinct(table) && Counted(table, tasks)
  }

  ghost function HeldEntries(tasks: map<nat, Task>): set<nat>
  {
    set t | t in tasks && tasks[t].Holding? :: tasks[t].entry
  }

  /** An entry's lock is locked exactly while a task holds it, and by at most one. */
  ghost predicate Exclusive(locked: set<nat>, tasks: map<nat, Task>)
  {
    && locked == HeldEntries(tasks)
    && (forall t, u ::
        t in tasks && u in tasks && tasks[t].Holding? && tasks[u].Holding? && tasks[t].entry == tasks[u].entry ==>
          t == u)
  }

  ghost predicate Sound(p: Pool)
  {
    Referenced(p.table, p.tasks) && Exclusive(p.locked, p.tasks) && !p.failed
  }

  lemma UsersAdded(tasks: map<nat, Task>, task: nat, added: Task)
    requires task !in tasks
    ensures Users(tasks[task := added], added.entry) == Users(tasks, added.entry) + {task}
    ensures forall e :: e != added.entry ==> Users(tasks[task := added], e) == Users(tasks, e)
  {
  }

  lemma UsersRemoved(tasks: map<nat, Task>, task: nat)
    requires task in tasks
    ensures task in Users(tasks, tasks[task].entry)
    ensures Users(tasks - {task}, tasks[task].entry) == Users(tasks, tasks[task].entry) - {task}
    ensures forall e :: e != tasks[task].entry ==> Users(tasks - {task}, e) == Users(tasks, e)
  {
  }

  lemma NewEntryUnused(table: Table, tasks: map<nat, Task>)
    requires Shared(table, tasks) && Distinct(table)
    ensures Users(tasks, table.created) == {}
  {
    assert forall t :: t in tasks ==> tasks[t].entry < table.created;
  }

  lemma ReserveMapped(table: Table, tasks: map<nat, Task>, task: nat, key: string)
    requires Referenced(table, tasks) && task !in tasks && key in table.entries
    ensures Referenced(Reserved(table, key), tasks[task := Waiting(key, table.entries[key])])
  {
    var entry := table.entries[key];
    var joined := tasks[task := Waiting(key, entry)];
    UsersAdded(tasks, task, Waiting(key, entry));
    forall k | k in table.entries
      ensures References(Reserved(table, key), table.entries[k]) == |Users(joined, table.entries[k])| > 0
    {
      assert table.entries[k] == entry || Users(joined, table.entries[k]) == Users(tasks, table.entries[k]);
    }
  }

  lemma ReserveNew(table: Table, tasks: map<nat, Task>, task: nat, key: string)
    requires Referenced(table, tasks) && task !in tasks && key !in table.entries
    ensures Referenced(Reserved(table, key), tasks[task := Waiting(key, table.created)])
  {
    var entry := table.created;
    var joined, after := tasks[task := Waiting(key, entry)], Reserved(table, key);
    UsersAdded(tasks, task, Waiting(key, entry));
    NewEntryUnused(table, tasks);
    assert Users(joined, entry) == {task};
    forall k | k in after.entries
      ensures References(after, after.entries[k]) == |Users(joined, after.entries[k])| > 0
    {
      assert k == key
        || (after.entries[k] == table.entries[k] != entry
            && Users(joined, after.entries[k]) == Users(tasks, after.entries[k]));
    }
  }

  /** The last user of a key takes its entry out of the mapping; no other entry changes. */
  lemma LeaveKeepsReferenced(table: Table, tasks: map<nat, Task>, task: nat)
    requires Referenced(table, tasks) && task in tasks
    ensures !UnreserveFails(table, tasks[task].key, tasks[task].entry)
    ensures Referenced(Unreserved(table, tasks[task].key, tasks[task].entry), tasks - {task})
  {
    var key, entry := tasks[task].key, tasks[task].entry;
    UsersRemoved(tasks, task);
    assert table.entries[key] == entry;
    var after := Unreserved(table, key, entry);
    if References(table, entry) == 1 {
      assert |Users(tasks, entry) - {task}| == 0;
      forall t | t in tasks - {task} ensures tasks[t].key != key {
        assert t !in Users(tasks - {task}, entry);
      }
    }
    assert Shared(after, tasks - {task});
    assert Counted(after, tasks - {task});
  }

  lemma ReserveKeepsExclusive(locked: set<nat>, tasks: map<nat, Task>, task: nat, added: Task)
    requires Exclusive(locked, tasks) && task !in tasks && added.Waiting?
    ensures Exclusive(locked, tasks[task := added])
  {
    var after := tasks[task := added];
    assert forall t :: t in tasks ==> t in after && after[t] == tasks[t];
    assert HeldEntries(after) == HeldEntries(tasks);
  }

  lemma AcquireKeepsExclusive(locked: set<nat>, tasks: map<nat, Task>, task: nat)
    requires Exclusive(locked, tasks) && task in tasks && tasks[task].Waiting? && tasks[task].entry !in locked
    ensures Exclusive(locked + {tasks[task].entry}, tasks[task := Holding(tasks[task].key, tasks[task].entry)])
  {
    var after := tasks[task := Holding(tasks[task].key, tasks[task].entry)];
    assert forall t :: t in tasks && t != task ==> after[t] == tasks[t];
    forall t | t in tasks && tasks[t].Holding? ensures tasks[t].entry in HeldEntries(after) {
      assert after[t] == tasks[t];
    }
    assert after[task].entry in HeldEntries(after);
    forall t | t in tasks && tasks[t].Holding? ensures tasks[t].entry != tasks[task].entry {
      assert tasks[t].entry in HeldEntries(tasks);
    }
  }

  lemma LeaveKeepsExclusive(locked: set<nat>, tasks: map<nat, Task>, task: nat)
    requires Exclusive(locked, tasks) && task in tasks
    ensures Exclusive(if tasks[task].Holding? then locked - {tasks[task].entry} else locked, tasks - {task})
    ensures tasks[task].Holding? ==> tasks[task].entry in locked
  {
    var after := tasks - {task};
    assert forall t :: t in tasks && t != task ==> t in after && after[t] == tasks[t];
    forall e | e in HeldEntries(tasks) && (tasks[task].Waiting? || e != tasks[task].entry)
      ensures e in HeldEntries(after)
    {
      var t :| t in tasks && tasks[t].Holding? && tasks[t].entry == e;
      assert t in after && after[t].entry == e;
    }
  }

  lemma StepKeepsSound(p: Pool, a: Action)
    requires Sound(p)
    ensures Sound(Step(p, a))
  {
    var task := a.task;
    match a
    case Reserve(_, key) =>
      if task !in p.tasks {
        if key in p.table.entries {
          ReserveMapped(p.table, p.tasks, task, key);
        } else {
          ReserveNew(p.table, p.tasks, task, key);
        }
        ReserveKeepsExclusive(p.locked, p.tasks, task, Waiting(key, Reserved(p.table, key).entries[key]));
      }
    case Acquire(_) =>
      if Step(p, a) != p {
        AcquireKeepsExclusive(p.locked, p.tasks, task);
        AcquireKeepsReferenced(p.table, p.tasks, task);
      }
    case CancelWait(_) =>
      if task in p.tasks && p.tasks[task].Waiting? {
        LeaveKeepsReferenced(p.table, p.tasks, task);
        LeaveKeepsExclusive(p.locked, p.tasks, task);
      }
    case Release(_) =>
      if task in p.tasks && p.tasks[task].Holding? {
        LeaveKeepsReferenced(p.table, p.tasks, task);
        LeaveKeepsExclusive(p.locked, p.tasks, task);
      }
  }

  lemma AcquireKeepsReferenced(table: Table, tasks: map<nat, Task>, task: nat)
    requires Referenced(table, tasks) && task in tasks
    ensures Referenced(table, tasks[task := Holding(tasks[task].key, tasks[task].entry)])
  {
    var after := tasks[task := Holding(tasks[task].key, tasks[task].entry)];
    forall e ensures Users(after, e) == Users(tasks, e) {}
  }

  /** A waiting task can take the lock exactly when no task holds its key. */
  lemma FreeIffUnheld(p: Pool, task: nat)
    requires Sound(p) && task in p.tasks
    ensures p.tasks[task].entry !in p.locked <==>
            forall u :: u in p.tasks && p.tasks[u].key == p.tasks[task].key ==> !p.tasks[u].Holding?
  {
    var entry := p.tasks[task].entry;
    if entry in p.locked {
      var u :| u in p.tasks && p.tasks[u].Holding? && p.tasks[u].entry == entry;
      assert p.tasks[u].key == p.tasks[task].key;
    }
    if u :| u in p.tasks && p.tasks[u].key == p.tasks[task].key && p.tasks[u].Holding? {
      assert p.tasks[u].entry == entry && entry in HeldEntries(p.tasks);
    }
  }

  ghost function Run(actions: seq<Action>): Pool
  {
    Fold(Step, EMPTY_POOL, actions)
  }

  lemma RunSound(actions: seq<Action>)
    ensures Sound(Run(actions))
  {
    var inv := (p: Pool, done: seq<Action>) => Sound(p);
    forall p, front, a | inv(p, front) ensures inv(Step(p, a), front + [a]) {
      StepKeepsSound(p, a);
    }
    FoldKeeps(Step, EMPTY_POOL, actions, inv);
  }

  ghost function Reservers(p: Pool, key: string): set<nat>
  {
    set t | t in p.tasks && p.tasks[t].key == key
  }

  /** In every reachable pool: an entry exists for a key exactly while some task has it reserved, its
      count is the number of holders and waiters, they all use the mapped entry, at most one task
      holds a key, and nothing failed. With no reservation left the pool is empty. */
  lemma PoolTracksReservers(actions: seq<Action>, key: string)
    ensures var p := Run(actions);
      && (key in p.table.entries <==> Reservers(p, key) != {})
      && (key in p.table.entries ==> References(p.table, p.table.entries[key]) == |Reservers(p, key)|)
      && (forall t :: t in Reservers(p, key) ==> key in p.table.entries && p.tasks[t].entry == p.table.entries[key])
      && (forall t, u ::
          t in Reservers(p, key) && u in Reservers(p, key) && p.tasks[t].Holding? && p.tasks[u].Holding? ==> t == u)
      && !p.failed
      && (p.tasks == map[] ==> p.table.entries == map[])
  {
    var p := Run(actions);
    RunSound(actions);
    if key in p.table.entries {
      var entry := p.table.entries[key];
      assert Reservers(p, key) == Users(p.tasks, entry);
    }
    assert forall k :: k in p.table.entries ==> Users(p.tasks, p.table.entries[k]) != {};
  }
}
