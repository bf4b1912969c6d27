/** The reference-counted peer locks (orchestrator/state_transition_manager.py:153-166), as a state
    machine over interleaved evaluations. The event loop switches tasks only while one of them waits
    for a lock, so entering, being granted the lock, and leaving are one step each. */
module PeerLocks {

  type TaskId = nat
  /** The identity of a lock object. */
  type LockId = nat

  /** One evaluation in progress: it has registered on `lock` and is waiting for it or running. */
  datatype Task = Task(peer: string, lock: LockId, running: bool)

  /** `entries` is the manager's table. The count and the held flag belong to the lock object, which
      outlives its table entry for as long as some task refers to it. */
  datatype Locks = Locks(
    entries: map<string, LockId>,
    refCount: map<LockId, int>,
    held: set<LockId>,
    made: nat,
    tasks: map<TaskId, Task>)

  datatype Action =
    | Enter(t: TaskId, peer: string)
    | Acquire(t: TaskId)
    | Finish(t: TaskId)
    | CancelWaiting(t: TaskId)

  function Initial(): Locks {
    Locks(map[], map[], {}, 0, map[])
  }

  predicate Enabled(s: Locks, a: Action) {
    match a
    case Enter(t, peer) => t !in s.tasks
    case Acquire(t) => t in s.tasks && !s.tasks[t].running && s.tasks[t].lock !in s.held
    case Finish(t) => t in s.tasks && s.tasks[t].running
    case CancelWaiting(t) => t in s.tasks && !s.tasks[t].running
  }

  function CountOf(s: Locks, l: LockId): int {
    if l in s.refCount then s.refCount[l] else 0
  }

  /** The `finally` block: drop the reference, and the table entry with the last one. */
  function Leave(s: Locks, t: TaskId): Locks
    requires t in s.tasks
  {
    var Task(p, l, _) := s.tasks[t];
    var left := CountOf(s, l) - 1;
    s.(refCount := s.refCount[l := left],
       entries := if left == 0 && p in s.entries && s.entries[p] == l then s.entries - {p} else s.entries,
       tasks := s.tasks - {t})
  }

  function Next(s: Locks, a: Action): Locks
    requires Enabled(s, a)
  {
    match a
    case Enter(t, p) =>
      // setdefault builds a new lock object each time and keeps it only for an absent peer
      var l := if p in s.entries then s.entries[p] else s.made;
      Locks(s.entries[p := l], s.refCount[l := CountOf(s, l) + 1], s.held, s.made + 1, s.tasks[t := Task(p, l, false)])
    case Acquire(t) =>
      s.(held := s.held + {s.tasks[t].lock}, tasks := s.tasks[t := s.tasks[t].(running := true)])
    case Finish(t) => Leave(s.(held := s.held - {s.tasks[t].lock}), t)
    case CancelWaiting(t) => Leave(s, t)
  }

  /** Everyone evaluating peer p, and how many they are. */
  function TasksOf(tasks: map<TaskId, Task>, p: string): set<TaskId> {
    set t | t in tasks && tasks[t].peer == p
  }

  function Evaluations(tasks: map<TaskId, Task>, p: string): nat {
    |TasksOf(tasks, p)|
  }

  lemma AddedTask(tasks: map<TaskId, Task>, t: TaskId, task: Task, p: string)
    requires t !in tasks
    ensures Evaluations(tasks[t := task], p) == Evaluations(tasks, p) + if p == task.peer then 1 else 0
  {
    assert TasksOf(tasks[t := task], p) == TasksOf(tasks, p) + if p == task.peer then {t} else {};
  }

  lemma DroppedTask(tasks: map<TaskId, Task>, t: TaskId, p: string)
    requires t in tasks
    ensures Evaluations(tasks - {t}, p) == Evaluations(tasks, p) - if p == tasks[t].peer then 1 else 0
  {
    assert TasksOf(tasks, p) == TasksOf(tasks - {t}, p) + if p == tasks[t].peer then {t} else {};
  }

  lemma GrantedTask(tasks: map<TaskId, Task>, t: TaskId, p: string)
    requires t in tasks
    ensures Evaluations(tasks[t := tasks[t].(running := true)], p) == Evaluations(tasks, p)
  {
    assert TasksOf(tasks[t := tasks[t].(running := true)], p) == TasksOf(tasks, p);
  }

  lemma EvaluatedExactly(tasks: map<TaskId, Task>, p: string)
    ensures Evaluations(tasks, p) > 0 <==> exists t :: t in tasks && tasks[t].peer == p
  {
    if t :| t in tasks && tasks[t].peer == p {
      assert t in TasksOf(tasks, p);
    } else {
      assert TasksOf(tasks, p) == {};
    }
  }

  ghost predicate TableOk(s: Locks) {
    && (forall p :: p in s.entries <==> Evaluations(s.tasks, p) > 0)
    && (forall p :: p in s.entries ==> CountOf(s, s.entries[p]) == Evaluations(s.tasks, p))
    && (forall p :: p in s.entries ==> s.entries[p] < s.made)
    && (forall p, q :: p in s.entries && q in s.entries && p != q ==> s.entries[p] != s.entries[q])
    && (forall l :: l in s.refCount ==> l < s.made)
  }

  ghost predicate TasksOk(s: Locks) {
    && (forall t :: t in s.tasks ==> s.tasks[t].peer in s.entries && s.entries[s.tasks[t].peer] == s.tasks[t].lock)
    && (forall t :: t in s.tasks && s.tasks[t].running ==> s.tasks[t].lock in s.held)
    && (forall t, u :: t in s.tasks && u in s.tasks && s.tasks[t].running && s.tasks[u].running && t != u ==>
                         s.tasks[t].lock != s.tasks[u].lock)
    && (forall l :: l in s.held ==> HasRunner(s.tasks, l))
  }

  ghost predicate HasRunner(tasks: map<TaskId, Task>, l: LockId) {
    exists t :: t in tasks && tasks[t].running && tasks[t].lock == l
  }

  ghost predicate Inv(s: Locks) {
    TableOk(s) && TasksOk(s)
  }

  lemma RunnersStay(tasks: map<TaskId, Task>, after: map<TaskId, Task>, l: LockId)
    requires HasRunner(tasks, l)
    requires forall t :: t in tasks && tasks[t].running && tasks[t].lock == l ==> t in after && after[t] == tasks[t]
    ensures HasRunner(after, l)
  {
    var t :| t in tasks && tasks[t].running && tasks[t].lock == l;
    assert t in after;
  }

  lemma EnterKeepsTasks(s: Locks, t: TaskId, p: string)
    requires Inv(s) && t !in s.tasks
    ensures TasksOk(Next(s, Enter(t, p)))
  {
    hide Evaluations;
    hide HasRunner;
    var s' := Next(s, Enter(t, p));
    EvaluatedExactly(s.tasks, p);
    forall l | l in s'.held
      ensures HasRunner(s'.tasks, l)
    {
      RunnersStay(s.tasks, s'.tasks, l);
    }
  }

  lemma EnterKeepsTable(s: Locks, t: TaskId, p: string)
    requires TableOk(s) && t !in s.tasks
    ensures TableOk(Next(s, Enter(t, p)))
  {
    hide Evaluations;
    var s' := Next(s, Enter(t, p));
    forall q
      ensures Evaluations(s'.tasks, q) == Evaluations(s.tasks, q) + if q == p then 1 else 0
    {
      AddedTask(s.tasks, t, s'.tasks[t], q);
    }
  }

  lemma AcquireKeepsTable(s: Locks, t: TaskId)
    requires TableOk(s) && Enabled(s, Acquire(t))
    ensures TableOk(Next(s, Acquire(t)))
  {
    hide Evaluations;
    forall q
      ensures Evaluations(Next(s, Acquire(t)).tasks, q) == Evaluations(s.tasks, q)
    {
      GrantedTask(s.tasks, t, q);
    }
  }

  lemma AcquireKeepsTasks(s: Locks, t: TaskId)
    requires TasksOk(s) && Enabled(s, Acquire(t))
    ensures TasksOk(Next(s, Acquire(t)))
  {
    var s' := Next(s, Acquire(t));
    assert s'.tasks[t].running && HasRunner(s'.tasks, s.tasks[t].lock);
    forall l | l in s.held
      ensures HasRunner(s'.tasks, l)
    {
      RunnersStay(s.tasks, s'.tasks, l);
    }
  }

  /** A task that leaves takes its own reference and nothing else; the table entry it removes with
      the last reference is always its own. */
  lemma LeaveKeepsTable(s: Locks, t: TaskId)
    requires Inv(s) && t in s.tasks
    ensures TableOk(Leave(s, t)) && forall held :: TableOk(Leave(s, t).(held := held))
  {
    hide Evaluations;
    var s' := Leave(s, t);
    forall q
      ensures Evaluations(s'.tasks, q) == Evaluations(s.tasks, q) - if q == s.tasks[t].peer then 1 else 0
    {
      DroppedTask(s.tasks, t, q);
    }
  }

  lemma LeaveKeepsEntries(s: Locks, t: TaskId)
    requires Inv(s) && t in s.tasks
    ensures forall u :: u in s.tasks && u != t ==> s.tasks[u].peer in Leave(s, t).entries
    ensures forall q :: q in Leave(s, t).entries ==> q in s.entries && Leave(s, t).entries[q] == s.entries[q]
  {
    hide Evaluations;
    var s' := Leave(s, t);
    forall u | u in s.tasks && u != t
      ensures s.tasks[u].peer in s'.entries
    {
      DroppedTask(s.tasks, t, s.tasks[u].peer);
      assert u in s'.tasks;
      EvaluatedExactly(s'.tasks, s.tasks[u].peer);
    }
  }

  lemma LeaveKeepsTasks(s: Locks, t: TaskId, held: set<LockId>)
    requires Inv(s) && t in s.tasks
    requires held == if s.tasks[t].running then s.held - {s.tasks[t].lock} else s.held
    ensures TasksOk(Leave(s, t).(held := held))
  {
    hide Evaluations;
    LeaveKeepsEntries(s, t);
    var s' := Leave(s, t).(held := held);
    forall l | l in held
      ensures HasRunner(s'.tasks, l)
    {
      RunnersStay(s.tasks, s'.tasks, l);
    }
  }

  lemma StepKeepsInv(s: Locks, a: Action)
    requires Inv(s) && Enabled(s, a)
    ensures Inv(Next(s, a))
  {
    hide TableOk;
    hide TasksOk;
    match a
    case Enter(t, p) => {
      EnterKeepsTasks(s, t, p);
      EnterKeepsTable(s, t, p);
    }
    case Acquire(t) => {
      AcquireKeepsTasks(s, t);
      AcquireKeepsTable(s, t);
    }
    case Finish(t) => {
      LeaveKeepsTable(s, t);
      LeaveKeepsTasks(s, t, s.held - {s.tasks[t].lock});
      assert Next(s, a) == Leave(s, t).(held := s.held - {s.tasks[t].lock});
    }
    case CancelWaiting(t) => {
      LeaveKeepsTable(s, t);
      LeaveKeepsTasks(s, t, s.held);
      assert Leave(s, t).(held := s.held) == Leave(s, t);
    }
  }

  lemma InitialOk()
    ensures Inv(Initial())
  {
    forall p: string
      ensures Evaluations(Initial().tasks, p) == 0
    {
      assert TasksOf(Initial().tasks, p) == {};
    }
  }

  /** States reached by some interleaving. */
  ghost predicate Reaches(s: Locks, actions: seq<Action>, end: Locks)
    decreases |actions|
  {
    if actions == [] then end == s
    else Enabled(s, actions[0]) && Reaches(Next(s, actions[0]), actions[1..], end)
  }

  lemma {:induction false} RunKeepsInv(s: Locks, actions: seq<Action>, end: Locks)
    requires Inv(s) && Reaches(s, actions, end)
    ensures Inv(end)
    decreases |actions|
  {
    if actions != [] {
      StepKeepsInv(s, actions[0]);
      RunKeepsInv(Next(s, actions[0]), actions[1..], end);
    }
  }

  /** Over every interleaving: a peer is in the table exactly while one of its evaluations is waiting
      or running, and its count is their number. */
  lemma EntryLivesWithItsTasks(actions: seq<Action>, s: Locks, p: string)
    requires Reaches(Initial(), actions, s)
    ensures p in s.entries <==> exists t :: t in s.tasks && s.tasks[t].peer == p
    ensures p in s.entries ==> CountOf(s, s.entries[p]) == |TasksOf(s.tasks, p)|
  {
    InitialOk();
    RunKeepsInv(Initial(), actions, s);
    EvaluatedExactly(s.tasks, p);
  }

  /** Over every interleaving: two evaluations of one peer share one lock and never run together. */
  lemma OnePeerRunsAlone(actions: seq<Action>, s: Locks, t: TaskId, u: TaskId)
    requires Reaches(Initial(), actions, s)
    requires t in s.tasks && u in s.tasks && t != u && s.tasks[t].peer == s.tasks[u].peer
    ensures s.tasks[t].lock == s.tasks[u].lock
    ensures !(s.tasks[t].running && s.tasks[u].running)
  {
    InitialOk();
    RunKeepsInv(Initial(), actions, s);
  }

  /** Over every interleaving: a waiting evaluation is never stuck; its lock is free, or an evaluation
      of the same peer is running and can finish. */
  lemma WaitersAreNeverStuck(actions: seq<Action>, s: Locks, t: TaskId)
    requires Reaches(Initial(), actions, s) && t in s.tasks && !s.tasks[t].running
    ensures Enabled(s, Acquire(t)) ||
            exists u :: u in s.tasks && s.tasks[u].peer == s.tasks[t].peer && Enabled(s, Finish(u))
  {
    InitialOk();
    RunKeepsInv(Initial(), actions, s);
    if s.tasks[t].lock in s.held {
      var u :| u in s.tasks && s.tasks[u].running && s.tasks[u].lock == s.tasks[t].lock;
      assert s.tasks[u].peer == s.tasks[t].peer;
      assert Enabled(s, Finish(u));
    }
  }
}
