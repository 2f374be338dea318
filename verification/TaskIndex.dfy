/**
 The effect of each operation on the index from triggers to tasks, and when the index inverts what the tasks list:
 taskscheduler/task_scheduler.go.
 */
module TaskIndex {
  import opened Triggers
  import opened TaskScheduling

  predicate Owns(s: State, t: Uuid, id: Id) {
    t in s.tasks && id in s.tasks[t].triggers
  }

  predicate Indexed(s: State, t: Uuid, id: Id) {
    id in s.index && t in s.index[id]
  }

  /**
   A task owns a trigger iff the index says so, with the task's current definition; no entry of the index
   is empty; and exactly the indexed triggers are live in the underlying scheduler.
   */
  ghost predicate Exact(s: State) {
    && (forall t, id :: Owns(s, t, id) <==> Indexed(s, t, id))
    && (forall t, id | Indexed(s, t, id) :: s.index[id][t] == s.tasks[t].task)
    && (forall id | id in s.index :: s.index[id] != map[])
    && s.live == s.index.Keys
  }

  function Ids(triggers: seq<TaskTrigger>): set<Id> {
    set i | 0 <= i < |triggers| :: TriggerId(triggers[i])
  }

  /** The ids of triggers the scheduler is asked for and accepts. */
  function Accepted(owned: set<Id>, triggers: seq<TaskTrigger>, oks: seq<bool>): set<Id>
    requires |oks| == |triggers|
  {
    set i | 0 <= i < |triggers| && oks[i] && TriggerId(triggers[i]) !in owned :: TriggerId(triggers[i])
  }

  // ---- What the update loop does ----

  /** r is s after the loop over `triggers` for task t: `added` are new to t, `kept` were t's before. */
  ghost predicate Updates(s: State, t: Uuid, r: State, added: set<Id>, kept: set<Id>)
    requires t in s.tasks
  {
    && UpdatesTasks(s.tasks, t, r.tasks, added)
    && UpdatesIndex(s.index, t, s.tasks[t].task, r.index, added, kept)
    && r.live == s.live + added
  }

  ghost predicate UpdatesTasks(before: map<Uuid, ScheduledTask>, t: Uuid, after: map<Uuid, ScheduledTask>,
          added: set<Id>)
    requires t in before
  {
    && t in after
    && after == before[t := after[t]]
    && after[t].task == before[t].task
    && after[t].triggers.Keys == before[t].triggers.Keys + added
    && after[t].triggers - added == before[t].triggers - added
  }

  ghost predicate UpdatesIndex(before: map<Id, map<Uuid, DefinedTask>>, t: Uuid, task: DefinedTask,
                               after: map<Id, map<Uuid, DefinedTask>>, added: set<Id>, kept: set<Id>)
  {
    && kept <= before.Keys
    && after.Keys == before.Keys + added
    && forall id | id in after :: after[id] == if id in added then map[t := task]
                                               else if id in kept then before[id][t := task] else before[id]
  }

  lemma UpdatesTasksCompose(x: map<Uuid, ScheduledTask>, t: Uuid, y: map<Uuid, ScheduledTask>,
          z: map<Uuid, ScheduledTask>, a1: set<Id>, a2: set<Id>)
    requires t in x && t in y && UpdatesTasks(x, t, y, a1) && UpdatesTasks(y, t, z, a2)
    ensures UpdatesTasks(x, t, z, a1 + a2)
  {
    var p, q, r := x[t].triggers, y[t].triggers, z[t].triggers;
    assert r - (a1 + a2) == (r - a2) - a1 == (q - a1) - a2 == p - (a1 + a2);
  }

  lemma UpdatesIndexCompose(x: map<Id, map<Uuid, DefinedTask>>, t: Uuid, task: DefinedTask,
          y: map<Id, map<Uuid, DefinedTask>>, z: map<Id, map<Uuid, DefinedTask>>,
          a1: set<Id>, k1: set<Id>, a2: set<Id>, k2: set<Id>)
    requires UpdatesIndex(x, t, task, y, a1, k1) && UpdatesIndex(y, t, task, z, a2, k2)
    ensures UpdatesIndex(x, t, task, z, a1 + a2, k1 + (k2 - a1))
  {
  }

  lemma UpdateEffect(s: State, t: Uuid, trigger: TaskTrigger, ok: bool)
    requires t in s.tasks && (TriggerId(trigger) in s.tasks[t].triggers ==> TriggerId(trigger) in s.index)
    ensures var o, id, owned := AfterUpdate(s, t, trigger, ok), TriggerId(trigger), s.tasks[t].triggers.Keys;
            && o.Done?
            && Updates(s, t, o.state, if ok && id !in owned then {id} else {}, {id} * owned)
            && o.kept == if ok || id in owned then {id} else {}
  {
  }

  lemma UpdatesCompose(s: State, t: Uuid, m: State, r: State, a1: set<Id>, k1: set<Id>, a2: set<Id>, k2: set<Id>,
          a: set<Id>, k: set<Id>)
    requires t in s.tasks && Updates(s, t, m, a1, k1) && t in m.tasks && Updates(m, t, r, a2, k2)
    requires a == a1 + a2 && k == k1 + (k2 - a1)
    ensures Updates(s, t, r, a, k)
  {
    UpdatesTasksCompose(s.tasks, t, m.tasks, r.tasks, a1, a2);
    UpdatesIndexCompose(s.index, t, s.tasks[t].task, m.index, r.index, a1, k1, a2, k2);
  }

  lemma IdsOfFirst(triggers: seq<TaskTrigger>)
    requires triggers != []
    ensures Ids(triggers) == {TriggerId(triggers[0])} + Ids(triggers[1..])
  {
  }

  ghost predicate LoopEffect(s: State, t: Uuid, triggers: seq<TaskTrigger>, oks: seq<bool>, o: Outcome)
    requires t in s.tasks && |oks| == |triggers|
  {
    var owned := s.tasks[t].triggers.Keys;
    && o.Done?
    && Updates(s, t, o.state, Accepted(owned, triggers, oks), Ids(triggers) * owned)
    && o.kept == Accepted(owned, triggers, oks) + Ids(triggers) * owned
  }

  lemma RestIsIndexed(s: State, t: Uuid, triggers: seq<TaskTrigger>, ok: bool)
    requires t in s.tasks && triggers != [] && Ids(triggers) * s.tasks[t].triggers.Keys <= s.index.Keys
    requires AfterUpdate(s, t, triggers[0], ok).Done?
    ensures var r := AfterUpdate(s, t, triggers[0], ok).state;
            t in r.tasks && Ids(triggers[1..]) * r.tasks[t].triggers.Keys <= r.index.Keys
  {
    IdsOfFirst(triggers);
  }

  lemma {:induction false} UpdateAllEffect(s: State, t: Uuid, triggers: seq<TaskTrigger>, oks: seq<bool>)
    requires t in s.tasks && |oks| == |triggers|
    requires Ids(triggers) * s.tasks[t].triggers.Keys <= s.index.Keys
    ensures LoopEffect(s, t, triggers, oks, UpdateAll(s, t, triggers, oks))
    decreases |triggers|
  {
    if triggers != [] {
      var id, owned := TriggerId(triggers[0]), s.tasks[t].triggers.Keys;
      var first := AfterUpdate(s, t, triggers[0], oks[0]);
      UpdateEffect(s, t, triggers[0], oks[0]);
      RestIsIndexed(s, t, triggers, oks[0]);
      UpdateAllEffect(first.state, t, triggers[1..], oks[1..]);
      LoopStep(s, t, triggers, oks, first, UpdateAll(first.state, t, triggers[1..], oks[1..]));
    }
  }

  lemma LoopStep(s: State, t: Uuid, triggers: seq<TaskTrigger>, oks: seq<bool>, first: Outcome, rest: Outcome)
    requires t in s.tasks && |oks| == |triggers| > 0
    requires var id, owned := TriggerId(triggers[0]), s.tasks[t].triggers.Keys;
             && first.Done?
             && Updates(s, t, first.state, if oks[0] && id !in owned then {id} else {}, {id} * owned)
             && first.kept == if oks[0] || id in owned then {id} else {}
    requires t in first.state.tasks && LoopEffect(first.state, t, triggers[1..], oks[1..], rest)
    ensures LoopEffect(s, t, triggers, oks, Done(rest.state, first.kept + rest.kept))
  {
    var id, owned := TriggerId(triggers[0]), s.tasks[t].triggers.Keys;
    var a1 := if oks[0] && id !in owned then {id} else {};
    assert first.state.tasks[t].triggers.Keys == owned + a1;
    Peel(owned, a1, triggers, oks);
    UpdatesCompose(s, t, first.state, rest.state, a1, {id} * owned,
                   Accepted(owned + a1, triggers[1..], oks[1..]), Ids(triggers[1..]) * (owned + a1),
                   Accepted(owned, triggers, oks), Ids(triggers) * owned);
  }

  lemma Peel(owned: set<Id>, a1: set<Id>, triggers: seq<TaskTrigger>, oks: seq<bool>)
    requires |oks| == |triggers| > 0
    requires a1 == if oks[0] && TriggerId(triggers[0]) !in owned then {TriggerId(triggers[0])} else {}
    ensures var id := TriggerId(triggers[0]);
            var a2, k2 := Accepted(owned + a1, triggers[1..], oks[1..]), Ids(triggers[1..]) * (owned + a1);
            && Accepted(owned, triggers, oks) == a1 + a2
            && Ids(triggers) * owned == {id} * owned + (k2 - a1)
            && (if oks[0] || id in owned then {id} else {}) + (a2 + k2) == a1 + a2 + Ids(triggers) * owned
  {
  }

  // ---- Schedule ----

  /** No other task has one of the triggers that are new to this one. */
  predicate Unshared(s: State, task: DefinedTask, oks: seq<bool>)
    requires |oks| == |task.triggers|
  {
    Accepted(TriggersOf(s, task.id).Keys, task.triggers, oks) !! s.index.Keys
  }

  /** The new definition still has every trigger the task has now. */
  predicate NothingDropped(s: State, task: DefinedTask) {
    TriggersOf(s, task.id).Keys <= Ids(task.triggers)
  }

  /** A trigger the task still lists as scheduled, though the index has forgotten it. */
  predicate Stale(s: State, t: Uuid, id: Id) {
    id in TriggersOf(s, t) && id !in s.index
  }

  /** The definition has no stale trigger. */
  predicate NoStale(s: State, task: DefinedTask) {
    Ids(task.triggers) * TriggersOf(s, task.id).Keys <= s.index.Keys
  }

  lemma ExactIndexes(s: State, t: Uuid)
    requires Exact(s)
    ensures TriggersOf(s, t).Keys <= s.index.Keys
  {
    forall id | id in TriggersOf(s, t)
      ensures id in s.index
    {
      assert Owns(s, t, id);
    }
  }

  lemma UpdatedIndex(s: State, t: Uuid, r: State, added: set<Id>, kept: set<Id>, u: Uuid, id: Id)
    requires t in s.tasks && Updates(s, t, r, added, kept)
    ensures Owns(r, u, id) <==> Owns(s, u, id) || (u == t && id in added)
    ensures Indexed(r, u, id) <==> if id in added then u == t else Indexed(s, u, id) || (u == t && id in kept)
    ensures u in s.tasks <==> u in r.tasks
    ensures u in r.tasks ==> r.tasks[u].task == s.tasks[u].task
    ensures Indexed(r, u, id) ==>
              r.index[id][u] == if u == t && (id in added || id in kept) then s.tasks[t].task else s.index[id][u]
  {
  }

  lemma RemovedIndex(s: State, t: Uuid, ids: set<Id>, u: Uuid, id: Id)
    ensures var r := AfterRemove(s, t, ids);
            && (Indexed(r, u, id) <==> Indexed(s, u, id) && !(u == t && id in ids))
            && (Indexed(r, u, id) ==> r.index[id][u] == s.index[id][u])
  {
  }

  lemma RemovedKeys(s: State, t: Uuid, ids: set<Id>)
    requires forall id | id in s.index :: s.index[id] != map[]
    requires s.live == s.index.Keys
    ensures var r := AfterRemove(s, t, ids);
            (forall id | id in r.index :: r.index[id] != map[]) && r.live == r.index.Keys
  {
    var r := AfterRemove(s, t, ids);
    forall id | id in r.index
      ensures r.index[id] != map[]
    {
      if id in ids {
        var u :| u in s.index[id] && u != t;
        assert u in r.index[id];
      } else {
        assert r.index[id] == s.index[id];
      }
    }
  }

  lemma UpdatedEntries(before: map<Id, map<Uuid, DefinedTask>>, t: Uuid, task: DefinedTask,
          after: map<Id, map<Uuid, DefinedTask>>, added: set<Id>, kept: set<Id>)
    requires UpdatesIndex(before, t, task, after, added, kept)
    requires forall id | id in before :: before[id] != map[]
    ensures forall id | id in after :: after[id] != map[]
  {
    forall id | id in after
      ensures after[id] != map[]
    {
      assert id in added || id in kept ==> t in after[id];
    }
  }

  lemma UpdatedKeys(s: State, t: Uuid, r: State, added: set<Id>, kept: set<Id>)
    requires t in s.tasks && Updates(s, t, r, added, kept)
    requires forall id | id in s.index :: s.index[id] != map[]
    requires s.live == s.index.Keys
    ensures (forall id | id in r.index :: r.index[id] != map[]) && r.live == r.index.Keys
  {
    UpdatedEntries(s.index, t, s.tasks[t].task, r.index, added, kept);
  }

  ghost function LoopState(s: State, task: DefinedTask, oks: seq<bool>): State
    requires |oks| == |task.triggers| && NoStale(s, task)
  {
    UpdateAllEffect(Define(s, task), task.id, task.triggers, oks);
    UpdateAll(Define(s, task), task.id, task.triggers, oks).state
  }

  /** The update loop, then the removal of what the new definition no longer has. */
  lemma ScheduleEffect(s: State, task: DefinedTask, oks: seq<bool>)
    requires |oks| == |task.triggers| && NoStale(s, task)
    ensures var owned := TriggersOf(s, task.id).Keys;
            && Updates(Define(s, task), task.id, LoopState(s, task, oks), Accepted(owned, task.triggers, oks),
               Ids(task.triggers) * owned)
            && AfterSchedule(s, task, oks).Done?
            && AfterSchedule(s, task, oks).state
               == AfterRemove(LoopState(s, task, oks), task.id, owned - Ids(task.triggers))
  {
    UpdateAllEffect(Define(s, task), task.id, task.triggers, oks);
    var owned := TriggersOf(s, task.id).Keys;
    var m := UpdateAll(Define(s, task), task.id, task.triggers, oks);
    if task.id in s.tasks {
      assert m.state.tasks[task.id].triggers.Keys - m.kept == owned - Ids(task.triggers);
    } else {
      assert owned - Ids(task.triggers) == {};
      RemoveNone(m.state, task.id);
    }
  }

  lemma RemoveNone(s: State, t: Uuid)
    ensures AfterRemove(s, t, {}) == s
  {
  }

  /** Who owns and who is indexed after Schedule, read off the state before. */
  lemma ScheduledOwnership(s: State, task: DefinedTask, oks: seq<bool>, u: Uuid, id: Id)
    requires |oks| == |task.triggers| && NoStale(s, task)
    ensures AfterSchedule(s, task, oks).Done?
    ensures var r, t, owned := AfterSchedule(s, task, oks).state, task.id, TriggersOf(s, task.id).Keys;
            var added := Accepted(owned, task.triggers, oks);
            && (Owns(r, u, id) <==> Owns(s, u, id) || (u == t && id in added))
            && (Indexed(r, u, id) <==> if id in added then u == t
                                       else if u == t && id in owned then id in Ids(task.triggers)
                                       else Indexed(s, u, id))
            && (u in r.tasks <==> u in s.tasks || u == t)
            && (u in r.tasks ==> r.tasks[u].task == if u == t then task else s.tasks[u].task)
            && (Indexed(r, u, id) ==>
                  r.index[id][u] == if u == t && (id in added || id in owned) then task else s.index[id][u])
  {
    ScheduleEffect(s, task, oks);
    var owned, d, m := TriggersOf(s, task.id).Keys, Define(s, task), LoopState(s, task, oks);
    UpdatedIndex(d, task.id, m, Accepted(owned, task.triggers, oks), Ids(task.triggers) * owned, u, id);
    RemovedIndex(m, task.id, owned - Ids(task.triggers), u, id);
  }

  lemma ScheduledKeys(s: State, task: DefinedTask, oks: seq<bool>)
    requires |oks| == |task.triggers| && NoStale(s, task)
    requires (forall id | id in s.index :: s.index[id] != map[]) && s.live == s.index.Keys
    ensures AfterSchedule(s, task, oks).Done?
    ensures var r := AfterSchedule(s, task, oks).state;
            (forall id | id in r.index :: r.index[id] != map[]) && r.live == r.index.Keys
  {
    var owned := TriggersOf(s, task.id).Keys;
    ScheduleEffect(s, task, oks);
    UpdatedKeys(Define(s, task), task.id, LoopState(s, task, oks), Accepted(owned, task.triggers, oks),
      Ids(task.triggers) * owned);
    RemovedKeys(LoopState(s, task, oks), task.id, owned - Ids(task.triggers));
  }

  /**
   Schedule keeps an exact index exact if and only if no other task has one of its new triggers and its new
   definition drops none of its old ones. It never panics on an exact index.
   */
  lemma ScheduleExact(s: State, task: DefinedTask, oks: seq<bool>)
    requires |oks| == |task.triggers| && Exact(s)
    ensures NoStale(s, task) && AfterSchedule(s, task, oks).Done?
    ensures Exact(AfterSchedule(s, task, oks).state) <==> Unshared(s, task, oks) && NothingDropped(s, task)
  {
    ExactIndexes(s, task.id);
    ScheduledKeys(s, task, oks);
    var t, owned, r := task.id, TriggersOf(s, task.id).Keys, AfterSchedule(s, task, oks).state;
    var added := Accepted(owned, task.triggers, oks);
    if !Unshared(s, task, oks) {
      var id :| id in added && id in s.index;
      var u :| u in s.index[id];
      assert Owns(s, t, id) <==> Indexed(s, t, id);
      assert Owns(s, u, id) <==> Indexed(s, u, id);
      ScheduledOwnership(s, task, oks, u, id);
      assert Owns(r, u, id) && !Indexed(r, u, id);
    } else if !NothingDropped(s, task) {
      var id :| id in owned && id !in Ids(task.triggers);
      ScheduledOwnership(s, task, oks, t, id);
      assert Owns(r, t, id) && !Indexed(r, t, id);
    } else {
      forall u, id
        ensures Owns(r, u, id) <==> Indexed(r, u, id)
        ensures Indexed(r, u, id) ==> r.index[id][u] == r.tasks[u].task
      {
        ScheduledOwnership(s, task, oks, u, id);
        assert Owns(s, u, id) <==> Indexed(s, u, id);
      }
    }
  }

  // ---- Definitions ----

  function Definitions(s: State): map<Uuid, DefinedTask> {
    map t | t in s.tasks :: s.tasks[t].task
  }

  lemma {:induction false} LoopKeepsDefinitions(s: State, t: Uuid, triggers: seq<TaskTrigger>, oks: seq<bool>)
    requires t in s.tasks && |oks| == |triggers|
    ensures var o := UpdateAll(s, t, triggers, oks);
            o.Done? ==> Definitions(o.state) == Definitions(s)
    decreases |triggers|
  {
    if triggers != [] && AfterUpdate(s, t, triggers[0], oks[0]).Done? {
      LoopKeepsDefinitions(AfterUpdate(s, t, triggers[0], oks[0]).state, t, triggers[1..], oks[1..]);
    }
  }

  /** From any state, exact or not, Schedule changes the definition of its task and no other. */
  lemma ScheduleDefines(s: State, task: DefinedTask, oks: seq<bool>)
    requires |oks| == |task.triggers|
    ensures var o := AfterSchedule(s, task, oks);
            o.Done? ==> Definitions(o.state) == Definitions(s)[task.id := task]
  {
    LoopKeepsDefinitions(Define(s, task), task.id, task.triggers, oks);
    assert Definitions(Define(s, task)) == Definitions(s)[task.id := task];
  }

  // ---- Unscheduling ----

  /** UnscheduleTask always keeps the index exact. */
  lemma UnscheduleTaskExact(s: State, t: Uuid)
    requires Exact(s)
    ensures Exact(AfterUnscheduleTask(s, t))
  {
    if t in s.tasks {
      var ids, r := s.tasks[t].triggers.Keys, AfterUnscheduleTask(s, t);
      forall u, id
        ensures Owns(r, u, id) <==> Indexed(r, u, id)
        ensures Indexed(r, u, id) ==> r.index[id][u] == r.tasks[u].task
      {
        RemovedIndex(s, t, ids, u, id);
        assert Owns(s, u, id) <==> Indexed(s, u, id);
        assert Owns(s, t, id) <==> Indexed(s, t, id);
      }
      RemovedKeys(s, t, ids);
    }
  }

  /** Unschedule, the one the interface offers, does so only for tasks without triggers. */
  lemma UnscheduleExact(s: State, t: Uuid)
    requires Exact(s)
    ensures Exact(AfterUnschedule(s, t)) <==> t !in s.tasks || s.tasks[t].triggers == map[]
  {
    if t in s.tasks {
      var r := AfterUnschedule(s, t);
      if s.tasks[t].triggers == map[] {
        forall u, id
          ensures Owns(r, u, id) <==> Indexed(r, u, id)
        {
          assert Owns(s, u, id) <==> Indexed(s, u, id);
        }
      } else {
        var id :| id in s.tasks[t].triggers;
        assert Owns(s, t, id) && Indexed(s, t, id);
        assert Indexed(r, t, id) && !Owns(r, t, id);
      }
    }
  }

  // ---- Runs ----

  datatype Op =
    | Schedule(task: DefinedTask, oks: seq<bool>)
    | Unschedule(id: Uuid)
    | UnscheduleTask(id: Uuid)

  predicate WellSized(op: Op) {
    op.Schedule? ==> |op.oks| == |op.task.triggers|
  }

  type Run = ops: seq<Op> | forall op | op in ops :: WellSized(op)

  function Apply(s: State, op: Op): Outcome
    requires WellSized(op)
  {
    match op
    case Schedule(task, oks) => AfterSchedule(s, task, oks)
    case Unschedule(id) => Done(AfterUnschedule(s, id), {})
    case UnscheduleTask(id) => Done(AfterUnscheduleTask(s, id), {})
  }

  /** What a caller can check before the call. */
  predicate Guard(s: State, op: Op)
    requires WellSized(op)
  {
    match op
    case Schedule(task, oks) => Unshared(s, task, oks) && NothingDropped(s, task)
    case Unschedule(id) => id !in s.tasks || s.tasks[id].triggers == map[]
    case UnscheduleTask(id) => true
  }

  predicate Guarded(s: State, ops: Run)
    decreases |ops|
  {
    ops == [] || (Guard(s, ops[0]) && Apply(s, ops[0]).Done? && Guarded(Apply(s, ops[0]).state, ops[1..]))
  }

  /** The index is exact at the start, after every step, and no step panics. */
  ghost predicate AlwaysExact(s: State, ops: Run)
    decreases |ops|
  {
    Exact(s) && (ops == [] || (Apply(s, ops[0]).Done? && AlwaysExact(Apply(s, ops[0]).state, ops[1..])))
  }

  lemma StepExact(s: State, op: Op)
    requires WellSized(op) && Exact(s)
    ensures Apply(s, op).Done?
    ensures Exact(Apply(s, op).state) <==> Guard(s, op)
  {
    match op
    case Schedule(task, oks) => ScheduleExact(s, task, oks);
    case Unschedule(id) => UnscheduleExact(s, id);
    case UnscheduleTask(id) => UnscheduleTaskExact(s, id);
  }

  /** Over whole runs: the index is exact throughout if and only if every call meets its guard. */
  lemma {:induction false} RunExact(s: State, ops: Run)
    requires Exact(s)
    ensures AlwaysExact(s, ops) <==> Guarded(s, ops)
    decreases |ops|
  {
    if ops != [] {
      StepExact(s, ops[0]);
      if Guard(s, ops[0]) {
        RunExact(Apply(s, ops[0]).state, ops[1..]);
      }
    }
  }

  // ---- When Schedule panics ----

  /** Schedule panics if and only if the definition has a stale trigger; this holds of every state. */
  lemma SchedulePanics(s: State, task: DefinedTask, oks: seq<bool>)
    requires |oks| == |task.triggers|
    ensures AfterSchedule(s, task, oks).Panicked? <==> !NoStale(s, task)
  {
    LoopPanics(Define(s, task), task.id, task.triggers, oks);
    assert forall id :: Stale(Define(s, task), task.id, id) <==> Stale(s, task.id, id);
    assert NoStale(s, task) <==> forall id | id in Ids(task.triggers) :: !Stale(s, task.id, id);
  }

  lemma {:induction false} LoopPanics(s: State, t: Uuid, triggers: seq<TaskTrigger>, oks: seq<bool>)
    requires t in s.tasks && |oks| == |triggers|
    ensures UpdateAll(s, t, triggers, oks).Panicked? <==> exists id :: id in Ids(triggers) && Stale(s, t, id)
    decreases |triggers|
  {
    if triggers != [] {
      var first := AfterUpdate(s, t, triggers[0], oks[0]);
      IdsOfFirst(triggers);
      assert first.Panicked? <==> Stale(s, t, TriggerId(triggers[0]));
      if first.Done? {
        LoopPanics(first.state, t, triggers[1..], oks[1..]);
        UpdateKeepsStale(s, t, triggers[0], oks[0]);
      }
    }
  }

  lemma UpdateKeepsStale(s: State, t: Uuid, trigger: TaskTrigger, ok: bool)
    requires t in s.tasks && AfterUpdate(s, t, trigger, ok).Done?
    ensures forall id :: Stale(AfterUpdate(s, t, trigger, ok).state, t, id) <==> Stale(s, t, id)
  {
  }

  lemma SomeIndexed(s: State)
    requires forall id | id in s.index :: s.index[id] != map[]
    ensures forall id | id in s.index :: exists t :: Indexed(s, t, id)
  {
    forall id | id in s.index
      ensures exists t :: Indexed(s, t, id)
    {
      var t :| t in s.index[id];
      assert Indexed(s, t, id);
    }
  }

  lemma IndexedBySome(s: State, id: Id)
    requires forall id | id in s.index :: s.index[id] != map[]
    ensures id in s.index <==> exists t :: Indexed(s, t, id)
  {
    SomeIndexed(s);
  }
}
