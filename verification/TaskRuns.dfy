/**
 Runs of the task scheduler in which definitions change freely, and what a trigger calls after them:
 taskscheduler/task_scheduler.go.
 */
module TaskRuns {
  import opened Triggers
  import opened TaskScheduling
  import opened TaskIndex

  /** The task owns the trigger and its definition still names it. */
  predicate Has(s: State, t: Uuid, id: Id) {
    Owns(s, t, id) && id in Ids(s.tasks[t].task.triggers)
  }

  /**
   The index is right for the current definitions, whatever else the tasks still list: a trigger is indexed for
   exactly the tasks that have it, with their current definitions; no entry is empty; and exactly the indexed
   triggers are live.
   */
  ghost predicate Current(s: State) {
    && (forall t, id :: Indexed(s, t, id) <==> Has(s, t, id))
    && (forall t, id | Indexed(s, t, id) :: s.index[id][t] == s.tasks[t].task)
    && (forall id | id in s.index :: s.index[id] != map[])
    && s.live == s.index.Keys
  }

  /** Where nothing is left over, this and the two-way reading are the same. */
  lemma CurrentIsExact(s: State)
    requires forall t, id | Owns(s, t, id) :: Has(s, t, id)
    ensures Current(s) <==> Exact(s)
  {
  }

  // ---- Steps ----

  /** What a caller can check before the call. */
  predicate Safe(s: State, op: Op)
    requires WellSized(op)
  {
    match op
    case Schedule(task, oks) => NoStale(s, task) && Unshared(s, task, oks)
    case Unschedule(id) => TriggersOf(s, id).Keys !! s.index.Keys
    case UnscheduleTask(id) => true
  }

  lemma ScheduleCurrent(s: State, task: DefinedTask, oks: seq<bool>)
    requires |oks| == |task.triggers| && Current(s) && NoStale(s, task)
    ensures AfterSchedule(s, task, oks).Done?
    ensures Current(AfterSchedule(s, task, oks).state) <==> Unshared(s, task, oks)
  {
    ScheduledKeys(s, task, oks);
    var r, added := AfterSchedule(s, task, oks).state, Accepted(TriggersOf(s, task.id).Keys, task.triggers, oks);
    if Unshared(s, task, oks) {
      forall u, id
        ensures Indexed(r, u, id) <==> Has(r, u, id)
        ensures Indexed(r, u, id) ==> r.index[id][u] == r.tasks[u].task
      {
        ScheduledOwnership(s, task, oks, u, id);
        AcceptedAreNamed(TriggersOf(s, task.id).Keys, task.triggers, oks);
        assert Indexed(s, u, id) <==> Has(s, u, id);
      }
    } else {
      var id :| id in added && id in s.index;
      var u :| u in s.index[id];
      assert Indexed(s, u, id) && Has(s, u, id);
      ScheduledOwnership(s, task, oks, u, id);
      assert Has(r, u, id) && !Indexed(r, u, id);
    }
  }

  lemma AcceptedAreNamed(owned: set<Id>, triggers: seq<TaskTrigger>, oks: seq<bool>)
    requires |oks| == |triggers|
    ensures Accepted(owned, triggers, oks) <= Ids(triggers) - owned
  {
  }

  lemma UnscheduleTaskCurrent(s: State, t: Uuid)
    requires Current(s)
    ensures Current(AfterUnscheduleTask(s, t))
  {
    if t in s.tasks {
      var ids, r := s.tasks[t].triggers.Keys, AfterUnscheduleTask(s, t);
      forall u, id
        ensures Indexed(r, u, id) <==> Has(r, u, id)
        ensures Indexed(r, u, id) ==> r.index[id][u] == r.tasks[u].task
      {
        RemovedIndex(s, t, ids, u, id);
        assert Indexed(s, u, id) <==> Has(s, u, id);
      }
      RemovedKeys(s, t, ids);
    }
  }

  lemma UnscheduleCurrent(s: State, t: Uuid)
    requires Current(s)
    ensures Current(AfterUnschedule(s, t)) <==> TriggersOf(s, t).Keys !! s.index.Keys
  {
    var r := AfterUnschedule(s, t);
    if TriggersOf(s, t).Keys !! s.index.Keys {
      forall u, id
        ensures Indexed(r, u, id) <==> Has(r, u, id)
      {
        assert Indexed(s, u, id) <==> Has(s, u, id);
      }
    } else {
      var id :| id in TriggersOf(s, t) && id in s.index;
      assert id in r.index && id !in r.live;
    }
  }

  /** A call keeps the index right for the current definitions, without a panic, if and only if it is safe. */
  lemma StepCurrent(s: State, op: Op)
    requires WellSized(op) && Current(s)
    ensures Apply(s, op).Done? && Current(Apply(s, op).state) <==> Safe(s, op)
  {
    match op
    case Schedule(task, oks) =>
      SchedulePanics(s, task, oks);
      if NoStale(s, task) {
        ScheduleCurrent(s, task, oks);
      }
    case Unschedule(id) => UnscheduleCurrent(s, id);
    case UnscheduleTask(id) => UnscheduleTaskCurrent(s, id);
  }

  // ---- Runs ----

  predicate AllSafe(s: State, ops: Run)
    decreases |ops|
  {
    ops == [] || (Safe(s, ops[0]) && Apply(s, ops[0]).Done? && AllSafe(Apply(s, ops[0]).state, ops[1..]))
  }

  ghost predicate AlwaysCurrent(s: State, ops: Run)
    decreases |ops|
  {
    Current(s) && (ops == [] || (Apply(s, ops[0]).Done? && AlwaysCurrent(Apply(s, ops[0]).state, ops[1..])))
  }

  /**
   Over whole runs, drops and replacements included: right throughout, without a panic, if and only if all calls are
   safe.
   */
  lemma {:induction false} RunCurrent(s: State, ops: Run)
    requires Current(s)
    ensures AlwaysCurrent(s, ops) <==> AllSafe(s, ops)
    decreases |ops|
  {
    if ops != [] {
      StepCurrent(s, ops[0]);
      if Safe(s, ops[0]) {
        RunCurrent(Apply(s, ops[0]).state, ops[1..]);
      }
    }
  }

  function RunState(s: State, ops: Run): State
    requires AllSafe(s, ops)
    decreases |ops|
  {
    if |ops| == 0 then s else RunState(Apply(s, ops[0]).state, ops[1..])
  }

  // ---- Dispatch ----

  /** The simple scan: every scheduled task that has the trigger, with its current definition. */
  function Scan(s: State, id: Id): map<Uuid, DefinedTask> {
    map t | t in s.tasks && Has(s, t, id) :: s.tasks[t].task
  }

  /** Dispatch through the index calls exactly the tasks a scan over all tasks would call, once each. */
  lemma DispatchIsScan(s: State, id: Id)
    requires Current(s)
    ensures Called(s, id) == Scan(s, id)
    ensures Dispatched(s, id) == TasksOf(Scan(s, id), Scan(s, id).Keys)
  {
    forall t
      ensures t in Called(s, id) <==> t in Scan(s, id)
      ensures t in Called(s, id) ==> Called(s, id)[t] == Scan(s, id)[t]
    {
      assert Indexed(s, t, id) <==> Has(s, t, id);
    }
    assert Called(s, id) == Scan(s, id);
  }

  // ---- History independence ----

  function AcceptedIds(task: DefinedTask, accepts: Id -> bool): set<Id> {
    set id | id in Ids(task.triggers) && accepts(id)
  }

  /** The underlying scheduler's answers depend on the trigger alone. */
  predicate Answers(op: Op, accepts: Id -> bool)
    requires WellSized(op)
  {
    op.Schedule? ==> forall i | 0 <= i < |op.oks| :: op.oks[i] == accepts(TriggerId(op.task.triggers[i]))
  }

  function Asked(task: DefinedTask, accepts: Id -> bool): (oks: seq<bool>)
    ensures |oks| == |task.triggers|
  {
    seq(|task.triggers|, i requires 0 <= i < |task.triggers| => accepts(TriggerId(task.triggers[i])))
  }

  /** The latest definition of each task that has not been unscheduled since. */
  function Latest(m: map<Uuid, DefinedTask>, ops: seq<Op>): map<Uuid, DefinedTask>
    decreases |ops|
  {
    if |ops| == 0 then m else Latest(Redefine(m, ops[0]), ops[1..])
  }

  function Redefine(m: map<Uuid, DefinedTask>, op: Op): map<Uuid, DefinedTask> {
    match op
    case Schedule(task, _) => m[task.id := task]
    case Unschedule(id) => m - {id}
    case UnscheduleTask(id) => m - {id}
  }

  /** The triggers of the task that its definition names. */
  function Named(s: State, t: Uuid): set<Id>
    requires t in s.tasks
  {
    s.tasks[t].triggers.Keys * Ids(s.tasks[t].task.triggers)
  }

  /**
   The tasks and their triggers are the ones that the definitions in m alone determine; leftovers were accepted once.
   */
  predicate Reflects(s: State, m: map<Uuid, DefinedTask>, accepts: Id -> bool) {
    && s.tasks.Keys == m.Keys
    && (forall t | t in m :: s.tasks[t].task == m[t] && Named(s, t) == AcceptedIds(m[t], accepts))
    && (forall t | t in m :: forall id | id in s.tasks[t].triggers :: accepts(id))
  }

  lemma StepReflects(s: State, m: map<Uuid, DefinedTask>, accepts: Id -> bool, op: Op)
    requires WellSized(op) && Reflects(s, m, accepts) && Apply(s, op).Done? && Answers(op, accepts)
    ensures Reflects(Apply(s, op).state, Redefine(m, op), accepts)
  {
    if op.Schedule? {
      ScheduleReflects(s, m, accepts, op.task, op.oks);
    }
  }

  /** What Schedule leaves of the task: what it had and what was accepted. */
  lemma ScheduledTriggers(s: State, task: DefinedTask, oks: seq<bool>)
    requires |oks| == |task.triggers| && AfterSchedule(s, task, oks).Done?
    ensures var r, owned := AfterSchedule(s, task, oks).state, TriggersOf(s, task.id).Keys;
            && task.id in r.tasks
            && r.tasks == s.tasks[task.id := r.tasks[task.id]]
            && r.tasks[task.id].task == task
            && r.tasks[task.id].triggers.Keys == owned + Accepted(owned, task.triggers, oks)
  {
    SchedulePanics(s, task, oks);
    ScheduleEffect(s, task, oks);
    var d := Define(s, task);
    assert d.tasks[task.id].triggers.Keys == TriggersOf(s, task.id).Keys;
  }

  lemma ScheduleReflects(s: State, m: map<Uuid, DefinedTask>, accepts: Id -> bool, task: DefinedTask, oks: seq<bool>)
    requires |oks| == |task.triggers| && Reflects(s, m, accepts) && AfterSchedule(s, task, oks).Done?
    requires forall i | 0 <= i < |oks| :: oks[i] == accepts(TriggerId(task.triggers[i]))
    ensures Reflects(AfterSchedule(s, task, oks).state, m[task.id := task], accepts)
  {
    GrantedAreAccepted(TriggersOf(s, task.id).Keys, task, oks, accepts);
    ScheduledTriggers(s, task, oks);
  }

  lemma GrantedAreAccepted(owned: set<Id>, task: DefinedTask, oks: seq<bool>, accepts: Id -> bool)
    requires |oks| == |task.triggers| && forall id | id in owned :: accepts(id)
    requires forall i | 0 <= i < |oks| :: oks[i] == accepts(TriggerId(task.triggers[i]))
    ensures (owned + Accepted(owned, task.triggers, oks)) * Ids(task.triggers) == AcceptedIds(task, accepts)
    ensures forall id | id in Accepted(owned, task.triggers, oks) :: accepts(id)
  {
    forall id | id in AcceptedIds(task, accepts) && id !in owned
      ensures id in Accepted(owned, task.triggers, oks)
    {
      var i :| 0 <= i < |task.triggers| && id == TriggerId(task.triggers[i]);
      assert oks[i];
    }
  }

  lemma {:induction false} RunReflects(s: State, m: map<Uuid, DefinedTask>, accepts: Id -> bool, ops: Run)
    requires Current(s) && Reflects(s, m, accepts) && AllSafe(s, ops) && forall op | op in ops :: Answers(op, accepts)
    ensures Current(RunState(s, ops)) && Reflects(RunState(s, ops), Latest(m, ops), accepts)
    decreases |ops|
  {
    if ops != [] {
      StepCurrent(s, ops[0]);
      StepReflects(s, m, accepts, ops[0]);
      RunReflects(Apply(s, ops[0]).state, Redefine(m, ops[0]), accepts, ops[1..]);
    }
  }

  /** The definitions determine the index, for every trigger and task. */
  lemma IndexedByDefinition(s: State, m: map<Uuid, DefinedTask>, accepts: Id -> bool, t: Uuid, id: Id)
    requires Current(s) && Reflects(s, m, accepts)
    ensures Indexed(s, t, id) <==> t in m && id in AcceptedIds(m[t], accepts)
    ensures Indexed(s, t, id) ==> s.index[id][t] == m[t]
  {
  }

  lemma ReflectionIsUnique(r: State, s: State, m: map<Uuid, DefinedTask>, accepts: Id -> bool)
    requires Current(r) && Current(s) && Reflects(r, m, accepts) && Reflects(s, m, accepts)
    ensures r.index == s.index && r.live == s.live
  {
    forall id
      ensures id in r.index <==> id in s.index
    {
      IndexedBySome(r, id);
      IndexedBySome(s, id);
      forall t
        ensures Indexed(r, t, id) <==> Indexed(s, t, id)
      {
        IndexedByDefinition(r, m, accepts, t, id);
        IndexedByDefinition(s, m, accepts, t, id);
      }
    }
    forall id | id in r.index
      ensures r.index[id] == s.index[id]
    {
      forall t
        ensures t in r.index[id] <==> t in s.index[id]
        ensures t in r.index[id] ==> r.index[id][t] == s.index[id][t]
      {
        IndexedByDefinition(r, m, accepts, t, id);
        IndexedByDefinition(s, m, accepts, t, id);
        assert Indexed(r, t, id) <==> t in r.index[id];
        assert Indexed(s, t, id) <==> t in s.index[id];
      }
    }
  }

  /**
   The past does not matter: two safe runs that end with the same definitions end with the same index, the same live
   triggers, and for each task the same definition and the same triggers that it names.
   */
  lemma HistoryIndependence(a: Run, b: Run, accepts: Id -> bool)
    requires AllSafe(INITIAL, a) && AllSafe(INITIAL, b) && Latest(map[], a) == Latest(map[], b)
    requires (forall op | op in a :: Answers(op, accepts)) && (forall op | op in b :: Answers(op, accepts))
    ensures var r, s := RunState(INITIAL, a), RunState(INITIAL, b);
            && r.index == s.index && r.live == s.live && r.tasks.Keys == s.tasks.Keys
            && forall t | t in r.tasks :: r.tasks[t].task == s.tasks[t].task && Named(r, t) == Named(s, t)
  {
    RunReflects(INITIAL, map[], accepts, a);
    RunReflects(INITIAL, map[], accepts, b);
    ReflectionIsUnique(RunState(INITIAL, a), RunState(INITIAL, b), Latest(map[], a), accepts);
  }

  /**
   After a safe run, a trigger calls exactly the tasks whose latest definition has it accepted, with that definition.
   */
  lemma DispatchAfterRun(ops: Run, accepts: Id -> bool, id: Id)
    requires AllSafe(INITIAL, ops) && forall op | op in ops :: Answers(op, accepts)
    ensures var m, s := Latest(map[], ops), RunState(INITIAL, ops);
            && Called(s, id) == (map t | t in m && id in AcceptedIds(m[t], accepts) :: m[t])
            && forall task :: Dispatched(s, id)[task]
                              == |set t | t in m && m[t] == task && id in AcceptedIds(task, accepts)|
  {
    var m, s := Latest(map[], ops), RunState(INITIAL, ops);
    RunReflects(INITIAL, map[], accepts, ops);
    CalledByDefinition(s, m, accepts, id);
    forall task
      ensures Dispatched(s, id)[task] == |set t | t in m && m[t] == task && id in AcceptedIds(task, accepts)|
    {
      EachIndexedOnce(s, id, task);
      DefinedWith(s, m, accepts, id, task);
    }
  }

  lemma DefinedWith(s: State, m: map<Uuid, DefinedTask>, accepts: Id -> bool, id: Id, task: DefinedTask)
    requires Called(s, id) == map t | t in m && id in AcceptedIds(m[t], accepts) :: m[t]
    ensures (set t | t in Called(s, id) && Called(s, id)[t] == task)
            == (set t | t in m && m[t] == task && id in AcceptedIds(task, accepts))
    ensures id !in s.index ==> (set t | t in Called(s, id) && Called(s, id)[t] == task) == {}
  {
  }

  lemma CalledByDefinition(s: State, m: map<Uuid, DefinedTask>, accepts: Id -> bool, id: Id)
    requires Current(s) && Reflects(s, m, accepts)
    ensures Called(s, id) == map t | t in m && id in AcceptedIds(m[t], accepts) :: m[t]
  {
    forall t
      ensures t in Called(s, id) <==> t in m && id in AcceptedIds(m[t], accepts)
      ensures t in Called(s, id) ==> Called(s, id)[t] == m[t]
    {
      IndexedByDefinition(s, m, accepts, t, id);
      assert Indexed(s, t, id) <==> t in Called(s, id);
    }
  }

  // ---- Replay ----

  /** Scheduling definitions one after the other. */
  function Replay(tasks: seq<DefinedTask>, accepts: Id -> bool): (ops: seq<Op>)
    ensures |ops| == |tasks|
    ensures forall i | 0 <= i < |ops| :: ops[i] == Op.Schedule(tasks[i], Asked(tasks[i], accepts))
  {
    seq(|tasks|, i requires 0 <= i < |tasks| => Op.Schedule(tasks[i], Asked(tasks[i], accepts)))
  }

  /** No trigger is accepted for two of the tasks, or for one of them and `taken` already. */
  predicate Separate(tasks: seq<DefinedTask>, accepts: Id -> bool, taken: set<Id>)
    decreases |tasks|
  {
    tasks == []
    || (AcceptedIds(tasks[0], accepts) !! taken
      && Separate(tasks[1..], accepts, taken + AcceptedIds(tasks[0], accepts)))
  }

  /** Replaying different tasks is safe if and only if no trigger is accepted for two of them. */
  lemma {:induction false} ReplayIsSafe(s: State, m: map<Uuid, DefinedTask>, accepts: Id -> bool,
          tasks: seq<DefinedTask>)
    requires Current(s) && Reflects(s, m, accepts)
    requires forall i | 0 <= i < |tasks| :: tasks[i].id !in s.tasks
    requires forall i, j | 0 <= i < j < |tasks| :: tasks[i].id != tasks[j].id
    ensures forall op | op in Replay(tasks, accepts) :: WellSized(op) && Answers(op, accepts)
    ensures AllSafe(s, Replay(tasks, accepts)) <==> Separate(tasks, accepts, s.index.Keys)
    decreases |tasks|
  {
    if tasks != [] {
      var op := Op.Schedule(tasks[0], Asked(tasks[0], accepts));
      assert Replay(tasks, accepts)[0] == op && Replay(tasks, accepts)[1..] == Replay(tasks[1..], accepts);
      FirstReplayed(s, m, accepts, tasks[0]);
      if Safe(s, op) {
        ReplayIsSafe(Apply(s, op).state, m[tasks[0].id := tasks[0]], accepts, tasks[1..]);
      }
    }
  }

  lemma FirstReplayed(s: State, m: map<Uuid, DefinedTask>, accepts: Id -> bool, task: DefinedTask)
    requires Current(s) && Reflects(s, m, accepts) && task.id !in s.tasks
    ensures var op := Op.Schedule(task, Asked(task, accepts));
            && (Safe(s, op) <==> AcceptedIds(task, accepts) !! s.index.Keys)
            && (Safe(s, op) ==>
                  && Apply(s, op).Done? && Current(Apply(s, op).state)
                  && Reflects(Apply(s, op).state, m[task.id := task], accepts)
                  && Apply(s, op).state.tasks.Keys == s.tasks.Keys + {task.id}
                  && Apply(s, op).state.index.Keys == s.index.Keys + AcceptedIds(task, accepts))
  {
    var oks := Asked(task, accepts);
    var op := Op.Schedule(task, oks);
    assert Accepted({}, task.triggers, oks) == AcceptedIds(task, accepts) by {
      forall id | id in AcceptedIds(task, accepts)
        ensures id in Accepted({}, task.triggers, oks)
      {
        var i :| 0 <= i < |task.triggers| && id == TriggerId(task.triggers[i]);
        assert oks[i];
      }
    }
    StepCurrent(s, op);
    if Safe(s, op) {
      ScheduleReflects(s, m, accepts, task, oks);
      ReplayedState(s, task, oks);
    }
  }

  /**
   Rescheduling a task is like unscheduling it and scheduling it afresh: that is safe too if and only if no other task
   is called for a trigger that the new definition has accepted, and then it gives the same index and live triggers.
   */
  lemma RescheduleIsFresh(s: State, m: map<Uuid, DefinedTask>, accepts: Id -> bool, task: DefinedTask)
    requires Current(s) && Reflects(s, m, accepts) && Safe(s, Op.Schedule(task, Asked(task, accepts)))
    ensures var op, without := Op.Schedule(task, Asked(task, accepts)), AfterUnscheduleTask(s, task.id);
            && (Safe(without, op) <==> forall id | id in AcceptedIds(task, accepts) :: Called(s, id).Keys <= {task.id})
            && (Safe(without, op) ==> SameIndex(Apply(without, op), Apply(s, op)))
  {
    var op, without := Op.Schedule(task, Asked(task, accepts)), AfterUnscheduleTask(s, task.id);
    SafeAfterUnscheduling(s, m, accepts, task);
    if Safe(without, op) {
      ScheduledAlike(s, m, without, m - {task.id}, accepts, task);
    }
  }

  lemma SafeAfterUnscheduling(s: State, m: map<Uuid, DefinedTask>, accepts: Id -> bool, task: DefinedTask)
    requires Current(s) && Reflects(s, m, accepts)
    ensures var without := AfterUnscheduleTask(s, task.id);
            && Current(without) && Reflects(without, m - {task.id}, accepts)
            && (Safe(without, Op.Schedule(task, Asked(task, accepts)))
                <==> forall id | id in AcceptedIds(task, accepts) :: Called(s, id).Keys <= {task.id})
  {
    UnscheduleTaskCurrent(s, task.id);
    FirstReplayed(AfterUnscheduleTask(s, task.id), m - {task.id}, accepts, task);
    UnscheduledKeys(s, task.id, AcceptedIds(task, accepts));
  }

  predicate SameIndex(a: Outcome, b: Outcome) {
    a.Done? && b.Done? && a.state.index == b.state.index && a.state.live == b.state.live
  }

  lemma ScheduledAlike(r: State, m: map<Uuid, DefinedTask>, s: State, n: map<Uuid, DefinedTask>, accepts: Id -> bool,
          task: DefinedTask)
    requires Current(r) && Reflects(r, m, accepts) && Current(s) && Reflects(s, n, accepts)
    requires m[task.id := task] == n[task.id := task]
    requires var op := Op.Schedule(task, Asked(task, accepts)); Safe(r, op) && Safe(s, op)
    ensures var op := Op.Schedule(task, Asked(task, accepts)); SameIndex(Apply(s, op), Apply(r, op))
  {
    var op := Op.Schedule(task, Asked(task, accepts));
    StepCurrent(r, op);
    StepCurrent(s, op);
    StepReflects(r, m, accepts, op);
    StepReflects(s, n, accepts, op);
    ReflectionIsUnique(Apply(s, op).state, Apply(r, op).state, m[task.id := task], accepts);
  }

  lemma UnscheduledKeys(s: State, t: Uuid, ids: set<Id>)
    requires Current(s)
    ensures ids !! AfterUnscheduleTask(s, t).index.Keys <==> forall id | id in ids :: Called(s, id).Keys <= {t}
  {
    forall id | id in ids
      ensures id in AfterUnscheduleTask(s, t).index <==> !(Called(s, id).Keys <= {t})
    {
      UnscheduledKey(s, t, id);
    }
  }

  lemma UnscheduledKey(s: State, t: Uuid, id: Id)
    requires Current(s)
    ensures id in AfterUnscheduleTask(s, t).index <==> !(Called(s, id).Keys <= {t})
  {
    assert Indexed(s, t, id) <==> Has(s, t, id);
    if id in s.index {
      var u :| u in s.index[id];
      assert u == t ==> Indexed(s, t, id);
    }
  }

  /**
   Replaying the latest definitions after a safe run: it is safe if and only if they share no accepted trigger, and then
   it builds the index, the live triggers and the tasks' named triggers that the run ended with.
   */
  lemma ReplayRebuilds(ops: Run, accepts: Id -> bool, tasks: seq<DefinedTask>)
    requires AllSafe(INITIAL, ops) && forall op | op in ops :: Answers(op, accepts)
    requires Lists(tasks, Latest(map[], ops))
    ensures forall op | op in Replay(tasks, accepts) :: WellSized(op)
    ensures AllSafe(INITIAL, Replay(tasks, accepts)) <==> Separate(tasks, accepts, {})
    ensures Separate(tasks, accepts, {}) ==>
              var r, s := RunState(INITIAL, ops), RunState(INITIAL, Replay(tasks, accepts));
              && r.index == s.index && r.live == s.live && r.tasks.Keys == s.tasks.Keys
              && forall t | t in r.tasks :: r.tasks[t].task == s.tasks[t].task && Named(r, t) == Named(s, t)
  {
    ReplayIsSafe(INITIAL, map[], accepts, tasks);
    if Separate(tasks, accepts, {}) {
      ReplayDefines(map[], tasks, accepts);
      ListedOnce(tasks, Latest(map[], ops));
      HistoryIndependence(ops, Replay(tasks, accepts), accepts);
    }
  }

  /** The sequence has each definition of m once. */
  ghost predicate Lists(tasks: seq<DefinedTask>, m: map<Uuid, DefinedTask>) {
    && (forall i | 0 <= i < |tasks| :: tasks[i].id in m && m[tasks[i].id] == tasks[i])
    && (forall t | t in m :: exists i :: 0 <= i < |tasks| && tasks[i].id == t)
    && (forall i, j | 0 <= i < j < |tasks| :: tasks[i].id != tasks[j].id)
  }

  function DefinedBy(m: map<Uuid, DefinedTask>, tasks: seq<DefinedTask>): map<Uuid, DefinedTask>
    decreases |tasks|
  {
    if |tasks| == 0 then m else DefinedBy(m[tasks[0].id := tasks[0]], tasks[1..])
  }

  lemma {:induction false} ReplayDefines(m: map<Uuid, DefinedTask>, tasks: seq<DefinedTask>, accepts: Id -> bool)
    ensures Latest(m, Replay(tasks, accepts)) == DefinedBy(m, tasks)
    decreases |tasks|
  {
    if tasks != [] {
      assert Replay(tasks, accepts)[1..] == Replay(tasks[1..], accepts);
      ReplayDefines(m[tasks[0].id := tasks[0]], tasks[1..], accepts);
    }
  }

  lemma {:induction false} DefinedAt(m: map<Uuid, DefinedTask>, tasks: seq<DefinedTask>, t: Uuid)
    requires forall i, j | 0 <= i < j < |tasks| :: tasks[i].id != tasks[j].id
    ensures (forall i | 0 <= i < |tasks| :: tasks[i].id != t) ==>
              (t in DefinedBy(m, tasks) <==> t in m) && (t in m ==> DefinedBy(m, tasks)[t] == m[t])
    ensures forall i | 0 <= i < |tasks| && tasks[i].id == t ::
              t in DefinedBy(m, tasks) && DefinedBy(m, tasks)[t] == tasks[i]
    decreases |tasks|
  {
    if tasks != [] {
      DefinedAt(m[tasks[0].id := tasks[0]], tasks[1..], t);
      assert forall i | 1 <= i < |tasks| :: tasks[i] == tasks[1..][i - 1];
      assert forall i | 0 <= i < |tasks| - 1 :: tasks[1..][i] == tasks[i + 1];
    }
  }

  lemma ListedOnce(tasks: seq<DefinedTask>, m: map<Uuid, DefinedTask>)
    requires Lists(tasks, m)
    ensures DefinedBy(map[], tasks) == m
  {
    forall t
      ensures t in DefinedBy(map[], tasks) <==> t in m
      ensures t in m ==> DefinedBy(map[], tasks)[t] == m[t]
    {
      DefinedAt(map[], tasks, t);
    }
  }

  /**
   Unschedule, the one the interface offers, leaves the index alone. Followed by Schedule it never panics, and the index
   is then right for the current definitions if and only if every trigger that the task listed and that is indexed is
   accepted again, and no other task is called for a trigger that is accepted.
   */
  lemma UnscheduleThenSchedule(s: State, task: DefinedTask, oks: seq<bool>)
    requires |oks| == |task.triggers| && Current(s) && task.id in s.tasks
    ensures AfterSchedule(AfterUnschedule(s, task.id), task, oks).Done?
    ensures Current(AfterSchedule(AfterUnschedule(s, task.id), task, oks).state) <==> TakesBack(s, task, oks)
  {
    var u := AfterUnschedule(s, task.id);
    ReplayedState(u, task, oks);
    var r := AfterSchedule(u, task, oks).state;
    if TakesBack(s, task, oks) {
      ReplayedEntries(u, task, oks);
      forall v, id
        ensures Indexed(r, v, id) <==> Has(r, v, id)
        ensures Indexed(r, v, id) ==> r.index[id][v] == r.tasks[v].task
      {
        TakenBack(s, task, oks, v, id);
      }
    } else if id :| id in TriggersOf(s, task.id) && id in s.index && id !in Accepted({}, task.triggers, oks) {
      assert id in r.index && id !in r.live;
    } else {
      var id :| id in Accepted({}, task.triggers, oks) && !(Called(s, id).Keys <= {task.id});
      var v :| v in Called(s, id) && v != task.id;
      TakenAway(s, task, oks, v, id);
    }
  }

  predicate TakesBack(s: State, task: DefinedTask, oks: seq<bool>)
    requires |oks| == |task.triggers|
  {
    var accepted := Accepted({}, task.triggers, oks);
    && TriggersOf(s, task.id).Keys * s.index.Keys <= accepted
    && forall id | id in accepted :: Called(s, id).Keys <= {task.id}
  }

  lemma ScheduledUnknown(u: State, task: DefinedTask, oks: seq<bool>)
    requires |oks| == |task.triggers| && task.id !in u.tasks
    ensures NoStale(u, task) && AfterSchedule(u, task, oks).Done?
    ensures AfterSchedule(u, task, oks).state == LoopState(u, task, oks)
    ensures Updates(Define(u, task), task.id, LoopState(u, task, oks), Accepted({}, task.triggers, oks), {})
  {
    assert TriggersOf(u, task.id).Keys == {};
    ScheduleEffect(u, task, oks);
    assert {} - Ids(task.triggers) == {} && Ids(task.triggers) * {} == {};
    RemoveNone(LoopState(u, task, oks), task.id);
  }

  lemma ReplayedState(u: State, task: DefinedTask, oks: seq<bool>)
    requires |oks| == |task.triggers| && task.id !in u.tasks
    ensures var o, accepted := AfterSchedule(u, task, oks), Accepted({}, task.triggers, oks);
            && o.Done? && o.state.tasks.Keys == u.tasks.Keys + {task.id}
            && o.state.index.Keys == u.index.Keys + accepted && o.state.live == u.live + accepted
  {
    ScheduledUnknown(u, task, oks);
  }

  lemma ReplayedEntries(u: State, task: DefinedTask, oks: seq<bool>)
    requires |oks| == |task.triggers| && task.id !in u.tasks && forall id | id in u.index :: u.index[id] != map[]
    ensures var o := AfterSchedule(u, task, oks);
            o.Done? && forall id | id in o.state.index :: o.state.index[id] != map[]
  {
    ScheduledUnknown(u, task, oks);
    UpdatedEntries(u.index, task.id, task, LoopState(u, task, oks).index, Accepted({}, task.triggers, oks), {});
  }

  lemma TakenAway(s: State, task: DefinedTask, oks: seq<bool>, v: Uuid, id: Id)
    requires |oks| == |task.triggers| && Current(s) && v != task.id && v in Called(s, id)
    requires id in Accepted({}, task.triggers, oks)
    ensures var o := AfterSchedule(AfterUnschedule(s, task.id), task, oks);
            o.Done? ==> Has(o.state, v, id) && !Indexed(o.state, v, id)
  {
    assert Indexed(s, v, id) && Has(s, v, id);
    UnscheduledThenScheduled(s, task, oks, v, id);
  }

  lemma UnscheduledThenScheduled(s: State, task: DefinedTask, oks: seq<bool>, v: Uuid, id: Id)
    requires |oks| == |task.triggers|
    ensures var o, accepted := AfterSchedule(AfterUnschedule(s, task.id), task, oks), Accepted({}, task.triggers, oks);
            && o.Done?
            && (Has(o.state, v, id) <==> if v == task.id then id in accepted else Has(s, v, id))
            && (Indexed(o.state, v, id) <==> if id in accepted then v == task.id else Indexed(s, v, id))
            && (v != task.id && v in s.tasks ==> v in o.state.tasks && o.state.tasks[v].task == s.tasks[v].task)
            && task.id in o.state.tasks && o.state.tasks[task.id].task == task
            && (Indexed(o.state, v, id) ==>
                  o.state.index[id][v] == if id in accepted then task else s.index[id][v])
  {
    var u := AfterUnschedule(s, task.id);
    assert TriggersOf(u, task.id).Keys == {};
    AcceptedAreNamed({}, task.triggers, oks);
    ScheduledOwnership(u, task, oks, v, id);
    ScheduledOwnership(u, task, oks, task.id, id);
  }

  lemma TakenBack(s: State, task: DefinedTask, oks: seq<bool>, v: Uuid, id: Id)
    requires |oks| == |task.triggers| && Current(s) && TakesBack(s, task, oks)
    ensures var o := AfterSchedule(AfterUnschedule(s, task.id), task, oks);
            && o.Done?
            && (Indexed(o.state, v, id) <==> Has(o.state, v, id))
            && (Indexed(o.state, v, id) ==> o.state.index[id][v] == o.state.tasks[v].task)
  {
    UnscheduledThenScheduled(s, task, oks, v, id);
    assert Indexed(s, v, id) <==> Has(s, v, id);
    assert Indexed(s, v, id) ==> v in Called(s, id);
  }

  // ---- What happens to calls that are not safe ----

  /** Scheduling a trigger that another task has takes the trigger away from it: only the new task is called. */
  lemma SharedTriggerIsTaken(s: State, task: DefinedTask, oks: seq<bool>, id: Id)
    requires |oks| == |task.triggers| && Current(s) && NoStale(s, task)
    requires id in Accepted(TriggersOf(s, task.id).Keys, task.triggers, oks)
    ensures AfterSchedule(s, task, oks).Done?
    ensures Called(AfterSchedule(s, task, oks).state, id) == map[task.id := task]
    ensures Dispatched(AfterSchedule(s, task, oks).state, id) == multiset{task}
    ensures forall u | u in Called(s, id) :: u != task.id && Has(AfterSchedule(s, task, oks).state, u, id)
  {
    AcceptedAreNamed(TriggersOf(s, task.id).Keys, task.triggers, oks);
    ScheduledOwnership(s, task, oks, task.id, id);
    var r := AfterSchedule(s, task, oks).state;
    forall t
      ensures t in r.index[id] <==> t == task.id
    {
      ScheduledOwnership(s, task, oks, t, id);
      assert Indexed(r, t, id) <==> t in r.index[id];
    }
    forall u | u in Called(s, id)
      ensures u != task.id && Has(r, u, id)
    {
      assert Indexed(s, u, id) && Has(s, u, id);
      ScheduledOwnership(s, task, oks, u, id);
    }
    assert Called(r, id) == map[task.id := task];
    OneDispatched(r, id, task.id, task);
  }

  /** A trigger that the new definition drops, and no other task has, becomes stale: naming it again panics. */
  lemma DroppedTriggerIsStale(s: State, task: DefinedTask, oks: seq<bool>, id: Id)
    requires |oks| == |task.triggers| && Current(s) && NoStale(s, task)
    requires id in TriggersOf(s, task.id) && id !in Ids(task.triggers) && Called(s, id).Keys <= {task.id}
    ensures AfterSchedule(s, task, oks).Done? && Stale(AfterSchedule(s, task, oks).state, task.id, id)
  {
    ScheduledKeys(s, task, oks);
    ScheduledOwnership(s, task, oks, task.id, id);
    var r := AfterSchedule(s, task, oks).state;
    assert Owns(s, task.id, id) && Owns(r, task.id, id);
    AcceptedAreNamed(TriggersOf(s, task.id).Keys, task.triggers, oks);
    forall t
      ensures !Indexed(r, t, id)
    {
      ScheduledOwnership(s, task, oks, t, id);
      assert Indexed(s, t, id) ==> t in Called(s, id);
    }
    SomeIndexed(r);
  }

  /** Unschedule leaves the task in the index: its triggers go on calling it if they fire. */
  lemma UnscheduledTaskIsCalled(s: State, t: Uuid, id: Id)
    requires Current(s) && Has(s, t, id)
    ensures t in Called(AfterUnschedule(s, t), id) && t !in AfterUnschedule(s, t).tasks
    ensures s.tasks[t].task in Dispatched(AfterUnschedule(s, t), id)
    ensures id !in AfterUnschedule(s, t).live
  {
    assert Indexed(s, t, id);
    TasksOfOneMore(s.index[id], s.index[id].Keys, t);
  }

  // ---- From the start ----

  /** One task with one accepted trigger. */
  function One(task: DefinedTask, x: TaskTrigger): State {
    State(map[task.id := ScheduledTask(task, map[TriggerId(x) := x])], map[TriggerId(x) := map[task.id := task]],
      {TriggerId(x)})
  }

  lemma ScheduleOne(task: DefinedTask, x: TaskTrigger)
    requires task.triggers == [x]
    ensures AfterSchedule(INITIAL, task, [true]) == Done(One(task, x), {TriggerId(x)})
  {
    var d := Define(INITIAL, task);
    assert UpdateAll(d, task.id, [x], [true]) == Done(One(task, x), {TriggerId(x)}) by {
      var o := AfterUpdate(d, task.id, x, true);
      assert o.state == One(task, x);
      assert [x][1..] == [] && [true][1..] == [];
      assert UpdateAll(o.state, task.id, [], []) == Done(o.state, {});
    }
  }

  /** Whatever the trigger: scheduled, dropped and taken back, it ends in a panic. */
  lemma TakingBackPanics(task: DefinedTask, x: TaskTrigger)
    requires task.triggers == [x]
    ensures var without := task.(triggers := []);
            var first := AfterSchedule(INITIAL, task, [true]);
            && first.Done?
            && var second := AfterSchedule(first.state, without, []);
               && second.Done? && Dispatched(second.state, TriggerId(x)) == multiset{} && second.state.live == {}
               && AfterSchedule(second.state, task, [true]).Panicked?
  {
    var id, one, without := TriggerId(x), One(task, x), task.(triggers := []);
    ScheduleOne(task, x);
    OneIsCurrent(task, x);
    assert Ids([]) == {};
    DroppedTriggerIsStale(one, without, [], id);
    var second := AfterSchedule(one, without, []).state;
    assert second.live == {} by {
      StepCurrent(one, Op.Schedule(without, []));
      ScheduledKeys(one, without, []);
      ScheduleEffect(one, without, []);
    }
    assert id in Ids(task.triggers) by {
      assert task.triggers[0] == x;
    }
    SchedulePanics(second, task, [true]);
  }

  lemma OneIsCurrent(task: DefinedTask, x: TaskTrigger)
    requires task.triggers == [x]
    ensures Current(One(task, x)) && Ids(task.triggers) == {TriggerId(x)}
  {
    IdsOfFirst([x]);
    SingleIsCurrent(One(task, x), task, x, TriggerId(x));
  }

  lemma SingleIsCurrent(s: State, task: DefinedTask, x: TaskTrigger, id: Id)
    requires Ids(task.triggers) == {id}
    requires s == State(map[task.id := ScheduledTask(task, map[id := x])], map[id := map[task.id := task]], {id})
    ensures Current(s)
  {
    assert task.id in s.index[id];
  }

  /** Whatever the trigger: the second task that is scheduled with it is the only one called. */
  lemma SecondOwnerTakesTrigger(task: DefinedTask, other: DefinedTask, x: TaskTrigger)
    requires task.triggers == other.triggers == [x] && task.id != other.id
    ensures var first := AfterSchedule(INITIAL, task, [true]);
            && first.Done? && Dispatched(first.state, TriggerId(x)) == multiset{task}
            && var second := AfterSchedule(first.state, other, [true]);
               && second.Done? && Dispatched(second.state, TriggerId(x)) == multiset{other}
               && Owns(second.state, task.id, TriggerId(x))
  {
    var id, one := TriggerId(x), One(task, x);
    ScheduleOne(task, x);
    OneIsCurrent(task, x);
    assert id in Accepted({}, other.triggers, [true]) by {
      assert other.triggers[0] == x;
    }
    SharedTriggerIsTaken(one, other, [true], id);
    assert task.id in Called(one, id);
    OneDispatched(one, id, task.id, task);
  }

  /** Whatever the trigger: an unscheduled task stays in the index, under a trigger that is no longer live. */
  lemma UnscheduledStaysIndexed(task: DefinedTask, x: TaskTrigger)
    requires task.triggers == [x]
    ensures var first := AfterSchedule(INITIAL, task, [true]);
            && first.Done?
            && var second := AfterUnschedule(first.state, task.id);
               && second.tasks == map[] && second.live == {}
               && Dispatched(second, TriggerId(x)) == multiset{task}
  {
    ScheduleOne(task, x);
    OneDispatched(AfterUnschedule(One(task, x), task.id), TriggerId(x), task.id, task);
  }
}
