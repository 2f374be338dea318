/** Tasks, their triggers, and the index from triggers back to tasks: taskscheduler/task_scheduler.go. */
module TaskScheduling {
  import opened Triggers

  newtype Uuid = x: int | 0 <= x < 0x1_0000_0000_0000_0000_0000_0000_0000_0000

  datatype DefinedTask = DefinedTask(id: Uuid, name: Bytes, bodyType: Bytes, body: Bytes, triggers: seq<TaskTrigger>)

  datatype ScheduledTask = ScheduledTask(task: DefinedTask, triggers: map<Id, TaskTrigger>)

  /** `live` is what the underlying triggers scheduler holds. */
  datatype State = State(tasks: map<Uuid, ScheduledTask>, index: map<Id, map<Uuid, DefinedTask>>, live: set<Id>)

  const INITIAL: State := State(map[], map[], {})

  /** A write into a missing inner map panics. */
  datatype Outcome = Panicked | Done(state: State, kept: set<Id>)

  // ---- The operations, on values ----

  /** `ok` says whether the underlying scheduler accepts the trigger, if it is asked. */
  function AfterUpdate(s: State, t: Uuid, trigger: TaskTrigger, ok: bool): Outcome
    requires t in s.tasks
  {
    var st, id := s.tasks[t], TriggerId(trigger);
    if id in st.triggers then
      if id in s.index then Done(s.(index := s.index[id := s.index[id][t := st.task]]), {id}) else Panicked
    else if ok then
      Done(State(s.tasks[t := st.(triggers := st.triggers[id := trigger])], s.index[id := map[t := st.task]],
        s.live + {id}), {id})
    else Done(s, {})
  }

  function UpdateAll(s: State, t: Uuid, triggers: seq<TaskTrigger>, oks: seq<bool>): (o: Outcome)
    requires t in s.tasks && |oks| == |triggers|
    ensures o.Done? ==> t in o.state.tasks
    decreases |triggers|
  {
    if |triggers| == 0 then Done(s, {})
    else
      match AfterUpdate(s, t, triggers[0], oks[0])
      case Panicked => Panicked
      case Done(s', kept) =>
        match UpdateAll(s', t, triggers[1..], oks[1..])
        case Panicked => Panicked
        case Done(s'', kept') => Done(s'', kept + kept')
  }

  /** removeTrigger for each of the ids, in any order. */
  function AfterRemove(s: State, t: Uuid, ids: set<Id>): State {
    var orphans := set id | id in ids && id in s.index && s.index[id].Keys <= {t};
    s.(index := map id | id in s.index && id !in orphans :: if id in ids then s.index[id] - {t} else s.index[id],
       live := s.live - orphans)
  }

  function Define(s: State, task: DefinedTask): State {
    s.(tasks := s.tasks[task.id := ScheduledTask(task, TriggersOf(s, task.id))])
  }

  function TriggersOf(s: State, t: Uuid): map<Id, TaskTrigger> {
    if t in s.tasks then s.tasks[t].triggers else map[]
  }

  function AfterSchedule(s: State, task: DefinedTask, oks: seq<bool>): Outcome
    requires |oks| == |task.triggers|
  {
    match UpdateAll(Define(s, task), task.id, task.triggers, oks)
    case Panicked => Panicked
    case Done(s', kept) =>
      Done(if task.id in s.tasks then AfterRemove(s', task.id, s'.tasks[task.id].triggers.Keys - kept) else s', kept)
  }

  function AfterUnschedule(s: State, t: Uuid): State {
    if t in s.tasks then s.(tasks := s.tasks - {t}, live := s.live - s.tasks[t].triggers.Keys) else s
  }

  function AfterUnscheduleTask(s: State, t: Uuid): State {
    if t in s.tasks then
      var s' := AfterRemove(s, t, s.tasks[t].triggers.Keys);
      s'.(tasks := s'.tasks - {t})
    else s
  }

  // ---- The object ----

  class TaskScheduler {
    var tasks: map<Uuid, ScheduledTask>
    var triggerTasks: map<Id, map<Uuid, DefinedTask>>
    var live: set<Id>  // the underlying scheduler's triggers
    const hasCallback: bool

    ghost function Value(): State
      reads this
    {
      State(tasks, triggerTasks, live)
    }

    constructor (hasCallback: bool)
      ensures Value() == INITIAL && this.hasCallback == hasCallback
    {
      tasks, triggerTasks, live := map[], map[], {};
      this.hasCallback := hasCallback;
    }

    method UpdateTrigger(taskID: Uuid, trigger: TaskTrigger, ok: bool) returns (panicked: bool, id: Id, failed: bool)
      requires taskID in tasks
      modifies this
      ensures panicked == AfterUpdate(old(Value()), taskID, trigger, ok).Panicked?
      ensures !panicked ==>
                AfterUpdate(old(Value()), taskID, trigger, ok) == Done(Value(), if failed then {} else {id})
    {
      var st := tasks[taskID];
      panicked, id, failed := false, TriggerId(trigger), false;
      if id !in st.triggers {
        if !ok {
          failed := true;
          return;
        }
        live := live + {id};
        tasks := tasks[taskID := st.(triggers := st.triggers[id := trigger])];
        triggerTasks := triggerTasks[id := map[taskID := st.task]];
      } else if id in triggerTasks {
        triggerTasks := triggerTasks[id := triggerTasks[id][taskID := st.task]];
      } else {
        panicked := true;
      }
    }

    method RemoveTrigger(taskID: Uuid, triggerID: Id)
      modifies this
      ensures Value() == AfterRemove(old(Value()), taskID, {triggerID})
    {
      RemoveOne(Value(), taskID, triggerID);
      if triggerID in triggerTasks {
        var owners := triggerTasks[triggerID] - {taskID};
        if owners != map[] {
          triggerTasks := triggerTasks[triggerID := owners];
        } else {
          triggerTasks := triggerTasks - {triggerID};
          live := live - {triggerID};
        }
      }
    }

    method RemoveEach(taskID: Uuid, ids: set<Id>)
      modifies this
      ensures Value() == AfterRemove(old(Value()), taskID, ids)
    {
      ghost var before := Value();
      var left := ids;
      while left != {}
        invariant left <= ids && Value() == AfterRemove(before, taskID, ids - left)
        decreases left
      {
        var id :| id in left;
        RemoveTrigger(taskID, id);
        RemoveOneMore(before, taskID, ids - left, id);
        left := left - {id};
        assert ids - left == ids - (left + {id}) + {id};
      }
      assert ids - {} == ids;
    }

    /** `oks[i]` is the underlying scheduler's answer for the i-th trigger, if it is asked. */
    method Schedule(task: DefinedTask, oks: seq<bool>) returns (panicked: bool)
      requires |oks| == |task.triggers|
      modifies this
      ensures panicked == AfterSchedule(old(Value()), task, oks).Panicked?
      ensures !panicked ==> AfterSchedule(old(Value()), task, oks).state == Value()
    {
      ghost var before := Value();
      var known := task.id in tasks;
      if known {
        tasks := tasks[task.id := tasks[task.id].(task := task)];
      } else {
        tasks := tasks[task.id := ScheduledTask(task, map[])];
      }
      ghost var defined := Value();
      assert defined == Define(before, task);
      var newTriggers: set<Id> := {};
      for i := 0 to |task.triggers|
        invariant task.id in tasks
        invariant Extended(UpdateAll(Value(), task.id, task.triggers[i..], oks[i..]), newTriggers)
                  == UpdateAll(defined, task.id, task.triggers, oks)
      {
        var id, failed;
        UpdateAllStep(Value(), task.id, task.triggers, oks, i, newTriggers);
        panicked, id, failed := UpdateTrigger(task.id, task.triggers[i], oks[i]);
        if panicked {
          return;
        }
        if !failed {
          newTriggers := newTriggers + {id};
        }
      }
      assert task.triggers[|task.triggers|..] == [] && oks[|oks|..] == [];
      if known {
        RemoveEach(task.id, tasks[task.id].triggers.Keys - newTriggers);
      }
      panicked := false;
    }

    method UnscheduleTask(taskID: Uuid)
      modifies this
      ensures Value() == AfterUnscheduleTask(old(Value()), taskID)
    {
      if taskID in tasks {
        RemoveEach(taskID, tasks[taskID].triggers.Keys);
        tasks := tasks - {taskID};
      }
    }

    method Unschedule(taskID: Uuid) returns (found: bool)
      modifies this
      ensures found == (taskID in old(tasks))
      ensures Value() == AfterUnschedule(old(Value()), taskID)
    {
      found := taskID in tasks;
      if found {
        live := live - tasks[taskID].triggers.Keys;
        tasks := tasks - {taskID};
      }
    }

    /** The tasks the callback is called with, in map order. */
    method OnTrigger(triggerID: Id) returns (called: seq<DefinedTask>)
      ensures hasCallback ==> multiset(called) == Dispatched(Value(), triggerID)
      ensures !hasCallback ==> called == []
    {
      called := [];
      if hasCallback && triggerID in triggerTasks {
        var owners := triggerTasks[triggerID];
        var left := owners.Keys;
        while left != {}
          invariant left <= owners.Keys
          invariant multiset(called) + TasksOf(owners, left) == TasksOf(owners, owners.Keys)
          decreases left
        {
          var t :| t in left;
          TasksOfOneMore(owners, left, t);
          called := called + [owners[t]];
          left := left - {t};
        }
      }
    }
  }

  function Extended(o: Outcome, kept: set<Id>): Outcome {
    match o
    case Panicked => Panicked
    case Done(s, kept') => Done(s, kept + kept')
  }

  lemma UpdateAllStep(s: State, t: Uuid, triggers: seq<TaskTrigger>, oks: seq<bool>, i: nat, kept: set<Id>)
    requires t in s.tasks && |oks| == |triggers| && i < |triggers|
    ensures Extended(UpdateAll(s, t, triggers[i..], oks[i..]), kept)
            == match AfterUpdate(s, t, triggers[i], oks[i])
               case Panicked => Panicked
               case Done(s', kept') => Extended(UpdateAll(s', t, triggers[i + 1..], oks[i + 1..]), kept + kept')
  {
  }

  lemma RemoveOne(s: State, t: Uuid, id: Id)
    ensures id !in s.index ==> AfterRemove(s, t, {id}) == s
    ensures id in s.index && s.index[id] - {t} == map[] ==>
              AfterRemove(s, t, {id}) == s.(index := s.index - {id}, live := s.live - {id})
    ensures id in s.index && s.index[id] - {t} != map[] ==>
              AfterRemove(s, t, {id}) == s.(index := s.index[id := s.index[id] - {t}])
  {
    var r := AfterRemove(s, t, {id});
    if id in s.index {
      var owners := s.index[id] - {t};
      assert owners == map[] <==> s.index[id].Keys <= {t} by {
        assert owners.Keys == s.index[id].Keys - {t};
        assert owners == map[] <==> owners.Keys == {};
      }
      if owners == map[] {
        assert r.index == s.index - {id};
        assert r.live == s.live - {id};
      } else {
        assert r.index == s.index[id := owners];
        assert r.live == s.live;
      }
    } else {
      assert r.index == s.index && r.live == s.live;
    }
  }

  lemma RemoveOneMore(s: State, t: Uuid, ids: set<Id>, id: Id)
    ensures AfterRemove(AfterRemove(s, t, ids), t, {id}) == AfterRemove(s, t, ids + {id})
  {
    var m, a, b := AfterRemove(s, t, ids), AfterRemove(AfterRemove(s, t, ids), t, {id}), AfterRemove(s, t, ids + {id});
    if id in s.index {
      assert s.index[id] - {t} - {t} == s.index[id] - {t};
      assert (s.index[id] - {t}).Keys <= {t} <==> s.index[id].Keys <= {t};
    }
    assert a.index.Keys == b.index.Keys;
    assert forall k | k in b.index :: a.index[k] == b.index[k];
    assert a.live == b.live;
  }

  /** The definitions a dispatch hands out, one for each owner. */
  ghost function TasksOf(owners: map<Uuid, DefinedTask>, ts: set<Uuid>): multiset<DefinedTask>
    requires ts <= owners.Keys
  {
    if ts == {} then multiset{} else var t :| t in ts; multiset{owners[t]} + TasksOf(owners, ts - {t})
  }

  /** The tasks OnTrigger calls back for a trigger, by task id. */
  function Called(s: State, id: Id): map<Uuid, DefinedTask> {
    if id in s.index then s.index[id] else map[]
  }

  ghost function Dispatched(s: State, id: Id): multiset<DefinedTask> {
    TasksOf(Called(s, id), Called(s, id).Keys)
  }

  /** In every state: a definition is handed out once for each task that the index has it for, and no other is. */
  lemma EachIndexedOnce(s: State, id: Id, task: DefinedTask)
    ensures Dispatched(s, id)[task]
            == if id in s.index then |set t | t in s.index[id] && s.index[id][t] == task| else 0
  {
    TasksOfCounts(Called(s, id), Called(s, id).Keys, task);
    assert DefinedAs(Called(s, id), Called(s, id).Keys, task)
           == set t | t in Called(s, id) && Called(s, id)[t] == task;
  }

  lemma {:induction false} TasksOfCounts(owners: map<Uuid, DefinedTask>, ts: set<Uuid>, task: DefinedTask)
    requires ts <= owners.Keys
    ensures TasksOf(owners, ts)[task] == |DefinedAs(owners, ts, task)|
  {
    if ts != {} {
      var t :| t in ts && TasksOf(owners, ts) == multiset{owners[t]} + TasksOf(owners, ts - {t});
      TasksOfCounts(owners, ts - {t}, task);
      DefinedAsWithout(owners, ts, task, t);
    }
  }

  function DefinedAs(owners: map<Uuid, DefinedTask>, ts: set<Uuid>, task: DefinedTask): set<Uuid>
    requires ts <= owners.Keys
  {
    set t | t in ts && owners[t] == task
  }

  lemma DefinedAsWithout(owners: map<Uuid, DefinedTask>, ts: set<Uuid>, task: DefinedTask, t: Uuid)
    requires t in ts && ts <= owners.Keys
    ensures |DefinedAs(owners, ts, task)|
            == |DefinedAs(owners, ts - {t}, task)| + if owners[t] == task then 1 else 0
  {
    if owners[t] == task {
      assert DefinedAs(owners, ts, task) == DefinedAs(owners, ts - {t}, task) + {t};
    } else {
      assert DefinedAs(owners, ts, task) == DefinedAs(owners, ts - {t}, task);
    }
  }

  /** One owner, one callback. */
  lemma OneDispatched(s: State, id: Id, t: Uuid, task: DefinedTask)
    requires Called(s, id) == map[t := task]
    ensures Dispatched(s, id) == multiset{task}
  {
    assert Called(s, id).Keys == {t} && {t} - {t} == {};
    TasksOfOneMore(Called(s, id), {t}, t);
  }

  lemma {:induction false} TasksOfOneMore(owners: map<Uuid, DefinedTask>, ts: set<Uuid>, t: Uuid)
    requires t in ts && ts <= owners.Keys
    ensures TasksOf(owners, ts) == multiset{owners[t]} + TasksOf(owners, ts - {t})
  {
    var u :| u in ts && TasksOf(owners, ts) == multiset{owners[u]} + TasksOf(owners, ts - {u});
    if u != t {
      TasksOfOneMore(owners, ts - {u}, t);
      TasksOfOneMore(owners, ts - {t}, u);
      assert ts - {u} - {t} == ts - {t} - {u};
    }
  }
}
