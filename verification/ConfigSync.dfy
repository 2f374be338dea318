/** Keeping the configured and the scheduled tasks in step with the server's messages: scheduler.go. */
module ConfigSync {
  import opened Triggers
  import opened TaskScheduling
  import opened TaskIndex
  import opened TaskRuns

  const TASK_TYPE_EXEC: Bytes := [0x65, 0x78, 0x65, 0x63]
  const TASK_TYPE_SCRIPT: Bytes := [0x73, 0x63, 0x72, 0x69, 0x70, 0x74]

  type TaskMap = map<Uuid, DefinedTask>

  predicate CanExecute(task: DefinedTask) {
    task.bodyType == TASK_TYPE_EXEC || task.bodyType == TASK_TYPE_SCRIPT
  }

  function Executable(tasks: TaskMap): TaskMap {
    map id | id in tasks && CanExecute(tasks[id]) :: tasks[id]
  }

  /** By id; of two tasks with the same id the later one counts. */
  function FromList(tasks: seq<DefinedTask>): TaskMap {
    if |tasks| == 0 then map[]
    else
      var last := tasks[|tasks| - 1];
      FromList(tasks[..|tasks| - 1])[last.id := last]
  }

  // ---- The objects ----

  /** A map is a reference: two variables may name the same one. */
  class MapObject {
    var entries: TaskMap

    constructor ()
      ensures entries == map[]
    {
      entries := map[];
    }
  }

  method GetTasksMap(tasks: seq<DefinedTask>) returns (m: MapObject)
    ensures fresh(m) && m.entries == FromList(tasks)
  {
    m := new MapObject();
    for i := 0 to |tasks|
      invariant fresh(m) && m.entries == FromList(tasks[..i])
    {
      m.entries := m.entries[tasks[i].id := tasks[i]];
      assert tasks[..i + 1][..i] == tasks[..i];
    }
    assert tasks[..|tasks|] == tasks;
  }

  /** What the underlying triggers scheduler answers when a task is scheduled, trigger by trigger. */
  type Replies = f: DefinedTask -> seq<bool> | forall task: DefinedTask :: |f(task)| == |task.triggers|
    witness (task: DefinedTask) => seq(|task.triggers|, _ => true)

  /** The calls for the tasks of a walk. */
  function Calls(walk: seq<DefinedTask>, replies: Replies): (ops: TaskIndex.Run)
    ensures |ops| == |walk|
    ensures forall i | 0 <= i < |ops| :: ops[i] == Op.Schedule(walk[i], replies(walk[i]))
  {
    var ops := seq(|walk|, i requires 0 <= i < |walk| => Op.Schedule(walk[i], replies(walk[i])));
    assert forall op | op in ops :: WellSized(op);
    ops
  }

  /** One call after the other, up to a panic. */
  function Perform(s: State, ops: TaskIndex.Run): Outcome
    decreases |ops|
  {
    if |ops| == 0 then Done(s, {})
    else
      match TaskIndex.Apply(s, ops[0])
      case Panicked => Panicked
      case Done(s', _) => Perform(s', ops[1..])
  }

  lemma {:induction false} PerformAppend(s: State, a: TaskIndex.Run, b: TaskIndex.Run)
    ensures Perform(s, a + b)
            == match Perform(s, a)
               case Panicked => Panicked
               case Done(s', _) => Perform(s', b)
    decreases |a|
  {
    if a == [] {
      assert a + b == b;
    } else {
      assert (a + b)[1..] == a[1..] + b;
      var o := TaskIndex.Apply(s, a[0]);
      if o.Done? {
        PerformAppend(o.state, a[1..], b);
      }
    }
  }

  class ApplicationScheduler {
    const taskScheduler: TaskScheduler
    var config: MapObject
    var saved: TaskMap  // what was last written to the configuration file

    ghost predicate Valid()
      reads this, config
    {
      saved == config.entries
    }

    constructor ()
      ensures Valid() && fresh(config) && config.entries == map[]
      ensures fresh(taskScheduler) && taskScheduler.Value() == INITIAL
    {
      taskScheduler := new TaskScheduler(true);
      config := new MapObject();
      saved := map[];
    }

    method OnTask(task: DefinedTask, oks: seq<bool>) returns (panicked: bool)
      requires Valid() && |oks| == |task.triggers|
      modifies this`saved, taskScheduler, config
      ensures Valid()
      ensures panicked == AfterSchedule(old(taskScheduler.Value()), task, oks).Panicked?
      ensures panicked ==> config.entries == old(config.entries)
      ensures !panicked ==>
                && taskScheduler.Value() == AfterSchedule(old(taskScheduler.Value()), task, oks).state
                && config.entries == old(config.entries)[task.id := task]
    {
      panicked := taskScheduler.Schedule(task, oks);
      if !panicked {
        config.entries := config.entries[task.id := task];
        saved := config.entries;
      }
    }

    method OnTaskRemoved(id: Uuid)
      requires Valid()
      modifies this`saved, config
      ensures Valid() && config.entries == old(config.entries) - {id}
    {
      if id in config.entries {
        config.entries := config.entries - {id};
        saved := config.entries;
      }
    }

    /**
     The tasks are scheduled in some order, `walk`, up to a panic, which leaves the tasks in `left` out. The old tasks
     are walked through the very map that OnTask and OnTaskRemoved change.
     */
    method OnTasks(tasks: seq<DefinedTask>, replies: Replies)
      returns (panicked: bool, ghost walk: seq<DefinedTask>, ghost left: set<Uuid>)
      requires Valid()
      modifies this, taskScheduler, config
      ensures Valid()
      ensures Lists(walk, Executable(FromList(tasks)) - left)
      ensures panicked == Perform(old(taskScheduler.Value()), Calls(walk, replies)).Panicked?
      ensures !panicked ==>
                && left == {} && fresh(config) && config.entries == FromList(tasks)
                && taskScheduler.Value() == Perform(old(taskScheduler.Value()), Calls(walk, replies)).state
    {
      var oldTasks := config;
      var newMap := GetTasksMap(tasks);
      ghost var before, all := taskScheduler.Value(), Executable(FromList(tasks));
      walk, left := [], {};
      var unseen := newMap.entries.Keys;
      while unseen != {}
        invariant Valid() && config == oldTasks && newMap != config && newMap.entries == FromList(tasks)
        invariant unseen <= FromList(tasks).Keys && Lists(walk, all - unseen)
        invariant Perform(before, Calls(walk, replies)) == Done(taskScheduler.Value(), {})
        decreases unseen
      {
        var id :| id in unseen;
        var task := newMap.entries[id];
        if CanExecute(task) {
          IdOfEntry(tasks, id);
          OneMoreCall(before, walk, replies, task);
          OneMoreListed(walk, all, unseen, task);
          walk := walk + [task];
          panicked := OnTask(task, replies(task));
          if panicked {
            left := unseen - {id};
            return;
          }
        }
        NotListed(all, unseen, id);
        unseen := unseen - {id};
      }
      assert all - {} == all;
      ghost var after := taskScheduler.Value();
      var gone := oldTasks.entries.Keys;
      while gone != {}
        invariant Valid() && config == oldTasks && newMap != config && newMap.entries == FromList(tasks)
        invariant taskScheduler.Value() == after
        decreases gone
      {
        var id :| id in gone;
        if id in oldTasks.entries && id !in newMap.entries {
          OnTaskRemoved(oldTasks.entries[id].id);
        }
        gone := gone - {id};
      }
      config := newMap;
      saved := newMap.entries;
      panicked := false;
    }
  }

  lemma {:induction false} IdOfEntry(tasks: seq<DefinedTask>, id: Uuid)
    requires id in FromList(tasks)
    ensures FromList(tasks)[id].id == id
  {
    var n := |tasks| - 1;
    if tasks[n].id != id {
      IdOfEntry(tasks[..n], id);
    }
  }

  lemma OneMoreCall(s: State, walk: seq<DefinedTask>, replies: Replies, task: DefinedTask)
    requires Perform(s, Calls(walk, replies)).Done?
    ensures var o := AfterSchedule(Perform(s, Calls(walk, replies)).state, task, replies(task));
            Perform(s, Calls(walk + [task], replies)) == if o.Panicked? then Panicked else Done(o.state, {})
  {
    var op := Op.Schedule(task, replies(task));
    assert Calls(walk + [task], replies) == Calls(walk, replies) + [op];
    PerformAppend(s, Calls(walk, replies), [op]);
    assert [op][1..] == [];
  }

  lemma NotListed(all: TaskMap, left: set<Uuid>, id: Uuid)
    ensures id !in all ==> all - (left - {id}) == all - left
  {
  }

  lemma OneMoreListed(walk: seq<DefinedTask>, all: TaskMap, left: set<Uuid>, task: DefinedTask)
    requires Lists(walk, all - left) && task.id in left && task.id in all && all[task.id] == task
    ensures Lists(walk + [task], all - (left - {task.id}))
  {
    var longer, m := walk + [task], all - (left - {task.id});
    forall t | t in m
      ensures exists i :: 0 <= i < |longer| && longer[i].id == t
    {
      if t == task.id {
        assert longer[|walk|].id == t;
      } else {
        assert t in all - left;
        var i :| 0 <= i < |walk| && walk[i].id == t;
        assert longer[i].id == t;
      }
    }
  }

  // ---- Runs ----

  datatype Message = Tasks(tasks: seq<DefinedTask>) | TaskUpdated(task: DefinedTask) | TaskRemoved(id: Uuid)

  datatype Sync = Sync(config: TaskMap, scheduled: TaskMap)

  /** The tasks that the message has scheduled. */
  function ToSchedule(message: Message): TaskMap {
    match message
    case Tasks(tasks) => Executable(FromList(tasks))
    case TaskUpdated(task) => map[task.id := task]
    case TaskRemoved(_) => map[]
  }

  function Apply(s: Sync, message: Message): Sync {
    var config := match message
      case Tasks(tasks) => FromList(tasks)
      case TaskUpdated(task) => s.config[task.id := task]
      case TaskRemoved(id) => s.config - {id};
    Sync(config, s.scheduled + ToSchedule(message))
  }

  function Run(s: Sync, messages: seq<Message>): Sync
    decreases |messages|
  {
    if |messages| == 0 then s else Run(Apply(s, messages[0]), messages[1..])
  }

  /** The scheduler has exactly the configured tasks that can be executed. */
  predicate InStep(s: Sync) {
    s.scheduled == Executable(s.config)
  }

  /** Nothing that is scheduled goes away, and nothing that cannot be executed comes as an update. */
  predicate Guard(s: Sync, message: Message) {
    match message
    case Tasks(tasks) => s.scheduled.Keys <= Executable(FromList(tasks)).Keys
    case TaskUpdated(task) => CanExecute(task)
    case TaskRemoved(id) => id !in s.scheduled
  }

  /** A full list does not need them to be in step before. */
  lemma StepInStep(s: Sync, message: Message)
    requires message.Tasks? || InStep(s)
    ensures InStep(Apply(s, message)) <==> Guard(s, message)
  {
    match message
    case Tasks(tasks) =>
      var e := Executable(FromList(tasks));
      assert (s.scheduled + e).Keys == s.scheduled.Keys + e.Keys;
      if s.scheduled.Keys <= e.Keys {
        assert s.scheduled + e == e;
      }
    case TaskUpdated(task) => UpdateInStep(s, task);
    case TaskRemoved(id) =>
      assert Executable(s.config - {id}) == Executable(s.config) - {id};
      assert s.scheduled + map[] == s.scheduled;
  }

  lemma UpdateInStep(s: Sync, task: DefinedTask)
    requires InStep(s)
    ensures InStep(Apply(s, TaskUpdated(task))) <==> CanExecute(task)
  {
    var r := Apply(s, TaskUpdated(task));
    if CanExecute(task) {
      assert Executable(r.config) == Executable(s.config) + map[task.id := task];
    } else {
      assert task.id in r.scheduled && task.id !in Executable(r.config);
    }
  }

  /** In step after every message. */
  predicate AlwaysInStep(s: Sync, messages: seq<Message>)
    decreases |messages|
  {
    messages == [] || (InStep(Apply(s, messages[0])) && AlwaysInStep(Apply(s, messages[0]), messages[1..]))
  }

  predicate Guarded(s: Sync, messages: seq<Message>)
    decreases |messages|
  {
    messages == [] || (Guard(s, messages[0]) && Guarded(Apply(s, messages[0]), messages[1..]))
  }

  /**
   From a start in step, or if a full list comes first: the scheduler is in step with the configuration after every
   message if and only if every message meets its guard.
   */
  lemma {:induction false} RunInStep(s: Sync, messages: seq<Message>)
    requires messages == [] || InStep(s) || messages[0].Tasks?
    ensures AlwaysInStep(s, messages) <==> Guarded(s, messages)
    decreases |messages|
  {
    if messages != [] {
      StepInStep(s, messages[0]);
      if Guard(s, messages[0]) {
        RunInStep(Apply(s, messages[0]), messages[1..]);
      }
    }
  }

  /** After a start with a configuration from disk and nothing scheduled, the first full list puts them in step. */
  lemma FirstListInStep(config: TaskMap, tasks: seq<DefinedTask>)
    ensures InStep(Apply(Sync(config, map[]), Tasks(tasks)))
  {
  }

  /** An input: of a list with tasks of the types "exec", "script" and "arbitrary" the first two are scheduled. */
  lemma ArbitraryIsSkipped(a: DefinedTask, b: DefinedTask, c: DefinedTask)
    requires a.id != b.id && b.id != c.id && a.id != c.id
    requires a.bodyType == [0x65, 0x78, 0x65, 0x63] && b.bodyType == [0x73, 0x63, 0x72, 0x69, 0x70, 0x74]
    requires c.bodyType == [0x61, 0x72, 0x62, 0x69, 0x74, 0x72, 0x61, 0x72, 0x79]
    ensures Apply(Sync(map[], map[]), Tasks([a, b, c]))
            == Sync(map[a.id := a, b.id := b, c.id := c], map[a.id := a, b.id := b])
  {
    assert [a, b, c][..2] == [a, b] && [a, b][..1] == [a] && [a][..0] == [];
    assert FromList([a]) == map[a.id := a];
    assert FromList([a, b]) == map[a.id := a, b.id := b];
    assert FromList([a, b, c]) == map[a.id := a, b.id := b, c.id := c];
    assert |c.bodyType| == 9;
    assert Executable(FromList([a, b, c])) == map[a.id := a, b.id := b];
  }

  /** An input: a task that can be executed arrives and is removed again; it stays scheduled. */
  lemma RemovedTaskStaysScheduled(task: DefinedTask)
    requires CanExecute(task)
    ensures var s := Apply(Apply(Sync(map[], map[]), TaskUpdated(task)), TaskRemoved(task.id));
            s.config == map[] && s.scheduled == map[task.id := task]
  {
  }

  // ---- Task by task ----

  datatype Option<T> = None | Some(value: T)

  function Get(m: TaskMap, id: Uuid): Option<DefinedTask> {
    if id in m then Some(m[id]) else None
  }

  function LastIn(tasks: seq<DefinedTask>, id: Uuid): Option<DefinedTask> {
    if |tasks| == 0 then None
    else if tasks[|tasks| - 1].id == id then Some(tasks[|tasks| - 1])
    else LastIn(tasks[..|tasks| - 1], id)
  }

  /** What the latest message that concerns the task says about it; a full list concerns every task. */
  function LastWord(start: TaskMap, messages: seq<Message>, id: Uuid): Option<DefinedTask> {
    if |messages| == 0 then Get(start, id)
    else
      var earlier := messages[..|messages| - 1];
      match messages[|messages| - 1]
      case Tasks(tasks) => LastIn(tasks, id)
      case TaskUpdated(task) => if task.id == id then Some(task) else LastWord(start, earlier, id)
      case TaskRemoved(removed) => if removed == id then None else LastWord(start, earlier, id)
  }

  lemma {:induction false} FromListIsLast(tasks: seq<DefinedTask>, id: Uuid)
    ensures Get(FromList(tasks), id) == LastIn(tasks, id)
  {
    if tasks != [] && tasks[|tasks| - 1].id != id {
      FromListIsLast(tasks[..|tasks| - 1], id);
    }
  }

  lemma {:induction false} RunLast(s: Sync, messages: seq<Message>)
    requires messages != []
    ensures Run(s, messages) == Apply(Run(s, messages[..|messages| - 1]), messages[|messages| - 1])
    decreases |messages|
  {
    if |messages| > 1 {
      RunLast(Apply(s, messages[0]), messages[1..]);
      assert messages[1..][..|messages| - 2] == messages[..|messages| - 1][1..];
    }
  }

  /** After any messages the configuration has, for each task, what the latest message about it says. */
  lemma {:induction false} ConfigIsLastWord(s: Sync, messages: seq<Message>, id: Uuid)
    ensures Get(Run(s, messages).config, id) == LastWord(s.config, messages, id)
    decreases |messages|
  {
    if messages != [] {
      RunLast(s, messages);
      ConfigIsLastWord(s, messages[..|messages| - 1], id);
      if messages[|messages| - 1].Tasks? {
        FromListIsLast(messages[|messages| - 1].tasks, id);
      }
    }
  }

  /** The last definition that a message has had scheduled; nothing takes it back. */
  function LastScheduled(start: TaskMap, messages: seq<Message>, id: Uuid): Option<DefinedTask> {
    if |messages| == 0 then Get(start, id)
    else
      match ScheduledBy(messages[|messages| - 1], id)
      case Some(task) => Some(task)
      case None => LastScheduled(start, messages[..|messages| - 1], id)
  }

  function ScheduledBy(message: Message, id: Uuid): Option<DefinedTask> {
    match message
    case Tasks(tasks) =>
      var last := LastIn(tasks, id);
      if last.Some? && CanExecute(last.value) then last else None
    case TaskUpdated(task) => if task.id == id then Some(task) else None
    case TaskRemoved(_) => None
  }

  lemma ToScheduleIs(message: Message, id: Uuid)
    ensures Get(ToSchedule(message), id) == ScheduledBy(message, id)
  {
    if message.Tasks? {
      FromListIsLast(message.tasks, id);
    }
  }

  /**
   After any messages the scheduler has, for each task, the last definition that was scheduled, removals and later lists
   notwithstanding.
   */
  lemma {:induction false} NothingIsUnscheduled(s: Sync, messages: seq<Message>, id: Uuid)
    ensures Get(Run(s, messages).scheduled, id) == LastScheduled(s.scheduled, messages, id)
    decreases |messages|
  {
    if messages != [] {
      RunLast(s, messages);
      NothingIsUnscheduled(s, messages[..|messages| - 1], id);
      ToScheduleIs(messages[|messages| - 1], id);
    }
  }

  // ---- The calls of the task scheduler ----

  /** A message, the order in which its tasks are scheduled, and what the triggers scheduler answers. */
  datatype Handled = Handled(message: Message, walk: seq<DefinedTask>, replies: Replies)

  ghost predicate WellOrdered(run: seq<Handled>) {
    forall h | h in run :: Lists(h.walk, ToSchedule(h.message))
  }

  function Messages(run: seq<Handled>): seq<Message> {
    if |run| == 0 then [] else [run[0].message] + Messages(run[1..])
  }

  function AllCalls(run: seq<Handled>): TaskIndex.Run {
    if |run| == 0 then [] else Calls(run[0].walk, run[0].replies) + AllCalls(run[1..])
  }

  lemma {:induction false} PerformDefines(s: State, ops: TaskIndex.Run)
    ensures Perform(s, ops).Done? ==> Definitions(Perform(s, ops).state) == Latest(Definitions(s), ops)
    decreases |ops|
  {
    if ops != [] && TaskIndex.Apply(s, ops[0]).Done? {
      var o := TaskIndex.Apply(s, ops[0]);
      assert Definitions(o.state) == Redefine(Definitions(s), ops[0]) by {
        if ops[0].Schedule? {
          ScheduleDefines(s, ops[0].task, ops[0].oks);
        }
      }
      PerformDefines(o.state, ops[1..]);
    }
  }

  lemma {:induction false} LatestOfBoth(m: TaskMap, a: seq<Op>, b: seq<Op>)
    ensures Latest(m, a + b) == Latest(Latest(m, a), b)
    decreases |a|
  {
    if a == [] {
      assert a + b == b;
    } else {
      assert (a + b)[1..] == a[1..] + b;
      LatestOfBoth(Redefine(m, a[0]), a[1..], b);
    }
  }

  lemma {:induction false} LatestOfCalls(m: TaskMap, walk: seq<DefinedTask>, replies: Replies)
    ensures Latest(m, Calls(walk, replies)) == DefinedBy(m, walk)
    decreases |walk|
  {
    if walk != [] {
      assert Calls(walk, replies)[1..] == Calls(walk[1..], replies);
      LatestOfCalls(m[walk[0].id := walk[0]], walk[1..], replies);
    }
  }

  lemma WalkDefines(m: TaskMap, walk: seq<DefinedTask>, more: TaskMap)
    requires Lists(walk, more)
    ensures DefinedBy(m, walk) == m + more
  {
    forall t
      ensures t in DefinedBy(m, walk) <==> t in m + more
      ensures t in m + more ==> DefinedBy(m, walk)[t] == (m + more)[t]
    {
      DefinedAt(m, walk, t);
    }
  }

  /** What the calls of a run define is what its messages have scheduled. */
  lemma {:induction false} CallsDefine(s: Sync, run: seq<Handled>)
    requires WellOrdered(run)
    ensures Latest(s.scheduled, AllCalls(run)) == Run(s, Messages(run)).scheduled
    decreases |run|
  {
    if run != [] {
      var h := run[0];
      LatestOfBoth(s.scheduled, Calls(h.walk, h.replies), AllCalls(run[1..]));
      LatestOfCalls(s.scheduled, h.walk, h.replies);
      WalkDefines(s.scheduled, h.walk, ToSchedule(h.message));
      assert Messages(run)[1..] == Messages(run[1..]);
      CallsDefine(Apply(s, h.message), run[1..]);
    }
  }

  /** Whatever the order and the answers: unless a call panics, the task scheduler has the scheduled definitions. */
  lemma SchedulerHasScheduled(s: State, config: TaskMap, run: seq<Handled>)
    requires WellOrdered(run)
    ensures var o := Perform(s, AllCalls(run));
            o.Done? ==> Definitions(o.state) == Run(Sync(config, Definitions(s)), Messages(run)).scheduled
  {
    PerformDefines(s, AllCalls(run));
    CallsDefine(Sync(config, Definitions(s)), run);
  }

  lemma {:induction false} SafeCallsDoNotPanic(s: State, ops: TaskIndex.Run)
    requires AllSafe(s, ops)
    ensures Perform(s, ops) == Done(RunState(s, ops), {})
    decreases |ops|
  {
    if ops != [] {
      SafeCallsDoNotPanic(TaskIndex.Apply(s, ops[0]).state, ops[1..]);
    }
  }

  function WithTrigger(tasks: TaskMap, accepts: Id -> bool, id: Id): TaskMap {
    map t | t in tasks && id in AcceptedIds(tasks[t], accepts) :: tasks[t]
  }

  /**
   From the server's messages to the tasks a trigger calls: after messages whose calls are safe, the tasks that are
   scheduled with the trigger accepted, and if every message met its guard, the tasks of the configuration that can be
   executed and have it.
   */
  lemma ConfiguredTasksAreCalled(config: TaskMap, run: seq<Handled>, accepts: Id -> bool, id: Id)
    requires WellOrdered(run) && AllSafe(INITIAL, AllCalls(run))
    requires forall op | op in AllCalls(run) :: Answers(op, accepts)
    ensures var s, r := Sync(config, map[]), Run(Sync(config, map[]), Messages(run));
            && Perform(INITIAL, AllCalls(run)) == Done(RunState(INITIAL, AllCalls(run)), {})
            && Called(RunState(INITIAL, AllCalls(run)), id) == WithTrigger(r.scheduled, accepts, id)
            && (run != [] && run[0].message.Tasks? && Guarded(s, Messages(run)) ==>
                  Called(RunState(INITIAL, AllCalls(run)), id) == WithTrigger(Executable(r.config), accepts, id))
  {
    var s := Sync(config, map[]);
    SafeCallsDoNotPanic(INITIAL, AllCalls(run));
    DispatchAfterRun(AllCalls(run), accepts, id);
    CallsDefine(s, run);
    if run != [] && run[0].message.Tasks? && Guarded(s, Messages(run)) {
      RunInStep(s, Messages(run));
      EndsInStep(s, Messages(run));
    }
  }

  lemma {:induction false} EndsInStep(s: Sync, messages: seq<Message>)
    requires messages != [] && AlwaysInStep(s, messages)
    ensures InStep(Run(s, messages))
    decreases |messages|
  {
    if |messages| > 1 {
      EndsInStep(Apply(s, messages[0]), messages[1..]);
    }
  }

  /** No trigger is accepted for both tasks. */
  predicate Apart(a: DefinedTask, b: DefinedTask, accepts: Id -> bool) {
    AcceptedIds(a, accepts) !! AcceptedIds(b, accepts)
  }

  predicate NoneShared(tasks: TaskMap, accepts: Id -> bool) {
    forall t, u | t in tasks && u in tasks && t != u :: Apart(tasks[t], tasks[u], accepts)
  }

  /**
   The first full list, in whatever order its tasks come: all calls are safe if and only if no trigger is accepted for
   two of the tasks.
   */
  lemma FirstListIsSafe(tasks: seq<DefinedTask>, walk: seq<DefinedTask>, accepts: Id -> bool)
    requires Lists(walk, Executable(FromList(tasks)))
    ensures forall op | op in Replay(walk, accepts) :: WellSized(op)
    ensures AllSafe(INITIAL, Replay(walk, accepts)) <==> NoneShared(Executable(FromList(tasks)), accepts)
  {
    ReplayIsSafe(INITIAL, map[], accepts, walk);
    SeparateByPairs(walk, accepts, {});
    SharedInList(walk, Executable(FromList(tasks)), accepts);
  }

  predicate Pairwise(tasks: seq<DefinedTask>, accepts: Id -> bool) {
    forall i, j | 0 <= i < j < |tasks| :: Apart(tasks[i], tasks[j], accepts)
  }

  lemma SharedInList(walk: seq<DefinedTask>, all: TaskMap, accepts: Id -> bool)
    requires Lists(walk, all)
    ensures Pairwise(walk, accepts) <==> NoneShared(all, accepts)
  {
  }

  lemma {:induction false} SeparateByPairs(tasks: seq<DefinedTask>, accepts: Id -> bool, taken: set<Id>)
    ensures Separate(tasks, accepts, taken)
            <==> && (forall i | 0 <= i < |tasks| :: AcceptedIds(tasks[i], accepts) !! taken)
                 && Pairwise(tasks, accepts)
    decreases |tasks|
  {
    if tasks != [] {
      var first := AcceptedIds(tasks[0], accepts);
      SeparateByPairs(tasks[1..], accepts, taken + first);
      assert forall i | 1 <= i < |tasks| :: tasks[i] == tasks[1..][i - 1];
      assert forall i | 0 <= i < |tasks| - 1 :: tasks[1..][i] == tasks[i + 1];
    }
  }

  /** The task has been scheduled with its trigger and then without it. */
  function DroppedOne(task: DefinedTask, x: TaskTrigger): Outcome {
    Perform(INITIAL, [Op.Schedule(task.(triggers := [x]), [true]), Op.Schedule(task.(triggers := []), [])])
  }

  /**
   An input: a list with a task that takes its dropped trigger back and another task with that trigger. Whether it
   panics depends on which of them the walk meets first.
   */
  lemma OrderDecidesPanic(task: DefinedTask, other: DefinedTask, x: TaskTrigger)
    requires task.triggers == other.triggers == [x] && task.id != other.id && CanExecute(task) && CanExecute(other)
    ensures var all := Executable(FromList([task, other]));
            Lists([task, other], all) && Lists([other, task], all)
    ensures DroppedOne(task, x).Done?
    ensures var s, a, b := DroppedOne(task, x).state, Op.Schedule(task, [true]), Op.Schedule(other, [true]);
            Perform(s, [a, b]).Panicked? && Perform(s, [b, a]).Done?
  {
    BothListed(task, other);
    TaskIsDropped(task, x);
    var s := DroppedOne(task, x).state;
    OtherTakes(s, task, other, x);
    PerformTwo(s, Op.Schedule(task, [true]), Op.Schedule(other, [true]));
    PerformTwo(s, Op.Schedule(other, [true]), Op.Schedule(task, [true]));
  }

  lemma TaskIsDropped(task: DefinedTask, x: TaskTrigger)
    requires task.triggers == [x]
    ensures var o := DroppedOne(task, x);
            && o.Done? && AfterSchedule(o.state, task, [true]).Panicked?
            && o.state.tasks.Keys <= {task.id}
  {
    var without := task.(triggers := []);
    assert task.(triggers := [x]) == task;
    TakingBackPanics(task, x);
    var first := AfterSchedule(INITIAL, task, [true]).state;
    PerformTwo(INITIAL, Op.Schedule(task, [true]), Op.Schedule(without, []));
    PerformTwo(first, Op.Schedule(without, []), Op.Schedule(without, []));
    OnlyOne(INITIAL, task, [true]);
    OnlyOne(first, without, []);
  }

  lemma OnlyOne(s: State, task: DefinedTask, oks: seq<bool>)
    requires |oks| == |task.triggers| && s.tasks.Keys <= {task.id}
    ensures AfterSchedule(s, task, oks).Done? ==> AfterSchedule(s, task, oks).state.tasks.Keys <= {task.id}
  {
    ScheduleDefines(s, task, oks);
    if AfterSchedule(s, task, oks).Done? {
      var r := AfterSchedule(s, task, oks).state;
      assert r.tasks.Keys == Definitions(r).Keys && s.tasks.Keys == Definitions(s).Keys;
    }
  }

  lemma OtherTakes(s: State, task: DefinedTask, other: DefinedTask, x: TaskTrigger)
    requires task.triggers == other.triggers == [x] && other.id !in s.tasks
    ensures var o := AfterSchedule(s, other, [true]);
            o.Done? && AfterSchedule(o.state, task, [true]).Done?
  {
    assert TriggersOf(s, other.id).Keys == {};
    assert TriggerId(x) in Accepted({}, [x], [true]) by {
      assert [x][0] == x && [true][0];
    }
    ScheduledOwnership(s, other, [true], other.id, TriggerId(x));
    IdsOfFirst([x]);
    SchedulePanics(AfterSchedule(s, other, [true]).state, task, [true]);
  }

  lemma PerformTwo(s: State, a: Op, b: Op)
    requires WellSized(a) && WellSized(b)
    ensures Perform(s, [a, b])
            == match TaskIndex.Apply(s, a)
               case Panicked => Panicked
               case Done(r, _) => Perform(r, [b])
    ensures Perform(s, [b]) == match TaskIndex.Apply(s, b) case Panicked => Panicked case Done(r, _) => Done(r, {})
  {
  }

  lemma BothListed(a: DefinedTask, b: DefinedTask)
    requires a.id != b.id && CanExecute(a) && CanExecute(b)
    ensures var all := Executable(FromList([a, b]));
            Lists([a, b], all) && Lists([b, a], all)
  {
    assert [a, b][..1] == [a] && [a][..0] == [];
    assert FromList([a]) == map[a.id := a];
    var all := Executable(FromList([a, b]));
    assert all == map[a.id := a, b.id := b];
    forall t | t in all
      ensures exists i :: 0 <= i < 2 && [a, b][i].id == t
      ensures exists i :: 0 <= i < 2 && [b, a][i].id == t
    {
      assert [a, b][0].id == t || [a, b][1].id == t;
      assert [b, a][0].id == t || [b, a][1].id == t;
    }
  }
}
