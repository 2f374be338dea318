/**
 From scheduled tasks to the server's subscription set: the task scheduler on top of the layers under it, each call and
 each handler as one step.
 */
module EndToEnd {
  import opened InverseIndex
  import opened Layers
  import opened Registry
  import opened Triggers
  import Ev = EventScheduling
  import Fs = FileTriggers
  import Index = TaskIndex
  import Runs = TaskRuns
  import Tasks = TaskScheduling

  // ---- Steps ----

  /**
   `order` is the order in which the triggers are taken back from the underlying scheduler; `released` are the ids whose
   path the watcher gives up, if it is asked.
   */
  datatype Step = Call(op: Index.Op, order: seq<Id>, released: set<Id>) | Link(link: LinkStep)

  /** What a call takes back: Unschedule all that the task lists, stale or not; the others what has no task left. */
  function Gone(s: Tasks.State, op: Index.Op): set<Id>
    requires Index.WellSized(op) && Index.Apply(s, op).Done?
  {
    if op.Unschedule? then Tasks.TriggersOf(s, op.id).Keys else s.live - Index.Apply(s, op).state.live
  }

  ghost predicate Possible(y: System, step: Step) {
    match step
    case Call(op, order, _) =>
      && Index.WellSized(op)
      && (op.Schedule? ==> forall i | 0 <= i < |op.oks| :: Answer(op.task.triggers[i], op.oks[i]))
      && (Index.Apply(y.tasks, op).Done? ==> Enumerates(order, Gone(y.tasks, op)))
    case Link(Greet(order)) => Enumerates(order, y.events.client.channels.Keys)
    case Link(_) => true
  }

  /** The first half of a call: the requests of the update loop. */
  function Asked(y: System, op: Index.Op, text: Text): Outcome
    requires Index.WellSized(op)
  {
    if op.Schedule? then AfterAsks(y, Tasks.TriggersOf(y.tasks, op.task.id).Keys, op.task.triggers, op.oks, text)
    else Next(y)
  }

  function Apply(y: System, step: Step, text: Text): Outcome
    requires step.Call? ==> Index.WellSized(step.op)
  {
    match step
    case Link(link) => Next(y.(events := y.events.(client := AfterLink(y.events.client, link))))
    case Call(op, order, released) =>
      match Index.Apply(y.tasks, op)
      case Panicked => Stuck
      case Done(s, _) =>
        match Asked(y, op, text)
        case Stuck => Stuck
        case Next(y') =>
          match AfterForgets(y', order, released, text)
          case Stuck => Stuck
          case Next(y'') => Next(y''.(tasks := s))
  }

  /**
   What a call takes back, of the underlying scheduler: a Schedule or an UnscheduleTask the triggers that were indexed
   for its task alone and no longer are; an Unschedule every trigger that the task lists, indexed or not.
   */
  lemma TakesBack(y: System, step: Step, id: Id)
    requires step.Call? && Possible(y, step) && Runs.Current(y.tasks) && Runs.Safe(y.tasks, step.op)
    ensures Index.Apply(y.tasks, step.op).Done?
    ensures id in step.order
            <==> if step.op.Unschedule? then Index.Owns(y.tasks, step.op.id, id)
                 else && (exists t :: Index.Indexed(y.tasks, t, id))
                      && !exists t :: Index.Indexed(Index.Apply(y.tasks, step.op).state, t, id)
  {
    Runs.StepCurrent(y.tasks, step.op);
    Index.IndexedBySome(y.tasks, id);
    Index.IndexedBySome(Index.Apply(y.tasks, step.op).state, id);
  }

  // ---- The invariant ----

  predicate Same(a: TaskTrigger, b: TaskTrigger) {
    a.name == b.name && a.body == b.body
  }

  /** Exactly the live triggers are held, each as the tasks that have it know it. */
  ghost predicate Linked(s: Tasks.State, held: map<Id, TaskTrigger>) {
    && held.Keys == s.live
    && forall t, id | Runs.Has(s, t, id) :: id in held && Same(held[id], s.tasks[t].triggers[id])
  }

  ghost predicate Inv(y: System, text: Text) {
    Runs.Current(y.tasks) && Linked(y.tasks, y.held) && Underneath(y, text)
  }

  // ---- Calls ----

  /** The triggers granted to a call. */
  function NewFor(s: Tasks.State, op: Index.Op): map<Id, TaskTrigger>
    requires Index.WellSized(op)
  {
    if op.Schedule? then New(Tasks.TriggersOf(s, op.task.id).Keys, op.task.triggers, op.oks) else map[]
  }

  /** What the children hold after a call. */
  function HeldAfter(y: System, op: Index.Op): map<Id, TaskTrigger>
    requires Index.WellSized(op) && Index.Apply(y.tasks, op).Done?
  {
    y.held + NewFor(y.tasks, op) - Gone(y.tasks, op)
  }

  /**
   What the task takes back from its leftovers is what the children hold under that id for the tasks that have it
   now.
   */
  predicate Agrees(y: System, task: Tasks.DefinedTask) {
    var owned := Tasks.TriggersOf(y.tasks, task.id);
    forall id | id in Index.Ids(task.triggers) && id in owned && id in y.held :: Same(y.held[id], owned[id])
  }

  /** What a caller can check before the call. */
  predicate Guard(y: System, step: Step)
    requires step.Call? ==> Index.WellSized(step.op)
  {
    step.Call? ==> Runs.Safe(y.tasks, step.op) && (step.op.Schedule? ==> Agrees(y, step.op.task))
  }

  /**
   A safe call returns if and only if a pump receives or the held keys do not change, and keeps the lower layers exact:
   they hold what was granted, less what was taken back.
   */
  lemma CallUnderneath(y: System, step: Step, text: Text)
    requires Runs.Current(y.tasks) && y.held.Keys == y.tasks.live && Underneath(y, text)
    requires step.Call? && Possible(y, step) && Runs.Safe(y.tasks, step.op)
    ensures Index.Apply(y.tasks, step.op).Done?
    ensures var o, held := Apply(y, step, text), HeldAfter(y, step.op);
            && (o.Next? <==> y.events.client.receiving || KeysOf(held, text) == KeysOf(y.held, text))
            && (o.Next? ==>
                  && Underneath(o.system, text) && o.system.held == held
                  && o.system.tasks == Index.Apply(y.tasks, step.op).state
                  && SameLink(y.events.client, o.system.events.client))
  {
    Runs.StepCurrent(y.tasks, step.op);
    var more, gone := NewFor(y.tasks, step.op), Gone(y.tasks, step.op);
    var asked := Asked(y, step.op, text);
    AskedUnderneath(y, step.op, text);
    KeysBetween(y.held, more, gone, text);
    if asked.Next? {
      ForgetsUnderneath(asked.system, step.order, gone, step.released, text);
    }
  }

  lemma AskedUnderneath(y: System, op: Index.Op, text: Text)
    requires Index.WellSized(op) && Runs.Safe(y.tasks, op) && Underneath(y, text)
    requires y.held.Keys == y.tasks.live == y.tasks.index.Keys
    requires op.Schedule? ==> forall i | 0 <= i < |op.oks| :: Answer(op.task.triggers[i], op.oks[i])
    ensures NewFor(y.tasks, op).Keys !! y.held.Keys
    ensures Leaves(y, Asked(y, op, text), y.held + NewFor(y.tasks, op), text)
  {
    if op.Schedule? {
      NewIsUnshared(y, op);
      AsksUnderneath(y, Tasks.TriggersOf(y.tasks, op.task.id).Keys, op.task.triggers, op.oks, text);
    } else {
      NothingAsked(y, text);
    }
  }

  lemma NothingAsked(y: System, text: Text)
    requires Underneath(y, text)
    ensures Leaves(y, Next(y), y.held + map[], text)
  {
    assert y.held + map[] == y.held;
  }

  lemma NewIsUnshared(y: System, op: Index.Op)
    requires Index.WellSized(op) && op.Schedule? && Runs.Safe(y.tasks, op)
    requires y.held.Keys == y.tasks.live == y.tasks.index.Keys
    ensures NewFor(y.tasks, op).Keys !! y.held.Keys
  {
    NewKeys(Tasks.TriggersOf(y.tasks, op.task.id).Keys, op.task.triggers, op.oks);
  }

  /** Granting and taking back different triggers leaves the keys as they were only if each of the two does. */
  lemma KeysBetween(held: map<Id, TaskTrigger>, more: map<Id, TaskTrigger>, gone: set<Id>, text: Text)
    requires held.Keys !! more.Keys && gone !! more.Keys
    ensures KeysOf(held + more - gone, text) == KeysOf(held, text)
            <==> && KeysOf(held + more, text) == KeysOf(held, text)
                 && KeysOf(held + more - gone, text) == KeysOf(held + more, text)
  {
    forall key | key in KeysOf(held + more, text)
      ensures key in KeysOf(held, text) || key in KeysOf(held + more - gone, text)
    {
      var id :| id in held + more && IsEvent((held + more)[id]) && key == text.keys((held + more)[id].body);
      assert id in held || id in held + more - gone;
    }
    KeysShrink(held + more, gone, text);
    KeysShrink(held + more, more.Keys, text);
    assert held + more - more.Keys == held;
  }

  // ---- The tasks and what is held for them ----

  lemma {:induction false} LoopGrants(s: Tasks.State, t: Tasks.Uuid, triggers: seq<TaskTrigger>, oks: seq<bool>)
    requires t in s.tasks && |oks| == |triggers| && Tasks.UpdateAll(s, t, triggers, oks).Done?
    ensures var r := Tasks.UpdateAll(s, t, triggers, oks).state;
            r.tasks[t].triggers == s.tasks[t].triggers + New(s.tasks[t].triggers.Keys, triggers, oks)
    decreases |triggers|
  {
    var before := s.tasks[t].triggers;
    if triggers == [] {
      assert before + map[] == before;
    } else {
      var id, first := TriggerId(triggers[0]), Tasks.AfterUpdate(s, t, triggers[0], oks[0]);
      LoopGrants(first.state, t, triggers[1..], oks[1..]);
      if id !in before && oks[0] {
        var more := New(before.Keys + {id}, triggers[1..], oks[1..]);
        assert first.state.tasks[t].triggers.Keys == before.Keys + {id};
        assert before[id := triggers[0]] + more == before + (map[id := triggers[0]] + more);
      }
    }
  }

  lemma ScheduleGrants(s: Tasks.State, task: Tasks.DefinedTask, oks: seq<bool>)
    requires |oks| == |task.triggers| && Tasks.AfterSchedule(s, task, oks).Done?
    ensures var r, owned := Tasks.AfterSchedule(s, task, oks).state, Tasks.TriggersOf(s, task.id);
            task.id in r.tasks && r.tasks[task.id].triggers == owned + New(owned.Keys, task.triggers, oks)
  {
    LoopGrants(Tasks.Define(s, task), task.id, task.triggers, oks);
    Runs.ScheduledTriggers(s, task, oks);
  }

  /** After a safe Schedule the children hold what the tasks have, if and only if what is taken back agrees. */
  lemma ScheduleLinked(y: System, task: Tasks.DefinedTask, oks: seq<bool>)
    requires |oks| == |task.triggers| && Runs.Current(y.tasks) && Linked(y.tasks, y.held)
    requires Runs.Safe(y.tasks, Index.Op.Schedule(task, oks))
    ensures var op := Index.Op.Schedule(task, oks);
            && Index.Apply(y.tasks, op).Done?
            && (Linked(Index.Apply(y.tasks, op).state, HeldAfter(y, op)) <==> Agrees(y, task))
  {
    var op, s, t := Index.Op.Schedule(task, oks), y.tasks, task.id;
    Runs.StepCurrent(s, op);
    var r, held, owned := Index.Apply(s, op).state, HeldAfter(y, op), Tasks.TriggersOf(s, t);
    ScheduledLive(y, task, oks);
    if Agrees(y, task) {
      AgreedIsLinked(y, task, oks);
    } else {
      var id :| id in Index.Ids(task.triggers) && id in owned && id in y.held && !Same(y.held[id], owned[id]);
      ScheduledHas(y, task, oks, t, id);
      assert Runs.Has(r, t, id);
    }
  }

  lemma AgreedIsLinked(y: System, task: Tasks.DefinedTask, oks: seq<bool>)
    requires |oks| == |task.triggers| && Runs.Current(y.tasks) && Linked(y.tasks, y.held)
    requires Runs.Safe(y.tasks, Index.Op.Schedule(task, oks)) && Agrees(y, task)
    ensures var op := Index.Op.Schedule(task, oks);
            && Index.Apply(y.tasks, op).Done?
            && Linked(Index.Apply(y.tasks, op).state, HeldAfter(y, op))
  {
    var op := Index.Op.Schedule(task, oks);
    Runs.StepCurrent(y.tasks, op);
    ScheduledLive(y, task, oks);
    var r, held := Index.Apply(y.tasks, op).state, HeldAfter(y, op);
    forall u, id | Runs.Has(r, u, id)
      ensures id in held && Same(held[id], r.tasks[u].triggers[id])
    {
      ScheduledHas(y, task, oks, u, id);
    }
  }

  lemma ScheduledLive(y: System, task: Tasks.DefinedTask, oks: seq<bool>)
    requires |oks| == |task.triggers| && Runs.Current(y.tasks) && y.held.Keys == y.tasks.live
    requires Runs.Safe(y.tasks, Index.Op.Schedule(task, oks))
    ensures var op := Index.Op.Schedule(task, oks);
            && Index.Apply(y.tasks, op).Done?
            && HeldAfter(y, op).Keys == Index.Apply(y.tasks, op).state.live
  {
    var s, owned := y.tasks, Tasks.TriggersOf(y.tasks, task.id).Keys;
    NewKeys(owned, task.triggers, oks);
    Runs.AcceptedAreNamed(owned, task.triggers, oks);
    Index.ScheduleEffect(s, task, oks);
  }

  /** Who has a trigger after Schedule, and what it is to the task and to the children. */
  lemma ScheduledHas(y: System, task: Tasks.DefinedTask, oks: seq<bool>, u: Tasks.Uuid, id: Id)
    requires |oks| == |task.triggers| && Runs.Current(y.tasks) && Linked(y.tasks, y.held)
    requires Runs.Safe(y.tasks, Index.Op.Schedule(task, oks))
    ensures var op, owned := Index.Op.Schedule(task, oks), Tasks.TriggersOf(y.tasks, task.id);
            && Index.Apply(y.tasks, op).Done?
            && var r, held := Index.Apply(y.tasks, op).state, HeldAfter(y, op);
               && (u == task.id && id in owned && id in Index.Ids(task.triggers) ==> Runs.Has(r, u, id))
               && (Runs.Has(r, u, id) ==>
                     && id in held
                     && if u == task.id && id in owned then
                          && id in Index.Ids(task.triggers) && id in y.held
                          && held[id] == y.held[id] && r.tasks[u].triggers[id] == owned[id]
                        else Same(held[id], r.tasks[u].triggers[id]))
  {
    var op, s, t := Index.Op.Schedule(task, oks), y.tasks, task.id;
    var owned := Tasks.TriggersOf(s, t);
    Runs.StepCurrent(s, op);
    ScheduledLive(y, task, oks);
    ScheduleGrants(s, task, oks);
    NewKeys(owned.Keys, task.triggers, oks);
    Runs.AcceptedAreNamed(owned.Keys, task.triggers, oks);
    Index.ScheduledOwnership(s, task, oks, u, id);
    Runs.ScheduledTriggers(s, task, oks);
    var r := Index.Apply(s, op).state;
    assert Index.Indexed(r, u, id) <==> Runs.Has(r, u, id);
    assert Index.Indexed(s, u, id) <==> Runs.Has(s, u, id);
  }

  lemma UnscheduleLinked(y: System, op: Index.Op)
    requires !op.Schedule? && Runs.Current(y.tasks) && Linked(y.tasks, y.held) && Runs.Safe(y.tasks, op)
    ensures Linked(Index.Apply(y.tasks, op).state, HeldAfter(y, op))
  {
    var s, r := y.tasks, Index.Apply(y.tasks, op).state;
    Runs.StepCurrent(s, op);
    assert y.held + map[] == y.held;
    forall u, id | Runs.Has(r, u, id)
      ensures Runs.Has(s, u, id) && id in r.live
    {
      assert Index.Indexed(r, u, id);
    }
  }

  /** A safe call leaves the children holding what the tasks have if and only if it meets its guard. */
  lemma CallLinked(y: System, step: Step)
    requires Runs.Current(y.tasks) && Linked(y.tasks, y.held) && step.Call? && Index.WellSized(step.op)
    requires Runs.Safe(y.tasks, step.op)
    ensures Index.Apply(y.tasks, step.op).Done?
    ensures Linked(Index.Apply(y.tasks, step.op).state, HeldAfter(y, step.op)) <==> Guard(y, step)
  {
    if step.op.Schedule? {
      ScheduleLinked(y, step.op.task, step.op.oks);
    } else {
      UnscheduleLinked(y, step.op);
    }
  }

  // ---- The keys of the tasks ----

  /** The keys of the event triggers that scheduled tasks have by their current definitions. */
  function OwnedKeys(s: Tasks.State, text: Text): set<Key> {
    set t, id | t in s.tasks && id in s.tasks[t].triggers && Runs.Has(s, t, id) && IsEvent(s.tasks[t].triggers[id])
      :: text.keys(s.tasks[t].triggers[id].body)
  }

  lemma OwnedKeysAreHeld(s: Tasks.State, held: map<Id, TaskTrigger>, text: Text)
    requires Runs.Current(s) && Linked(s, held)
    ensures OwnedKeys(s, text) == KeysOf(held, text)
  {
    forall key | key in KeysOf(held, text)
      ensures key in OwnedKeys(s, text)
    {
      var id :| id in held && IsEvent(held[id]) && key == text.keys(held[id].body);
      Index.IndexedBySome(s, id);
      var t :| Index.Indexed(s, t, id);
      assert Runs.Has(s, t, id);
    }
    forall key | key in OwnedKeys(s, text)
      ensures key in KeysOf(held, text)
    {
      var t, id :| Runs.Has(s, t, id) && IsEvent(s.tasks[t].triggers[id])
                   && key == text.keys(s.tasks[t].triggers[id].body);
      assert id in held && Same(held[id], s.tasks[t].triggers[id]);
    }
  }

  // ---- Steps ----

  lemma LinkInv(y: System, link: LinkStep, text: Text)
    requires Inv(y, text) && Possible(y, Link(link))
    ensures Inv(Apply(y, Link(link), text).system, text)
  {
    LinkQueueExact(y.events, link);
  }

  /** A step that returns keeps the invariant if and only if it meets its guard. */
  lemma StepInv(y: System, step: Step, text: Text)
    requires Inv(y, text) && Possible(y, step) && Apply(y, step, text).Next?
    ensures Inv(Apply(y, step, text).system, text) <==> Guard(y, step)
  {
    if step.Link? {
      LinkInv(y, step.link, text);
    } else {
      Runs.StepCurrent(y.tasks, step.op);
      if Runs.Safe(y.tasks, step.op) {
        CallUnderneath(y, step, text);
        CallLinked(y, step);
      }
    }
  }

  /** The call changes the owned keys while no pump receives. */
  predicate Blocks(y: System, step: Step, text: Text)
    requires step.Call? ==> Index.WellSized(step.op)
  {
    && step.Call?
    && !y.events.client.receiving
    && Index.Apply(y.tasks, step.op).Done?
    && OwnedKeys(Index.Apply(y.tasks, step.op).state, text) != OwnedKeys(y.tasks, text)
  }

  /**
   A guarded call waits for ever if and only if it changes the owned keys while no pump receives; no guarded step
   panics.
   */
  lemma StepReturns(y: System, step: Step, text: Text)
    requires Inv(y, text) && Possible(y, step) && Guard(y, step)
    ensures Apply(y, step, text).Next? <==> !Blocks(y, step, text)
  {
    if step.Call? {
      Runs.StepCurrent(y.tasks, step.op);
      CallUnderneath(y, step, text);
      CallLinked(y, step);
      OwnedKeysAreHeld(y.tasks, y.held, text);
      OwnedKeysAreHeld(Index.Apply(y.tasks, step.op).state, HeldAfter(y, step.op), text);
    }
  }

  // ---- Runs ----

  type Steps = steps: seq<Step> | forall step | step in steps :: step.Call? ==> Index.WellSized(step.op)

  /** Every step is one that can happen, for as long as they return. */
  ghost predicate AllPossible(y: System, steps: Steps, text: Text)
    decreases |steps|
  {
    steps == []
    || (&& Possible(y, steps[0])
        && var o := Apply(y, steps[0], text);
           o.Next? ==> AllPossible(o.system, steps[1..], text))
  }

  ghost predicate Guarded(y: System, steps: Steps, text: Text)
    decreases |steps|
  {
    steps == []
    || (&& Guard(y, steps[0])
        && var o := Apply(y, steps[0], text);
           o.Next? ==> Guarded(o.system, steps[1..], text))
  }

  function Run(y: System, steps: Steps, text: Text): Outcome
    decreases |steps|
  {
    if |steps| == 0 then Next(y)
    else
      match Apply(y, steps[0], text)
      case Stuck => Stuck
      case Next(y') => Run(y', steps[1..], text)
  }

  predicate BlocksSomewhere(y: System, steps: Steps, text: Text)
    decreases |steps|
  {
    steps != []
    && (Blocks(y, steps[0], text)
        || var o := Apply(y, steps[0], text);
           o.Next? && BlocksSomewhere(o.system, steps[1..], text))
  }

  /** The invariant holds at the start and after every step that returns. */
  ghost predicate AlwaysInv(y: System, steps: Steps, text: Text)
    decreases |steps|
  {
    Inv(y, text)
    && (steps == []
        || var o := Apply(y, steps[0], text);
           o.Next? ==> AlwaysInv(o.system, steps[1..], text))
  }

  /** Before the first task and the first connection, with the schedulers started. */
  function Begin(channel: Channel): System {
    System(Tasks.INITIAL, map[], map[],
      Ev.Events(map[], map[], map[], true, channel, map[], Client(map[], 0, false, [])), Fs.EMPTY)
  }

  /** Over runs that return, the invariant holds throughout if and only if every step meets its guard. */
  lemma {:induction false} RunInv(y: System, steps: Steps, text: Text)
    requires Inv(y, text) && AllPossible(y, steps, text) && Run(y, steps, text).Next?
    ensures AlwaysInv(y, steps, text) <==> Guarded(y, steps, text)
    decreases |steps|
  {
    if steps != [] {
      StepInv(y, steps[0], text);
      if Guard(y, steps[0]) {
        RunInv(Apply(y, steps[0], text).system, steps[1..], text);
      }
    }
  }

  /** A guarded run returns if and only if none of its calls changes the owned keys while no pump receives. */
  lemma {:induction false} RunReturns(y: System, steps: Steps, text: Text)
    requires Inv(y, text) && AllPossible(y, steps, text) && Guarded(y, steps, text)
    ensures Run(y, steps, text).Next? <==> !BlocksSomewhere(y, steps, text)
    ensures Run(y, steps, text).Next? ==> Inv(Run(y, steps, text).system, text)
    decreases |steps|
  {
    if steps != [] {
      StepReturns(y, steps[0], text);
      var o := Apply(y, steps[0], text);
      if o.Next? {
        StepInv(y, steps[0], text);
        RunReturns(o.system, steps[1..], text);
      }
    }
  }

  // ---- Without collisions ----

  /** The triggers are of a set, each under its own id. */
  predicate Listed(m: map<Id, TaskTrigger>, all: set<TaskTrigger>) {
    forall id | id in m :: m[id] in all && TriggerId(m[id]) == id
  }

  predicate Known(y: System, all: set<TaskTrigger>) {
    Listed(y.held, all) && forall t | t in y.tasks.tasks :: Listed(y.tasks.tasks[t].triggers, all)
  }

  /** No two different triggers of the set share an id; whether they are disabled does not matter. */
  predicate Distinct(all: set<TaskTrigger>) {
    forall a, b | a in all && b in all && TriggerId(a) == TriggerId(b) :: Same(a, b)
  }

  predicate Uses(step: Step, all: set<TaskTrigger>) {
    step.Call? && step.op.Schedule? ==> forall trigger | trigger in step.op.task.triggers :: trigger in all
  }

  lemma KnownAgrees(y: System, all: set<TaskTrigger>, task: Tasks.DefinedTask)
    requires Known(y, all) && Distinct(all)
    ensures Agrees(y, task)
  {
  }

  lemma ListedJoins(a: map<Id, TaskTrigger>, b: map<Id, TaskTrigger>, all: set<TaskTrigger>)
    requires Listed(a, all) && Listed(b, all)
    ensures Listed(a + b, all)
  {
  }

  lemma {:induction false} NewAreListed(owned: set<Id>, triggers: seq<TaskTrigger>, oks: seq<bool>,
          all: set<TaskTrigger>)
    requires |oks| == |triggers| && forall trigger | trigger in triggers :: trigger in all
    ensures Listed(New(owned, triggers, oks), all)
    decreases |triggers|
  {
    if triggers != [] {
      var id := TriggerId(triggers[0]);
      if id in owned || !oks[0] {
        NewAreListed(owned, triggers[1..], oks[1..], all);
      } else {
        NewAreListed(owned + {id}, triggers[1..], oks[1..], all);
        ListedJoins(map[id := triggers[0]], New(owned + {id}, triggers[1..], oks[1..]), all);
      }
    }
  }

  lemma StepKnown(y: System, step: Step, all: set<TaskTrigger>, text: Text)
    requires Inv(y, text) && Possible(y, step) && Guard(y, step) && Apply(y, step, text).Next?
    requires Known(y, all) && Uses(step, all)
    ensures Known(Apply(y, step, text).system, all)
  {
    if step.Call? {
      var more := NewFor(y.tasks, step.op);
      CallUnderneath(y, step, text);
      if step.op.Schedule? {
        NewAreListed(Tasks.TriggersOf(y.tasks, step.op.task.id).Keys, step.op.task.triggers, step.op.oks, all);
      }
      ListedJoins(y.held, more, all);
      TasksKnown(y.tasks, step.op, all);
    }
  }

  lemma TasksKnown(s: Tasks.State, op: Index.Op, all: set<TaskTrigger>)
    requires Index.WellSized(op) && Index.Apply(s, op).Done? && Listed(NewFor(s, op), all)
    requires forall t | t in s.tasks :: Listed(s.tasks[t].triggers, all)
    ensures var r := Index.Apply(s, op).state; forall t | t in r.tasks :: Listed(r.tasks[t].triggers, all)
  {
    if op.Schedule? {
      ScheduleGrants(s, op.task, op.oks);
      Runs.ScheduledTriggers(s, op.task, op.oks);
      ListedJoins(Tasks.TriggersOf(s, op.task.id), NewFor(s, op), all);
    }
  }

  /** Every call of the run is safe for the task scheduler. */
  ghost predicate AllSafe(y: System, steps: Steps, text: Text)
    decreases |steps|
  {
    steps == []
    || (&& (steps[0].Call? ==> Runs.Safe(y.tasks, steps[0].op))
        && var o := Apply(y, steps[0], text);
           o.Next? ==> AllSafe(o.system, steps[1..], text))
  }

  /** If no two different triggers of a run share an id, its guards are the task scheduler's own. */
  lemma {:induction false} DistinctRunsAreGuarded(y: System, steps: Steps, all: set<TaskTrigger>, text: Text)
    requires Inv(y, text) && AllPossible(y, steps, text) && Known(y, all) && Distinct(all)
    requires forall step | step in steps :: Uses(step, all)
    ensures Guarded(y, steps, text) <==> AllSafe(y, steps, text)
    decreases |steps|
  {
    if steps != [] {
      if steps[0].Call? && steps[0].op.Schedule? {
        KnownAgrees(y, all, steps[0].op.task);
      }
      var o := Apply(y, steps[0], text);
      if Guard(y, steps[0]) && o.Next? {
        StepInv(y, steps[0], text);
        StepKnown(y, steps[0], all, text);
        DistinctRunsAreGuarded(o.system, steps[1..], all, text);
      }
    }
  }

  // ---- The link over a run ----

  /** Of the connects and disconnects the last was a connect. */
  predicate IsConnected(steps: seq<Step>) {
    |steps| > 0
    && match steps[|steps| - 1]
       case Link(Connect) => true
       case Link(Disconnect) => false
       case _ => IsConnected(steps[..|steps| - 1])
  }

  /** While connected, the greetings came after the last introduction. */
  predicate IsAnswered(steps: seq<Step>) {
    |steps| > 0
    && match steps[|steps| - 1]
       case Link(Greet(_)) => IsConnected(steps[..|steps| - 1])
       case Link(Connect) => false
       case Link(Introduce) => false
       case Link(Disconnect) => false
       case _ => IsAnswered(steps[..|steps| - 1])
  }

  lemma {:induction false} RunLast(y: System, steps: Steps, text: Text)
    requires steps != [] && AllPossible(y, steps, text) && Guarded(y, steps, text) && Run(y, steps, text).Next?
    ensures var before, last := steps[..|steps| - 1], steps[|steps| - 1];
            && AllPossible(y, before, text) && Guarded(y, before, text) && Run(y, before, text).Next?
            && var z := Run(y, before, text).system;
               Possible(z, last) && Guard(z, last) && Apply(z, last, text) == Run(y, steps, text)
    decreases |steps|
  {
    var before := steps[..|steps| - 1];
    if |steps| > 1 {
      assert steps[1..][..|steps| - 2] == before[1..] && steps[1..][|steps| - 2] == steps[|steps| - 1];
      RunLast(Apply(y, steps[0], text).system, steps[1..], text);
      assert before[0] == steps[0];
    } else {
      assert before == [] && steps[1..] == [];
    }
  }

  /** What is sent belongs to a connection; a call leaves it alone, and a link event does what its name says. */
  lemma StepLink(y: System, step: Step, text: Text)
    requires Inv(y, text) && Possible(y, step) && Guard(y, step) && Apply(y, step, text).Next?
    requires Greeted(y.events.client.sent) ==> y.events.client.receiving
    ensures var c, d := y.events.client, Apply(y, step, text).system.events.client;
            && (d.receiving <==> match step
                                 case Link(Connect) => true
                                 case Link(Disconnect) => false
                                 case _ => c.receiving)
            && (Greeted(d.sent) <==> match step
                                     case Link(Greet(_)) => c.receiving
                                     case Link(Connect) => false
                                     case Link(Introduce) => false
                                     case Link(Disconnect) => false
                                     case _ => Greeted(c.sent))
  {
    var c := y.events.client;
    match step
    case Call(_, _, _) => CallUnderneath(y, step, text);
    case Link(link) =>
      LinkKeepsRegistry(c, link);
      if link.Introduce? {
        SendEffect(c, Hello);
      } else if link.Greet? {
        SendEffect(c, SetSubscriptions(link.order));
      }
  }

  /** The run's events alone say whether a pump receives, and whether the greetings are past. */
  lemma {:induction false} LinkHistory(channel: Channel, steps: Steps, text: Text)
    requires AllPossible(Begin(channel), steps, text) && Guarded(Begin(channel), steps, text)
    requires Run(Begin(channel), steps, text).Next?
    ensures var c := Run(Begin(channel), steps, text).system.events.client;
            && (c.receiving <==> IsConnected(steps))
            && (Greeted(c.sent) <==> IsAnswered(steps))
            && (Greeted(c.sent) ==> c.receiving)
    decreases |steps|
  {
    if steps != [] {
      var before := steps[..|steps| - 1];
      RunLast(Begin(channel), steps, text);
      LinkHistory(channel, before, text);
      BeginInv(channel, text);
      RunReturns(Begin(channel), before, text);
      StepLink(Run(Begin(channel), before, text).system, steps[|steps| - 1], text);
    }
  }

  /** A whole connecting, up to the answer to the greetings. */
  function Connecting(order: seq<Key>): Steps {
    [Link(Connect), Link(Introduce), Link(Greet(order))]
  }

  /** Whatever was missed before: after connecting, the server has exactly the keys that the tasks own. */
  lemma ConnectingInforms(y: System, order: seq<Key>, text: Text)
    requires Inv(y, text) && Enumerates(order, y.events.client.channels.Keys)
    ensures var o := Run(y, Connecting(order), text);
            && o.Next? && Inv(o.system, text) && o.system.tasks == y.tasks
            && Follows(o.system, text)
  {
    var c := y.events.client;
    GreetingsInform(c, order);
    var connected := Apply(y, Link(Connect), text).system;
    var hello := Apply(connected, Link(Introduce), text).system;
    var greeted := Apply(hello, Link(Greet(order)), text).system;
    LinkInv(y, Connect, text);
    LinkInv(connected, Introduce, text);
    LinkInv(hello, Greet(order), text);
    RunThree(y, Link(Connect), Link(Introduce), Link(Greet(order)), text);
    RegisteredKeysAreOwned(y, text);
  }

  lemma RunThree(y: System, a: Step, b: Step, c: Step, text: Text)
    requires a.Link? && b.Link? && c.Link?
    ensures Run(y, [a, b, c], text)
            == Apply(Apply(Apply(y, a, text).system, b, text).system, c, text)
  {
    assert [a, b, c][1..] == [b, c] && [b, c][1..] == [c] && [c][1..] == [];
    var z := Apply(Apply(y, a, text).system, b, text).system;
    assert Run(z, [c], text) == Apply(z, c, text);
  }

  /** A pump receives, and the server has exactly the keys that the tasks own. */
  predicate Follows(y: System, text: Text) {
    var c := y.events.client;
    c.receiving && Greeted(c.sent) && Server(c.sent) == OwnedKeys(y.tasks, text)
  }

  /** It keeps having them, for as long as the connection lasts: all guarded calls return. */
  lemma {:induction false} ConnectedCallsFollow(y: System, calls: Steps, text: Text)
    requires Inv(y, text) && Follows(y, text)
    requires AllPossible(y, calls, text) && Guarded(y, calls, text) && forall step | step in calls :: step.Call?
    ensures Run(y, calls, text).Next? && Inv(Run(y, calls, text).system, text)
    ensures Follows(Run(y, calls, text).system, text)
    decreases |calls|
  {
    if calls != [] {
      StepReturns(y, calls[0], text);
      StepInv(y, calls[0], text);
      StepLink(y, calls[0], text);
      var y' := Apply(y, calls[0], text).system;
      RegisteredKeysAreOwned(y', text);
      ConnectedCallsFollow(y', calls[1..], text);
    }
  }

  lemma RegisteredKeysAreOwned(y: System, text: Text)
    requires Inv(y, text)
    ensures y.events.client.channels.Keys == y.events.counters.Keys == OwnedKeys(y.tasks, text)
  {
    CountedKeysAreOwned(y, text);
    ChannelsAreSubscriptions(y.events.client, y.events.channel, y.events.subscribed);
  }

  // ---- What the invariant says ----

  /**
   In every guarded run of calls and link events: it returns unless a call changes the owned keys while no pump
   receives; and then the registry's keys, the counted keys and the keys of the event triggers that scheduled tasks have
   by their current definitions are one set; and so is the server's subscription set, past the greetings of a
   connection.
   */
  lemma ServerFollowsTasks(channel: Channel, steps: Steps, text: Text)
    requires AllPossible(Begin(channel), steps, text) && Guarded(Begin(channel), steps, text)
    ensures var o := Run(Begin(channel), steps, text);
            && (o.Next? <==> !BlocksSomewhere(Begin(channel), steps, text))
            && (o.Next? ==>
                  var e, owned := o.system.events, OwnedKeys(o.system.tasks, text);
                  && e.client.channels.Keys == e.counters.Keys == owned
                  && (IsAnswered(steps) ==> Server(e.client.sent) == owned))
  {
    BeginInv(channel, text);
    RunReturns(Begin(channel), steps, text);
    if Run(Begin(channel), steps, text).Next? {
      LinkHistory(channel, steps, text);
      RegisteredKeysAreOwned(Run(Begin(channel), steps, text).system, text);
    }
  }

  lemma BeginInv(channel: Channel, text: Text)
    ensures Inv(Begin(channel), text)
  {
  }

  lemma CountedKeysAreOwned(y: System, text: Text)
    requires Inv(y, text)
    ensures y.events.counters.Keys == OwnedKeys(y.tasks, text)
  {
    CountedKeysAreHeld(y, text);
    OwnedKeysAreHeld(y.tasks, y.held, text);
  }

  /** An input: the first task with an event trigger, scheduled before the first connection, waits for ever. */
  lemma SchedulingUnconnectedBlocks(channel: Channel, task: Tasks.DefinedTask, x: TaskTrigger, text: Text)
    requires task.triggers == [x] && IsEvent(x)
    ensures var step := Call(Index.Op.Schedule(task, [true]), [], {});
            && Possible(Begin(channel), step) && Guard(Begin(channel), step)
            && Apply(Begin(channel), step, text) == Stuck
  {
    var y, op := Begin(channel), Index.Op.Schedule(task, [true]);
    EventRoute(x.name);
    Runs.ScheduleOne(task, x);
    Runs.OneIsCurrent(task, x);
    BeginInv(channel, text);
    var one := Runs.One(task, x);
    assert Runs.Has(one, task.id, TriggerId(x));
    assert text.keys(x.body) in OwnedKeys(one, text);
    assert OwnedKeys(y.tasks, text) == {};
    StepReturns(y, Call(op, [], {}), text);
  }

  /** An event from the server calls exactly the tasks that have an event trigger for its key. */
  lemma EventCallsOwners(y: System, text: Text, key: Key, t: Tasks.Uuid)
    requires Inv(y, text)
    ensures (exists id :: id in At(y.events.eventTriggers, key) && t in Tasks.Called(y.tasks, id))
            <==> exists id :: Runs.Has(y.tasks, t, id) && IsEvent(y.tasks.tasks[t].triggers[id])
                              && text.keys(y.tasks.tasks[t].triggers[id].body) == key
  {
    var e, s := y.events, y.tasks;
    forall id
      ensures id in At(e.eventTriggers, key) && t in Tasks.Called(s, id)
              <==> Runs.Has(s, t, id) && IsEvent(s.tasks[t].triggers[id])
                   && text.keys(s.tasks[t].triggers[id].body) == key
    {
      InvertsAt(e.eventTriggers, e.triggers, text.keys, key, id);
      assert Runs.Has(s, t, id) <==> Index.Indexed(s, t, id);
    }
  }

  // ---- The file-system child ----

  /** What a step asks of the file-system child. */
  function FileRequests(y: System, step: Step, text: Text): seq<Fs.Request>
    requires step.Call? ==> Index.WellSized(step.op)
  {
    if step.Link? then []
    else
      var asks := if step.op.Schedule? then
                    FileAsks(Tasks.TriggersOf(y.tasks, step.op.task.id).Keys, step.op.task.triggers, step.op.oks)
                  else [];
      match Asked(y, step.op, text)
      case Stuck => asks
      case Next(y') => asks + FileForgets(y'.ids, step.order, step.released)
  }

  function AllFileRequests(y: System, steps: Steps, text: Text): seq<Fs.Request>
    decreases |steps|
  {
    if |steps| == 0 then []
    else
      match Apply(y, steps[0], text)
      case Stuck => FileRequests(y, steps[0], text)
      case Next(y') => FileRequests(y, steps[0], text) + AllFileRequests(y', steps[1..], text)
  }

  /** A safe step that returns is, for the child, its requests one after the other. */
  lemma StepFiles(y: System, step: Step, text: Text)
    requires Inv(y, text) && Possible(y, step) && Guard(y, step) && Apply(y, step, text).Next?
    ensures FilesAfter(y, Apply(y, step, text).system, FileRequests(y, step, text), text)
  {
    if step.Call? {
      AskedUnderneath(y, step.op, text);
      AskedOfFiles(y, step.op, text);
      var asked := Asked(y, step.op, text).system;
      ForgetsFiles(asked, step.order, step.released, text);
      var asks := if step.op.Schedule? then
                    FileAsks(Tasks.TriggersOf(y.tasks, step.op.task.id).Keys, step.op.task.triggers, step.op.oks)
                  else [];
      FilesAfterBoth(y, asked, Apply(y, step, text).system, asks, FileForgets(asked.ids, step.order, step.released),
        text);
    }
  }

  lemma AskedOfFiles(y: System, op: Index.Op, text: Text)
    requires Index.WellSized(op) && Runs.Safe(y.tasks, op) && Underneath(y, text)
    requires y.held.Keys == y.tasks.live == y.tasks.index.Keys
    requires op.Schedule? ==> forall i | 0 <= i < |op.oks| :: Answer(op.task.triggers[i], op.oks[i])
    requires Asked(y, op, text).Next?
    ensures var asks := if op.Schedule? then
                          FileAsks(Tasks.TriggersOf(y.tasks, op.task.id).Keys, op.task.triggers, op.oks)
                        else [];
            FilesAfter(y, Asked(y, op, text).system, asks, text)
  {
    if op.Schedule? {
      NewIsUnshared(y, op);
      AsksFiles(y, Tasks.TriggersOf(y.tasks, op.task.id).Keys, op.task.triggers, op.oks, text);
    }
  }

  /** So is a guarded run that returns. */
  lemma {:induction false} RunFiles(y: System, steps: Steps, text: Text)
    requires Inv(y, text) && AllPossible(y, steps, text) && Guarded(y, steps, text) && Run(y, steps, text).Next?
    ensures FilesAfter(y, Run(y, steps, text).system, AllFileRequests(y, steps, text), text)
    decreases |steps|
  {
    if steps != [] {
      var y' := Apply(y, steps[0], text).system;
      StepInv(y, steps[0], text);
      StepFiles(y, steps[0], text);
      RunFiles(y', steps[1..], text);
      FilesAfterBoth(y, y', Run(y, steps, text).system, FileRequests(y, steps[0], text),
        AllFileRequests(y', steps[1..], text), text);
    }
  }

  /**
   In every guarded run that returns: the path index follows the file triggers that the tasks have, after every request
   that the run makes, if and only if every request meets its guard.
   */
  lemma FilesFollowTasks(channel: Channel, steps: Steps, text: Text)
    requires AllPossible(Begin(channel), steps, text) && Guarded(Begin(channel), steps, text)
    requires Run(Begin(channel), steps, text).Next?
    ensures var y, requests := Run(Begin(channel), steps, text).system, AllFileRequests(Begin(channel), steps, text);
            && Inv(y, text)
            && y.files == Fs.Run(Fs.EMPTY, requests, text.paths)
            && FilesOf(y.held) == Fs.HeldAfter(Fs.EMPTY, map[], requests, text.paths)
            && (Fs.AlwaysFollows(Fs.EMPTY, map[], requests, text.paths)
                <==> Fs.Guarded(Fs.EMPTY, map[], requests, text.paths))
            && (Fs.Guarded(Fs.EMPTY, map[], requests, text.paths) ==> Fs.Follows(y.files, FilesOf(y.held), text.paths))
  {
    BeginInv(channel, text);
    RunReturns(Begin(channel), steps, text);
    RunFiles(Begin(channel), steps, text);
    assert FilesOf(map[]) == map[];
    Fs.RunFollows(Fs.EMPTY, map[], AllFileRequests(Begin(channel), steps, text), text.paths);
  }

  /**
   After such a run with guarded requests, a file event calls exactly the tasks that have a trigger whose path is a
   prefix of its own.
   */
  lemma FileEventCallsOwners(channel: Channel, steps: Steps, text: Text, path: Fs.Path, t: Tasks.Uuid)
    requires AllPossible(Begin(channel), steps, text) && Guarded(Begin(channel), steps, text)
    requires Run(Begin(channel), steps, text).Next?
    requires Fs.Guarded(Fs.EMPTY, map[], AllFileRequests(Begin(channel), steps, text), text.paths)
    ensures var y := Run(Begin(channel), steps, text).system;
            (exists id :: Fs.Reaching(y.files.pathTriggers, path, id) != {} && t in Tasks.Called(y.tasks, id))
            <==> exists id :: Runs.Has(y.tasks, t, id) && IsFile(y.tasks.tasks[t].triggers[id])
                              && var root := text.paths(y.tasks.tasks[t].triggers[id].body);
                                 Fs.Below(Fs.NormalizePath(root.bytes), path.bytes)
  {
    FilesFollowTasks(channel, steps, text);
    FileEventCalls(Run(Begin(channel), steps, text).system, text, path, t);
  }

  lemma FileEventCalls(y: System, text: Text, path: Fs.Path, t: Tasks.Uuid)
    requires Inv(y, text) && Fs.Follows(y.files, FilesOf(y.held), text.paths)
    ensures (exists id :: Fs.Reaching(y.files.pathTriggers, path, id) != {} && t in Tasks.Called(y.tasks, id))
            <==> exists id :: Runs.Has(y.tasks, t, id) && IsFile(y.tasks.tasks[t].triggers[id])
                              && var root := text.paths(y.tasks.tasks[t].triggers[id].body);
                                 Fs.Below(Fs.NormalizePath(root.bytes), path.bytes)
  {
    var s := y.tasks;
    forall id
      ensures Fs.Reaching(y.files.pathTriggers, path, id) != {} && t in Tasks.Called(s, id)
              <==> Runs.Has(s, t, id) && IsFile(s.tasks[t].triggers[id])
                   && Fs.Below(Fs.NormalizePath(text.paths(s.tasks[t].triggers[id].body).bytes), path.bytes)
    {
      Fs.DispatchFollows(y.files, FilesOf(y.held), text.paths, path, id);
      assert Runs.Has(s, t, id) <==> Index.Indexed(s, t, id);
    }
  }
}
