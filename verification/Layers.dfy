/**
 The layers under the task scheduler taken together: the composite scheduler, its event child with the event queue, the
 websocket client and the server's subscription set, and its file-system child; what a sequence of requests does to
 them.
 */
module Layers {
  import opened InverseIndex
  import opened Registry
  import opened Triggers
  import C = Composite
  import Ev = EventScheduling
  import Fs = FileTriggers
  import Index = TaskIndex
  import Tasks = TaskScheduling

  /** The children the application creates, in this order. */
  const CHILDREN: seq<C.Child> :=
    [C.Child(TRIGGER_CRON, false, {}), C.Child(TRIGGER_EVENT, false, {}), C.Child(TRIGGER_FSNOTIFY, false, {})]
  const CRON_CHILD: nat := 0
  const EVENT_CHILD: nat := 1
  const FILE_CHILD: nat := 2

  /**
   `ids` is the composite's routing table; `held` are the triggers its children were asked for, accepted and were not
   asked to give up; `events` and `files` are the states of two of the children.
   */
  datatype System = System(tasks: Tasks.State, ids: map<Id, nat>, held: map<Id, TaskTrigger>, events: Ev.Events,
                           files: Fs.State)

  /** What MustString reads from the body of an event trigger, and of a file trigger. */
  datatype Text = Text(keys: Bytes -> Key, paths: Bytes -> Fs.Path)

  /** A step that panics, or that waits for ever for a message to be taken, has no next state. */
  datatype Outcome = Stuck | Next(system: System)

  predicate IsEvent(trigger: TaskTrigger) {
    trigger.name == TRIGGER_EVENT
  }

  predicate IsFile(trigger: TaskTrigger) {
    trigger.name == TRIGGER_FSNOTIFY
  }

  /** The event child accepts every trigger; a type without a child is refused; any other refusal is the child's. */
  predicate Answer(trigger: TaskTrigger, ok: bool) {
    && (IsEvent(trigger) ==> ok)
    && (C.Route(CHILDREN, trigger.name) == |CHILDREN| ==> !ok)
  }

  lemma EventRoute(name: Bytes)
    ensures C.Route(CHILDREN, name) == EVENT_CHILD <==> name == TRIGGER_EVENT
    ensures C.Route(CHILDREN, name) == FILE_CHILD <==> name == TRIGGER_FSNOTIFY
  {
    if name == TRIGGER_FSNOTIFY {
      assert |TRIGGER_CRON| != |name| && |TRIGGER_EVENT| != |name|;
      C.RouteIsFirst(CHILDREN, name, FILE_CHILD);
    }
  }

  // ---- The calls the task scheduler makes ----

  /** A refusal leaves the child as it was: for a file trigger, it is the watcher's. */
  function AfterAsk(y: System, id: Id, trigger: TaskTrigger, ok: bool, text: Text): Outcome {
    var i := C.Route(CHILDREN, trigger.name);
    var y' := y.(ids := y.ids[id := i], held := y.held[id := trigger]);
    if i == |CHILDREN| || !ok then Next(y)
    else if i == FILE_CHILD then
      Next(y'.(files := Fs.AfterScheduleByID(y.files, id, trigger, true, text.paths)))
    else if i != EVENT_CHILD then Next(y')
    else
      match Ev.AfterScheduleByID(y.events, id, trigger, text.keys)
      case Returns(e) => Next(y'.(events := e))
      case _ => Stuck
  }

  /** The table never forgets an id. `released` are the ids whose path the watcher gives up, if it is asked. */
  function AfterForget(y: System, id: Id, released: set<Id>, text: Text): Outcome {
    var y' := y.(held := y.held - {id});
    if id !in y.ids then Next(y)
    else if y.ids[id] == FILE_CHILD then
      Next(y'.(files := Fs.AfterUnschedule(y.files, id, id in released, text.paths)))
    else if y.ids[id] != EVENT_CHILD then Next(y')
    else
      match Ev.AfterUnscheduleID(y.events, id, text.keys)
      case Returns(e) => Next(y'.(events := e))
      case _ => Stuck
  }

  /** The update loop asks for each trigger the task does not have yet. */
  function AfterAsks(y: System, owned: set<Id>, triggers: seq<TaskTrigger>, oks: seq<bool>, text: Text): Outcome
    requires |oks| == |triggers|
    decreases |triggers|
  {
    if |triggers| == 0 then Next(y)
    else
      var id := TriggerId(triggers[0]);
      if id in owned then AfterAsks(y, owned, triggers[1..], oks[1..], text)
      else
        match AfterAsk(y, id, triggers[0], oks[0], text)
        case Stuck => Stuck
        case Next(y') => AfterAsks(y', if oks[0] then owned + {id} else owned, triggers[1..], oks[1..], text)
  }

  function AfterForgets(y: System, order: seq<Id>, released: set<Id>, text: Text): Outcome
    decreases |order|
  {
    if |order| == 0 then Next(y)
    else
      match AfterForget(y, order[0], released, text)
      case Stuck => Stuck
      case Next(y') => AfterForgets(y', order[1..], released, text)
  }

  // ---- When the layers agree ----

  /** The underlying schedulers agree with each other, the registry with the queue, the server with the registry. */
  ghost predicate Underneath(y: System, text: Text) {
    && (forall id | id in y.held :: id in y.ids && y.ids[id] == C.Route(CHILDREN, y.held[id].name))
    && y.events.triggers == EventsOf(y.held)
    && Ev.Exact(y.events, text.keys)
    && QueueExact(y.events)
  }

  /** The queue is the only one, the registry holds its subscriptions, and the server mirrors the registry. */
  ghost predicate QueueExact(e: Ev.Events) {
    && e.started
    && Registered(e.client, map[e.channel := e.subscribed])
    && Mirrored(e.client)
  }

  function EventsOf(held: map<Id, TaskTrigger>): map<Id, TaskTrigger> {
    map id | id in held && IsEvent(held[id]) :: held[id]
  }

  /** The keys of the event triggers that the children hold. */
  function KeysOf(held: map<Id, TaskTrigger>, text: Text): set<Key> {
    set id | id in held && IsEvent(held[id]) :: text.keys(held[id].body)
  }

  lemma SingleQueueIsFree(c: Client, channel: Channel, subs: map<Key, uint32>, key: Key)
    requires Registered(c, map[channel := subs]) && key !in subs
    ensures key !in c.channels
  {
    if key in c.channels {
      var id :| id in c.channels[key];
      assert Entry(c, key, id, c.channels[key][id]);
    }
  }

  lemma ChannelsAreSubscriptions(c: Client, channel: Channel, subs: map<Key, uint32>)
    requires Registered(c, map[channel := subs])
    ensures c.channels.Keys == subs.Keys
  {
    forall key | key in subs
      ensures key in c.channels
    {
      assert Holds(map[channel := subs], key, subs[key], channel);
    }
    forall key | key !in subs
      ensures key !in c.channels
    {
      SingleQueueIsFree(c, channel, subs, key);
    }
  }

  lemma SubscribeQueueExact(e: Ev.Events, id: Id, trigger: TaskTrigger, text: Bytes -> Key)
    requires QueueExact(e) && e.counters.Keys == e.subscribed.Keys
            && Ev.AfterScheduleByID(e, id, trigger, text).Returns?
    ensures QueueExact(Ev.AfterScheduleByID(e, id, trigger, text).events)
  {
    var key, e' := text(trigger.body), Ev.AfterScheduleByID(e, id, trigger, text).events;
    Ev.ScheduledFields(e, id, trigger, text);
    SubscribeRegistered(e.client, map[e.channel := e.subscribed], e.channel, key);
    assert map[e.channel := e.subscribed][e.channel := e'.subscribed] == map[e.channel := e'.subscribed];
    if key !in e.subscribed {
      SingleQueueIsFree(e.client, e.channel, e.subscribed, key);
      AddMirrored(e.client, key, e.channel);
    }
  }

  lemma UnsubscribeQueueExact(e: Ev.Events, id: Id, text: Bytes -> Key)
    requires QueueExact(e) && id in e.triggers && Ev.AfterUnscheduleID(e, id, text).Returns?
    ensures QueueExact(Ev.AfterUnscheduleID(e, id, text).events)
  {
    var key, e' := text(e.triggers[id].body), Ev.AfterUnscheduleID(e, id, text).events;
    Ev.UnscheduledFields(e, id, text);
    UnsubscribeRegistered(e.client, map[e.channel := e.subscribed], e.channel, key);
    assert map[e.channel := e.subscribed][e.channel := e'.subscribed] == map[e.channel := e'.subscribed];
    if key in e.subscribed {
      DropMirrored(e.client, key, e.subscribed[key]);
    }
  }

  lemma LinkQueueExact(e: Ev.Events, link: LinkStep)
    requires QueueExact(e) && (link.Greet? ==> Enumerates(link.order, e.client.channels.Keys))
    ensures QueueExact(e.(client := AfterLink(e.client, link)))
  {
  }

  lemma EventsOfPut(held: map<Id, TaskTrigger>, id: Id, trigger: TaskTrigger)
    requires id !in held
    ensures EventsOf(held[id := trigger]) == if IsEvent(trigger) then EventsOf(held)[id := trigger] else EventsOf(held)
  {
  }

  lemma EventsOfTake(held: map<Id, TaskTrigger>, id: Id)
    requires id in held
    ensures EventsOf(held - {id}) == if IsEvent(held[id]) then EventsOf(held) - {id} else EventsOf(held)
  {
  }

  lemma CountedKeysAreHeld(y: System, text: Text)
    requires Underneath(y, text)
    ensures y.events.counters.Keys == KeysOf(y.held, text)
  {
    var e := y.events;
    forall key | key in e.eventTriggers
      ensures key in KeysOf(y.held, text)
    {
      var id :| id in e.eventTriggers[key];
      InvertsAt(e.eventTriggers, e.triggers, text.keys, key, id);
    }
    forall key | key in KeysOf(y.held, text)
      ensures key in e.eventTriggers
    {
      var id :| id in y.held && IsEvent(y.held[id]) && key == text.keys(y.held[id].body);
      InvertsAt(e.eventTriggers, e.triggers, text.keys, key, id);
    }
  }

  // ---- One request ----

  /** A new subscription is sent if and only if the key has no trigger yet; it waits for a pump. */
  lemma ScheduleReturns(e: Ev.Events, id: Id, trigger: TaskTrigger, text: Bytes -> Key)
    requires Ev.Exact(e, text) && QueueExact(e)
    ensures Ev.AfterScheduleByID(e, id, trigger, text).Returns?
            <==> e.client.receiving || text(trigger.body) in e.counters
    ensures Ev.AfterScheduleByID(e, id, trigger, text).Returns? ==>
              SameLink(e.client, Ev.AfterScheduleByID(e, id, trigger, text).events.client)
  {
    ChannelsAreSubscriptions(e.client, e.channel, e.subscribed);
    AddMirrored(e.client, text(trigger.body), e.channel);
  }

  lemma UnscheduleReturns(e: Ev.Events, id: Id, text: Bytes -> Key)
    requires Ev.Exact(e, text) && QueueExact(e) && id in e.triggers
    ensures var key := text(e.triggers[id].body);
            && key in e.eventTriggers
            && (Ev.AfterUnscheduleID(e, id, text).Returns? <==> e.client.receiving || |e.eventTriggers[key]| != 1)
    ensures Ev.AfterUnscheduleID(e, id, text).Returns? ==>
              SameLink(e.client, Ev.AfterUnscheduleID(e, id, text).events.client)
  {
    var key := text(e.triggers[id].body);
    InvertsAt(e.eventTriggers, e.triggers, text, key, id);
    SingleChannel(e.client, e.channel, e.subscribed, key);
    DropMirrored(e.client, key, e.subscribed[key]);
  }

  lemma SingleChannel(c: Client, channel: Channel, subs: map<Key, uint32>, key: Key)
    requires Registered(c, map[channel := subs]) && key in subs
    ensures key in c.channels && c.channels[key] == map[subs[key] := channel]
  {
    var queues := map[channel := subs];
    assert Holds(queues, key, subs[key], channel);
    forall id
      ensures id in c.channels[key] <==> id == subs[key]
      ensures id in c.channels[key] ==> c.channels[key][id] == channel
    {
      assert id in c.channels[key] ==> Entry(c, key, id, c.channels[key][id]);
    }
  }

  /** With the one queue, stopping returns if and only if a pump receives or nothing is subscribed. */
  lemma StopReturns(e: Ev.Events, order: seq<Key>)
    requires QueueExact(e) && Enumerates(order, e.subscribed.Keys)
    ensures Ev.AfterStop(e, order).Returns? <==> e.client.receiving || e.subscribed == map[]
  {
    DropsReturnExactly(e.client, e.subscribed, order);
    forall key | key in e.subscribed
      ensures Last(e.client, key, e.subscribed[key])
    {
      SingleChannel(e.client, e.channel, e.subscribed, key);
    }
  }

  /** And then nothing is registered any more, and the server has been told to unsubscribe from each key. */
  lemma StopForgets(e: Ev.Events, order: seq<Key>)
    requires QueueExact(e) && Enumerates(order, e.subscribed.Keys) && Ev.AfterStop(e, order).Returns?
    ensures var r := Ev.AfterStop(e, order).events;
            && r.client.channels == map[] && Mirrored(r.client)
            && r.client.sent == e.client.sent + seq(|order|, i requires 0 <= i < |order| => Unsubscribe(order[i]))
            && (Greeted(e.client.sent) ==> Greeted(r.client.sent) && Server(r.client.sent) == {})
  {
    var queues := map[e.channel := e.subscribed];
    Ev.StopUnsubscribes(e, queues, order);
    assert queues - {e.channel} == map[];
    NothingRegistered(Ev.AfterStop(e, order).events.client);
    forall key | key in order
      ensures Last(e.client, key, e.subscribed[key])
    {
      SingleChannel(e.client, e.channel, e.subscribed, key);
    }
    AllAnnounced(e.client, e.subscribed, order);
  }

  lemma NothingRegistered(c: Client)
    requires Registered(c, map[])
    ensures c.channels == map[]
  {
    if key :| key in c.channels {
      var id :| id in c.channels[key];
      assert Entry(c, key, id, c.channels[key][id]);
    }
  }

  lemma {:induction false} AllAnnounced(c: Client, subs: map<Key, uint32>, order: seq<Key>)
    requires forall key | key in order :: key in subs && Last(c, key, subs[key])
    ensures Announced(c, subs, order) == seq(|order|, i requires 0 <= i < |order| => Unsubscribe(order[i]))
    decreases |order|
  {
    if order != [] {
      AllAnnounced(c, subs, order[1..]);
    }
  }

  lemma KeysOfPut(held: map<Id, TaskTrigger>, id: Id, trigger: TaskTrigger, text: Text)
    requires id !in held
    ensures KeysOf(held[id := trigger], text)
            == KeysOf(held, text) + if IsEvent(trigger) then {text.keys(trigger.body)} else {}
  {
    var after := held[id := trigger];
    forall key | key in KeysOf(held, text)
      ensures key in KeysOf(after, text)
    {
      var i :| i in held && IsEvent(held[i]) && key == text.keys(held[i].body);
      assert i in after && after[i] == held[i];
    }
    if IsEvent(trigger) {
      assert id in after && after[id] == trigger;
    }
  }

  /**
   The requests return if and only if a pump receives or the held keys do not change; then the children hold `held` and
   the lower layers are exact.
   */
  ghost predicate Leaves(y: System, o: Outcome, held: map<Id, TaskTrigger>, text: Text) {
    && (o.Next? <==> y.events.client.receiving || KeysOf(held, text) == KeysOf(y.held, text))
    && (o.Next? ==>
          && Underneath(o.system, text) && o.system.held == held && o.system.tasks == y.tasks
          && SameLink(y.events.client, o.system.events.client))
  }

  /** One request after the other. */
  lemma LeavesAfter(y: System, o: Outcome, held: map<Id, TaskTrigger>, o': Outcome, held': map<Id, TaskTrigger>,
          text: Text)
    requires Leaves(y, o, held, text) && if o.Next? then Leaves(o.system, o', held', text) else o' == Stuck
    requires KeysOf(held', text) == KeysOf(y.held, text) ==> KeysOf(held, text) == KeysOf(y.held, text)
    ensures Leaves(y, o', held', text)
  {
  }

  /** What the children hold if the request is granted. */
  function Granted(held: map<Id, TaskTrigger>, id: Id, trigger: TaskTrigger, ok: bool): map<Id, TaskTrigger> {
    if ok then held[id := trigger] else held
  }

  /** Asking for a trigger that is not held. */
  lemma AskUnderneath(y: System, id: Id, trigger: TaskTrigger, ok: bool, text: Text)
    requires Underneath(y, text) && id !in y.held && Answer(trigger, ok)
    ensures Leaves(y, AfterAsk(y, id, trigger, ok, text), Granted(y.held, id, trigger, ok), text)
  {
    EventRoute(trigger.name);
    KeysOfPut(y.held, id, trigger, text);
    if IsEvent(trigger) {
      AskReturns(y, id, trigger, text);
      if AfterAsk(y, id, trigger, ok, text).Next? {
        AskExact(y, id, trigger, text);
      }
    } else {
      EventsOfPut(y.held, id, trigger);
    }
  }

  lemma AskReturns(y: System, id: Id, trigger: TaskTrigger, text: Text)
    requires Underneath(y, text) && id !in y.held && IsEvent(trigger)
    ensures AfterAsk(y, id, trigger, true, text).Next?
            <==> y.events.client.receiving || text.keys(trigger.body) in KeysOf(y.held, text)
    ensures AfterAsk(y, id, trigger, true, text).Next? ==>
              SameLink(y.events.client, AfterAsk(y, id, trigger, true, text).system.events.client)
  {
    EventRoute(trigger.name);
    CountedKeysAreHeld(y, text);
    ScheduleReturns(y.events, id, trigger, text.keys);
  }

  lemma AskExact(y: System, id: Id, trigger: TaskTrigger, text: Text)
    requires Underneath(y, text) && id !in y.held && IsEvent(trigger) && AfterAsk(y, id, trigger, true, text).Next?
    ensures Underneath(AfterAsk(y, id, trigger, true, text).system, text)
  {
    EventRoute(trigger.name);
    EventsOfPut(y.held, id, trigger);
    Ev.ScheduleByIDExact(y.events, id, trigger, text.keys);
    Ev.ScheduledFields(y.events, id, trigger, text.keys);
    SubscribeQueueExact(y.events, id, trigger, text.keys);
  }

  lemma KeysOfTake(y: System, id: Id, text: Text)
    requires Underneath(y, text) && id in y.held
    ensures KeysOf(y.held - {id}, text) == KeysOf(y.held, text)
            <==> (IsEvent(y.held[id]) ==> |At(y.events.eventTriggers, text.keys(y.held[id].body))| != 1)
  {
    var left := y.held - {id};
    assert left[id := y.held[id]] == y.held;
    KeysOfPut(left, id, y.held[id], text);
    if IsEvent(y.held[id]) {
      OthersForKey(y, id, text);
    }
  }

  lemma OthersForKey(y: System, id: Id, text: Text)
    requires Underneath(y, text) && id in y.held && IsEvent(y.held[id])
    ensures text.keys(y.held[id].body) in KeysOf(y.held - {id}, text)
            <==> |At(y.events.eventTriggers, text.keys(y.held[id].body))| != 1
  {
    var e, key, left := y.events, text.keys(y.held[id].body), y.held - {id};
    var here := At(e.eventTriggers, key);
    InvertsAt(e.eventTriggers, e.triggers, text.keys, key, id);
    assert |here.Keys - {id}| == |here| - 1;
    if other :| other in here.Keys - {id} {
      InvertsAt(e.eventTriggers, e.triggers, text.keys, key, other);
      assert other in left && IsEvent(left[other]);
    } else {
      assert here.Keys - {id} == {};
      forall other | other in left && IsEvent(left[other])
        ensures text.keys(left[other].body) != key
      {
        InvertsAt(e.eventTriggers, e.triggers, text.keys, key, other);
        assert other !in here.Keys - {id};
      }
    }
  }

  /** So with taking one back. */
  lemma ForgetUnderneath(y: System, id: Id, released: set<Id>, text: Text)
    requires Underneath(y, text)
    ensures Leaves(y, AfterForget(y, id, released, text), y.held - {id}, text)
  {
    if id in y.held {
      ForgetHeld(y, id, released, text);
    } else {
      assert y.held - {id} == y.held;
    }
  }

  lemma ForgetHeld(y: System, id: Id, released: set<Id>, text: Text)
    requires Underneath(y, text) && id in y.held
    ensures Leaves(y, AfterForget(y, id, released, text), y.held - {id}, text)
  {
    EventRoute(y.held[id].name);
    EventsOfTake(y.held, id);
    KeysOfTake(y, id, text);
    if IsEvent(y.held[id]) {
      UnscheduleReturns(y.events, id, text.keys);
      if AfterForget(y, id, released, text).Next? {
        Ev.UnscheduleIDExact(y.events, id, text.keys);
        Ev.UnscheduledFields(y.events, id, text.keys);
        UnsubscribeQueueExact(y.events, id, text.keys);
      }
    }
  }

  // ---- All the requests of a call ----

  /** The triggers that the update loop asks for and is granted. */
  function New(owned: set<Id>, triggers: seq<TaskTrigger>, oks: seq<bool>): map<Id, TaskTrigger>
    requires |oks| == |triggers|
    decreases |triggers|
  {
    if |triggers| == 0 then map[]
    else
      var id := TriggerId(triggers[0]);
      if id in owned || !oks[0] then New(owned, triggers[1..], oks[1..])
      else map[id := triggers[0]] + New(owned + {id}, triggers[1..], oks[1..])
  }

  lemma {:induction false} NewKeys(owned: set<Id>, triggers: seq<TaskTrigger>, oks: seq<bool>)
    requires |oks| == |triggers|
    ensures New(owned, triggers, oks).Keys == Index.Accepted(owned, triggers, oks)
    decreases |triggers|
  {
    if triggers != [] {
      var id := TriggerId(triggers[0]);
      var added := if oks[0] && id !in owned then {id} else {};
      Index.Peel(owned, added, triggers, oks);
      NewKeys(owned + added, triggers[1..], oks[1..]);
      assert owned + {} == owned;
    }
  }

  /** The requests return if and only if a pump receives or the held keys do not change. */
  lemma {:induction false} AsksUnderneath(y: System, owned: set<Id>, triggers: seq<TaskTrigger>, oks: seq<bool>,
          text: Text)
    requires |oks| == |triggers| && Underneath(y, text)
    requires New(owned, triggers, oks).Keys !! y.held.Keys
    requires forall i | 0 <= i < |oks| :: Answer(triggers[i], oks[i])
    ensures Leaves(y, AfterAsks(y, owned, triggers, oks, text), y.held + New(owned, triggers, oks), text)
    decreases |triggers|
  {
    if triggers == [] {
      assert y.held + map[] == y.held;
    } else {
      var id, rest, restOks := TriggerId(triggers[0]), triggers[1..], oks[1..];
      if id in owned || !oks[0] {
        assert id !in owned ==> AfterAsk(y, id, triggers[0], oks[0], text) == Next(y);
        AsksUnderneath(y, owned, rest, restOks, text);
      } else {
        var more, o := New(owned + {id}, rest, restOks), AfterAsk(y, id, triggers[0], true, text);
        NewKeys(owned + {id}, rest, restOks);
        AskUnderneath(y, id, triggers[0], true, text);
        if o.Next? {
          AsksUnderneath(o.system, owned + {id}, rest, restOks, text);
        }
        GrantThenRest(y, id, triggers[0], o, more, AfterAsks(y, owned, triggers, oks, text), text);
      }
    }
  }

  lemma GrantThenRest(y: System, id: Id, trigger: TaskTrigger, o: Outcome, more: map<Id, TaskTrigger>, o': Outcome,
          text: Text)
    requires id !in y.held && y.held.Keys !! more.Keys && id !in more
    requires Leaves(y, o, y.held[id := trigger], text)
    requires if o.Next? then Leaves(o.system, o', o.system.held + more, text) else o' == Stuck
    ensures Leaves(y, o', y.held + (map[id := trigger] + more), text)
  {
    KeysGrow(y.held, id, trigger, more, text);
    LeavesAfter(y, o, y.held[id := trigger], o', y.held[id := trigger] + more, text);
  }

  /** Keys only grow with what is held; equal at the ends, they are equal in between. */
  lemma KeysGrow(held: map<Id, TaskTrigger>, id: Id, trigger: TaskTrigger, more: map<Id, TaskTrigger>,
          text: Text)
    requires id !in held && held.Keys !! more.Keys && id !in more
    ensures held[id := trigger] + more == held + (map[id := trigger] + more)
    ensures KeysOf(held, text) <= KeysOf(held[id := trigger], text) <= KeysOf(held[id := trigger] + more, text)
  {
    KeysShrink(held[id := trigger] + more, more.Keys, text);
    KeysShrink(held[id := trigger], {id}, text);
    assert held[id := trigger] + more - more.Keys == held[id := trigger];
    assert held[id := trigger] - {id} == held;
  }

  lemma KeysShrink(held: map<Id, TaskTrigger>, ids: set<Id>, text: Text)
    ensures KeysOf(held - ids, text) <= KeysOf(held, text)
  {
  }

  lemma KeysTaken(held: map<Id, TaskTrigger>, id: Id, ids: set<Id>, text: Text)
    requires id in ids
    ensures held - {id} - (ids - {id}) == held - ids
    ensures KeysOf(held - ids, text) <= KeysOf(held - {id}, text) <= KeysOf(held, text)
  {
  }

  /** Some of the triggers may not be held. */
  lemma {:induction false} ForgetsUnderneath(y: System, order: seq<Id>, ids: set<Id>, released: set<Id>, text: Text)
    requires Underneath(y, text) && Enumerates(order, ids)
    ensures Leaves(y, AfterForgets(y, order, released, text), y.held - ids, text)
    decreases |order|
  {
    if order == [] {
      assert y.held - ids == y.held;
    } else {
      assert order[0] in order;
      var o, left := AfterForget(y, order[0], released, text), y.held - {order[0]};
      ForgetUnderneath(y, order[0], released, text);
      EnumeratesRest(order, ids);
      if o.Next? {
        ForgetsUnderneath(o.system, order[1..], ids - {order[0]}, released, text);
      }
      KeysTaken(y.held, order[0], ids, text);
      LeavesAfter(y, o, left, AfterForgets(y, order, released, text), y.held - ids, text);
    }
  }

  // ---- What the file-system child is asked ----

  function FilesOf(held: map<Id, TaskTrigger>): map<Id, TaskTrigger> {
    map id | id in held && IsFile(held[id]) :: held[id]
  }

  /** The requests that the update loop makes of it and that it accepts. */
  function FileAsks(owned: set<Id>, triggers: seq<TaskTrigger>, oks: seq<bool>): seq<Fs.Request>
    requires |oks| == |triggers|
    decreases |triggers|
  {
    if |triggers| == 0 then []
    else
      var id := TriggerId(triggers[0]);
      if id in owned || !oks[0] then FileAsks(owned, triggers[1..], oks[1..])
      else
        (if IsFile(triggers[0]) then [Fs.Ask(id, triggers[0], true)] else [])
        + FileAsks(owned + {id}, triggers[1..], oks[1..])
  }

  /** What it is asked to give up, by the table. */
  function FileForgets(ids: map<Id, nat>, order: seq<Id>, released: set<Id>): seq<Fs.Request>
    decreases |order|
  {
    if |order| == 0 then []
    else
      (if order[0] in ids && ids[order[0]] == FILE_CHILD then [Fs.Forget(order[0], order[0] in released)] else [])
      + FileForgets(ids, order[1..], released)
  }

  /** The child has gone through the requests, and holds what they leave. */
  predicate FilesAfter(y: System, y': System, requests: seq<Fs.Request>, text: Text) {
    && y'.files == Fs.Run(y.files, requests, text.paths)
    && FilesOf(y'.held) == Fs.HeldAfter(y.files, FilesOf(y.held), requests, text.paths)
  }

  lemma FilesAfterBoth(x: System, y: System, z: System, a: seq<Fs.Request>, b: seq<Fs.Request>, text: Text)
    requires FilesAfter(x, y, a, text) && FilesAfter(y, z, b, text)
    ensures FilesAfter(x, z, a + b, text)
  {
    Fs.RunJoins(x.files, FilesOf(x.held), a, b, text.paths);
  }

  lemma AskFiles(y: System, id: Id, trigger: TaskTrigger, text: Text)
    requires id !in y.held && Answer(trigger, true) && AfterAsk(y, id, trigger, true, text).Next?
    ensures FilesAfter(y, AfterAsk(y, id, trigger, true, text).system,
                       if IsFile(trigger) then [Fs.Ask(id, trigger, true)] else [], text)
  {
    EventRoute(trigger.name);
    var y' := AfterAsk(y, id, trigger, true, text).system;
    assert FilesOf(y'.held) == if IsFile(trigger) then FilesOf(y.held)[id := trigger] else FilesOf(y.held);
  }

  lemma {:induction false} AsksFiles(y: System, owned: set<Id>, triggers: seq<TaskTrigger>, oks: seq<bool>, text: Text)
    requires |oks| == |triggers| && Underneath(y, text) && New(owned, triggers, oks).Keys !! y.held.Keys
    requires forall i | 0 <= i < |oks| :: Answer(triggers[i], oks[i])
    requires AfterAsks(y, owned, triggers, oks, text).Next?
    ensures FilesAfter(y, AfterAsks(y, owned, triggers, oks, text).system, FileAsks(owned, triggers, oks), text)
    decreases |triggers|
  {
    if triggers != [] {
      var id, rest, restOks := TriggerId(triggers[0]), triggers[1..], oks[1..];
      if id in owned || !oks[0] {
        assert id !in owned ==> AfterAsk(y, id, triggers[0], oks[0], text) == Next(y);
        AsksFiles(y, owned, rest, restOks, text);
      } else {
        var o := AfterAsk(y, id, triggers[0], true, text);
        NewKeys(owned + {id}, rest, restOks);
        AskUnderneath(y, id, triggers[0], true, text);
        AskFiles(y, id, triggers[0], text);
        AsksFiles(o.system, owned + {id}, rest, restOks, text);
        FilesAfterBoth(y, o.system, AfterAsks(y, owned, triggers, oks, text).system,
                       if IsFile(triggers[0]) then [Fs.Ask(id, triggers[0], true)] else [],
                       FileAsks(owned + {id}, rest, restOks), text);
      }
    }
  }

  lemma ForgetFiles(y: System, id: Id, released: set<Id>, text: Text)
    requires Underneath(y, text) && AfterForget(y, id, released, text).Next?
    ensures FilesAfter(y, AfterForget(y, id, released, text).system, FileForgets(y.ids, [id], released), text)
    ensures AfterForget(y, id, released, text).system.ids == y.ids
  {
    FirstForgotten(y.ids, [id], released);
    if id in y.ids && y.ids[id] == FILE_CHILD {
      FilesOfTake(y.held, id);
      FileForgotten(y, id, released, text);
    } else {
      if id in y.held {
        EventRoute(y.held[id].name);
      }
      assert FilesOf(y.held - {id}) == FilesOf(y.held);
    }
  }

  lemma FilesOfTake(held: map<Id, TaskTrigger>, id: Id)
    ensures FilesOf(held - {id}) == FilesOf(held) - {id}
  {
  }

  lemma FileForgotten(y: System, id: Id, released: set<Id>, text: Text)
    requires id in y.ids && y.ids[id] == FILE_CHILD && FilesOf(y.held - {id}) == FilesOf(y.held) - {id}
    ensures AfterForget(y, id, released, text).Next?
    ensures FilesAfter(y, AfterForget(y, id, released, text).system, [Fs.Forget(id, id in released)], text)
  {
    var request := Fs.Forget(id, id in released);
    assert [request][1..] == [];
    assert Fs.Run(y.files, [request], text.paths) == Fs.Apply(y.files, request, text.paths);
  }

  lemma {:induction false} ForgetsFiles(y: System, order: seq<Id>, released: set<Id>, text: Text)
    requires Underneath(y, text) && AfterForgets(y, order, released, text).Next?
    ensures FilesAfter(y, AfterForgets(y, order, released, text).system, FileForgets(y.ids, order, released), text)
    decreases |order|
  {
    if order != [] {
      var o := AfterForget(y, order[0], released, text);
      ForgetUnderneath(y, order[0], released, text);
      ForgetFiles(y, order[0], released, text);
      ForgetsFiles(o.system, order[1..], released, text);
      FilesAfterBoth(y, o.system, AfterForgets(y, order, released, text).system,
                     FileForgets(y.ids, [order[0]], released), FileForgets(y.ids, order[1..], released), text);
      FirstForgotten(y.ids, order, released);
    }
  }

  lemma FirstForgotten(ids: map<Id, nat>, order: seq<Id>, released: set<Id>)
    requires order != []
    ensures FileForgets(ids, [order[0]], released)
            == if order[0] in ids && ids[order[0]] == FILE_CHILD then [Fs.Forget(order[0], order[0] in released)]
               else []
    ensures FileForgets(ids, order, released)
            == FileForgets(ids, [order[0]], released) + FileForgets(ids, order[1..], released)
  {
    assert [order[0]][1..] == [];
  }

  // ---- The composite scheduler's part ----

  function HeldBy(held: map<Id, TaskTrigger>, ids: map<Id, nat>, i: nat): set<Id> {
    set id | id in held && id in ids && ids[id] == i
  }

  /** The ids that the path index lists anywhere. */
  function Filed(index: InverseIndex.Index<Fs.Path>): set<Id> {
    set path, id | path in index && id in index[path] :: id
  }

  /** The composite as this model has it: its table, and its children with what they have. */
  function CompositeOf(y: System): (c: C.Scheduler)
    ensures |c.children| == |CHILDREN|
  {
    C.Scheduler([CHILDREN[CRON_CHILD].(held := HeldBy(y.held, y.ids, CRON_CHILD)),
                 CHILDREN[EVENT_CHILD].(held := y.events.triggers.Keys),
                 CHILDREN[FILE_CHILD].(held := Filed(y.files.pathTriggers))], y.ids, false)
  }

  lemma SameRoute(y: System, kind: Bytes)
    ensures C.Route(CompositeOf(y).children, kind) == C.Route(CHILDREN, kind)
  {
    var i := C.Route(CHILDREN, kind);
    assert forall j | 0 <= j < |CHILDREN| :: CompositeOf(y).children[j].kind == CHILDREN[j].kind;
    C.RouteIsFirst(CompositeOf(y).children, kind, i);
  }

  lemma FiledOneMore(index: InverseIndex.Index<Fs.Path>, path: Fs.Path, id: Id, trigger: TaskTrigger)
    ensures Filed(Put(index, path, id, trigger)) == Filed(index) + {id}
  {
    var index' := Put(index, path, id, trigger);
    assert id in index'[path];
    forall i | i in Filed(index)
      ensures i in Filed(index')
    {
      var p :| p in index && i in index[p];
      assert i in index'[p];
    }
  }

  /** A request that returns is the composite's ScheduleByID. */
  lemma AskIsRouted(y: System, id: Id, trigger: TaskTrigger, ok: bool, text: Text)
    requires id !in y.held && AfterAsk(y, id, trigger, ok, text).Next?
    ensures CompositeOf(AfterAsk(y, id, trigger, ok, text).system)
            == C.AfterScheduleByID(CompositeOf(y), id, trigger.name, ok)
  {
    SameRoute(y, trigger.name);
    var i := C.Route(CHILDREN, trigger.name);
    if i < |CHILDREN| && ok {
      RoutedTo(y, id, trigger, i, text);
    }
  }

  lemma AskedEvents(y: System, id: Id, trigger: TaskTrigger, text: Text)
    requires AfterAsk(y, id, trigger, true, text).Next? && C.Route(CHILDREN, trigger.name) < |CHILDREN|
    ensures AfterAsk(y, id, trigger, true, text).system.events.triggers.Keys
            == y.events.triggers.Keys + if C.Route(CHILDREN, trigger.name) == EVENT_CHILD then {id} else {}
  {
  }

  lemma AskedFiles(y: System, id: Id, trigger: TaskTrigger, text: Text)
    requires AfterAsk(y, id, trigger, true, text).Next? && C.Route(CHILDREN, trigger.name) < |CHILDREN|
    ensures Filed(AfterAsk(y, id, trigger, true, text).system.files.pathTriggers)
            == Filed(y.files.pathTriggers) + if C.Route(CHILDREN, trigger.name) == FILE_CHILD then {id} else {}
  {
    FiledOneMore(y.files.pathTriggers, Fs.Normalize(text.paths(trigger.body)), id, trigger);
  }

  lemma AskedJobs(y: System, id: Id, trigger: TaskTrigger, text: Text)
    requires id !in y.held && AfterAsk(y, id, trigger, true, text).Next? && C.Route(CHILDREN, trigger.name) < |CHILDREN|
    ensures var y' := AfterAsk(y, id, trigger, true, text).system;
            HeldBy(y'.held, y'.ids, CRON_CHILD)
            == HeldBy(y.held, y.ids, CRON_CHILD) + if C.Route(CHILDREN, trigger.name) == CRON_CHILD then {id} else {}
  {
    var y' := AfterAsk(y, id, trigger, true, text).system;
    assert y'.held == y.held[id := trigger] && y'.ids == y.ids[id := C.Route(CHILDREN, trigger.name)];
  }

  lemma RoutedTo(y: System, id: Id, trigger: TaskTrigger, i: nat, text: Text)
    requires id !in y.held && AfterAsk(y, id, trigger, true, text).Next?
    requires i == C.Route(CHILDREN, trigger.name) < |CHILDREN|
    ensures var c, c' := CompositeOf(y), CompositeOf(AfterAsk(y, id, trigger, true, text).system);
            && c'.ids == c.ids[id := i]
            && c'.children == c.children[i := c.children[i].(held := c.children[i].held + {id})]
  {
    AskedJobs(y, id, trigger, text);
    AskedEvents(y, id, trigger, text);
    AskedFiles(y, id, trigger, text);
    assert forall ids: set<Id> :: ids + {} == ids;
  }

  /** Taking a trigger back, held or not, is its Unschedule: only the child that the table names is asked. */
  lemma ForgetIsRouted(y: System, id: Id, released: set<Id>, text: Text)
    requires AfterForget(y, id, released, text).Next?
    ensures var c, c' := CompositeOf(y), CompositeOf(AfterForget(y, id, released, text).system);
            var left := if id in y.ids && y.ids[id] < |CHILDREN| then c'.children[y.ids[id]].held else {};
            c' == C.AfterUnschedule(c, id, left)
  {
    var y' := AfterForget(y, id, released, text).system;
    if id in y.ids && y.ids[id] != CRON_CHILD {
      assert HeldBy(y'.held, y'.ids, CRON_CHILD) == HeldBy(y.held, y.ids, CRON_CHILD);
    }
  }
}
