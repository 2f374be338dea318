/** Event triggers and their subscription counters: TelephonistScheduler in taskscheduler/trigger_scheduler.go. */
module EventScheduling {
  import opened InverseIndex
  import opened Registry
  import opened Triggers

  /** `text` is what MustString reads from a body; a queue that was never started has no subscriptions. */
  datatype Events = Events(counters: map<Key, int>, triggers: map<Id, TaskTrigger>,
                           eventTriggers: map<Key, map<Id, TaskTrigger>>,
                           started: bool, channel: Channel, subscribed: map<Key, uint32>, client: Client)

  /** A call on a nil queue panics; a send without a receiving pump never returns. */
  datatype Outcome = Panics | Blocks | Returns(events: Events)

  function AfterScheduleByID(e: Events, id: Id, trigger: TaskTrigger, text: Bytes -> Key): Outcome {
    var key := text(trigger.body);
    var e' := e.(triggers := e.triggers[id := trigger], eventTriggers := Put(e.eventTriggers, key, id, trigger));
    if key in e.counters then Returns(e'.(counters := e.counters[key := e.counters[key] + 1]))
    else if !e.started then Panics
    else if key !in e.subscribed && !AddReturns(e.client, key) then Blocks
    else
      var (subs, client) := AfterSubscribe(e.subscribed, e.client, key, e.channel);
      Returns(e'.(counters := e.counters[key := 1], subscribed := subs, client := client))
  }

  function AfterUnscheduleID(e: Events, id: Id, text: Bytes -> Key): Outcome {
    if id !in e.triggers then Returns(e)
    else
      var key := text(e.triggers[id].body);
      var e' := e.(triggers := e.triggers - {id}, eventTriggers := Take(e.eventTriggers, key, id));
      var count := if key in e.counters then e.counters[key] else 0;
      if count != 1 then Returns(e'.(counters := e.counters[key := count - 1]))
      else if !e.started then Panics
      else if key in e.subscribed && !DropReturns(e.client, key, e.subscribed[key]) then Blocks
      else
        var (subs, client) := AfterUnsubscribe(e.subscribed, e.client, key);
        Returns(e'.(counters := e.counters - {key}, subscribed := subs, client := client))
  }

  /** A new queue has a channel of its own. */
  function AfterStart(e: Events, channel: Channel): Events {
    if e.started then e else e.(started := true, channel := channel, subscribed := map[])
  }

  /** `order` is the order in which the subscriptions are walked. */
  function AfterStop(e: Events, order: seq<Key>): Outcome
    requires forall key | key in order :: key in e.subscribed
  {
    if !e.started then Returns(e)
    else if !DropsReturn(e.client, e.subscribed, order) then Blocks
    else Returns(e.(started := false, subscribed := map[], client := AfterDropAll(e.client, e.subscribed, order)))
  }

  // ---- The object ----

  class TelephonistScheduler {
    const client: WSClient
    const text: Bytes -> Key
    const hasCallback: bool
    var queue: EventQueue?
    var subscriptionsCounters: map<Key, int>
    var triggers: map<Id, TaskTrigger>
    var eventTriggers: map<Key, map<Id, TaskTrigger>>

    ghost predicate Valid()
      reads this
    {
      queue != null ==> queue.wsc == client
    }

    ghost function Value(): Events
      reads this, queue, client
    {
      Events(subscriptionsCounters, triggers, eventTriggers, queue != null,
             if queue != null then queue.channel else 0,
             if queue != null then queue.subscribed else map[],
             client.Value())
    }

    constructor (client: WSClient, text: Bytes -> Key, hasCallback: bool)
      ensures Valid() && Value() == Events(map[], map[], map[], false, 0, map[], client.Value())
      ensures this.client == client && this.text == text && this.hasCallback == hasCallback
    {
      this.client, this.text, this.hasCallback := client, text, hasCallback;
      queue, subscriptionsCounters, triggers, eventTriggers := null, map[], map[], map[];
    }

    method ScheduleByID(id: Id, trigger: TaskTrigger) returns (id': Id)
      requires Valid() && trigger.name == TRIGGER_EVENT
      requires AfterScheduleByID(Value(), id, trigger, text).Returns?
      modifies this, queue, client
      ensures Valid() && queue == old(queue) && id' == id
      ensures Returns(Value()) == AfterScheduleByID(old(Value()), id, trigger, text)
    {
      var event := text(trigger.body);
      triggers := triggers[id := trigger];
      if event in eventTriggers {
        eventTriggers := eventTriggers[event := eventTriggers[event][id := trigger]];
      } else {
        eventTriggers := eventTriggers[event := map[id := trigger]];
      }
      if event in subscriptionsCounters {
        subscriptionsCounters := subscriptionsCounters[event := subscriptionsCounters[event] + 1];
      } else {
        subscriptionsCounters := subscriptionsCounters[event := 1];
        var _ := queue.Subscribe(event);
      }
      return id;
    }

    method Unschedule(id: Id) returns (found: bool)
      requires Valid() && AfterUnscheduleID(Value(), id, text).Returns?
      modifies this, queue, client
      ensures Valid() && queue == old(queue) && found == (id in old(triggers))
      ensures Returns(Value()) == AfterUnscheduleID(old(Value()), id, text)
    {
      found := id in triggers;
      if found {
        var event := text(triggers[id].body);
        triggers := triggers - {id};
        if event in eventTriggers {
          var left := eventTriggers[event] - {id};
          if left == map[] {
            eventTriggers := eventTriggers - {event};
          } else {
            eventTriggers := eventTriggers[event := left];
          }
        }
        var count := if event in subscriptionsCounters then subscriptionsCounters[event] else 0;
        if count == 1 {
          subscriptionsCounters := subscriptionsCounters - {event};
          var _ := queue.Unsubscribe(event);
        } else {
          subscriptionsCounters := subscriptionsCounters[event := count - 1];
        }
      }
    }

    method Start(channel: Channel)
      requires Valid()
      modifies this
      ensures Valid() && queue != null && Value() == AfterStart(old(Value()), channel)
      ensures old(queue) != null ==> queue == old(queue)
    {
      if queue == null {
        queue := new EventQueue(client, channel);
      }
    }

    method Stop(order: seq<Key>)
      requires Valid() && Enumerates(order, if queue != null then queue.subscribed.Keys else {})
      requires AfterStop(Value(), order).Returns?
      modifies this, client
      ensures Valid() && queue == null
      ensures Returns(Value().(channel := old(Value()).channel)) == AfterStop(old(Value()), order)
    {
      if queue != null {
        queue.UnsubscribeAll(order);
        queue := null;
      }
    }

    /** drain, for one event: the ids the callback is called with, in map order. */
    method OnEvent(key: Key) returns (fired: seq<Id>)
      ensures Enumerates(fired, if hasCallback then At(eventTriggers, key).Keys else {})
    {
      fired := [];
      if hasCallback && key in eventTriggers {
        var left := eventTriggers[key].Keys;
        while left != {}
          invariant left <= eventTriggers[key].Keys && Enumerates(fired, eventTriggers[key].Keys - left)
          decreases left
        {
          var id :| id in left;
          fired := fired + [id];
          left := left - {id};
        }
        assert eventTriggers[key].Keys - {} == eventTriggers[key].Keys;
      }
    }
  }

  // ---- Exactness ----

  /** Each counter is the number of triggers of its key, and the queue is subscribed to exactly the counted keys. */
  ghost predicate Counts(counters: map<Key, int>, index: Index<Key>, subscribed: map<Key, uint32>) {
    && counters.Keys == index.Keys == subscribed.Keys
    && forall key | key in counters :: counters[key] == |index[key]|
  }

  /** The event index is the inverse of the triggers by event key, and the counters agree with it. */
  ghost predicate Exact(e: Events, text: Bytes -> Key) {
    Inverts(e.eventTriggers, e.triggers, text) && Counts(e.counters, e.eventTriggers, e.subscribed)
  }

  lemma ScheduledFields(e: Events, id: Id, trigger: TaskTrigger, text: Bytes -> Key)
    requires AfterScheduleByID(e, id, trigger, text).Returns? && e.counters.Keys == e.subscribed.Keys
    ensures var key, r := text(trigger.body), AfterScheduleByID(e, id, trigger, text).events;
            && r.triggers == e.triggers[id := trigger]
            && r.eventTriggers == Put(e.eventTriggers, key, id, trigger)
            && r.counters == e.counters[key := if key in e.counters then e.counters[key] + 1 else 1]
            && r.subscribed.Keys == e.subscribed.Keys + {key}
            && r.started == e.started && r.channel == e.channel
            && (r.subscribed, r.client) == AfterSubscribe(e.subscribed, e.client, key, e.channel)
  {
  }

  /** Scheduling keeps the counters exact if and only if the id is a new one. */
  lemma ScheduleByIDExact(e: Events, id: Id, trigger: TaskTrigger, text: Bytes -> Key)
    requires Exact(e, text) && AfterScheduleByID(e, id, trigger, text).Returns?
    ensures Exact(AfterScheduleByID(e, id, trigger, text).events, text) <==> id !in e.triggers
  {
    var key := text(trigger.body);
    ScheduledFields(e, id, trigger, text);
    PutInverts(e.eventTriggers, e.triggers, text, id, trigger);
    InvertsAt(e.eventTriggers, e.triggers, text, key, id);
    PutSize(e.eventTriggers, key, id, trigger);
    var r := AfterScheduleByID(e, id, trigger, text).events;
    CountsAt(e.counters, e.eventTriggers, e.subscribed, key, r.counters[key], r.eventTriggers[key], r.subscribed);
  }

  lemma CountsAt(counters: map<Key, int>, index: Index<Key>, subscribed: map<Key, uint32>, key: Key,
                 count: int, entries: map<Id, TaskTrigger>, subscribed': map<Key, uint32>)
    requires Counts(counters, index, subscribed) && subscribed'.Keys == subscribed.Keys + {key}
    ensures Counts(counters[key := count], index[key := entries], subscribed') <==> count == |entries|
  {
    var counters', index' := counters[key := count], index[key := entries];
    assert counters'.Keys == index'.Keys == subscribed'.Keys;
    assert key in counters' && counters'[key] == count && index'[key] == entries;
    forall k | k in counters' && k != key
      ensures counters'[k] == |index'[k]|
    {
      assert k in counters;
    }
  }

  lemma UnscheduledFields(e: Events, id: Id, text: Bytes -> Key)
    requires AfterUnscheduleID(e, id, text).Returns? && id in e.triggers
    ensures var key, r := text(e.triggers[id].body), AfterUnscheduleID(e, id, text).events;
            && r.triggers == e.triggers - {id}
            && r.started == e.started && r.channel == e.channel
            && ((r.subscribed, r.client) == (e.subscribed, e.client)
                || (r.subscribed, r.client) == AfterUnsubscribe(e.subscribed, e.client, key))
  {
  }

  /** Unscheduling always keeps them exact. */
  lemma UnscheduleIDExact(e: Events, id: Id, text: Bytes -> Key)
    requires Exact(e, text) && AfterUnscheduleID(e, id, text).Returns?
    ensures Exact(AfterUnscheduleID(e, id, text).events, text)
  {
    if id in e.triggers {
      TakeInverts(e.eventTriggers, e.triggers, text, id);
      UnscheduleIDCounts(e, id, text);
    }
  }

  lemma UnscheduleIDCounts(e: Events, id: Id, text: Bytes -> Key)
    requires Exact(e, text) && id in e.triggers && AfterUnscheduleID(e, id, text).Returns?
    ensures var r := AfterUnscheduleID(e, id, text).events;
            && r.eventTriggers == Take(e.eventTriggers, text(e.triggers[id].body), id)
            && Counts(r.counters, r.eventTriggers, r.subscribed)
  {
    var key := text(e.triggers[id].body);
    InvertsAt(e.eventTriggers, e.triggers, text, key, id);
    TakeSize(e.eventTriggers, key, id);
  }

  /**
   A trigger scheduled once more under its id leaves its key subscribed for good, even when it was the last for the
   key.
   */
  lemma RepeatLeaksSubscription(e: Events, id: Id, text: Bytes -> Key)
    requires Exact(e, text) && id in e.triggers
    ensures var key := text(e.triggers[id].body);
            var o := AfterScheduleByID(e, id, e.triggers[id], text);
            && o.Returns?
            && var o' := AfterUnscheduleID(o.events, id, text);
               && o'.Returns? && id !in o'.events.triggers
               && key in o'.events.subscribed && o'.events.client == e.client
               && At(o'.events.eventTriggers, key) == At(e.eventTriggers, key) - {id}
  {
    var key, trigger := text(e.triggers[id].body), e.triggers[id];
    InvertsAt(e.eventTriggers, e.triggers, text, key, id);
    assert e.counters[key] == |e.eventTriggers[key]| && |e.eventTriggers[key].Keys| >= 1 by {
      assert id in e.eventTriggers[key].Keys;
    }
    assert e.eventTriggers[key][id := trigger] == e.eventTriggers[key];
    assert Put(e.eventTriggers, key, id, trigger) == e.eventTriggers;
    assert e.triggers[id := trigger] == e.triggers;
  }

  /**
   From an empty start: a first trigger, scheduled twice and unscheduled once, leaves its key subscribed for no
   trigger.
   */
  lemma RepeatLeaksFromStart(id: Id, trigger: TaskTrigger, text: Bytes -> Key, channel: Channel, c: Client)
    requires c.channels == map[] && c.receiving
    ensures var key, first := text(trigger.body), AfterScheduleByID(Fresh(channel, c), id, trigger, text);
            && first.Returns?
            && var second := AfterScheduleByID(first.events, id, trigger, text);
               && second.Returns?
               && var third := AfterUnscheduleID(second.events, id, text);
                  && third.Returns? && key in third.events.subscribed && At(third.events.eventTriggers, key) == map[]
  {
  }

  /** A started queue and nothing scheduled. */
  function Fresh(channel: Channel, c: Client): Events {
    Events(map[], map[], map[], true, channel, map[], c)
  }

  /**
   A Stop that returns takes this queue's channels, and no other queue's, out of the registry, and tells the server of
   the keys that are left without a channel.
   */
  lemma StopUnsubscribes(e: Events, queues: Queues, order: seq<Key>)
    requires e.started && e.channel in queues && queues[e.channel] == e.subscribed
    requires Registered(e.client, queues) && Mirrored(e.client) && Enumerates(order, e.subscribed.Keys)
    requires AfterStop(e, order).Returns?
    ensures var r := AfterStop(e, order).events;
            && !r.started && r.subscribed == map[] && r.triggers == e.triggers && r.counters == e.counters
            && Registered(r.client, queues - {e.channel}) && Mirrored(r.client) && SameLink(e.client, r.client)
            && r.client.sent == e.client.sent + Announced(e.client, e.subscribed, order)
  {
    DropAllRegistered(e.client, queues, e.channel, order);
    DropAllInforms(e.client, e.subscribed, order);
  }

  /** Starting a started scheduler, and stopping a stopped one, changes nothing. */
  lemma StartStopAgain(e: Events, order: seq<Key>, channel: Channel)
    requires forall key | key in order :: key in e.subscribed
    ensures e.started ==> AfterStart(e, channel) == e
    ensures !e.started ==>
              && AfterStop(e, order) == Returns(e)
              && AfterStop(AfterStart(e, channel), []) == Returns(e.(channel := channel, subscribed := map[]))
  {
  }

  /** The counters survive Stop: a restart, if Stop returns, leaves them exact only if there were none. */
  lemma RestartExact(e: Events, text: Bytes -> Key, order: seq<Key>, channel: Channel)
    requires Exact(e, text) && e.started && Enumerates(order, e.subscribed.Keys) && AfterStop(e, order).Returns?
    ensures Exact(AfterStart(AfterStop(e, order).events, channel), text) <==> e.counters == map[]
  {
  }

  /** Hence after a restart the events of surviving triggers are never subscribed again. */
  lemma RestartSubscribesNothing(e: Events, id: Id, trigger: TaskTrigger, text: Bytes -> Key, order: seq<Key>,
          channel: Channel)
    requires Exact(e, text) && e.started && Enumerates(order, e.subscribed.Keys) && AfterStop(e, order).Returns?
    requires text(trigger.body) in e.counters
    ensures var r := AfterStart(AfterStop(e, order).events, channel);
            var o := AfterScheduleByID(r, id, trigger, text);
            o.Returns? && o.events.subscribed == map[] && o.events.client == r.client
  {
  }

  /** From an empty start: after a restart, a second trigger for the key is scheduled without a subscription. */
  lemma RestartFromStart(id: Id, other: Id, trigger: TaskTrigger, text: Bytes -> Key, channel: Channel, c: Client)
    requires c.channels == map[] && c.receiving
    ensures var key, first := text(trigger.body), AfterScheduleByID(Fresh(channel, c), id, trigger, text);
            && first.Returns? && first.events.subscribed.Keys == {key}
            && var stopped := AfterStop(first.events, [key]);
               && stopped.Returns?
               && var r := AfterStart(stopped.events, channel);
                  var o := AfterScheduleByID(r, other, trigger, text);
                  && o.Returns? && other in o.events.triggers
                  && o.events.subscribed == map[] && o.events.client == r.client
  {
    var key, first := text(trigger.body), AfterScheduleByID(Fresh(channel, c), id, trigger, text).events;
    ScheduleByIDExact(Fresh(channel, c), id, trigger, text);
    ScheduledFields(Fresh(channel, c), id, trigger, text);
    DropsReturnExactly(first.client, first.subscribed, [key]);
    RestartSubscribesNothing(first, other, trigger, text, [key], channel);
  }

  /** From an empty start: with one event trigger, stopping between connections waits for ever. */
  lemma StoppingUnconnectedBlocks(id: Id, trigger: TaskTrigger, text: Bytes -> Key, channel: Channel, c: Client)
    requires c.channels == map[] && c.receiving
    ensures var key, first := text(trigger.body), AfterScheduleByID(Fresh(channel, c), id, trigger, text);
            && first.Returns? && first.events.subscribed.Keys == {key}
            && AfterStop(first.events.(client := AfterLink(first.events.client, Disconnect)), [key]) == Blocks
  {
    var key, first := text(trigger.body), AfterScheduleByID(Fresh(channel, c), id, trigger, text).events;
    ScheduledFields(Fresh(channel, c), id, trigger, text);
    var lost := AfterLink(first.client, Disconnect);
    assert lost.channels == map[key := map[first.subscribed[key] := channel]];
    assert map[first.subscribed[key] := channel] - {first.subscribed[key]} == map[];
    assert Last(lost, key, first.subscribed[key]);
    DropsReturnExactly(lost, first.subscribed, [key]);
  }

  /**
   On a stopped scheduler: asking for a key that is not counted panics, and so does giving up the last trigger of a key;
   the counters of what was scheduled before are what keeps other calls from it.
   */
  lemma StoppedPanics(e: Events, id: Id, trigger: TaskTrigger, text: Bytes -> Key, order: seq<Key>)
    requires Exact(e, text) && e.started && Enumerates(order, e.subscribed.Keys) && AfterStop(e, order).Returns?
    ensures var r := AfterStop(e, order).events;
            && (AfterScheduleByID(r, id, trigger, text).Panics? <==> At(e.eventTriggers, text(trigger.body)) == map[])
            && (AfterUnscheduleID(r, id, text).Panics?
                <==> id in e.triggers && |At(e.eventTriggers, text(e.triggers[id].body))| == 1)
            && AfterScheduleByID(r, id, trigger, text) != Blocks && AfterUnscheduleID(r, id, text) != Blocks
  {
    if id in e.triggers {
      InvertsAt(e.eventTriggers, e.triggers, text, text(e.triggers[id].body), id);
    }
  }

  // ---- Runs with repeats ----

  datatype Call =
    | Ask(id: Id, trigger: TaskTrigger) | GiveUp(id: Id) | StartQueue(channel: Channel) | StopQueue(order: seq<Key>)

  predicate Possible(e: Events, call: Call) {
    call.StopQueue? ==> forall key | key in call.order :: key in e.subscribed
  }

  function Apply(e: Events, call: Call, text: Bytes -> Key): Outcome
    requires Possible(e, call)
  {
    match call
    case Ask(id, trigger) => AfterScheduleByID(e, id, trigger, text)
    case GiveUp(id) => AfterUnscheduleID(e, id, text)
    case StartQueue(channel) => Returns(AfterStart(e, channel))
    case StopQueue(order) => AfterStop(e, order)
  }

  function Naming(triggers: map<Id, TaskTrigger>, text: Bytes -> Key, key: Key): set<Id> {
    set id | id in triggers && text(triggers[id].body) == key
  }

  /** Counters are positive, and at least the number of the triggers that name their key. */
  ghost predicate Covered(e: Events, text: Bytes -> Key) {
    && (forall key | key in e.counters :: e.counters[key] > 0)
    && forall key :: |Naming(e.triggers, text, key)| <= if key in e.counters then e.counters[key] else 0
  }

  /** Over any calls, with ids scheduled again under any body, before and after restarts: no counter is missing. */
  lemma {:induction false} RunCovered(e: Events, calls: seq<Call>, text: Bytes -> Key)
    requires Covered(e, text)
    ensures AlwaysCovered(e, calls, text)
    decreases |calls|
  {
    CoveredIsCounted(e, text);
    if calls != [] && Possible(e, calls[0]) && Apply(e, calls[0], text).Returns? {
      StepCovered(e, calls[0], text);
      RunCovered(Apply(e, calls[0], text).events, calls[1..], text);
    }
  }

  /** After every call that returns; and a trigger that is given up finds its counter. */
  ghost predicate AlwaysCovered(e: Events, calls: seq<Call>, text: Bytes -> Key)
    decreases |calls|
  {
    && Covered(e, text)
    && (forall id | id in e.triggers :: text(e.triggers[id].body) in e.counters)
    && (calls != [] && Possible(e, calls[0]) && Apply(e, calls[0], text).Returns? ==>
          AlwaysCovered(Apply(e, calls[0], text).events, calls[1..], text))
  }

  lemma CoveredIsCounted(e: Events, text: Bytes -> Key)
    requires Covered(e, text)
    ensures forall id | id in e.triggers :: text(e.triggers[id].body) in e.counters
  {
    forall id | id in e.triggers
      ensures text(e.triggers[id].body) in e.counters
    {
      assert id in Naming(e.triggers, text, text(e.triggers[id].body));
    }
  }

  lemma StepCovered(e: Events, call: Call, text: Bytes -> Key)
    requires Covered(e, text) && Possible(e, call) && Apply(e, call, text).Returns?
    ensures Covered(Apply(e, call, text).events, text)
  {
    var r := Apply(e, call, text).events;
    CoveredIsCounted(e, text);
    forall key
      ensures |Naming(r.triggers, text, key)| <= if key in r.counters then r.counters[key] else 0
    {
      match call
      case Ask(id, trigger) => AskedNaming(e.triggers, id, trigger, text, key);
      case GiveUp(id) => GivenUpNaming(e.triggers, id, text, key);
      case _ =>
    }
  }

  lemma AskedNaming(triggers: map<Id, TaskTrigger>, id: Id, trigger: TaskTrigger, text: Bytes -> Key, key: Key)
    ensures |Naming(triggers[id := trigger], text, key)|
            <= |Naming(triggers, text, key)| + if text(trigger.body) == key then 1 else 0
  {
    var before, after := Naming(triggers, text, key), Naming(triggers[id := trigger], text, key);
    if text(trigger.body) == key {
      assert after <= before + {id};
      Smaller(after, before + {id});
    } else {
      Smaller(after, before);
    }
  }

  lemma GivenUpNaming(triggers: map<Id, TaskTrigger>, id: Id, text: Bytes -> Key, key: Key)
    ensures |Naming(triggers - {id}, text, key)|
            == |Naming(triggers, text, key)| - if id in triggers && text(triggers[id].body) == key then 1 else 0
  {
    assert Naming(triggers - {id}, text, key) == Naming(triggers, text, key) - {id};
  }

  lemma {:induction false} Smaller(a: set<Id>, b: set<Id>)
    requires a <= b
    ensures |a| <= |b|
  {
    assert b == a + (b - a);
  }

  /** An event fires exactly the triggers that name its key. */
  lemma FiresByKey(e: Events, text: Bytes -> Key, key: Key)
    requires Exact(e, text)
    ensures At(e.eventTriggers, key) == map id | id in e.triggers && text(e.triggers[id].body) == key :: e.triggers[id]
  {
  }
}
