/**
 Event subscriptions on the client's side: the registry of channels and what the server is told
 (telephonist/wsclient.go), and the queues that drive it (telephonist/events.go).
 */
module Registry {
  import opened Triggers

  datatype Key = Key(text: Bytes)  // the name of an event
  newtype Channel = x: int | 0 <= x  // the identity of a queue's Go channel

  const TWO_32: int := 0x1_0000_0000
  newtype uint32 = x: int | 0 <= x < TWO_32

  datatype Message = Hello | Subscribe(key: Key) | Unsubscribe(key: Key) | SetSubscriptions(keys: seq<Key>)

  /**
   `receiving`: a write pump takes messages, so a send completes; otherwise it blocks for ever.
   `sent`: what the write pump of the current connection has taken.
   */
  datatype Client = Client(channels: map<Key, map<uint32, Channel>>, lastId: uint32, receiving: bool,
      sent: seq<Message>)

  // ---- Operations on values ----

  function Send(c: Client, m: Message): Client {
    c.(sent := c.sent + [m])
  }

  /** sync/atomic's AddUint32 wraps around. */
  function NextId(c: Client): uint32 {
    ((c.lastId as int + 1) % TWO_32) as uint32
  }

  function Entries(c: Client, key: Key): map<uint32, Channel> {
    if key in c.channels then c.channels[key] else map[]
  }

  function AfterAdd(c: Client, key: Key, channel: Channel): Client {
    var c' := c.(lastId := NextId(c), channels := c.channels[key := Entries(c, key)[NextId(c) := channel]]);
    if key in c.channels then c' else Send(c', Subscribe(key))
  }

  function AfterDrop(c: Client, key: Key, id: uint32): Client {
    if key !in c.channels then c
    else
      var left := c.channels[key] - {id};
      if left == map[] then Send(c.(channels := c.channels - {key}), Unsubscribe(key))
      else c.(channels := c.channels[key := left])
  }

  /** Whether the call returns: a message to send needs a receiving pump. */
  predicate AddReturns(c: Client, key: Key) {
    key in c.channels || c.receiving
  }

  predicate DropReturns(c: Client, key: Key, id: uint32) {
    (key in c.channels && c.channels[key] - {id} == map[]) ==> c.receiving
  }

  // ---- The objects ----

  class WSClient {
    var eventChannels: map<Key, map<uint32, Channel>>
    var eventChannelsSeq: uint32
    var receiving: bool
    var sent: seq<Message>

    ghost function Value(): Client
      reads this
    {
      Client(eventChannels, eventChannelsSeq, receiving, sent)
    }

    constructor ()
      ensures Value() == Client(map[], 0, false, [])
    {
      eventChannels, eventChannelsSeq, receiving, sent := map[], 0, false, [];
    }

    method AddEventChannel(eventName: Key, channel: Channel) returns (id: uint32)
      requires AddReturns(Value(), eventName)
      modifies this
      ensures Value() == AfterAdd(old(Value()), eventName, channel)
      ensures id == NextId(old(Value()))
    {
      eventChannelsSeq := ((eventChannelsSeq as int + 1) % TWO_32) as uint32;
      id := eventChannelsSeq;
      if eventName in eventChannels {
        eventChannels := eventChannels[eventName := eventChannels[eventName][id := channel]];
      } else {
        eventChannels := eventChannels[eventName := map[id := channel]];
        sent := sent + [Subscribe(eventName)];
      }
    }

    method RemoveEventChannel(eventName: Key, id: uint32)
      requires DropReturns(Value(), eventName, id)
      modifies this
      ensures Value() == AfterDrop(old(Value()), eventName, id)
    {
      if eventName in eventChannels {
        var channels := eventChannels[eventName] - {id};
        if channels == map[] {
          eventChannels := eventChannels - {eventName};
          sent := sent + [Unsubscribe(eventName)];
        } else {
          eventChannels := eventChannels[eventName := channels];
        }
      }
    }

    /** onGreetings: the keys of the registry, each once, in map order. */
    method OnGreetings() returns (messages: seq<Key>)
      requires receiving
      modifies this
      ensures Value() == AfterLink(old(Value()), Greet(messages))
      ensures Enumerates(messages, old(eventChannels).Keys)
    {
      messages := [];
      var left := eventChannels.Keys;
      while left != {}
        invariant left <= eventChannels.Keys && Enumerates(messages, eventChannels.Keys - left)
        decreases left
      {
        var event :| event in left;
        messages := messages + [event];
        left := left - {event};
      }
      assert eventChannels.Keys - {} == eventChannels.Keys;
      sent := sent + [SetSubscriptions(messages)];
    }
  }

  class EventQueue {
    const channel: Channel
    const wsc: WSClient
    var subscribed: map<Key, uint32>

    constructor (wsc: WSClient, channel: Channel)
      ensures this.wsc == wsc && this.channel == channel && subscribed == map[]
    {
      this.wsc, this.channel, subscribed := wsc, channel, map[];
    }

    method Subscribe(eventKey: Key) returns (isSubscribed: bool)
      requires eventKey !in subscribed ==> AddReturns(wsc.Value(), eventKey)
      modifies this, wsc
      ensures isSubscribed == (eventKey in old(subscribed))
      ensures (subscribed, wsc.Value()) == AfterSubscribe(old(subscribed), old(wsc.Value()), eventKey, channel)
    {
      isSubscribed := eventKey in subscribed;
      if !isSubscribed {
        var id := wsc.AddEventChannel(eventKey, channel);
        subscribed := subscribed[eventKey := id];
      }
    }

    method Unsubscribe(eventKey: Key) returns (isSubscribed: bool)
      requires eventKey in subscribed ==> DropReturns(wsc.Value(), eventKey, subscribed[eventKey])
      modifies this, wsc
      ensures isSubscribed == (eventKey in old(subscribed))
      ensures (subscribed, wsc.Value()) == AfterUnsubscribe(old(subscribed), old(wsc.Value()), eventKey)
    {
      isSubscribed := eventKey in subscribed;
      if isSubscribed {
        wsc.RemoveEventChannel(eventKey, subscribed[eventKey]);
        subscribed := subscribed - {eventKey};
      }
    }

    /** `order` is the order in which the map is walked; `subscribed` itself is left as it is. */
    method UnsubscribeAll(order: seq<Key>)
      requires Enumerates(order, subscribed.Keys) && DropsReturn(wsc.Value(), subscribed, order)
      modifies wsc
      ensures wsc.Value() == AfterDropAll(old(wsc.Value()), subscribed, order)
    {
      for i := 0 to |order|
        invariant DropsReturn(wsc.Value(), subscribed, order[i..])
        invariant AfterDropAll(wsc.Value(), subscribed, order[i..]) == AfterDropAll(old(wsc.Value()), subscribed, order)
      {
        assert order[i] in order && order[i..][1..] == order[i + 1..];
        wsc.RemoveEventChannel(order[i], subscribed[order[i]]);
      }
    }
  }

  ghost predicate Enumerates<T(!new)>(order: seq<T>, elements: set<T>) {
    && (forall x :: x in order <==> x in elements)
    && forall i, j | 0 <= i < j < |order| :: order[i] != order[j]
  }

  function AfterSubscribe(subs: map<Key, uint32>, c: Client, key: Key, channel: Channel): (map<Key, uint32>, Client) {
    if key in subs then (subs, c) else (subs[key := NextId(c)], AfterAdd(c, key, channel))
  }

  function AfterUnsubscribe(subs: map<Key, uint32>, c: Client, key: Key): (map<Key, uint32>, Client) {
    if key in subs then (subs - {key}, AfterDrop(c, key, subs[key])) else (subs, c)
  }

  function AfterDropAll(c: Client, subs: map<Key, uint32>, order: seq<Key>): Client
    requires forall key | key in order :: key in subs
    decreases |order|
  {
    if |order| == 0 then c else AfterDropAll(AfterDrop(c, order[0], subs[order[0]]), subs, order[1..])
  }

  /** Whether the whole walk returns. */
  predicate DropsReturn(c: Client, subs: map<Key, uint32>, order: seq<Key>)
    requires forall key | key in order :: key in subs
    decreases |order|
  {
    order == []
    || (&& DropReturns(c, order[0], subs[order[0]])
        && DropsReturn(AfterDrop(c, order[0], subs[order[0]]), subs, order[1..]))
  }

  /** The channel is the last one of its key. */
  predicate Last(c: Client, key: Key, id: uint32) {
    key in c.channels && c.channels[key] - {id} == map[]
  }

  /** Dropping all channels of a queue returns if and only if a pump receives or none of them is the last of its key. */
  lemma {:induction false} DropsReturnExactly(c: Client, subs: map<Key, uint32>, order: seq<Key>)
    requires (forall key | key in order :: key in subs) && forall i, j | 0 <= i < j < |order| :: order[i] != order[j]
    ensures DropsReturn(c, subs, order) <==> c.receiving || forall key | key in order :: !Last(c, key, subs[key])
    decreases |order|
  {
    if order != [] {
      var key, rest := order[0], order[1..];
      var c' := AfterDrop(c, key, subs[key]);
      DropsReturnExactly(c', subs, rest);
      assert c'.receiving == c.receiving;
      forall k | k in rest
        ensures Last(c', k, subs[k]) <==> Last(c, k, subs[k])
      {
        var i :| 0 <= i < |rest| && rest[i] == k;
        assert order[i + 1] == k != key;
      }
      assert forall k :: k in order <==> k == key || k in rest;
    }
  }

  // ---- What the server knows ----

  /** The server's subscription set, as the messages of one connection build it up. */
  function Server(sent: seq<Message>): set<Key> {
    if |sent| == 0 then {}
    else
      var before := Server(sent[..|sent| - 1]);
      match sent[|sent| - 1]
      case Hello => {}
      case Subscribe(key) => before + {key}
      case Unsubscribe(key) => before - {key}
      case SetSubscriptions(keys) => set key | key in keys
  }

  /** The greetings have been answered since the hello. */
  predicate Greeted(sent: seq<Message>) {
    |sent| > 0
    && match sent[|sent| - 1]
       case Hello => false
       case SetSubscriptions(_) => true
       case _ => Greeted(sent[..|sent| - 1])
  }

  /** Past the greetings, the server's set is the registry's set of keys; no inner map is empty. */
  ghost predicate Mirrored(c: Client) {
    && (Greeted(c.sent) ==> Server(c.sent) == c.channels.Keys)
    && forall key | key in c.channels :: c.channels[key] != map[]
  }

  lemma SendEffect(c: Client, m: Message)
    ensures Send(c, m).sent[..|c.sent|] == c.sent
    ensures Send(c, m).sent[|c.sent|] == m
  {
  }

  /** The connection is the same one, and past its greetings if and only if it was. */
  predicate SameLink(c: Client, d: Client) {
    d.receiving == c.receiving && Greeted(d.sent) == Greeted(c.sent)
  }

  /** A message is sent, and the call needs a receiving pump for it, exactly if the registry has a new key. */
  lemma AddMirrored(c: Client, key: Key, channel: Channel)
    requires Mirrored(c)
    ensures var d := AfterAdd(c, key, channel);
            && Mirrored(d) && SameLink(c, d) && d.channels.Keys == c.channels.Keys + {key}
            && |d.sent| == |c.sent| + (if d.channels.Keys == c.channels.Keys then 0 else 1)
            && (AddReturns(c, key) <==> c.receiving || d.sent == c.sent)
  {
    SendEffect(c, Subscribe(key));
    var d := AfterAdd(c, key, channel);
    assert NextId(c) in d.channels[key];
    assert key in d.channels.Keys;
  }

  lemma DropMirrored(c: Client, key: Key, id: uint32)
    requires Mirrored(c)
    ensures var d := AfterDrop(c, key, id);
            && Mirrored(d) && SameLink(c, d)
            && |d.sent| == |c.sent| + (if d.channels.Keys == c.channels.Keys then 0 else 1)
            && (DropReturns(c, key, id) <==> c.receiving || d.sent == c.sent)
  {
    var d := AfterDrop(c, key, id);
    assert d.channels.Keys == c.channels.Keys || d.channels.Keys == c.channels.Keys - {key};
  }

  /** The states of the link: the five steps that are not calls of a queue. */
  datatype LinkStep = Connect | Introduce | Greet(order: seq<Key>) | Disconnect | Other

  function AfterLink(c: Client, step: LinkStep): Client {
    match step
    case Connect => c.(receiving := true, sent := [])
    case Introduce => if c.receiving then Send(c, Hello) else c
    case Greet(order) => if c.receiving then Send(c, SetSubscriptions(order)) else c
    case Disconnect => c.(receiving := false, sent := [])
    case Other => c
  }

  lemma LinkMirrored(c: Client, step: LinkStep)
    requires Mirrored(c) && (step.Greet? ==> Enumerates(step.order, c.channels.Keys))
    ensures Mirrored(AfterLink(c, step))
  {
  }

  /**
   From any client, in step with the server or not: a connection's hello makes the server forget, and the answer to its
   greetings tells it the whole registry.
   */
  lemma GreetingsInform(c: Client, order: seq<Key>)
    requires Enumerates(order, c.channels.Keys)
    ensures var connected := AfterLink(c, Connect);
            var hello := AfterLink(connected, Introduce);
            var greeted := AfterLink(hello, Greet(order));
            && connected.receiving && hello.receiving && greeted.receiving
            && |connected.sent| == 0 && |hello.sent| == 1 && |greeted.sent| == 2
            && !Greeted(hello.sent) && Server(hello.sent) == {}
            && Greeted(greeted.sent) && Server(greeted.sent) == c.channels.Keys
            && greeted.channels == c.channels && greeted.lastId == c.lastId
  {
    var connected := AfterLink(c, Connect);
    SendEffect(connected, Hello);
    SendEffect(AfterLink(connected, Introduce), SetSubscriptions(order));
  }

  /** Whenever they come, the greetings tell the server the whole registry. */
  lemma GreetInforms(c: Client, order: seq<Key>)
    requires c.receiving && Enumerates(order, c.channels.Keys)
    ensures var d := AfterLink(c, Greet(order));
            && d.receiving && d.channels == c.channels && Greeted(d.sent) && Server(d.sent) == c.channels.Keys
            && |d.sent| == |c.sent| + 1
  {
    SendEffect(c, SetSubscriptions(order));
  }

  /** No link event touches the registry; a lost connection takes no messages and has taken none. */
  lemma LinkKeepsRegistry(c: Client, step: LinkStep)
    ensures var d := AfterLink(c, step);
            && d.channels == c.channels && d.lastId == c.lastId
            && (d.receiving <==> step == Connect || (c.receiving && step != Disconnect))
            && (step.Connect? || step.Disconnect? ==> d.sent == [])
  {
  }

  // ---- The registry and the queues ----

  /** The subscriptions of each queue, by channel. */
  type Queues = map<Channel, map<Key, uint32>>

  predicate Entry(c: Client, key: Key, id: uint32, channel: Channel) {
    key in c.channels && id in c.channels[key] && c.channels[key][id] == channel
  }

  predicate Holds(queues: Queues, key: Key, id: uint32, channel: Channel) {
    channel in queues && key in queues[channel] && queues[channel][key] == id
  }

  /** The registry holds exactly the queues' subscriptions. */
  ghost predicate Registered(c: Client, queues: Queues) {
    && (forall key | key in c.channels :: c.channels[key] != map[])
    && forall key, id, channel :: Entry(c, key, id, channel) <==> Holds(queues, key, id, channel)
  }

  lemma SubscribedEntry(c: Client, queues: Queues, channel: Channel, key: Key, k: Key, i: uint32, ch: Channel)
    requires Registered(c, queues) && channel in queues && key !in queues[channel] && NextId(c) !in Entries(c, key)
    ensures Entry(AfterAdd(c, key, channel), k, i, ch)
            <==> Holds(queues[channel := queues[channel][key := NextId(c)]], k, i, ch)
  {
    assert Entry(c, k, i, ch) <==> Holds(queues, k, i, ch);
    assert AfterAdd(c, key, channel).channels == c.channels[key := Entries(c, key)[NextId(c) := channel]];
    if k == key {
      assert Entry(c, key, i, channel) <==> Holds(queues, key, i, channel);
    }
  }

  /** Subscribing keeps the registry exact if and only if the next id is not taken under that key. */
  lemma SubscribeRegistered(c: Client, queues: Queues, channel: Channel, key: Key)
    requires Registered(c, queues) && channel in queues
    ensures var (subs, c') := AfterSubscribe(queues[channel], c, key, channel);
            Registered(c', queues[channel := subs]) <==> key in queues[channel] || NextId(c) !in Entries(c, key)
  {
    var id := NextId(c);
    var (subs, c') := AfterSubscribe(queues[channel], c, key, channel);
    var queues' := queues[channel := subs];
    if key in queues[channel] {
      assert queues' == queues;
    } else if id in Entries(c, key) {
      var other := c.channels[key][id];
      assert Entry(c, key, id, other) && Holds(queues, key, id, other);
      assert Holds(queues', key, id, other) && !Entry(c', key, id, other);
    } else {
      assert id in c'.channels[key];
      assert c' == AfterAdd(c, key, channel) && subs == queues[channel][key := id];
      forall k, i, ch
        ensures Entry(c', k, i, ch) <==> Holds(queues', k, i, ch)
      {
        SubscribedEntry(c, queues, channel, key, k, i, ch);
      }
    }
  }

  lemma DroppedEntry(c: Client, queues: Queues, channel: Channel, key: Key, k: Key, i: uint32, ch: Channel)
    requires Registered(c, queues) && channel in queues && key in queues[channel]
    ensures Entry(AfterDrop(c, key, queues[channel][key]), k, i, ch)
            <==> Holds(queues[channel := queues[channel] - {key}], k, i, ch)
  {
    var id := queues[channel][key];
    assert Entry(c, k, i, ch) <==> Holds(queues, k, i, ch);
    assert Entry(c, key, id, channel) <==> Holds(queues, key, id, channel);
    assert Entry(c, key, i, channel) <==> Holds(queues, key, i, channel);
    if k == key && i in c.channels[key] - {id} {
      assert i in AfterDrop(c, key, id).channels[key];
    }
  }

  lemma UnsubscribeRegistered(c: Client, queues: Queues, channel: Channel, key: Key)
    requires Registered(c, queues) && channel in queues
    ensures var (subs, c') := AfterUnsubscribe(queues[channel], c, key);
            Registered(c', queues[channel := subs])
  {
    var (subs, c') := AfterUnsubscribe(queues[channel], c, key);
    var queues' := queues[channel := subs];
    if key in queues[channel] {
      var id := queues[channel][key];
      assert Entry(c, key, id, channel);
      forall k, i, ch
        ensures Entry(c', k, i, ch) <==> Holds(queues', k, i, ch)
      {
        DroppedEntry(c, queues, channel, key, k, i, ch);
      }
    } else {
      assert queues' == queues;
    }
  }

  /** Below wrap-around every id in use is at most the last one given out, so the next is never taken. */
  predicate Bounded(c: Client) {
    forall key, id | key in c.channels && id in c.channels[key] :: id <= c.lastId
  }

  lemma BelowWrapAround(c: Client, key: Key, channel: Channel)
    requires Bounded(c) && c.lastId as int < TWO_32 - 1
    ensures NextId(c) !in Entries(c, key) && Bounded(AfterAdd(c, key, channel))
    ensures AfterAdd(c, key, channel).lastId as int == c.lastId as int + 1
  {
  }

  /** The id given out `more` calls after this one. */
  function LaterId(id: uint32, more: nat): uint32
    decreases more
  {
    if more == 0 then id else LaterId(NextId(Client(map[], id, false, [])), more - 1)
  }

  /** Ids are given out in order, and come again after 2^32 of them. */
  lemma {:induction false} IdsWrapAround(id: uint32, more: nat)
    ensures LaterId(id, more) as int == (id as int + more) % TWO_32
    decreases more
  {
    if more > 0 {
      IdsWrapAround(NextId(Client(map[], id, false, [])), more - 1);
      WrapOnce(id as int, more - 1);
    }
  }

  lemma WrapOnce(x: nat, y: nat)
    ensures ((x + 1) % TWO_32 + y) % TWO_32 == (x + (y + 1)) % TWO_32
  {
    var q := (x + 1) / TWO_32;
    assert x + 1 + y == ((x + 1) % TWO_32 + y) + q * TWO_32;
  }

  lemma DropBounded(c: Client, key: Key, id: uint32)
    requires Bounded(c)
    ensures Bounded(AfterDrop(c, key, id))
  {
  }

  /** A queue's Subscribe or Unsubscribe. */
  datatype QueueOp = Enter(channel: Channel, key: Key) | Leave(channel: Channel, key: Key)

  function AfterOps(c: Client, queues: Queues, ops: seq<QueueOp>): (Client, Queues)
    requires forall op | op in ops :: op.channel in queues
    decreases |ops|
  {
    if |ops| == 0 then (c, queues)
    else
      var op := ops[0];
      var (subs, c') := if op.Enter? then AfterSubscribe(queues[op.channel], c, op.key, op.channel)
                        else AfterUnsubscribe(queues[op.channel], c, op.key);
      AfterOps(c', queues[op.channel := subs], ops[1..])
  }

  /** Any run of any queues that stays below wrap-around keeps the registry exact and its ids below the counter. */
  lemma {:induction false} OpsRegistered(c: Client, queues: Queues, ops: seq<QueueOp>)
    requires (forall op | op in ops :: op.channel in queues) && c.lastId as int + |ops| < TWO_32
    requires Registered(c, queues) && Bounded(c)
    ensures var (c', queues') := AfterOps(c, queues, ops);
            Registered(c', queues') && Bounded(c') && queues'.Keys == queues.Keys
    decreases |ops|
  {
    if ops != [] {
      var op := ops[0];
      if op.Enter? {
        BelowWrapAround(c, op.key, op.channel);
        SubscribeRegistered(c, queues, op.channel, op.key);
        var (subs, c') := AfterSubscribe(queues[op.channel], c, op.key, op.channel);
        OpsRegistered(c', queues[op.channel := subs], ops[1..]);
      } else {
        UnsubscribeRegistered(c, queues, op.channel, op.key);
        var (subs, c') := AfterUnsubscribe(queues[op.channel], c, op.key);
        if op.key in queues[op.channel] {
          DropBounded(c, op.key, queues[op.channel][op.key]);
        }
        OpsRegistered(c', queues[op.channel := subs], ops[1..]);
      }
    }
  }

  /** Subscribe then Unsubscribe gives the registry back, with any other queues present, exactly if the id was free. */
  lemma SubscribeThenUnsubscribe(c: Client, subs: map<Key, uint32>, channel: Channel, key: Key)
    requires key !in subs && forall k | k in c.channels :: c.channels[k] != map[]
    ensures var (subs', c') := AfterSubscribe(subs, c, key, channel);
            var (subs'', c'') := AfterUnsubscribe(subs', c', key);
            && subs'' == subs
            && (c''.channels == c.channels <==> NextId(c) !in Entries(c, key))
  {
    var id, entries := NextId(c), Entries(c, key);
    var (subs', c') := AfterSubscribe(subs, c, key, channel);
    assert subs' - {key} == subs;
    if id !in entries {
      assert entries[id := channel] - {id} == entries;
    } else {
      assert id in c.channels[key];
    }
    var c'' := AfterDrop(c', key, id);
    assert key !in c.channels ==> c'.channels - {key} == c.channels;
  }

  /** The server is told of each key whose last channel goes, in order. */
  function Announced(c: Client, subs: map<Key, uint32>, order: seq<Key>): seq<Message>
    requires forall key | key in order :: key in subs
    decreases |order|
  {
    if |order| == 0 then []
    else (if Last(c, order[0], subs[order[0]]) then [Unsubscribe(order[0])] else []) + Announced(c, subs, order[1..])
  }

  /** What dropping all of a queue's channels tells the server: of the keys that had no other channel. */
  lemma {:induction false} DropAllInforms(c: Client, subs: map<Key, uint32>, order: seq<Key>)
    requires (forall key | key in order :: key in subs) && forall i, j | 0 <= i < j < |order| :: order[i] != order[j]
    requires Mirrored(c)
    ensures var d := AfterDropAll(c, subs, order);
            && Mirrored(d) && SameLink(c, d)
            && d.sent == c.sent + Announced(c, subs, order)
    decreases |order|
  {
    if order == [] {
      assert c.sent + [] == c.sent;
    } else {
      var key, rest := order[0], order[1..];
      var c' := AfterDrop(c, key, subs[key]);
      DropMirrored(c, key, subs[key]);
      DropAnnounces(c, key, subs[key]);
      DropAllInforms(c', subs, rest);
      AnnouncedAlike(c, c', subs, rest, key);
    }
  }

  lemma DropAnnounces(c: Client, key: Key, id: uint32)
    ensures var d := AfterDrop(c, key, id);
            && d.sent == c.sent + (if Last(c, key, id) then [Unsubscribe(key)] else [])
            && d.channels - {key} == c.channels - {key}
  {
  }

  lemma {:induction false} AnnouncedAlike(c: Client, d: Client, subs: map<Key, uint32>, order: seq<Key>, key: Key)
    requires (forall k | k in order :: k in subs) && key !in order
    requires c.channels - {key} == d.channels - {key}
    ensures Announced(d, subs, order) == Announced(c, subs, order)
    decreases |order|
  {
    if order != [] {
      assert order[0] in c.channels <==> order[0] in c.channels - {key};
      assert order[0] in d.channels <==> order[0] in d.channels - {key};
      AnnouncedAlike(c, d, subs, order[1..], key);
    }
  }

  /** Dropping all of a queue's channels is right for the queue's end, and for nothing else. */
  lemma DropAllRegistered(c: Client, queues: Queues, channel: Channel, order: seq<Key>)
    requires Registered(c, queues) && channel in queues && Enumerates(order, queues[channel].Keys)
    ensures Registered(AfterDropAll(c, queues[channel], order), queues - {channel})
    ensures Registered(AfterDropAll(c, queues[channel], order), queues) <==> queues[channel] == map[]
  {
    DropAllEmpties(c, queues, channel, queues[channel], order);
    var c', none := AfterDropAll(c, queues[channel], order), queues[channel := map[]];
    forall k, i, ch
      ensures Holds(none, k, i, ch) <==> Holds(queues - {channel}, k, i, ch)
    {
    }
    assert Registered(c', queues - {channel}) by {
      forall k, i, ch
        ensures Entry(c', k, i, ch) <==> Holds(queues - {channel}, k, i, ch)
      {
        assert Entry(c', k, i, ch) <==> Holds(none, k, i, ch);
      }
    }
    if queues[channel] == map[] {
      assert none == queues;
    } else {
      var key :| key in queues[channel];
      assert Holds(queues, key, queues[channel][key], channel);
      assert !Holds(none, key, queues[channel][key], channel);
    }
  }

  lemma {:induction false} DropAllEmpties(c: Client, queues: Queues, channel: Channel, subs: map<Key, uint32>,
          order: seq<Key>)
    requires Registered(c, queues) && channel in queues && Enumerates(order, queues[channel].Keys)
    requires queues[channel].Keys <= subs.Keys
            && forall key | key in queues[channel] :: subs[key] == queues[channel][key]
    ensures Registered(AfterDropAll(c, subs, order), queues[channel := map[]])
    decreases |order|
  {
    if order == [] {
      assert queues[channel] == map[];
      assert queues[channel := map[]] == queues;
    } else {
      var key := order[0];
      assert key in order;
      UnsubscribeRegistered(c, queues, channel, key);
      var queues' := queues[channel := queues[channel] - {key}];
      EnumeratesRest(order, queues[channel].Keys);
      assert queues'[channel].Keys == queues[channel].Keys - {key};
      DropAllEmpties(AfterDrop(c, key, subs[key]), queues', channel, subs, order[1..]);
      assert queues'[channel := map[]] == queues[channel := map[]];
    }
  }

  lemma EnumeratesRest<T(!new)>(order: seq<T>, elements: set<T>)
    requires order != [] && Enumerates(order, elements)
    ensures Enumerates(order[1..], elements - {order[0]})
  {
  }
}
