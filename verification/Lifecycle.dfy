/**
 The websocket client's life: the run loop with its write pump, the read pumps and Stop, in every interleaving
 (telephonist/wsclient.go). Each handler and each check of the state is one step.
 */
module Lifecycle {

  datatype ClientState = Stopped | Disconnected | Connecting | Preparing | Connected

  datatype Channel = Nil | Open | Closed

  /**
   `closes[i]` counts how often the i-th dialled connection was closed; `hasConn` says that conn is the last of them.
   */
  datatype Client = Client(state: ClientState, sendMessages: Channel, hasConn: bool, closes: seq<nat>)

  const NEW_CLIENT: Client := Client(Stopped, Nil, false, [])

  predicate Live(state: ClientState) {
    state == Preparing || state == Connected
  }

  function AfterDisconnect(c: Client): Client {
    if Live(c.state) && |c.closes| > 0 then
      c.(state := Disconnected, closes := c.closes[|c.closes| - 1 := c.closes[|c.closes| - 1] + 1])
    else c
  }

  // ---- The object ----

  class WSClient {
    var state: ClientState
    var sendMessages: Channel
    var hasConn: bool
    var closes: seq<nat>

    ghost function Value(): Client
      reads this
    {
      Client(state, sendMessages, hasConn, closes)
    }

    constructor ()
      ensures Value() == NEW_CLIENT
    {
      state, sendMessages, hasConn, closes := Stopped, Nil, false, [];
    }

    /** A failed check ends the process. */
    method TransitionState(expected: ClientState, next: ClientState) returns (fatal: bool)
      modifies this`state
      ensures fatal <==> old(state) != expected
      ensures state == if fatal then old(state) else next
    {
      fatal := state != expected;
      if !fatal {
        state := next;
      }
    }

    /** connect and connectWithTicket without interference: three run loop steps in a row. */
    method Connect(ticket: bool, dialled: bool) returns (fatal: bool, failed: bool)
      modifies this
      ensures fatal <==> old(state) != Disconnected
      ensures failed <==> fatal || !ticket || !dialled
      ensures !fatal ==>
                var w := Alone(old(Value()), Entry);
                var w1 := Next(Next(w, RunLoop(true)), RunLoop(ticket));
                Value() == (if ticket then Next(w1, RunLoop(dialled)) else w1).client
    {
      failed := true;
      fatal := TransitionState(Disconnected, Connecting);
      if fatal {
        return;
      }
      if !ticket {
        fatal := TransitionState(Connecting, Disconnected);
        return;
      }
      sendMessages := Open;
      hasConn := dialled;
      if !dialled {
        fatal := TransitionState(Connecting, Disconnected);
        return;
      }
      closes := closes + [0];
      fatal := TransitionState(Connecting, Preparing);
      failed := false;
    }

    method OnDisconnect()
      requires Live(state) ==> |closes| > 0
      modifies this
      ensures Value() == AfterDisconnect(old(Value()))
    {
      if state == Connected || state == Preparing {
        closes := closes[|closes| - 1 := closes[|closes| - 1] + 1];
        state := Disconnected;
      }
    }

    /** One read pump's handling of the message, up to the hello. */
    method OnIntroduction() returns (sendsHello: bool)
      requires hasConn
      modifies this`state
      ensures sendsHello <==> old(state) == Preparing
      ensures state == if sendsHello then Connected else old(state)
      ensures Value() == AfterRead(Alone(old(Value()), Pumping).(readers := 1), Introduction).client
    {
      sendsHello := state == Preparing;
      if sendsHello {
        state := Connected;
      }
    }

    method Stop() returns (panicked: bool)
      modifies this
      ensures panicked <==> AfterStop(Alone(old(Value()), Pumping)).health == Panicked
      ensures Value() == AfterStop(Alone(old(Value()), Pumping)).client
    {
      panicked := false;
      if state == Stopped {
        return;
      }
      state := Stopped;
      panicked := sendMessages != Open;
      sendMessages := Closed;
    }
  }

  // ---- The transition system ----

  /** Where the run loop stands; while it is Pumping it is the write pump. */
  datatype Place =
    | NotStarted | LoopHead | Entry | Ticket | Dial | Dialled | Pumping | PumpDone | Sleeping | Exited

  datatype Health = Running | Fatal | Panicked

  /**
   `readers` read pumps wait for a message, `handling` handle one, `leaving` have left their loop and have onDisconnect
   before them, `waiting` wait for the current channel to take what they send. All use the client's current connection.
   `stoppedFrom` is the state that Stop replaced.
   */
  datatype World = World(client: Client, place: Place, readers: nat, handling: nat, leaving: nat, waiting: nat,
                         stoppedFrom: ClientState, health: Health)

  /** A client without read pumps. */
  function Alone(client: Client, place: Place): World {
    World(client, place, 0, 0, 0, 0, Stopped, Running)
  }

  const INITIAL: World := Alone(NEW_CLIENT, NotStarted)

  /** A stale message handled again counts as what it was. */
  datatype Incoming = Introduction | OtherMessage

  /**
   `ok`: the ticket is issued, the dial succeeds, or the write pump's writes do. The handling of a message sends any
   number of messages to the server: a hello, the answer to the greetings, the subscriptions that tasks bring with them.
   */
  datatype Step =
    | RunLoop(ok: bool) | Stop | TakeMessage
    | Read(message: Incoming) | Send | HandlerReturns | ReadCloses | ReaderLeaves

  /** transitionState in the run loop. */
  function Check(w: World, expected: ClientState, state: ClientState, place: Place): World {
    if w.client.state != expected then w.(health := Fatal)
    else w.(client := w.client.(state := state), place := place)
  }

  function AfterRunLoop(w: World, ok: bool): World {
    match w.place
    case NotStarted => Check(w, Stopped, Disconnected, LoopHead)
    case LoopHead => w.(place := if w.client.state == Stopped then Exited else Entry)
    case Entry => Check(w, Disconnected, Connecting, Ticket)
    case Ticket =>
      if ok then Check(w.(client := w.client.(sendMessages := Open), waiting := 0), Connecting, Connecting, Dial)
      else Check(w, Connecting, Disconnected, Sleeping)
    case Dial =>
      if ok then
        Check(w.(client := w.client.(hasConn := true, closes := w.client.closes + [0])), Connecting, Preparing, Dialled)
      else Check(w.(client := w.client.(hasConn := false)), Connecting, Disconnected, Sleeping)
    case Dialled => Check(w.(readers := w.readers + 1), Preparing, Preparing, Pumping)
    case Pumping => if ok && w.client.sendMessages != Closed then w else w.(place := PumpDone)
    case PumpDone => w.(client := AfterDisconnect(w.client), place := Sleeping)
    case Sleeping => w.(place := LoopHead)
    case Exited => w
  }

  /** A handler sends: the write pump takes the message, or the handler waits; on a closed channel it panics. */
  function AfterSend(w: World): World
    requires w.handling > 0
  {
    if w.client.sendMessages == Closed then w.(health := Panicked)
    else if w.place == Pumping then w
    else w.(handling := w.handling - 1, waiting := w.waiting + 1)
  }

  function AfterRead(w: World, message: Incoming): World
    requires w.readers > 0
  {
    if !w.client.hasConn then w.(health := Panicked)
    else
      var w' := w.(readers := w.readers - 1, handling := w.handling + 1);
      if message == Introduction && w.client.state == Preparing then w'.(client := w.client.(state := Connected))
        else w'
  }

  function AfterStop(w: World): World {
    if w.client.state == Stopped then w
    else
      var w' := w.(client := w.client.(state := Stopped, sendMessages := Closed), stoppedFrom := w.client.state);
      if w.client.sendMessages != Open || w.waiting > 0 then w'.(health := Panicked) else w'
  }

  function Next(w: World, step: Step): World {
    if w.health != Running then w
    else
      match step
      case RunLoop(ok) => AfterRunLoop(w, ok)
      case Read(message) => if w.readers > 0 then AfterRead(w, message) else w
      case Send => if w.handling > 0 then AfterSend(w) else w
      case HandlerReturns => if w.handling > 0 then w.(readers := w.readers + 1, handling := w.handling - 1) else w
      case ReadCloses => if w.readers > 0 then w.(readers := w.readers - 1, leaving := w.leaving + 1) else w
      case ReaderLeaves => if w.leaving > 0 then w.(client := AfterDisconnect(w.client), leaving := w.leaving - 1)
        else w
      case TakeMessage =>
        if w.place == Pumping && w.waiting > 0 then w.(handling := w.handling + 1, waiting := w.waiting - 1) else w
      case Stop => AfterStop(w)
  }

  function Run(w: World, steps: seq<Step>): World
    decreases |steps|
  {
    if |steps| == 0 then w else Run(Next(w, steps[0]), steps[1..])
  }

  // ---- What holds in every reachable state ----

  /** The states the client can be in at each place of the run loop. */
  predicate StateFits(state: ClientState, place: Place) {
    match place
    case NotStarted | Exited => state == Stopped
    case Sleeping | LoopHead | Entry => state == Disconnected || state == Stopped
    case Ticket | Dial => state == Connecting || state == Stopped
    case Dialled | Pumping | PumpDone => state != Connecting
  }

  /**
   Every connection but the last has been closed exactly once; the last at most once, and it is open exactly while the
   client is connected, or if Stop came while it was.
   */
  predicate ClosedOnce(closes: seq<nat>, state: ClientState, stoppedFrom: ClientState) {
    && (forall i | 0 <= i < |closes| - 1 :: closes[i] == 1)
    && (|closes| > 0 ==>
          closes[|closes| - 1] == if Live(state) || (state == Stopped && Live(stoppedFrom)) then 0 else 1)
  }

  /** Every read pump has ended, or waits for a channel that is gone. */
  predicate NoPumps(w: World) {
    w.readers == 0 && w.handling == 0 && w.leaving == 0 && w.waiting == 0
  }

  predicate Inv(w: World) {
    var c := w.client;
    && StateFits(c.state, w.place)
    && ClosedOnce(c.closes, c.state, w.stoppedFrom)
    && (Live(c.state) || !NoPumps(w) || Live(w.stoppedFrom) ==> |c.closes| > 0)
    && (Live(c.state) ==> c.hasConn)
    && (w.place == NotStarted ==> w == INITIAL)
    && (w.place != NotStarted ==> (c.state == Stopped <==> c.sendMessages == Closed))
    && (w.place in {Dial, Dialled, Pumping, PumpDone} || |c.closes| > 0 ==> c.sendMessages != Nil)
    && (c.state != Stopped ==> w.stoppedFrom == Stopped)
    && (w.waiting > 0 ==> c.sendMessages == Open)
    && (w.place == Dialled && |c.closes| == 1 ==> NoPumps(w))
  }

  lemma RunLoopInv(w: World, ok: bool)
    requires w.health == Running && Inv(w) && AfterRunLoop(w, ok).health == Running
    ensures Inv(AfterRunLoop(w, ok))
  {
    if w.place in {Entry, Ticket, Dial} {
      ConnectInv(w, ok);
    } else {
      PumpInv(w, ok);
    }
  }

  lemma ConnectInv(w: World, ok: bool)
    requires w.health == Running && Inv(w) && AfterRunLoop(w, ok).health == Running && w.place in {Entry, Ticket, Dial}
    ensures Inv(AfterRunLoop(w, ok))
  {
  }

  lemma PumpInv(w: World, ok: bool)
    requires w.health == Running && Inv(w) && AfterRunLoop(w, ok).health == Running && w.place !in {Entry, Ticket, Dial}
    ensures Inv(AfterRunLoop(w, ok))
  {
  }

  lemma ReadInv(w: World, message: Incoming)
    requires w.health == Running && Inv(w) && w.readers > 0 && AfterRead(w, message).health == Running
    ensures Inv(AfterRead(w, message))
  {
  }

  lemma StepInv(w: World, step: Step)
    requires w.health == Running && Inv(w) && Next(w, step).health == Running
    ensures Inv(Next(w, step))
  {
    match step
    case RunLoop(ok) => RunLoopInv(w, ok);
    case Read(message) => if w.readers > 0 { ReadInv(w, message); }
    case _ =>
  }

  /**
   In every interleaving that has not ended the process, connections are closed at most once, and all but the last
   exactly once.
   */
  lemma {:induction false} RunInv(w: World, steps: seq<Step>)
    requires w.health == Running && Inv(w) && Run(w, steps).health == Running
    ensures Inv(Run(w, steps))
    decreases |steps|
  {
    if steps != [] {
      SurvivesStep(w, steps);
      StepInv(w, steps[0]);
      RunInv(Next(w, steps[0]), steps[1..]);
    }
  }

  lemma {:induction false} CrashIsFinal(w: World, steps: seq<Step>)
    requires w.health != Running
    ensures Run(w, steps) == w
    decreases |steps|
  {
    if steps != [] {
      CrashIsFinal(w, steps[1..]);
    }
  }

  lemma SurvivesStep(w: World, steps: seq<Step>)
    requires steps != [] && Run(w, steps).health == Running
    ensures Next(w, steps[0]).health == Running
  {
    if Next(w, steps[0]).health != Running {
      CrashIsFinal(Next(w, steps[0]), steps[1..]);
    }
  }

  // ---- Which step leads to which state ----

  /** The client becomes connected by reading an introduction while it prepares, wherever the run loop stands. */
  lemma BecomesConnected(w: World, step: Step)
    requires w.health == Running && Inv(w) && Next(w, step).health == Running && w.client.state != Connected
    ensures Next(w, step).client.state == Connected
            <==> step == Read(Introduction) && w.readers > 0 && w.client.state == Preparing
  {
  }

  /** It stops being connected or preparing for one by Stop, and when a pump ends. */
  lemma LeavesConnection(w: World, step: Step)
    requires w.health == Running && Inv(w) && Next(w, step).health == Running && Live(w.client.state)
    ensures var state, ended := Next(w, step).client.state,
                                (step.RunLoop? && w.place == PumpDone) || (step.ReaderLeaves? && w.leaving > 0);
            && (state == Stopped <==> step == Stop)
            && (state == Disconnected <==> ended)
            && (!ended && step != Stop ==> Live(state))
            && (w.client.state == Connected && Live(state) ==> state == Connected)
  {
  }

  /** The run loop alone leads from stopped to preparing, one state at a time. */
  lemma RunLoopLeads(w: World, step: Step)
    requires w.health == Running && Inv(w) && Next(w, step).health == Running && !Live(w.client.state)
    ensures var before, after := w.client.state, Next(w, step).client.state;
            before != after <==>
              || (before == Stopped && w.place == NotStarted && step.RunLoop? && after == Disconnected)
              || (before == Disconnected && w.place == Entry && step.RunLoop? && after == Connecting)
              || (before == Connecting && w.place == Ticket && step == RunLoop(false) && after == Disconnected)
              || (before == Connecting && w.place == Dial && step == RunLoop(false) && after == Disconnected)
              || (before == Connecting && w.place == Dial && step == RunLoop(true) && after == Preparing)
              || (before != Stopped && step == Stop && after == Stopped)
  {
  }

  /** The run loop tries again only after a pause, which follows every lost connection and every failed attempt. */
  lemma PausesBetween(w: World, step: Step)
    requires w.health == Running && Inv(w) && Next(w, step).health == Running
    ensures step.RunLoop? ==>
              var place := Next(w, step).place;
              && (place == LoopHead <==> w.place in {NotStarted, Sleeping})
              && (place == Sleeping <==> w.place == PumpDone || (w.place in {Ticket, Dial} && !step.ok))
              && (place == Exited <==> w.place in {LoopHead, Exited} && w.client.state == Stopped)
    ensures !step.RunLoop? ==> Next(w, step).place == w.place
  {
  }

  /** After a failed dial there is no connection: a read pump that is still there panics. */
  lemma FailedDialPanics(w: World, message: Incoming)
    requires w.health == Running && Inv(w) && w.place == Dial && w.client.state == Connecting && w.readers > 0
    ensures Next(Next(w, RunLoop(false)), Read(message)).health == Panicked
    ensures Next(Next(w, RunLoop(true)), Read(message)).health == Running
  {
  }

  /** From the start, undisturbed: connecting, the write pump, one introduction, and the client is connected. */
  lemma ReachesConnected()
    ensures var w := Run(Next(INITIAL, RunLoop(true)), CONNECT + [RunLoop(true), Read(Introduction)]);
            && w.health == Running && w.place == Pumping && w.client == Client(Connected, Open, true, [0])
            && w.handling == 1 && Next(w, Send) == w
  {
    var w0 := Next(INITIAL, RunLoop(true));
    RunAppend(w0, CONNECT, [RunLoop(true), Read(Introduction)]);
    Connects(w0);
  }

  // ---- Read pumps ----

  /** The read pumps that have not ended. */
  function Pumps(w: World): nat {
    w.readers + w.handling + w.leaving + w.waiting
  }

  /** The run loop starts a read pump. */
  function StartedBy(w: World, step: Step): nat {
    if step.RunLoop? && w.place == Dialled then 1 else 0
  }

  /** A read pump leaves; or a new channel leaves those that wait for the old one waiting for ever. */
  function EndedBy(w: World, step: Step): nat {
    if step.ReaderLeaves? && w.leaving > 0 then 1
    else if step == RunLoop(true) && w.place == Ticket then w.waiting
    else 0
  }

  /** In between a read pump passes from stage to stage. */
  lemma StepPumps(w: World, step: Step)
    requires w.health == Running && Next(w, step).health == Running
    ensures Pumps(Next(w, step)) + EndedBy(w, step) == Pumps(w) + StartedBy(w, step)
  {
    match step
    case RunLoop(ok) => RunLoopPumps(w, ok);
    case Read(message) => assert Pumps(Next(w, step)) == Pumps(w);
    case _ =>
  }

  lemma RunLoopPumps(w: World, ok: bool)
    requires w.health == Running && Next(w, RunLoop(ok)).health == Running
    ensures Pumps(Next(w, RunLoop(ok))) + EndedBy(w, RunLoop(ok)) == Pumps(w) + StartedBy(w, RunLoop(ok))
  {
  }

  function Started(w: World, steps: seq<Step>): nat
    decreases |steps|
  {
    if |steps| == 0 then 0 else StartedBy(w, steps[0]) + Started(Next(w, steps[0]), steps[1..])
  }

  function Ended(w: World, steps: seq<Step>): nat
    decreases |steps|
  {
    if |steps| == 0 then 0 else EndedBy(w, steps[0]) + Ended(Next(w, steps[0]), steps[1..])
  }

  /** Over whole runs: the read pumps that were started are those that are there, have left or wait for ever. */
  lemma {:induction false} PumpsAreConserved(w: World, steps: seq<Step>)
    requires Run(w, steps).health == Running
    ensures Pumps(Run(w, steps)) + Ended(w, steps) == Pumps(w) + Started(w, steps)
    decreases |steps|
  {
    if steps != [] {
      var step, rest, r := steps[0], steps[1..], Next(w, steps[0]);
      SurvivesStep(w, steps);
      StepPumps(w, step);
      PumpsAreConserved(r, rest);
      OneStep(w, steps, step, rest, r);
    }
  }

  lemma OneStep(w: World, steps: seq<Step>, step: Step, rest: seq<Step>, r: World)
    requires steps != [] && step == steps[0] && rest == steps[1..] && r == Next(w, step)
    ensures Run(w, steps) == Run(r, rest)
    ensures Started(w, steps) == StartedBy(w, step) + Started(r, rest)
    ensures Ended(w, steps) == EndedBy(w, step) + Ended(r, rest)
  {
  }

  /** A read pump that sees the connection close closes it on this side too, if no other pump has. */
  lemma LostConnectionIsClosed(w: World)
    requires w.health == Running && Inv(w) && w.readers > 0 && Live(w.client.state)
    ensures var r := Run(w, [ReadCloses, ReaderLeaves]);
            && r.health == Running && r.client.state == Disconnected && r.readers == w.readers - 1
            && |r.client.closes| > 0 && (forall i | 0 <= i < |r.client.closes| :: r.client.closes[i] == 1)
            && Next(Next(r, ReadCloses), ReaderLeaves).client == r.client
  {
    assert [ReadCloses, ReaderLeaves][1..] == [ReaderLeaves] && [ReaderLeaves][1..] == [];
    StepInv(w, ReadCloses);
    StepInv(Next(w, ReadCloses), ReaderLeaves);
  }

  /** A message is read, and its handler sends and returns, without a trace if the write pump runs. */
  lemma HandlingReturns(w: World, message: Incoming)
    requires w.health == Running && Inv(w) && w.readers > 0 && w.client.hasConn && w.place == Pumping
    requires w.client.state == Connected || (w.client.state == Preparing && message == OtherMessage)
    ensures Run(w, [Read(message), Send, HandlerReturns]) == w
  {
    assert [Read(message), Send, HandlerReturns][1..] == [Send, HandlerReturns];
    assert [Send, HandlerReturns][1..] == [HandlerReturns] && [HandlerReturns][1..] == [];
  }

  /** A handler's send returns at once if and only if the write pump runs. */
  lemma SendWaits(w: World)
    requires w.health == Running && Inv(w) && w.handling > 0 && w.client.state != Stopped
    ensures if w.place == Pumping then Next(w, Send) == w
            else Next(w, Send) == w.(handling := w.handling - 1, waiting := w.waiting + 1)
  {
  }

  /** A handler that sends while no write pump runs waits, and goes on when the next one takes its message. */
  lemma WaitingHandlerIsServed(w: World)
    requires w.health == Running && Inv(w) && w.handling > 0 && w.place == Dialled && w.client.state == Preparing
    ensures var r := Next(w, Send);
            && r.waiting == w.waiting + 1 && Next(r, TakeMessage) == r
            && Next(Next(r, RunLoop(true)), TakeMessage)
               == w.(place := Pumping, readers := w.readers + 1)
  {
  }

  // ---- Stopping ----

  lemma StepKeepsStopped(w: World, step: Step)
    requires w.health == Running && Inv(w) && w.place != NotStarted && w.client.state == Stopped
    requires Next(w, step).health == Running
    ensures Next(w, step).client == w.client && Next(w, step).stoppedFrom == w.stoppedFrom
    ensures Next(w, step).place != NotStarted
  {
  }

  /**
   Once stopped, nothing about the client changes any more: no pump overwrites Stopped, no connection is dialled or
   closed.
   */
  lemma {:induction false} StoppedIsFinal(w: World, steps: seq<Step>)
    requires w.health == Running && Inv(w) && w.place != NotStarted && w.client.state == Stopped
    requires Run(w, steps).health == Running
    ensures Run(w, steps).client == w.client && Run(w, steps).stoppedFrom == w.stoppedFrom
    decreases |steps|
  {
    if steps != [] {
      SurvivesStep(w, steps);
      StepInv(w, steps[0]);
      StepKeepsStopped(w, steps[0]);
      StoppedIsFinal(Next(w, steps[0]), steps[1..]);
    }
  }

  /**
   When the run loop has ended, every dialled connection has been closed exactly once, if and only if Stop did not come
   while the client was connected; if it did, the last connection is never closed.
   */
  lemma ClosedWhenExited(steps: seq<Step>)
    requires var w := Run(INITIAL, steps); w.health == Running && w.place == Exited
    ensures var w := Run(INITIAL, steps);
            (forall i | 0 <= i < |w.client.closes| :: w.client.closes[i] == 1) <==> !Live(w.stoppedFrom)
  {
    RunInv(INITIAL, steps);
    var w := Run(INITIAL, steps);
    if |w.client.closes| > 0 {
      assert w.client.closes[|w.client.closes| - 1] == if Live(w.stoppedFrom) then 0 else 1;
    }
  }

  /** A connection that is open when Stop comes stays open in every continuation. */
  lemma StopLeaksConnection(w: World, steps: seq<Step>)
    requires w.health == Running && Inv(w) && Live(w.client.state)
    requires Run(AfterStop(w), steps).health == Running
    ensures var r := Run(AfterStop(w), steps);
            && |r.client.closes| == |w.client.closes| > 0 && r.client.closes[|r.client.closes| - 1] == 0
            && r.client.hasConn && r.client.state == Stopped
  {
    if AfterStop(w).health != Running {
      CrashIsFinal(AfterStop(w), steps);
    }
    StepInv(w, Stop);
    StoppedIsFinal(AfterStop(w), steps);
  }

  // ---- The run loop's checks ----

  /** At a check, the client is in the state the run loop left it in. */
  predicate Steady(w: World) {
    match w.place
    case NotStarted => w.client.state == Stopped
    case Entry => w.client.state == Disconnected
    case Ticket | Dial => w.client.state == Connecting
    case Dialled => w.client.state == Preparing
    case _ => true
  }

  /**
   Stop comes between the loop's test and the write pump, or a reader of an earlier connection acts on the new one.
   */
  predicate Interferes(w: World, step: Step) {
    match step
    case Stop => w.place in {Entry, Ticket, Dial, Dialled} && w.client.state != Stopped
    case Read(Introduction) => w.place == Dialled && w.readers > 0
    case ReaderLeaves => w.place == Dialled && w.leaving > 0
    case _ => false
  }

  lemma StepSteady(w: World, step: Step)
    requires w.health == Running && Inv(w) && Next(w, step).health == Running
    ensures Steady(Next(w, step)) <==> step.RunLoop? || (Steady(w) && !Interferes(w, step))
    ensures step.RunLoop? ==> Steady(w)
  {
  }

  predicate Interfered(w: World, steps: seq<Step>)
    decreases |steps|
  {
    steps != [] && (Interferes(w, steps[0]) || Interfered(Next(w, steps[0]), steps[1..]))
  }

  lemma {:induction false} RunSteady(w: World, steps: seq<Step>)
    requires w.health == Running && Inv(w) && Run(w, steps).health == Running && Steady(w)
    ensures Steady(Run(w, steps)) <==> !Interfered(w, steps)
    decreases |steps|
  {
    if steps != [] {
      SurvivesStep(w, steps);
      StepInv(w, steps[0]);
      StepSteady(w, steps[0]);
      if Steady(Next(w, steps[0])) {
        RunSteady(Next(w, steps[0]), steps[1..]);
      } else {
        UnsteadyStays(Next(w, steps[0]), steps[1..]);
      }
    }
  }

  lemma {:induction false} UnsteadyStays(w: World, steps: seq<Step>)
    requires w.health == Running && Inv(w) && Run(w, steps).health == Running && !Steady(w)
    ensures !Steady(Run(w, steps))
    decreases |steps|
  {
    if steps != [] {
      SurvivesStep(w, steps);
      StepInv(w, steps[0]);
      StepSteady(w, steps[0]);
      UnsteadyStays(Next(w, steps[0]), steps[1..]);
    }
  }

  /**
   After any run the process has survived, the run loop's next step fails its check of the state if and only if some
   step of the run interfered.
   */
  lemma CheckFails(steps: seq<Step>, ok: bool)
    requires Run(INITIAL, steps).health == Running
    ensures Next(Run(INITIAL, steps), RunLoop(ok)).health == Fatal <==> Interfered(INITIAL, steps)
  {
    RunInv(INITIAL, steps);
    RunSteady(INITIAL, steps);
    var w := Run(INITIAL, steps);
    if Next(w, RunLoop(ok)).health == Running {
      StepSteady(w, RunLoop(ok));
    }
  }

  /** Until the second connection only Stop can interfere. */
  lemma FirstConnectionHasNoStaleReader(steps: seq<Step>, step: Step)
    requires var w := Run(INITIAL, steps); w.health == Running && |w.client.closes| <= 1 && Interferes(w, step)
    ensures step == Stop
  {
    RunInv(INITIAL, steps);
  }

  /**
   The panics, exactly: Stop before a first ticket or with a handler waiting to send; a read without a connection; and a
   handler, of whatever message, that sends after Stop.
   */
  lemma PanicsExactly(w: World, step: Step)
    requires w.health == Running && Inv(w)
    ensures Next(w, step).health == Panicked
            <==> || (step.Stop? && w.client.state != Stopped && (w.client.sendMessages == Nil || w.waiting > 0))
                 || (step.Read? && w.readers > 0 && !w.client.hasConn)
                 || (step.Send? && w.handling > 0 && w.client.state == Stopped)
  {
  }

  // ---- What the read pump's fall-through makes possible ----

  const CONNECT: seq<Step> := [RunLoop(true), RunLoop(true), RunLoop(true), RunLoop(true)]
  const LOSE: seq<Step> := [RunLoop(true), RunLoop(false), RunLoop(true), RunLoop(true)]

  lemma {:induction false} RunAppend(w: World, a: seq<Step>, b: seq<Step>)
    ensures Run(w, a + b) == Run(Run(w, a), b)
    decreases |a|
  {
    if a == [] {
      assert a + b == b;
    } else {
      assert (a + b)[1..] == a[1..] + b;
      RunAppend(Next(w, a[0]), a[1..], b);
    }
  }

  lemma Connects(w: World)
    requires w.health == Running && w.place == LoopHead && w.client.state == Disconnected
    ensures Run(w, CONNECT)
            == w.(client := Client(Preparing, Open, true, w.client.closes + [0]), place := Dialled, waiting := 0)
  {
  }

  /** The write pump ends on a write error; the read pump has only seen an error it takes for a message. */
  lemma Loses(w: World)
    requires w.health == Running && w.place == Dialled && w.client.state == Preparing
    ensures Run(w, LOSE) == w.(client := AfterDisconnect(w.client), place := LoopHead, readers := w.readers + 1)
  {
  }

  /** A read pump outlives its connection: after a reconnect two of them read, and the old one can end the process. */
  lemma StaleReaderIsFatal()
    ensures var w := Run(Next(INITIAL, RunLoop(true)), CONNECT + LOSE + CONNECT);
            && w.health == Running && w.place == Dialled && w.readers == 1 && |w.client.closes| == 2
            && Next(w, RunLoop(true)).readers == 2
            && Next(Next(w, Read(Introduction)), RunLoop(true)).health == Fatal
  {
    var w0 := Next(INITIAL, RunLoop(true));
    RunAppend(w0, CONNECT + LOSE, CONNECT);
    RunAppend(w0, CONNECT, LOSE);
    var w1 := Run(w0, CONNECT);
    Connects(w0);
    Loses(w1);
    Connects(Run(w1, LOSE));
  }

  /** A Stop while the write pump runs: the run loop ends, and the connection stays open. */
  lemma StopWhilePumpingLeaks()
    ensures var w := Next(Run(Next(INITIAL, RunLoop(true)), CONNECT), RunLoop(true));
            var r := Run(Next(w, Stop), CONNECT);
            && w.health == Running && w.place == Pumping
            && r.health == Running && r.place == Exited && r.client.closes == [0]
  {
    var w0 := Next(INITIAL, RunLoop(true));
    Connects(w0);
    var w := Next(Run(w0, CONNECT), RunLoop(true));
    assert w.place == Pumping && w.client == Client(Preparing, Open, true, [0]);
    Ends(Next(w, Stop));
  }

  /** The run loop of a stopped client leaves its pump, does nothing on the way, and ends. */
  lemma Ends(w: World)
    requires w.health == Running && w.place == Pumping && w.client.state == Stopped && w.client.sendMessages == Closed
    ensures Run(w, CONNECT) == w.(place := Exited)
  {
  }
}
