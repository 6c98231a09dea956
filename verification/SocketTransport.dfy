/**
 The WebSocket transport: one socket at a time, one reconnect timer at a time, and
 an outbox in between.
 */
module SocketTransport {
  import opened Common
  import opened Outbox

  datatype Phase = Connecting | Open | Closing | Closed

  /** Only user events outlive the connection they were raised on. */
  datatype Envelope = Event(data: string) | Native(data: string)

  /** All sockets ever made; the last is the transport's own. `replies` are the native
      replies that went out. */
  datatype State = State(sockets: seq<Phase>, attached: set<nat>, box: Ledger<Envelope>, replies: seq<Envelope>,
                         attempt: nat, timer: bool, everOpen: bool, userClosed: bool)

  datatype Config = Config(reconnect: bool, maxOutbox: nat)

  datatype Step =
    | Send(envelope: Envelope)
    | SocketOpen(i: nat)      // the handshake succeeds
    | SocketClosing(i: nat)   // a closing handshake begins
    | SocketClosed(i: nat)    // the close event
    | StrayClose(i: nat)      // a close event for a socket already closed
    | Fire                    // the reconnect timer
    | UserClose

  predicate Legal(s: State, step: Step) {
    match step
    case Send(_) => true
    case SocketOpen(i) => i < |s.sockets| && s.sockets[i] == Connecting
    case SocketClosing(i) => i < |s.sockets| && (s.sockets[i] == Connecting || s.sockets[i] == Open)
    case SocketClosed(i) => i < |s.sockets| && s.sockets[i] != Closed
    case StrayClose(i) => i < |s.sockets| && s.sockets[i] == Closed
    case Fire => s.timer
    case UserClose => true
  }

  function Current(s: State): Phase {
    if s.sockets == [] then Closed else s.sockets[|s.sockets| - 1]
  }

  function Sent(c: Config, s: State, e: Envelope): State {
    if Current(s) == Open then
      if e.Event? then s.(box := Hand(s.box, e)) else s.(replies := s.replies + [e])
    else if e.Native? then s
    else s.(box := Queue(s.box, e, c.maxOutbox))
  }

  function Connect(s: State): State {
    s.(sockets := s.sockets + [Connecting], attached := {|s.sockets|})
  }

  /** The close handler of an attached socket. */
  function ClosedHandler(c: Config, s: State, i: nat): State {
    if i !in s.attached || s.userClosed || !c.reconnect || s.timer then s
    else s.(timer := true, attempt := s.attempt + 1)
  }

  function Next(c: Config, s: State, step: Step): State
    requires Legal(s, step)
  {
    match step
    case Send(e) => Sent(c, s, e)
    case SocketOpen(i) =>
      var now := s.(sockets := s.sockets[i := Open]);
      if i !in s.attached then now
      else now.(attempt := 0, everOpen := true, box := if Current(now) == Open then Flushed(s.box) else s.box)
    case SocketClosing(i) => s.(sockets := s.sockets[i := Closing])
    case SocketClosed(i) => ClosedHandler(c, s.(sockets := s.sockets[i := Closed]), i)
    case StrayClose(i) => ClosedHandler(c, s, i)
    case Fire => if s.userClosed then s.(timer := false) else Connect(s.(timer := false))
    case UserClose =>
      var quiet := s.(userClosed := true, timer := false);
      if Current(s) == Connecting || Current(s) == Open then
        quiet.(sockets := s.sockets[|s.sockets| - 1 := Closing])
      else quiet
  }

  predicate LegalRun(c: Config, s: State, steps: seq<Step>)
    decreases |steps|
  {
    steps == [] || (Legal(s, steps[0]) && LegalRun(c, Next(c, s, steps[0]), steps[1..]))
  }

  function Run(c: Config, s: State, steps: seq<Step>): State
    requires LegalRun(c, s, steps)
    decreases |steps|
  {
    if steps == [] then s else Run(c, Next(c, s, steps[0]), steps[1..])
  }

  function Start(): State {
    State([Connecting], {0}, Nothing(), [], 0, false, false, false)
  }

  // ---- The invariant ----------------------------------------------------------------------

  /** One socket attached, the last; every other is closed. */
  predicate OneSocket(s: State) {
    && s.sockets != []
    && s.attached == {|s.sockets| - 1}
    && forall i :: 0 <= i < |s.sockets| - 1 ==> s.sockets[i] == Closed
  }

  /** The timer runs exactly while a transport that still wants a connection has none
      on the way. */
  predicate TimerRuns(c: Config, s: State) {
    s.timer <==> c.reconnect && !s.userClosed && Current(s) == Closed
  }

  ghost predicate Buffered(c: Config, s: State) {
    && Fair(s.box)
    && |s.box.outbox| <= Capacity(c.maxOutbox)
    && (Current(s) == Open ==> s.box.outbox == [])
  }

  ghost predicate Sound(c: Config, s: State) {
    && OneSocket(s)
    && TimerRuns(c, s)
    && Buffered(c, s)
    && (s.userClosed ==> Current(s) == Closing || Current(s) == Closed)
  }

  lemma SendSound(c: Config, s: State, e: Envelope)
    requires Sound(c, s)
    ensures Sound(c, Next(c, s, Send(e)))
  {
    if Current(s) == Open {
      HandFair(s.box, e);
    } else {
      QueueFair(s.box, e, c.maxOutbox);
    }
  }

  /** Steps that only move sockets and the timer. */
  lemma SocketsSound(c: Config, s: State, step: Step)
    requires Sound(c, s) && Legal(s, step) && !step.Send? && !step.SocketOpen?
    ensures Sound(c, Next(c, s, step))
  {
    if step.SocketClosing? || step.SocketClosed? || step.StrayClose? {
      assert step.i < |s.sockets| - 1 ==> s.sockets[step.i] == Closed;
    }
  }

  lemma OpenSound(c: Config, s: State, i: nat)
    requires Sound(c, s) && Legal(s, SocketOpen(i))
    ensures Sound(c, Next(c, s, SocketOpen(i)))
  {
    FlushFair(s.box);
    assert i == |s.sockets| - 1;
  }

  lemma StepSound(c: Config, s: State, step: Step)
    requires Sound(c, s) && Legal(s, step)
    ensures Sound(c, Next(c, s, step))
    ensures s.userClosed ==> Next(c, s, step).userClosed && |Next(c, s, step).sockets| == |s.sockets|
  {
    match step
    case Send(e) => SendSound(c, s, e);
    case SocketOpen(i) => OpenSound(c, s, i);
    case _ => SocketsSound(c, s, step);
  }

  /** In every run: what reached the sockets followed by the outbox is what was
      accepted less what was given up, in order; the outbox never passes its bound and
      is empty while a socket is open; one socket is attached and the others are
      closed; and the timer runs exactly when a connection is wanted and none is coming. */
  lemma {:induction false} TransportRuns(c: Config, s: State, steps: seq<Step>)
    requires Sound(c, s) && LegalRun(c, s, steps)
    ensures var z := Run(c, s, steps);
            && Sound(c, z)
            && z.box.wire + z.box.outbox == Kept(z.box.accepted, z.box.lost, |z.box.accepted|)
            && (s.userClosed ==> z.userClosed && |z.sockets| == |s.sockets|)
    decreases |steps|
  {
    if steps == [] {
      FairMeans(s.box);
    } else {
      StepSound(c, s, steps[0]);
      TransportRuns(c, Next(c, s, steps[0]), steps[1..]);
    }
  }

  lemma StartSound(c: Config)
    ensures Sound(c, Start())
  {
  }

  // ---- What the page raised --------------------------------------------------------------

  function RaisedBy(step: Step): seq<Envelope> {
    if step.Send? && step.envelope.Event? then [step.envelope] else []
  }

  /** The events the steps raise, in order, whatever becomes of them. */
  function Raised(steps: seq<Step>): seq<Envelope> {
    if steps == [] then [] else RaisedBy(steps[0]) + Raised(steps[1..])
  }

  function RepliedBy(s: State, step: Step): seq<Envelope> {
    if step.Send? && step.envelope.Native? && Current(s) == Open then [step.envelope] else []
  }

  /** The native replies raised while a socket is open. */
  function Replied(c: Config, s: State, steps: seq<Step>): seq<Envelope>
    requires LegalRun(c, s, steps)
    decreases |steps|
  {
    if steps == [] then []
    else RepliedBy(s, steps[0]) + Replied(c, Next(c, s, steps[0]), steps[1..])
  }

  lemma StepAccepts(c: Config, s: State, step: Step)
    requires Legal(s, step)
    ensures Next(c, s, step).box.accepted == s.box.accepted + RaisedBy(step)
    ensures Next(c, s, step).replies == s.replies + RepliedBy(s, step)
  {
  }

  lemma Reassociates<M>(a: seq<M>, b: seq<M>, c: seq<M>)
    ensures (a + b) + c == a + (b + c)
  {
  }

  lemma {:induction false} RunAccepts(c: Config, s: State, steps: seq<Step>)
    requires LegalRun(c, s, steps)
    ensures Run(c, s, steps).box.accepted == s.box.accepted + Raised(steps)
    ensures Run(c, s, steps).replies == s.replies + Replied(c, s, steps)
    decreases |steps|
  {
    if steps == [] {
      assert s.box.accepted + [] == s.box.accepted && s.replies + [] == s.replies;
    } else {
      var t := Next(c, s, steps[0]);
      StepAccepts(c, s, steps[0]);
      RunAccepts(c, t, steps[1..]);
      Reassociates(s.box.accepted, RaisedBy(steps[0]), Raised(steps[1..]));
      Reassociates(s.replies, RepliedBy(s, steps[0]), Replied(c, t, steps[1..]));
    }
  }

  /** In every run, of the events the page raised, in order: those not given up have reached
      a socket or are waiting, and all have gone out when one is open. A native reply goes
      out when one is open, and only then. */
  lemma EveryEventCounts(c: Config, steps: seq<Step>)
    requires LegalRun(c, Start(), steps)
    ensures var z := Run(c, Start(), steps);
            && z.box.accepted == Raised(steps)
            && z.box.wire + z.box.outbox == Kept(Raised(steps), z.box.lost, |Raised(steps)|)
            && (Current(z) == Open ==> z.box.wire == Kept(Raised(steps), z.box.lost, |Raised(steps)|))
            && (|z.box.outbox| <= c.maxOutbox || |z.box.outbox| == 1)
            && z.replies == Replied(c, Start(), steps)
  {
    StartSound(c);
    TransportRuns(c, Start(), steps);
    RunAccepts(c, Start(), steps);
    assert [] + Raised(steps) == Raised(steps);
    assert [] + Replied(c, Start(), steps) == Replied(c, Start(), steps);
    var z := Run(c, Start(), steps);
    assert z.box.wire + [] == z.box.wire;
  }

  predicate OnlySends(steps: seq<Step>) {
    forall i :: 0 <= i < |steps| ==> steps[i].Send?
  }

  lemma OneSend(c: Config, s: State, e: Envelope)
    requires Current(s) != Open
    ensures var t := Next(c, s, Send(e));
            && t.sockets == s.sockets && t.box.wire == s.box.wire
            && t.box.outbox == if e.Event? then Pushed(s.box.outbox, e, c.maxOutbox) else s.box.outbox
  {
  }

  lemma {:induction false} OutageRuns(c: Config, s: State, steps: seq<Step>)
    requires LegalRun(c, s, steps) && OnlySends(steps) && Current(s) != Open
    ensures Run(c, s, steps).box.outbox == Outage(s.box.outbox, Raised(steps), c.maxOutbox)
    ensures Run(c, s, steps).box.wire == s.box.wire
    decreases |steps|
  {
    if steps != [] {
      var e := steps[0].envelope;
      OneSend(c, s, e);
      OutageRuns(c, Next(c, s, steps[0]), steps[1..]);
      if e.Event? {
        assert ([e] + Raised(steps[1..]))[1..] == Raised(steps[1..]);
      } else {
        assert [] + Raised(steps[1..]) == Raised(steps[1..]);
      }
    }
  }

  /** With no socket open the newest events are the ones held, however many are raised. */
  lemma OutageHoldsNewest(c: Config, s: State, steps: seq<Step>)
    requires Sound(c, s) && LegalRun(c, s, steps) && OnlySends(steps) && Current(s) != Open
    ensures var z := Run(c, s, steps);
            && z.box.outbox == Newest(s.box.outbox + Raised(steps), Capacity(c.maxOutbox))
            && (c.maxOutbox > 0 ==> z.box.outbox == Newest(s.box.outbox + Raised(steps), c.maxOutbox))
            && z.box.wire == s.box.wire
  {
    OutageRuns(c, s, steps);
    OutageKeepsNewest(s.box.outbox, Raised(steps), c.maxOutbox);
  }

  /** Reconnects back off by the count of timers set since a socket last opened; the
      transport remembers whether one ever did. */
  lemma AttemptsCount(c: Config, s: State, step: Step)
    requires Sound(c, s) && Legal(s, step)
    ensures var z := Next(c, s, step);
            var opens := step.SocketOpen? && step.i == |s.sockets| - 1;
            && z.attempt == (if opens then 0 else if z.timer && !s.timer then s.attempt + 1 else s.attempt)
            && (z.everOpen <==> s.everOpen || opens)
  {
  }

  /** An event is given up only to make room: the oldest one waiting, for a newer one,
      with the buffer full and no socket open. */
  lemma OnlyTheOldestIsLost(c: Config, s: State, step: Step)
    requires Sound(c, s) && Legal(s, step)
    ensures Next(c, s, step).box.lost != s.box.lost ==>
              && step.Send? && step.envelope.Event?
              && Current(s) != Open
              && |s.box.outbox| == Capacity(c.maxOutbox)
              && Next(c, s, step).box.lost == s.box.lost + {|s.box.accepted| - |s.box.outbox|}
  {
  }

  // ---- The transport ------------------------------------------------------------------------

  class WebSocketTransport {
    var sockets: seq<Phase>
    var attached: set<nat>
    var outbox: seq<Envelope>
    var attempt: nat
    var timer: bool
    var everOpen: bool
    var userClosed: bool
    const config: Config
    ghost var accepted: seq<Envelope>
    ghost var lost: set<nat>
    ghost var wire: seq<Envelope>
    ghost var replies: seq<Envelope>

    ghost function Now(): State
      reads this
    {
      State(sockets, attached, Ledger(accepted, lost, wire, outbox), replies, attempt, timer, everOpen, userClosed)
    }

    constructor (config: Config)
      ensures this.config == config && Now() == Start()
    {
      this.config := config;
      sockets, attached, outbox := [Connecting], {0}, [];
      attempt, timer, everOpen, userClosed := 0, false, false, false;
      accepted, lost, wire, replies := [], {}, [], [];
    }

    function Socket(): Phase
      reads this
    {
      if sockets == [] then Closed else sockets[|sockets| - 1]
    }

    method SendEnvelope(e: Envelope)
      requires |outbox| <= |accepted|
      modifies this`outbox, this`accepted, this`lost, this`wire, this`replies
      ensures Now() == Next(config, old(Now()), Send(e))
    {
      if Socket() == Open {
        if e.Event? {
          accepted, wire := accepted + [e], wire + [e];
        } else {
          replies := replies + [e];
        }
        return;
      }
      if e.Native? {
        return;
      }
      if |outbox| >= config.maxOutbox && outbox != [] {
        lost := lost + {|accepted| - |outbox|};
        outbox := outbox[1..];
      }
      outbox := outbox + [e];
      accepted := accepted + [e];
    }

    method FlushOutbox()
      modifies this`outbox, this`wire
      ensures Socket() == Open ==> outbox == [] && wire == old(wire) + old(outbox)
      ensures Socket() != Open ==> outbox == old(outbox) && wire == old(wire)
    {
      while outbox != [] && Socket() == Open
        invariant wire + outbox == old(wire) + old(outbox)
        invariant Socket() != Open ==> outbox == old(outbox) && wire == old(wire)
        decreases |outbox|
      {
        wire := wire + [outbox[0]];
        outbox := outbox[1..];
      }
    }

    method OnOpen(i: nat)
      requires Legal(Now(), SocketOpen(i))
      modifies this
      ensures Now() == Next(config, old(Now()), SocketOpen(i))
    {
      sockets := sockets[i := Open];
      if i in attached {
        attempt := 0;
        everOpen := true;
        FlushOutbox();
      }
    }

    method OnClose(i: nat)
      requires Legal(Now(), SocketClosed(i))
      modifies this`sockets, this`timer, this`attempt
      ensures Now() == Next(config, old(Now()), SocketClosed(i))
    {
      sockets := sockets[i := Closed];
      if i in attached && !userClosed && config.reconnect {
        ScheduleReconnect();
      }
    }

    /** A stray extra close must not start a second timer. */
    method ScheduleReconnect()
      modifies this`timer, this`attempt
      ensures timer
      ensures attempt == if old(timer) then old(attempt) else old(attempt) + 1
    {
      if timer { return; }
      attempt := attempt + 1;
      timer := true;
    }

    method OnTimer()
      requires timer
      modifies this`timer, this`sockets, this`attached
      ensures Now() == Next(config, old(Now()), Fire)
    {
      timer := false;
      if !userClosed {
        attached := {|sockets|};
        sockets := sockets + [Connecting];
      }
    }

    method CloseTransport()
      modifies this`userClosed, this`timer, this`sockets
      ensures Now() == Next(config, old(Now()), UserClose)
    {
      userClosed := true;
      timer := false;
      if Socket() == Connecting || Socket() == Open {
        sockets := sockets[|sockets| - 1 := Closing];
      }
    }
  }
}
