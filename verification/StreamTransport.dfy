/**
 The server-sent-events transport: events wait for the stream to open, because the
 server has no session to post them to before that.
 */
module StreamTransport {
  import opened Common
  import opened Outbox

  const MAX_OUTBOX := 1000

  datatype State = State(streamOpen: bool, box: Ledger<string>)

  datatype Step = SendEvent(event: string) | StreamOpened | StreamError

  function Next(s: State, step: Step): State {
    match step
    case SendEvent(e) => s.(box := if s.streamOpen then Hand(s.box, e) else Queue(s.box, e, MAX_OUTBOX))
    case StreamOpened => State(true, Flushed(s.box))
    case StreamError => s.(streamOpen := false)
  }

  function Run(s: State, steps: seq<Step>): State
    decreases |steps|
  {
    if steps == [] then s else Run(Next(s, steps[0]), steps[1..])
  }

  ghost predicate Sound(s: State) {
    Fair(s.box) && |s.box.outbox| <= MAX_OUTBOX && (s.streamOpen ==> s.box.outbox == [])
  }

  /** The stream keeps the same discipline: posts, then the outbox, are the accepted
      events less those given up, and nothing is posted before the stream opens. */
  lemma {:induction false} StreamRuns(s: State, steps: seq<Step>)
    requires Sound(s)
    ensures var z := Run(s, steps);
            && Sound(z)
            && z.box.wire + z.box.outbox == Kept(z.box.accepted, z.box.lost, |z.box.accepted|)
            && ((forall i :: 0 <= i < |steps| ==> !steps[i].StreamOpened?) && !s.streamOpen ==>
                  z.box.wire == s.box.wire)
    decreases |steps|
  {
    if steps == [] {
      FairMeans(s.box);
    } else {
      match steps[0] {
        case SendEvent(e) =>
          if s.streamOpen {
            HandFair(s.box, e);
          } else {
            QueueFair(s.box, e, MAX_OUTBOX);
          }
        case StreamOpened => FlushFair(s.box);
        case StreamError =>
      }
      StreamRuns(Next(s, steps[0]), steps[1..]);
      assert forall i :: 1 <= i < |steps| ==> steps[i] == steps[1..][i - 1];
    }
  }

  /** The events the steps raise, in order, whatever becomes of them. */
  function Raised(steps: seq<Step>): seq<string> {
    if steps == [] then [] else (if steps[0].SendEvent? then [steps[0].event] else []) + Raised(steps[1..])
  }

  lemma {:induction false} RunAccepts(s: State, steps: seq<Step>)
    ensures Run(s, steps).box.accepted == s.box.accepted + Raised(steps)
    decreases |steps|
  {
    if steps == [] {
      assert s.box.accepted + [] == s.box.accepted;
    } else {
      RunAccepts(Next(s, steps[0]), steps[1..]);
    }
  }

  /** In every run, of the events the page raised, in order: those not given up have been
      posted or are waiting, and all have been posted while the stream is open. */
  lemma EveryEventCounts(steps: seq<Step>)
    ensures var z := Run(State(false, Nothing()), steps);
            && z.box.accepted == Raised(steps)
            && z.box.wire + z.box.outbox == Kept(Raised(steps), z.box.lost, |Raised(steps)|)
            && (z.streamOpen ==> z.box.wire == Kept(Raised(steps), z.box.lost, |Raised(steps)|))
  {
    var s := State(false, Nothing<string>());
    StreamRuns(s, steps);
    RunAccepts(s, steps);
    assert [] + Raised(steps) == Raised(steps);
    var z := Run(s, steps);
    assert z.box.wire + [] == z.box.wire;
  }

  /** An event is given up only to make room: the oldest, for a newer one, with the buffer
      full and the stream closed. */
  lemma OnlyTheOldestIsLost(s: State, step: Step)
    requires Sound(s)
    ensures Next(s, step).box.lost != s.box.lost ==>
              && step.SendEvent? && !s.streamOpen && |s.box.outbox| == MAX_OUTBOX
              && Next(s, step).box.lost == s.box.lost + {|s.box.accepted| - |s.box.outbox|}
  {
  }

  predicate OnlySends(steps: seq<Step>) {
    forall i :: 0 <= i < |steps| ==> steps[i].SendEvent?
  }

  lemma {:induction false} OutageRuns(s: State, steps: seq<Step>)
    requires OnlySends(steps) && !s.streamOpen
    ensures Run(s, steps).box.outbox == Outage(s.box.outbox, Raised(steps), MAX_OUTBOX)
    decreases |steps|
  {
    if steps != [] {
      OutageRuns(Next(s, steps[0]), steps[1..]);
      assert ([steps[0].event] + Raised(steps[1..]))[1..] == Raised(steps[1..]);
    }
  }

  /** With the stream closed the newest events are the ones held. */
  lemma OutageHoldsNewest(s: State, steps: seq<Step>)
    requires Sound(s) && OnlySends(steps) && !s.streamOpen
    ensures Run(s, steps).box.outbox == Newest(s.box.outbox + Raised(steps), MAX_OUTBOX)
  {
    OutageRuns(s, steps);
    OutageKeepsNewest(s.box.outbox, Raised(steps), MAX_OUTBOX);
  }

  /** The stream is open exactly when its last event was an opening. */
  lemma {:induction false} OpenExactly(s: State, steps: seq<Step>, k: nat)
    requires k < |steps| && !steps[k].SendEvent?
    requires forall i :: k < i < |steps| ==> steps[i].SendEvent?
    ensures Run(s, steps).streamOpen <==> steps[k].StreamOpened?
    decreases |steps|
  {
    if k == 0 {
      SendsKeepOpen(Next(s, steps[0]), steps[1..]);
    } else {
      OpenExactly(Next(s, steps[0]), steps[1..], k - 1);
    }
  }

  lemma {:induction false} SendsKeepOpen(s: State, steps: seq<Step>)
    requires OnlySends(steps)
    ensures Run(s, steps).streamOpen == s.streamOpen
    decreases |steps|
  {
    if steps != [] {
      SendsKeepOpen(Next(s, steps[0]), steps[1..]);
    }
  }

  class SseTransport {
    var streamOpen: bool
    var outbox: seq<string>
    ghost var accepted: seq<string>
    ghost var lost: set<nat>
    ghost var wire: seq<string>

    ghost function Now(): State
      reads this
    {
      State(streamOpen, Ledger(accepted, lost, wire, outbox))
    }

    constructor ()
      ensures Now() == State(false, Nothing())
    {
      streamOpen, outbox := false, [];
      accepted, lost, wire := [], {}, [];
    }

    method Send(event: string)
      requires |outbox| <= |accepted|
      modifies this`outbox, this`accepted, this`lost, this`wire
      ensures Now() == Next(old(Now()), SendEvent(event))
    {
      if streamOpen {
        accepted, wire := accepted + [event], wire + [event];
        return;
      }
      if |outbox| >= MAX_OUTBOX {
        lost := lost + {|accepted| - |outbox|};
        outbox := outbox[1..];
      }
      outbox := outbox + [event];
      accepted := accepted + [event];
    }

    method OnOpen()
      modifies this`streamOpen, this`outbox, this`wire
      ensures Now() == Next(old(Now()), StreamOpened)
    {
      streamOpen := true;
      while outbox != []
        invariant wire + outbox == old(wire) + old(outbox) && streamOpen
        decreases |outbox|
      {
        wire := wire + [outbox[0]];
        outbox := outbox[1..];
      }
    }

    method OnError()
      modifies this`streamOpen
      ensures Now() == Next(old(Now()), StreamError)
    {
      streamOpen := false;
    }
  }
}
