/**
 The IndexedDB connection the key/value store holds: opened once, shared by every
 caller, dropped when another tab upgrades, never kept when it arrives too late.

 An IndexedDB connection left open blocks every other tab's upgrade, so the claim
 that matters is that none is ever left open behind the store's back. Opens and
 connections are numbered; the browser's side of the state is here with the store's.
 */
module IdbKv {
  import opened Common

  /** An open request the browser has not settled; past its deadline nobody waits for it. */
  datatype Phase = Awaited | Abandoned

  /** An operation: waiting for an open, holding a connection for its next
      transaction, or answered. `tries` counts the transactions it has begun. */
  datatype Op =
    | WaitsFor(open: nat, tries: nat)
    | Holds(conn: nat, tries: nat)
    | Answered(ok: bool, tries: nat)

  datatype State = State(cached: Option<nat>, opening: Option<nat>,
                         opens: map<nat, Phase>, started: nat,
                         live: set<nat>, made: nat,
                         ops: map<nat, Op>)

  datatype TxEnd = Committed | Refused | InvalidState

  datatype Step =
    | Call(op: nat)
    | Opened(open: nat)
    | OpenFailed(open: nat)
    | Deadline(open: nat)
    | VersionChange(conn: nat)
    | BrowserClose(conn: nat)
    | Transact(op: nat, end: TxEnd)
    | Close

  /** What the environment can do: open requests settle once, connections that are
      open can be asked to close, `InvalidStateError` means the connection is closed,
      and `close()` is not called during an open. */
  predicate Legal(s: State, step: Step) {
    match step
    case Call(op) => op !in s.ops
    case Opened(open) => open in s.opens
    case OpenFailed(open) => open in s.opens
    case Deadline(open) => open in s.opens && s.opens[open].Awaited?
    case VersionChange(conn) => conn in s.live
    case BrowserClose(conn) => conn in s.live
    case Transact(op, end) => op in s.ops && s.ops[op].Holds? && (end.InvalidState? ==> s.ops[op].conn !in s.live)
    case Close => s.opening.None?
  }

  function Forget(s: State, conn: nat): State {
    if s.cached == Some(conn) then s.(cached := None) else s
  }

  /** Give an operation the cached connection, the open in flight, or a new open. */
  function Connect(s: State, op: nat, tries: nat): State {
    if s.cached.Some? then s.(ops := s.ops[op := Holds(s.cached.value, tries)])
    else if s.opening.Some? then s.(ops := s.ops[op := WaitsFor(s.opening.value, tries)])
    else
      s.(opening := Some(s.started), opens := s.opens[s.started := Awaited], started := s.started + 1,
         ops := s.ops[op := WaitsFor(s.started, tries)])
  }

  /** Everyone waiting for an open gets its outcome. */
  function Wake(ops: map<nat, Op>, open: nat, conn: Option<nat>): map<nat, Op> {
    map op | op in ops ::
      if ops[op].WaitsFor? && ops[op].open == open
      then if conn.Some? then Holds(conn.value, ops[op].tries) else Answered(false, ops[op].tries)
      else ops[op]
  }

  function Next(s: State, step: Step): State {
    match step
    case Call(op) => Connect(s, op, 0)
    case Opened(open) =>
      if open in s.opens && s.opens[open].Awaited? then
        s.(opens := s.opens - {open}, live := s.live + {s.made}, made := s.made + 1,
           cached := Some(s.made), opening := None, ops := Wake(s.ops, open, Some(s.made)))
      else s.(opens := s.opens - {open}, made := s.made + 1)
    case OpenFailed(open) =>
      if open in s.opens && s.opens[open].Awaited? then
        s.(opens := s.opens - {open}, opening := None, ops := Wake(s.ops, open, None))
      else s.(opens := s.opens - {open})
    case Deadline(open) => s.(opens := s.opens[open := Abandoned], opening := None, ops := Wake(s.ops, open, None))
    case VersionChange(conn) => Forget(s, conn).(live := s.live - {conn})
    case BrowserClose(conn) => Forget(s, conn).(live := s.live - {conn})
    case Transact(op, end) =>
      if op in s.ops && s.ops[op].Holds? then
        var o := s.ops[op];
        if !end.InvalidState? then s.(ops := s.ops[op := Answered(end.Committed?, o.tries + 1)])
        else if o.tries > 0 then Forget(s, o.conn).(ops := s.ops[op := Answered(false, o.tries + 1)])
        else Connect(Forget(s, o.conn), op, o.tries + 1)
      else s
    case Close =>
      s.(live := if s.cached.Some? then s.live - {s.cached.value} else s.live, cached := None, opening := None)
  }

  predicate LegalRun(s: State, steps: seq<Step>)
    decreases |steps|
  {
    steps == [] || (Legal(s, steps[0]) && LegalRun(Next(s, steps[0]), steps[1..]))
  }

  function Run(s: State, steps: seq<Step>): State
    decreases |steps|
  {
    if steps == [] then s else Run(Next(s, steps[0]), steps[1..])
  }

  function Start(): State {
    State(None, None, map[], 0, {}, 0, map[])
  }

  // ---- The invariant --------------------------------------------------------------------

  /** The one open anybody waits for is the one in flight. */
  predicate OneOpen(s: State) {
    && (forall o :: o in s.opens ==> (s.opens[o].Awaited? <==> s.opening == Some(o)))
    && (s.opening.Some? ==> s.opening.value in s.opens && s.cached.None?)
    && (forall o :: o in s.opens ==> o < s.started)
  }

  /** The only connection left open is the cached one. */
  predicate NoStray(s: State) {
    && s.live == (if s.cached.Some? then {s.cached.value} else {})
    && (forall c :: c in s.live ==> c < s.made)
  }

  predicate OpServed(s: State, op: Op) {
    match op
    case WaitsFor(open, tries) => s.opening == Some(open) && tries <= 1
    case Holds(conn, tries) => conn < s.made && tries <= 1
    case Answered(_, tries) => tries <= 2
  }

  /** Waiters share the open in flight; nobody begins more than two transactions. */
  predicate Served(s: State) {
    forall op :: op in s.ops ==> OpServed(s, s.ops[op])
  }

  predicate Sound(s: State) {
    OneOpen(s) && NoStray(s) && Served(s)
  }

  lemma ConnectSound(s: State, op: nat, tries: nat)
    requires OneOpen(s) && NoStray(s) && tries <= 1
    requires forall k :: k in s.ops && k != op ==> OpServed(s, s.ops[k])
    ensures Sound(Connect(s, op, tries))
  {
  }

  lemma StepSound(s: State, step: Step)
    requires Sound(s) && Legal(s, step)
    ensures Sound(Next(s, step))
  {
    match step
    case Call(op) => ConnectSound(s, op, 0);
    case Transact(op, end) =>
      if end.InvalidState? && s.ops[op].tries == 0 {
        ConnectSound(Forget(s, s.ops[op].conn), op, 1);
      }
    case _ =>
  }

  lemma {:induction false} RunSound(s: State, steps: seq<Step>)
    requires Sound(s) && LegalRun(s, steps)
    ensures Sound(Run(s, steps))
    decreases |steps|
  {
    if steps != [] {
      StepSound(s, steps[0]);
      RunSound(Next(s, steps[0]), steps[1..]);
    }
  }

  predicate Awaiting(s: State, open: nat) {
    open in s.opens && s.opens[open].Awaited?
  }

  /** In every interleaving: at most one open is awaited and everyone waiting shares
      it, every connection ever opened is the cached one or closed, so no failed or
      late open is ever kept, and no operation begins more than two transactions. */
  lemma ConnectionLifecycle(steps: seq<Step>)
    requires LegalRun(Start(), steps)
    ensures var z := Run(Start(), steps);
            && (forall a, b :: Awaiting(z, a) && Awaiting(z, b) ==> a == b)
            && (forall op :: op in z.ops && z.ops[op].WaitsFor? ==> Awaiting(z, z.ops[op].open))
            && (forall conn :: conn in z.live <==> z.cached == Some(conn))
            && (forall op :: op in z.ops ==> z.ops[op].tries <= 2)
  {
    StartSound();
    RunSound(Start(), steps);
  }

  lemma StartSound()
    ensures Sound(Start())
  {
  }

  /** Nobody hangs: however the open in flight settles, by success, by failure or at
      its deadline, every operation waiting for it goes on. */
  lemma SettlingWakesAll(s: State, step: Step)
    requires Sound(s) && s.opening.Some?
    requires step == Opened(s.opening.value) || step == OpenFailed(s.opening.value) || step == Deadline(s.opening.value)
    ensures forall op :: op in s.ops ==> op in Next(s, step).ops && !Next(s, step).ops[op].WaitsFor?
    ensures step.Opened? ==>
              forall op :: op in s.ops && s.ops[op].WaitsFor? ==>
                Next(s, step).ops[op].Holds? && Next(s, step).ops[op].conn in Next(s, step).live
    ensures !step.Opened? ==>
              forall op :: op in s.ops && s.ops[op].WaitsFor? ==>
                Next(s, step).ops[op] == Answered(false, s.ops[op].tries)
  {
  }

  /** What the events do to the connection: one that another tab or the browser closes is
      closed and no longer cached; closing the store closes what is cached; an open that
      comes in time is the cached connection from then on, and one that comes late is none. */
  lemma EventsSettleConnection(s: State, step: Step)
    requires Sound(s) && Legal(s, step)
    ensures var z := Next(s, step);
            && (step.VersionChange? || step.BrowserClose? ==>
                  step.conn !in z.live && z.cached != Some(step.conn)
                  && (s.cached != Some(step.conn) ==> z.cached == s.cached))
            && (step.Close? ==> z.live == {} && z.cached.None? && z.opening.None?)
            && (step.Opened? && s.opening == Some(step.open) ==> z.cached == Some(s.made) && z.live == {s.made})
            && (step.Opened? && s.opening != Some(step.open) ==> z.cached == s.cached && z.live == s.live)
            && (step.Opened? || step.OpenFailed? ==> step.open !in z.opens)
            && (step.OpenFailed? || step.Deadline? ==> z.cached == s.cached && z.live == s.live)
            && (step.Deadline? ==> z.opening.None? && step.open in z.opens && !Awaiting(z, step.open))
  {
  }

  /** What an operation is given: the connection if there is one, and it is open, or else
      the open in flight, which there now is; never an answer. */
  lemma GivenConnection(s: State, op: nat, tries: nat)
    requires Sound(s)
    ensures var z := Connect(s, op, tries);
            && op in z.ops && z.ops[op].tries == tries
            && (s.cached.Some? ==> z.ops[op].Holds? && z.ops[op].conn in s.live)
            && (s.cached.None? ==> z.ops[op].WaitsFor? && Awaiting(z, z.ops[op].open))
            && (forall k :: k in s.ops && k != op ==> k in z.ops && z.ops[k] == s.ops[k])
  {
  }

  // ---- What an operation is answered -------------------------------------------------------

  /** How the transaction a step ends for this operation ended. */
  function Ended(step: Step, op: nat): Option<TxEnd> {
    if step.Transact? && step.op == op then Some(step.end) else None
  }

  function Later(a: Option<TxEnd>, b: Option<TxEnd>): Option<TxEnd> {
    if b.Some? then b else a
  }

  /** How the last transaction of an operation ended, and how many it had. */
  function LastEnd(steps: seq<Step>, op: nat): Option<TxEnd> {
    if steps == [] then None else Later(Ended(steps[0], op), LastEnd(steps[1..], op))
  }

  function Turns(steps: seq<Step>, op: nat): nat {
    if steps == [] then 0 else (if Ended(steps[0], op).Some? then 1 else 0) + Turns(steps[1..], op)
  }

  predicate Called(steps: seq<Step>, op: nat) {
    Call(op) in steps
  }

  /** An operation is answered with success exactly when its last transaction committed; one
      not answered yet has had none, or one that met a closed connection. */
  predicate AsEnded(s: State, op: nat, last: Option<TxEnd>, turns: nat) {
    if op !in s.ops then last.None? && turns == 0
    else
      && s.ops[op].tries == turns
      && match s.ops[op]
         case Answered(ok, _) => (ok <==> last == Some(Committed))
         case _ => if turns == 0 then last.None? else turns == 1 && last == Some(InvalidState)
  }

  lemma StepAsEnded(s: State, step: Step, op: nat, last: Option<TxEnd>, turns: nat)
    requires Sound(s) && Legal(s, step) && AsEnded(s, op, last, turns)
    ensures AsEnded(Next(s, step), op, Later(last, Ended(step, op)), turns + if Ended(step, op).Some? then 1 else 0)
  {
    if step.Transact? && step.op == op {
      assert OpServed(s, s.ops[op]);
    }
  }

  lemma {:induction false} RunAsEnded(s: State, steps: seq<Step>, op: nat, last: Option<TxEnd>, turns: nat)
    requires Sound(s) && LegalRun(s, steps) && AsEnded(s, op, last, turns)
    ensures AsEnded(Run(s, steps), op, Later(last, LastEnd(steps, op)), turns + Turns(steps, op))
    ensures op in Run(s, steps).ops <==> op in s.ops || Called(steps, op)
    decreases |steps|
  {
    if steps != [] {
      StepAsEnded(s, steps[0], op, last, turns);
      StepSound(s, steps[0]);
      RunAsEnded(Next(s, steps[0]), steps[1..], op, Later(last, Ended(steps[0], op)),
                 turns + if Ended(steps[0], op).Some? then 1 else 0);
    }
  }

  /** In every run: an operation is answered with success exactly when its last transaction
      committed; a refusal, or a second closed connection, is an answer, and a failure;
      nothing is answered that was not asked. */
  lemma AnsweredAsCommitted(steps: seq<Step>, op: nat)
    requires LegalRun(Start(), steps)
    ensures var z, last, turns := Run(Start(), steps), LastEnd(steps, op), Turns(steps, op);
            && (op in z.ops <==> Called(steps, op))
            && (last == Some(Committed) <==> op in z.ops && z.ops[op] == Answered(true, turns))
            && (last == Some(Refused) ==> op in z.ops && z.ops[op] == Answered(false, turns))
            && (last == Some(InvalidState) && turns >= 2 ==> op in z.ops && z.ops[op] == Answered(false, turns))
  {
    StartSound();
    RunAsEnded(Start(), steps, op, None, 0);
  }

  /** Its first `InvalidStateError` is no answer: the operation holds a connection again, or
      waits for one. */
  lemma FirstInvalidStateIsNoAnswer(steps: seq<Step>, op: nat)
    requires LegalRun(Start(), steps) && Legal(Run(Start(), steps), Transact(op, InvalidState)) && Turns(steps, op) == 0
    ensures var z := Next(Run(Start(), steps), Transact(op, InvalidState));
            op in z.ops && !z.ops[op].Answered?
  {
    StartSound();
    RunAsEnded(Start(), steps, op, None, 0);
  }

  /** Steps under which nothing is lost: no failure, no upgrade elsewhere, no close. */
  predicate Calm(step: Step) {
    step.Call? || step.Opened? || (step.Transact? && !step.end.InvalidState?)
  }

  /** Any number of operations then cost one open between them. */
  lemma {:induction false} OneOpenServesAll(s: State, steps: seq<Step>)
    requires Sound(s) && LegalRun(s, steps) && forall i :: 0 <= i < |steps| ==> Calm(steps[i])
    requires s.started == 0 || (s.started == 1 && (s.opening.Some? || s.cached.Some?))
    ensures Run(s, steps).started <= 1
    decreases |steps|
  {
    if steps != [] {
      assert Calm(steps[0]);
      StepSound(s, steps[0]);
      OneOpenServesAll(Next(s, steps[0]), steps[1..]);
    }
  }

  // ---- Why the two guards are there -------------------------------------------------------

  /** `close()` keeps the invariant exactly when no open is in flight. */
  lemma CloseKeepsExactly(s: State)
    requires Sound(s)
    ensures Sound(Next(s, Close)) <==> s.opening.None?
  {
  }

  /** A `close()` during an open forgets that open, a second is started, both arrive, and
      the first connection stays open where closing the store again will not close it; only
      the browser, or another tab's upgrade, still can. */
  lemma CloseDuringOpenLeaks()
    ensures var z := Next(Next(Next(Next(Next(Start(), Call(0)), Close), Call(1)), Opened(0)), Opened(1));
            && z.live == {0, 1} && z.cached == Some(1)
            && Next(z, Close).live == {0}
            && Next(z, VersionChange(0)).live == {1}
  {
  }

  /** An `InvalidStateError` leaves no stray connection exactly when it came from a
      connection that was closed. */
  lemma InvalidStateKeepsExactly(s: State, op: nat)
    requires Sound(s) && op in s.ops && s.ops[op].Holds?
    ensures NoStray(Next(s, Transact(op, InvalidState))) <==> s.ops[op].conn !in s.live
  {
  }

  // ---- The store ------------------------------------------------------------------------------

  /** `cached` and `opening` are the store's own variables; the rest stands for the
      browser and for the operations awaiting it. */
  class KeyValueStore {
    var cached: Option<nat>
    var opening: Option<nat>
    var opens: map<nat, Phase>
    var started: nat
    var live: set<nat>
    var made: nat
    var ops: map<nat, Op>

    function Now(): State
      reads this
    {
      State(cached, opening, opens, started, live, made, ops)
    }

    constructor ()
      ensures Now() == Start()
    {
      cached := None;
      opening := None;
      opens := map[];
      started := 0;
      live := {};
      made := 0;
      ops := map[];
    }

    /** Identity decides: a stale event must not evict the live connection. */
    method Drop(conn: nat)
      modifies this`cached
      ensures Now() == Forget(old(Now()), conn)
    {
      if cached == Some(conn) { cached := None; }
    }

    method Connection(op: nat, tries: nat)
      modifies this`opening, this`opens, this`started, this`ops
      ensures Now() == Connect(old(Now()), op, tries)
    {
      if cached.Some? {
        ops := ops[op := Holds(cached.value, tries)];
        return;
      }
      if opening.None? {
        opening := Some(started);
        opens := opens[started := Awaited];
        started := started + 1;
      }
      ops := ops[op := WaitsFor(opening.value, tries)];
    }

    /** `onsuccess`: the deadline may have passed, and then nobody will have it. */
    method OnSuccess(open: nat)
      requires open in opens
      modifies this
      ensures Now() == Next(old(Now()), Opened(open))
    {
      var abandoned := opens[open] == Abandoned;
      opens := opens - {open};
      var conn := made;
      made := made + 1;
      if abandoned {
        return;
      }
      live := live + {conn};
      cached := Some(conn);
      opening := None;
      ops := Wake(ops, open, Some(conn));
    }

    method OnError(open: nat)
      requires open in opens
      modifies this
      ensures Now() == Next(old(Now()), OpenFailed(open))
    {
      var abandoned := opens[open] == Abandoned;
      opens := opens - {open};
      if !abandoned {
        opening := None;
        ops := Wake(ops, open, None);
      }
    }

    method OnDeadline(open: nat)
      modifies this
      ensures Now() == Next(old(Now()), Deadline(open))
    {
      opens := opens[open := Abandoned];
      opening := None;
      ops := Wake(ops, open, None);
    }

    method OnVersionChange(conn: nat)
      modifies this
      ensures Now() == Next(old(Now()), VersionChange(conn))
    {
      Drop(conn);
      live := live - {conn};
    }

    /** One turn of the retry loop: the transaction of an operation ends. */
    method OnTransaction(op: nat, end: TxEnd)
      requires op in ops && ops[op].Holds?
      modifies this
      ensures Now() == Next(old(Now()), Transact(op, end))
    {
      var conn, attempt := ops[op].conn, ops[op].tries;
      if end != InvalidState {
        ops := ops[op := Answered(end == Committed, attempt + 1)];
        return;
      }
      Drop(conn);
      if attempt > 0 {
        ops := ops[op := Answered(false, attempt + 1)];
      } else {
        Connection(op, attempt + 1);
      }
    }

    method CloseStore()
      modifies this
      ensures Now() == Next(old(Now()), Close)
    {
      var conn := cached;
      cached := None;
      opening := None;
      if conn.Some? { live := live - {conn.value}; }
    }
  }
}
