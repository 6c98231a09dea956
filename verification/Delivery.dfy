/**
 Replay against a network that loses responses and a page that can die anywhere.

 One queue instance, one server that remembers the idempotency keys it has seen.
 A request takes effect while its send is outstanding or not at all; a crash loses
 whatever replay was running but not the table.
 */
module Delivery {
  import opened Common
  import opened OfflineQueue

  /** The first effect of a key at the server. */
  datatype Effect = Effect(owner: string, key: string, seqNo: int)

  /** A replay under way: the rows it listed and has not settled, and whether the
      first of them is on the wire. */
  datatype Job = Idle | Replaying(owner: string, work: seq<Row>, sending: bool)

  datatype State = State(table: Table, job: Job, log: seq<Effect>, accepted: seq<Row>, maxAttempts: int)

  datatype Step =
    | Enqueue(row: Row)
    | Begin(owner: string, lane: seq<Row>)
    | Send
    | Take                       // the server processes the request on the wire
    | Respond(outcome: Outcome)  // the send settles, and the row with it
    | Finish
    | Crash

  predicate Seen(log: seq<Effect>, key: string) {
    exists i :: 0 <= i < |log| && log[i].key == key
  }

  predicate Legal(s: State, step: Step) {
    match step
    case Enqueue(row) =>
      && row.status == Pending && row.attempts == 0
      && Newest(s.accepted, row)
    case Begin(owner, lane) => s.job.Idle? && IsLane(s.table, owner, lane)
    case Send => s.job.Replaying? && s.job.work != [] && !s.job.sending
    case Take => s.job.Replaying? && s.job.work != [] && s.job.sending
    case Respond(outcome) =>
      && s.job.Replaying? && s.job.work != [] && s.job.sending
      && (outcome.ok ==> Seen(s.log, s.job.work[0].key))
    case Finish => s.job.Replaying? && s.job.work == []
    case Crash => true
  }

  function Next(s: State, step: Step): State
    requires Legal(s, step)
  {
    match step
    case Enqueue(row) => s.(table := s.table[row.id := row], accepted := s.accepted + [row])
    case Begin(owner, lane) => s.(job := Replaying(owner, lane, false))
    case Send => s.(job := s.job.(sending := true))
    case Take =>
      var r := s.job.work[0];
      if Seen(s.log, r.key) then s else s.(log := s.log + [Effect(r.owner, r.key, r.seqNo)])
    case Respond(outcome) =>
      var r := s.job.work[0];
      var d := ClassifyReplayOutcome(outcome, r.attempts, s.maxAttempts);
      s.(table := Settle(s.table, r, d),
         job := if d == Retry then Idle else s.job.(work := s.job.work[1..], sending := false))
    case Finish => s.(job := Idle)
    case Crash => s.(job := Idle)
  }

  predicate LegalRun(s: State, steps: seq<Step>)
    decreases |steps|
  {
    steps == [] || (Legal(s, steps[0]) && LegalRun(Next(s, steps[0]), steps[1..]))
  }

  function Run(s: State, steps: seq<Step>): State
    requires LegalRun(s, steps)
    decreases |steps|
  {
    if steps == [] then s else Run(Next(s, steps[0]), steps[1..])
  }

  function Start(maxAttempts: int): State {
    State(map[], Idle, [], [], maxAttempts)
  }

  // ---- What every step keeps ------------------------------------------------------------

  predicate SameMutation(a: Row, b: Row) {
    a.id == b.id && a.owner == b.owner && a.key == b.key && a.seqNo == b.seqNo
  }

  predicate WasAccepted(accepted: seq<Row>, r: Row) {
    exists i :: 0 <= i < |accepted| && SameMutation(accepted[i], r)
  }

  predicate Caused(a: Row, e: Effect) {
    a.owner == e.owner && a.key == e.key && a.seqNo == e.seqNo
  }

  predicate HasCause(accepted: seq<Row>, e: Effect) {
    exists i :: 0 <= i < |accepted| && Caused(accepted[i], e)
  }

  predicate Distinct(t: Table) {
    forall a, b :: a in t && b in t && a != b ==> t[a].seqNo != t[b].seqNo
  }

  /** Stored rows are accepted ones, under their own ids, told apart by sequence number. */
  predicate Stored(t: Table, accepted: seq<Row>) {
    && Keyed(t)
    && Distinct(t)
    && (forall id :: id in t ==> WasAccepted(accepted, t[id]))
  }

  /** What a replay still holds is the front of its owner's pending lane; rows that
      arrived since come after all of it. */
  predicate Front(t: Table, owner: string, work: seq<Row>) {
    && Ascending(work)
    && (forall i :: 0 <= i < |work| ==> InTable(t, work[i]) && Waiting(work[i], owner))
    && (forall id :: id in t && Waiting(t[id], owner) ==> t[id] in work || Younger(t[id], work))
  }

  predicate Younger(r: Row, work: seq<Row>) {
    forall i :: 0 <= i < |work| ==> work[i].seqNo < r.seqNo
  }

  /** No key takes effect twice, and each owner's effects come in sequence. */
  predicate InOrder(log: seq<Effect>) {
    && (forall i, j :: 0 <= i < j < |log| ==> log[i].key != log[j].key)
    && (forall i, j :: 0 <= i < j < |log| && log[i].owner == log[j].owner ==> log[i].seqNo < log[j].seqNo)
  }

  /** An effect is behind every row of its owner still pending, unless it is that row's own. */
  predicate Behind(e: Effect, r: Row) {
    e.owner == r.owner && r.status == Pending ==> e.seqNo < r.seqNo || (e.seqNo == r.seqNo && e.key == r.key)
  }

  predicate LogBehind(log: seq<Effect>, t: Table) {
    forall i, id :: 0 <= i < |log| && id in t ==> Behind(log[i], t[id])
  }

  predicate AllCaused(log: seq<Effect>, accepted: seq<Row>) {
    forall i :: 0 <= i < |log| ==> HasCause(accepted, log[i])
  }

  predicate Kept(t: Table, a: Row) {
    a.id in t && SameMutation(a, t[a.id])
  }

  /** Every mutation ever accepted is still in the table, in one lane, or its key has
      taken effect. */
  predicate Accounted(accepted: seq<Row>, t: Table, log: seq<Effect>) {
    forall i :: 0 <= i < |accepted| ==> Kept(t, accepted[i]) || Seen(log, accepted[i].key)
  }

  predicate Sound(s: State) {
    && Stored(s.table, s.accepted)
    && Spared(s.table, s.maxAttempts)
    && (s.job.Replaying? ==> Front(s.table, s.job.owner, s.job.work))
    && InOrder(s.log)
    && LogBehind(s.log, s.table)
    && AllCaused(s.log, s.accepted)
    && Accounted(s.accepted, s.table, s.log)
  }

  // ---- A mutation is accepted -----------------------------------------------------------

  predicate Newest(accepted: seq<Row>, r: Row) {
    forall i :: 0 <= i < |accepted| ==> accepted[i].id != r.id && accepted[i].seqNo < r.seqNo
  }

  lemma MoreAccepted(accepted: seq<Row>, row: Row)
    ensures forall r :: WasAccepted(accepted, r) ==> WasAccepted(accepted + [row], r)
    ensures forall e :: HasCause(accepted, e) ==> HasCause(accepted + [row], e)
    ensures WasAccepted(accepted + [row], row)
  {
    var more := accepted + [row];
    forall r | WasAccepted(accepted, r) ensures WasAccepted(more, r) {
      var i :| 0 <= i < |accepted| && SameMutation(accepted[i], r);
      assert SameMutation(more[i], r);
    }
    forall e | HasCause(accepted, e) ensures HasCause(more, e) {
      var i :| 0 <= i < |accepted| && Caused(accepted[i], e);
      assert Caused(more[i], e);
    }
    assert SameMutation(more[|accepted|], row);
  }

  lemma NewestIsYoungest(t: Table, log: seq<Effect>, accepted: seq<Row>, row: Row)
    requires Stored(t, accepted) && AllCaused(log, accepted) && Newest(accepted, row)
    ensures row.id !in t
    ensures forall id :: id in t ==> t[id].seqNo < row.seqNo
    ensures forall i :: 0 <= i < |log| ==> Behind(log[i], row)
  {
    forall id | id in t ensures id != row.id && t[id].seqNo < row.seqNo {
      var i :| 0 <= i < |accepted| && SameMutation(accepted[i], t[id]);
    }
    forall i | 0 <= i < |log| ensures Behind(log[i], row) {
      var j :| 0 <= j < |accepted| && Caused(accepted[j], log[i]);
    }
  }

  lemma FrontGrows(t: Table, owner: string, work: seq<Row>, row: Row)
    requires Front(t, owner, work) && row.id !in t
    requires forall id :: id in t ==> t[id].seqNo < row.seqNo
    ensures Front(t[row.id := row], owner, work)
  {
    forall i | 0 <= i < |work| ensures InTable(t[row.id := row], work[i]) && work[i].seqNo < row.seqNo {
      assert InTable(t, work[i]);
    }
  }

  lemma AccountedGrows(accepted: seq<Row>, t: Table, log: seq<Effect>, row: Row)
    requires Accounted(accepted, t, log) && row.id !in t
    ensures Accounted(accepted + [row], t[row.id := row], log)
  {
    var more := accepted + [row];
    forall i | 0 <= i < |more| ensures Kept(t[row.id := row], more[i]) || Seen(log, more[i].key) {
      if i < |accepted| {
        assert more[i] == accepted[i];
      }
    }
  }

  lemma EnqueueSound(s: State, row: Row)
    requires Sound(s) && Legal(s, Enqueue(row))
    ensures Sound(Next(s, Enqueue(row)))
  {
    assert Newest(s.accepted, row);
    NewestIsYoungest(s.table, s.log, s.accepted, row);
    MoreAccepted(s.accepted, row);
    if s.job.Replaying? {
      FrontGrows(s.table, s.job.owner, s.job.work, row);
    }
    AccountedGrows(s.accepted, s.table, s.log, row);
  }

  // ---- The server takes the request on the wire -------------------------------------------

  lemma SeenMore(log: seq<Effect>, e: Effect)
    ensures forall key :: Seen(log, key) ==> Seen(log + [e], key)
    ensures Seen(log + [e], e.key)
  {
    forall key | Seen(log, key) ensures Seen(log + [e], key) {
      var i :| 0 <= i < |log| && log[i].key == key;
      assert (log + [e])[i].key == key;
    }
    assert (log + [e])[|log|].key == e.key;
  }

  /** The row at the front is pending, and behind every effect but its own. */
  lemma FrontIsNext(log: seq<Effect>, t: Table, owner: string, work: seq<Row>)
    requires Front(t, owner, work) && work != [] && LogBehind(log, t) && InOrder(log) && !Seen(log, work[0].key)
    ensures InOrder(log + [Effect(work[0].owner, work[0].key, work[0].seqNo)])
  {
    var r := work[0];
    assert InTable(t, r) && Waiting(r, owner);
    forall i | 0 <= i < |log| ensures log[i].key != r.key
                              ensures log[i].owner == r.owner ==> log[i].seqNo < r.seqNo {
      assert Behind(log[i], t[r.id]);
    }
  }

  lemma FrontIsOldest(t: Table, owner: string, work: seq<Row>, id: Id)
    requires Front(t, owner, work) && work != [] && id in t && Keyed(t) && Distinct(t)
    ensures Behind(Effect(work[0].owner, work[0].key, work[0].seqNo), t[id])
  {
    assert InTable(t, work[0]) && Waiting(work[0], owner);
    if Waiting(t[id], owner) && t[id] in work {
      var i :| 0 <= i < |work| && work[i] == t[id];
      assert InTable(t, work[i]);
    }
  }

  lemma TakeSound(s: State)
    requires Sound(s) && Legal(s, Take)
    ensures Sound(Next(s, Take))
  {
    var r := s.job.work[0];
    if !Seen(s.log, r.key) {
      var e := Effect(r.owner, r.key, r.seqNo);
      FrontIsNext(s.log, s.table, s.job.owner, s.job.work);
      forall id | id in s.table ensures Behind(e, s.table[id]) {
        FrontIsOldest(s.table, s.job.owner, s.job.work, id);
      }
      assert InTable(s.table, r) && WasAccepted(s.accepted, s.table[r.id]);
      var j :| 0 <= j < |s.accepted| && SameMutation(s.accepted[j], r);
      assert Caused(s.accepted[j], e);
      SeenMore(s.log, e);
    }
  }

  // ---- The send settles -----------------------------------------------------------------------

  /** What settling does to the table, row by row. */
  lemma SettleKeeps(t: Table, r: Row, outcome: Outcome, maxAttempts: int)
    requires Keyed(t) && Spared(t, maxAttempts) && InTable(t, r) && r.status == Pending
    ensures var d := ClassifyReplayOutcome(outcome, r.attempts, maxAttempts);
            var u := Settle(t, r, d);
            && Keyed(u)
            && Spared(u, maxAttempts)
            && (forall id :: id in u ==> id in t && SameMutation(t[id], u[id])
                                         && (u[id].status == Pending ==> t[id].status == Pending))
            && (forall id :: id in t && (id != r.id || !outcome.ok) ==> id in u)
            && (forall id :: id in t && id != r.id ==> id in u && u[id] == t[id])
            && (d != Retry && r.id in u ==> u[r.id].status != Pending)
  {
  }

  lemma FrontAdvances(t: Table, u: Table, owner: string, work: seq<Row>)
    requires Keyed(t) && Front(t, owner, work) && work != []
    requires forall id :: id in t && id != work[0].id ==> id in u && u[id] == t[id]
    requires forall id :: id in u ==> id in t
    requires work[0].id in u ==> u[work[0].id].status != Pending
    ensures Front(u, owner, work[1..])
  {
    var rest := work[1..];
    assert InTable(t, work[0]);
    forall i | 0 <= i < |rest| ensures InTable(u, rest[i]) && Waiting(rest[i], owner) {
      assert rest[i] == work[i + 1] && InTable(t, work[i + 1]);
    }
    forall id | id in u && Waiting(u[id], owner) ensures u[id] in rest || Younger(u[id], rest) {
      if t[id] in work {
        var j :| 0 <= j < |work| && work[j] == t[id];
        assert rest[j - 1] == u[id];
      }
    }
  }

  lemma AccountedSettles(accepted: seq<Row>, t: Table, u: Table, log: seq<Effect>, r: Row)
    requires Accounted(accepted, t, log)
    requires forall id :: id in t && (id != r.id || !Seen(log, r.key)) ==> id in u
    requires forall id :: id in u ==> id in t && SameMutation(t[id], u[id])
    requires InTable(t, r)
    ensures Accounted(accepted, u, log)
  {
    forall i | 0 <= i < |accepted| && !Seen(log, accepted[i].key) ensures Kept(u, accepted[i]) {
      assert Kept(t, accepted[i]);
    }
  }

  lemma StoredSettles(t: Table, u: Table, log: seq<Effect>, accepted: seq<Row>)
    requires Stored(t, accepted) && LogBehind(log, t) && Keyed(u)
    requires forall id :: id in u ==> id in t && SameMutation(t[id], u[id])
    requires forall id :: id in u && u[id].status == Pending ==> t[id].status == Pending
    ensures Stored(u, accepted) && LogBehind(log, u)
  {
    forall id | id in u ensures WasAccepted(accepted, u[id]) {
      assert WasAccepted(accepted, t[id]);
      var i :| 0 <= i < |accepted| && SameMutation(accepted[i], t[id]);
      assert SameMutation(accepted[i], u[id]);
    }
    forall i, id | 0 <= i < |log| && id in u ensures Behind(log[i], u[id]) {
      assert Behind(log[i], t[id]);
    }
  }

  lemma RespondSound(s: State, outcome: Outcome)
    requires Sound(s) && Legal(s, Respond(outcome))
    ensures Sound(Next(s, Respond(outcome)))
  {
    var r := s.job.work[0];
    assert InTable(s.table, r) && Waiting(r, s.job.owner);
    SettleKeeps(s.table, r, outcome, s.maxAttempts);
    var d := ClassifyReplayOutcome(outcome, r.attempts, s.maxAttempts);
    var u := Settle(s.table, r, d);
    StoredSettles(s.table, u, s.log, s.accepted);
    AccountedSettles(s.accepted, s.table, u, s.log, r);
    if d != Retry {
      FrontAdvances(s.table, u, s.job.owner, s.job.work);
    }
  }

  lemma StepSound(s: State, step: Step)
    requires Sound(s) && Legal(s, step)
    ensures Sound(Next(s, step))
  {
    match step
    case Enqueue(row) => EnqueueSound(s, row);
    case Begin(owner, lane) =>
    case Send =>
    case Take => TakeSound(s);
    case Respond(outcome) => RespondSound(s, outcome);
    case Finish =>
    case Crash =>
  }

  // ---- Whole runs --------------------------------------------------------------------------

  lemma {:induction false} RunSound(s: State, steps: seq<Step>)
    requires Sound(s) && LegalRun(s, steps)
    ensures Sound(Run(s, steps)) && Run(s, steps).maxAttempts == s.maxAttempts
    decreases |steps|
  {
    if steps != [] {
      StepSound(s, steps[0]);
      RunSound(Next(s, steps[0]), steps[1..]);
    }
  }

  /** In every run, with responses lost and crashes anywhere: no mutation takes effect
      twice, each owner's effects come in the order it made them, only accepted
      mutations take effect, none records attempts past the ceiling, and none is lost. */
  lemma EffectsExactlyOnceInOrder(maxAttempts: int, steps: seq<Step>)
    requires LegalRun(Start(maxAttempts), steps)
    ensures var z := Run(Start(maxAttempts), steps);
            && InOrder(z.log)
            && AllCaused(z.log, z.accepted)
            && (forall id :: id in z.table ==> z.table[id].attempts <= maxAttempts || z.table[id].attempts <= 1)
            && Spared(z.table, maxAttempts)
            && Accounted(z.accepted, z.table, z.log)
  {
    RunSound(Start(maxAttempts), steps);
  }

  /** Once the table is empty, every accepted mutation's key has taken effect, once. */
  lemma DrainedMeansDelivered(maxAttempts: int, steps: seq<Step>, i: nat)
    requires LegalRun(Start(maxAttempts), steps)
    requires Run(Start(maxAttempts), steps).table == map[] && i < |Run(Start(maxAttempts), steps).accepted|
    ensures var z := Run(Start(maxAttempts), steps);
            exists k :: 0 <= k < |z.log| && z.log[k].key == z.accepted[i].key
                        && forall l :: 0 <= l < |z.log| && z.log[l].key == z.accepted[i].key ==> l == k
  {
    RunSound(Start(maxAttempts), steps);
    var z := Run(Start(maxAttempts), steps);
    assert Seen(z.log, z.accepted[i].key);
    var k :| 0 <= k < |z.log| && z.log[k].key == z.accepted[i].key;
    forall l | 0 <= l < |z.log| && z.log[l].key == z.accepted[i].key ensures l == k {
    }
  }

  // ---- How often a row is sent ---------------------------------------------------------------

  predicate OnWire(s: State, id: Id) {
    s.job.Replaying? && s.job.sending && s.job.work != [] && s.job.work[0].id == id
  }

  predicate Sends(s: State, step: Step, id: Id) {
    step.Send? && s.job.Replaying? && s.job.work != [] && s.job.work[0].id == id
  }

  function One(b: bool): nat { if b then 1 else 0 }

  /** The requests a run makes for one row. */
  function SendsOf(s: State, steps: seq<Step>, id: Id): nat
    requires LegalRun(s, steps)
    decreases |steps|
  {
    if steps == [] then 0 else One(Sends(s, steps[0], id)) + SendsOf(Next(s, steps[0]), steps[1..], id)
  }

  /** The crashes that come while the row is on the wire. */
  function HitsOf(s: State, steps: seq<Step>, id: Id): nat
    requires LegalRun(s, steps)
    decreases |steps|
  {
    if steps == [] then 0
    else One(steps[0].Crash? && OnWire(s, id)) + HitsOf(Next(s, steps[0]), steps[1..], id)
  }

  predicate Unknown(accepted: seq<Row>, id: Id) {
    forall i :: 0 <= i < |accepted| ==> accepted[i].id != id
  }

  /** A stored row's requests are its recorded attempts, the crashes that hit it, and the
      request on the wire; one that is gone kept within its ceiling, crashes apart. */
  predicate Budget(s: State, sends: nat, hits: nat, id: Id) {
    && (id in s.table ==> sends == s.table[id].attempts + hits + One(OnWire(s, id)))
    && (id !in s.table ==> !OnWire(s, id) && sends <= Ceiling(s.maxAttempts) + hits)
    && (Unknown(s.accepted, id) ==> sends == 0 && hits == 0)
  }

  lemma EnqueueBudget(s: State, row: Row, sends: nat, hits: nat, id: Id)
    requires Sound(s) && Legal(s, Enqueue(row)) && Budget(s, sends, hits, id)
    ensures Budget(Next(s, Enqueue(row)), sends, hits, id)
  {
    assert Newest(s.accepted, row);
    NewestIsYoungest(s.table, s.log, s.accepted, row);
    var z := Next(s, Enqueue(row));
    assert z.accepted[|s.accepted|] == row;
    assert forall i :: 0 <= i < |s.accepted| ==> z.accepted[i] == s.accepted[i];
    if s.job.Replaying? && s.job.work != [] {
      assert InTable(s.table, s.job.work[0]);
    }
  }

  lemma RespondBudget(s: State, outcome: Outcome, sends: nat, hits: nat, id: Id)
    requires Sound(s) && Legal(s, Respond(outcome)) && Budget(s, sends, hits, id)
    ensures Budget(Next(s, Respond(outcome)), sends, hits, id)
  {
    var r := s.job.work[0];
    assert InTable(s.table, r) && Waiting(r, s.job.owner);
    assert r.attempts < Ceiling(s.maxAttempts);
  }

  lemma StepBudget(s: State, step: Step, sends: nat, hits: nat, id: Id)
    requires Sound(s) && Legal(s, step) && Budget(s, sends, hits, id)
    ensures Budget(Next(s, step), sends + One(Sends(s, step, id)), hits + One(step.Crash? && OnWire(s, id)), id)
  {
    match step
    case Enqueue(row) => EnqueueBudget(s, row, sends, hits, id);
    case Begin(owner, lane) =>
    case Send =>
      var r := s.job.work[0];
      assert InTable(s.table, r);
      assert WasAccepted(s.accepted, s.table[r.id]);
    case Take =>
    case Respond(outcome) => RespondBudget(s, outcome, sends, hits, id);
    case Finish =>
    case Crash =>
      if OnWire(s, id) {
        var r := s.job.work[0];
        assert InTable(s.table, r);
        assert WasAccepted(s.accepted, s.table[r.id]);
      }
  }

  lemma {:induction false} RunBudget(s: State, steps: seq<Step>, sends: nat, hits: nat, id: Id)
    requires Sound(s) && LegalRun(s, steps) && Budget(s, sends, hits, id)
    ensures Budget(Run(s, steps), sends + SendsOf(s, steps, id), hits + HitsOf(s, steps, id), id)
    decreases |steps|
  {
    if steps != [] {
      StepSound(s, steps[0]);
      StepBudget(s, steps[0], sends, hits, id);
      RunBudget(Next(s, steps[0]), steps[1..], sends + One(Sends(s, steps[0], id)),
                hits + One(steps[0].Crash? && OnWire(s, id)), id);
    }
  }

  /** In every run a stored row has been sent once for each attempt it records, once for
      each crash that hit it on the wire, and once more if it is there now; and no row,
      stored or gone, oftener than the ceiling and its crashes allow. */
  lemma SendsExactly(maxAttempts: int, steps: seq<Step>, id: Id)
    requires LegalRun(Start(maxAttempts), steps)
    ensures var z, sends, hits := Run(Start(maxAttempts), steps), SendsOf(Start(maxAttempts), steps, id),
                                  HitsOf(Start(maxAttempts), steps, id);
            && (id in z.table ==> sends == z.table[id].attempts + hits + One(OnWire(z, id)))
            && sends <= hits + (if maxAttempts > 1 then maxAttempts else 1)
  {
    RunBudget(Start(maxAttempts), steps, 0, 0, id);
    RunSound(Start(maxAttempts), steps);
    var z := Run(Start(maxAttempts), steps);
    if OnWire(z, id) {
      assert InTable(z.table, z.job.work[0]) && Waiting(z.job.work[0], z.job.owner);
    }
  }

  // ---- What a row was last told ----------------------------------------------------------------

  /** The response a step brings for one row. */
  function Told(s: State, step: Step, id: Id): Option<Outcome> {
    if step.Respond? && s.job.Replaying? && s.job.work != [] && s.job.work[0].id == id then Some(step.outcome)
    else None
  }

  function Later(a: Option<Outcome>, b: Option<Outcome>): Option<Outcome> {
    if b.Some? then b else a
  }

  /** The last response a run brings for one row. */
  function LastTold(s: State, steps: seq<Step>, id: Id): Option<Outcome>
    requires LegalRun(s, steps)
    decreases |steps|
  {
    if steps == [] then None
    else Later(Told(s, steps[0], id), LastTold(Next(s, steps[0]), steps[1..], id))
  }

  /** A row is where its last response put it. A row that is gone, and was ever there, was
      accepted; one in the conflict lane clashed; one given up was rejected, or ran out of
      attempts; one still pending has been told nothing, or nothing final. */
  predicate AsTold(s: State, last: Option<Outcome>, id: Id) {
    if id in s.table then
      match s.table[id].status
      case Conflict => last.Some? && Clashes(last.value)
      case Failed =>
        last.Some? && (Rejected(last.value) || (Passing(last.value) && s.table[id].attempts >= s.maxAttempts))
      case Pending => (last.None? <==> s.table[id].attempts == 0) && (last.Some? ==> Passing(last.value))
    else if Unknown(s.accepted, id) then last.None?
    else last.Some? && last.value.ok
  }

  lemma EnqueueAsTold(s: State, row: Row, last: Option<Outcome>, id: Id)
    requires Sound(s) && Legal(s, Enqueue(row)) && AsTold(s, last, id)
    ensures AsTold(Next(s, Enqueue(row)), last, id)
  {
    assert Newest(s.accepted, row);
    NewestIsYoungest(s.table, s.log, s.accepted, row);
    var z := Next(s, Enqueue(row));
    assert z.accepted[|s.accepted|] == row;
    assert forall i :: 0 <= i < |s.accepted| ==> z.accepted[i] == s.accepted[i];
  }

  lemma RespondAsTold(s: State, outcome: Outcome, last: Option<Outcome>, id: Id)
    requires Sound(s) && Legal(s, Respond(outcome)) && AsTold(s, last, id)
    ensures AsTold(Next(s, Respond(outcome)), Later(last, Told(s, Respond(outcome), id)), id)
  {
    var r := s.job.work[0];
    assert InTable(s.table, r) && Waiting(r, s.job.owner);
    assert WasAccepted(s.accepted, s.table[r.id]);
  }

  lemma StepAsTold(s: State, step: Step, last: Option<Outcome>, id: Id)
    requires Sound(s) && Legal(s, step) && AsTold(s, last, id)
    ensures AsTold(Next(s, step), Later(last, Told(s, step, id)), id)
  {
    match step
    case Enqueue(row) => EnqueueAsTold(s, row, last, id);
    case Respond(outcome) => RespondAsTold(s, outcome, last, id);
    case _ =>
      var z := Next(s, step);
      assert z.table == s.table && z.accepted == s.accepted && z.maxAttempts == s.maxAttempts;
  }

  lemma {:induction false} RunAsTold(s: State, steps: seq<Step>, last: Option<Outcome>, id: Id)
    requires Sound(s) && LegalRun(s, steps) && AsTold(s, last, id)
    ensures AsTold(Run(s, steps), Later(last, LastTold(s, steps, id)), id)
    decreases |steps|
  {
    if steps != [] {
      StepAsTold(s, steps[0], last, id);
      StepSound(s, steps[0]);
      RunAsTold(Next(s, steps[0]), steps[1..], Later(last, Told(s, steps[0], id)), id);
    }
  }

  /** In every run, with the codes written out: a conflicting row was last told 409; one
      given up below the ceiling a 4xx other than 408, 409, 425 and 429; one still pending
      nothing, or neither of these; and a row leaves the table only on an acceptance. */
  lemma RowsAreAsTold(maxAttempts: int, steps: seq<Step>, id: Id)
    requires LegalRun(Start(maxAttempts), steps)
    ensures var z, last := Run(Start(maxAttempts), steps), LastTold(Start(maxAttempts), steps, id);
            && AsTold(z, last, id)
            && (id in z.table && z.table[id].status == Failed && z.table[id].attempts < maxAttempts ==>
                  last.Some? && Rejected(last.value))
  {
    RunAsTold(Start(maxAttempts), steps, None, id);
    RunSound(Start(maxAttempts), steps);
  }

  /** Replays of a lone row that each die with the row on the wire. */
  function Rounds(row: Row, n: nat): seq<Step> {
    if n == 0 then [] else [Begin(row.owner, [row]), Send, Crash] + Rounds(row, n - 1)
  }

  lemma {:induction false} RoundsChangeNothing(s: State, row: Row, n: nat)
    requires s.job == Idle && s.table == map[row.id := row] && row.status == Pending
    ensures LegalRun(s, Rounds(row, n)) && Run(s, Rounds(row, n)) == s
    ensures SendsOf(s, Rounds(row, n), row.id) == HitsOf(s, Rounds(row, n), row.id) == n
  {
    if n > 0 {
      var begin, rest := Begin(row.owner, [row]), Rounds(row, n - 1);
      var s1 := Next(s, begin);
      var s2 := Next(s1, Send);
      assert Next(s2, Crash) == s;
      RoundsChangeNothing(s, row, n - 1);
      FirstCounts(s2, Crash, rest, row.id);
      FirstCounts(s1, Send, [Crash] + rest, row.id);
      FirstCounts(s, begin, [Send] + ([Crash] + rest), row.id);
      assert Rounds(row, n) == [begin] + ([Send] + ([Crash] + rest));
    }
  }

  lemma FirstCounts(s: State, a: Step, rest: seq<Step>, id: Id)
    requires Legal(s, a) && LegalRun(Next(s, a), rest)
    ensures LegalRun(s, [a] + rest) && Run(s, [a] + rest) == Run(Next(s, a), rest)
    ensures SendsOf(s, [a] + rest, id) == One(Sends(s, a, id)) + SendsOf(Next(s, a), rest, id)
    ensures HitsOf(s, [a] + rest, id) == One(a.Crash? && OnWire(s, id)) + HitsOf(Next(s, a), rest, id)
  {
    assert ([a] + rest)[1..] == rest;
  }

  /** The ceiling bounds no more than that: for any number of sends there is a run that
      makes them and records no attempt. */
  lemma CrashesResend(maxAttempts: int, row: Row, n: nat)
    requires row.status == Pending && row.attempts == 0
    ensures var steps := [Enqueue(row)] + Rounds(row, n);
            && LegalRun(Start(maxAttempts), steps)
            && Run(Start(maxAttempts), steps).table == map[row.id := row]
            && SendsOf(Start(maxAttempts), steps, row.id) == n
  {
    var s := Start(maxAttempts);
    RoundsChangeNothing(Next(s, Enqueue(row)), row, n);
    FirstCounts(s, Enqueue(row), Rounds(row, n), row.id);
  }

  // ---- An undisturbed replay -----------------------------------------------------------------

  /** The steps of a replay nothing interrupts, against a server that answers `send`. */
  function ReplaySteps(lane: seq<Row>, send: Sender, maxAttempts: int): seq<Step>
    decreases |lane|
  {
    if lane == [] then [Finish]
    else
      [Send, Take, Respond(send(lane[0]))]
      + if Decide(lane[0], send, maxAttempts) == Retry then [] else ReplaySteps(lane[1..], send, maxAttempts)
  }

  lemma First(s: State, a: Step, rest: seq<Step>)
    requires Legal(s, a) && LegalRun(Next(s, a), rest)
    ensures LegalRun(s, [a] + rest) && Run(s, [a] + rest) == Run(Next(s, a), rest)
  {
    assert ([a] + rest)[1..] == rest;
  }

  lemma Three(s: State, a: Step, b: Step, c: Step, rest: seq<Step>)
    requires Legal(s, a) && Legal(Next(s, a), b) && Legal(Next(Next(s, a), b), c)
    requires LegalRun(Next(Next(Next(s, a), b), c), rest)
    ensures LegalRun(s, [a, b, c] + rest)
    ensures Run(s, [a, b, c] + rest) == Run(Next(Next(Next(s, a), b), c), rest)
  {
    First(Next(Next(s, a), b), c, rest);
    First(Next(s, a), b, [c] + rest);
    First(s, a, [b] + ([c] + rest));
    assert [a, b, c] + rest == [a] + ([b] + ([c] + rest));
  }

  /** It is a run of the machine, and leaves the table the queue's replay leaves. */
  lemma {:induction false} ReplayIsARun(s: State, send: Sender)
    requires s.job.Replaying? && !s.job.sending
    ensures var steps := ReplaySteps(s.job.work, send, s.maxAttempts);
            && LegalRun(s, steps)
            && Run(s, steps).job == Idle
            && Run(s, steps).table == Drained(s.table, s.job.work, send, s.maxAttempts).table
    decreases |s.job.work|
  {
    var lane := s.job.work;
    if lane == [] {
      assert [Finish][1..] == [];
    } else {
      var o := send(lane[0]);
      var s1 := Next(s, Send);
      var s2 := Next(s1, Take);
      SeenMore(s1.log, Effect(lane[0].owner, lane[0].key, lane[0].seqNo));
      var s3 := Next(s2, Respond(o));
      var stops := Decide(lane[0], send, s.maxAttempts) == Retry;
      var rest := if stops then [] else ReplaySteps(lane[1..], send, s.maxAttempts);
      if rest != [] {
        ReplayIsARun(s3, send);
      }
      Three(s, Send, Take, Respond(o), rest);
    }
  }
}
