/**
 The offline write queue: a durable table of mutations, replayed first in, first
 out. A failed send either stops the run, so order survives, or moves its row to a
 lane where it blocks nobody.
 */
module OfflineQueue {
  import opened Common

  datatype Status = Pending | Failed | Conflict

  /** A primary key, of which only its rank among the keys matters. */
  datatype Id = Id(rank: int)

  datatype Row = Row(id: Id, owner: string, key: string, seqNo: int, attempts: nat, status: Status)

  /** What one send came to; a throw is `Outcome(false, None)`. */
  datatype Outcome = Outcome(ok: bool, code: Option<int>)

  datatype Decision = Sent | Conflicted | DeadLetter | Retry

  predicate IsRetryableStatus(code: int) {
    code == 408 || code == 425 || code == 429 || code >= 500
  }

  function ClassifyReplayOutcome(o: Outcome, attempts: nat, maxAttempts: int): Decision {
    if o.ok then Sent
    else if o.code == Some(409) then Conflicted
    else if o.code.Some? && 400 <= o.code.value < 500 && !IsRetryableStatus(o.code.value) then DeadLetter
    else if attempts + 1 >= maxAttempts then DeadLetter
    else Retry
  }

  /** The attempts a row may use: at least one is always made. */
  function Ceiling(maxAttempts: int): nat {
    Max(1, maxAttempts)
  }

  // ---- The table --------------------------------------------------------------------

  type Table = map<Id, Row>

  /** Rows sit under their own id. */
  predicate Keyed(t: Table) {
    forall id :: id in t ==> t[id].id == id
  }

  predicate Waiting(r: Row, owner: string) {
    r.owner == owner && r.status == Pending
  }

  /** By sequence number; the store lists equal ones by primary key. */
  predicate Before(a: Row, b: Row) {
    a.seqNo < b.seqNo || (a.seqNo == b.seqNo && a.id.rank < b.id.rank)
  }

  predicate Ascending(rows: seq<Row>) {
    forall i, j :: 0 <= i < j < |rows| ==> Before(rows[i], rows[j])
  }

  predicate InTable(t: Table, r: Row) {
    r.id in t && t[r.id] == r
  }

  /** The owner's pending lane, oldest first. */
  predicate IsLane(t: Table, owner: string, lane: seq<Row>) {
    && Ascending(lane)
    && (forall i :: 0 <= i < |lane| ==> InTable(t, lane[i]) && Waiting(lane[i], owner))
    && (forall id :: id in t && Waiting(t[id], owner) ==> t[id] in lane)
  }

  /** What a decision does to the row it is about. */
  function Settle(t: Table, r: Row, d: Decision): Table {
    match d
    case Sent => t - {r.id}
    case Conflicted => Amend(t, r.id, r.(status := Conflict, attempts := r.attempts + 1))
    case DeadLetter => Amend(t, r.id, r.(status := Failed, attempts := r.attempts + 1))
    case Retry => Amend(t, r.id, r.(attempts := r.attempts + 1))
  }

  /** An update of a row that is gone does nothing. */
  function Amend(t: Table, id: Id, r: Row): Table {
    if id in t then t[id := r] else t
  }

  // ---- One replay -------------------------------------------------------------------

  type Sender = Row -> Outcome

  function Decide(r: Row, send: Sender, maxAttempts: int): Decision {
    ClassifyReplayOutcome(send(r), r.attempts, maxAttempts)
  }

  datatype Tally = Tally(sent: nat, failed: nat, conflicts: nat)

  datatype Replayed = Replayed(table: Table, tally: Tally)

  /** Walk the lane, settling row by row, up to the first retry. */
  function Drained(t: Table, lane: seq<Row>, send: Sender, maxAttempts: int): Replayed
    decreases |lane|
  {
    if lane == [] then Replayed(t, Tally(0, 0, 0))
    else
      var d := Decide(lane[0], send, maxAttempts);
      var after := Settle(t, lane[0], d);
      if d == Retry then Replayed(after, Tally(0, 0, 0))
      else
        var rest := Drained(after, lane[1..], send, maxAttempts);
        rest.(tally := Counted(rest.tally, d))
  }

  function Counted(n: Tally, d: Decision): Tally {
    match d
    case Sent => n.(sent := n.sent + 1)
    case Conflicted => n.(conflicts := n.conflicts + 1)
    case DeadLetter => n.(failed := n.failed + 1)
    case Retry => n
  }

  /** Where the walk stops: the first row to retry, or past the end. */
  function Stop(lane: seq<Row>, send: Sender, maxAttempts: int): (k: nat)
    ensures k <= |lane|
    ensures forall i :: 0 <= i < k ==> Decide(lane[i], send, maxAttempts) != Retry
    ensures k < |lane| ==> Decide(lane[k], send, maxAttempts) == Retry
  {
    if lane == [] || Decide(lane[0], send, maxAttempts) == Retry then 0
    else 1 + Stop(lane[1..], send, maxAttempts)
  }

  /** What is left of a lane when its row `k` stopped the walk. */
  function Left(lane: seq<Row>, k: nat): seq<Row>
    requires k <= |lane|
  {
    if k == |lane| then [] else [lane[k].(attempts := lane[k].attempts + 1)] + lane[k + 1..]
  }

  lemma LeftTail(lane: seq<Row>, k: nat)
    requires 0 < k <= |lane|
    ensures Left(lane, k) == Left(lane[1..], k - 1)
  {
    if k < |lane| {
      assert lane[1..][k - 1] == lane[k];
      assert lane[1..][k..] == lane[k + 1..];
    }
  }

  lemma LaneIds(t: Table, owner: string, lane: seq<Row>)
    requires Keyed(t) && IsLane(t, owner, lane)
    ensures forall i, j :: 0 <= i < j < |lane| ==> lane[i].id != lane[j].id
  {
    forall i, j | 0 <= i < j < |lane| ensures lane[i].id != lane[j].id {
      assert InTable(t, lane[i]) && InTable(t, lane[j]);
    }
  }

  /** Settling one row leaves every other alone. */
  lemma SettleFrame(t: Table, r: Row, d: Decision)
    requires Keyed(t) && InTable(t, r)
    ensures Keyed(Settle(t, r, d))
    ensures Settle(t, r, d).Keys <= t.Keys
    ensures forall id :: id in t && id != r.id ==> id in Settle(t, r, d) && Settle(t, r, d)[id] == t[id]
  {
  }

  lemma LaneTail(t: Table, owner: string, lane: seq<Row>, d: Decision)
    requires Keyed(t) && IsLane(t, owner, lane) && lane != [] && d != Retry
    ensures IsLane(Settle(t, lane[0], d), owner, lane[1..])
  {
    var u, rest := Settle(t, lane[0], d), lane[1..];
    LaneIds(t, owner, lane);
    assert InTable(t, lane[0]);
    SettleFrame(t, lane[0], d);
    forall i | 0 <= i < |rest| ensures InTable(u, rest[i]) && Waiting(rest[i], owner) {
      assert rest[i] == lane[i + 1] && InTable(t, lane[i + 1]);
    }
    forall id | id in u && Waiting(u[id], owner) ensures u[id] in rest {
      assert t[id] in lane && id != lane[0].id;
      var j :| 0 <= j < |lane| && lane[j] == t[id];
      assert rest[j - 1] == t[id];
    }
  }

  lemma LaneRetried(t: Table, owner: string, lane: seq<Row>)
    requires Keyed(t) && IsLane(t, owner, lane) && lane != []
    ensures IsLane(Settle(t, lane[0], Retry), owner, Left(lane, 0))
  {
    var head := lane[0].(attempts := lane[0].attempts + 1);
    var u, rest := Settle(t, lane[0], Retry), Left(lane, 0);
    LaneTail(t, owner, lane, Sent);
    assert InTable(t, lane[0]) && Waiting(lane[0], owner);
    assert u == (t - {lane[0].id})[lane[0].id := head];
    assert rest == [head] + lane[1..];
    LaneGrows(t - {lane[0].id}, owner, lane[1..], head);
  }

  /** A row older than its lane goes in front of it. */
  lemma LaneGrows(t: Table, owner: string, lane: seq<Row>, r: Row)
    requires IsLane(t, owner, lane) && r.id !in t && Waiting(r, owner)
    requires forall i :: 0 <= i < |lane| ==> Before(r, lane[i])
    ensures IsLane(t[r.id := r], owner, [r] + lane)
  {
    var u, grown := t[r.id := r], [r] + lane;
    forall i | 0 <= i < |grown| ensures InTable(u, grown[i]) && Waiting(grown[i], owner) {
      if i > 0 { assert grown[i] == lane[i - 1] && InTable(t, lane[i - 1]); }
    }
    forall id | id in u && Waiting(u[id], owner) ensures u[id] in grown {
      if id != r.id { assert t[id] in lane; }
    }
  }

  /** After a replay the pending lane is exactly the rows from the one that stopped
      it, one attempt later. */
  lemma {:induction false} DrainedLane(t: Table, owner: string, lane: seq<Row>, send: Sender, maxAttempts: int)
    requires Keyed(t) && IsLane(t, owner, lane)
    ensures var r := Drained(t, lane, send, maxAttempts);
            Keyed(r.table) && IsLane(r.table, owner, Left(lane, Stop(lane, send, maxAttempts)))
    decreases |lane|
  {
    if lane != [] {
      var d := Decide(lane[0], send, maxAttempts);
      assert InTable(t, lane[0]);
      SettleFrame(t, lane[0], d);
      if d == Retry {
        LaneRetried(t, owner, lane);
      } else {
        LaneTail(t, owner, lane, d);
        DrainedLane(Settle(t, lane[0], d), owner, lane[1..], send, maxAttempts);
        LeftTail(lane, Stop(lane, send, maxAttempts));
      }
    }
  }

  predicate OffLane(lane: seq<Row>, id: Id) {
    forall i :: 0 <= i < |lane| ==> lane[i].id != id
  }

  /** Nothing outside the pending lane moves. */
  lemma {:induction false} DrainedFrame(t: Table, owner: string, lane: seq<Row>, send: Sender, maxAttempts: int, id: Id)
    requires Keyed(t) && IsLane(t, owner, lane) && OffLane(lane, id)
    ensures var after := Drained(t, lane, send, maxAttempts).table;
            && (id in t <==> id in after)
            && (id in t ==> after[id] == t[id])
    decreases |lane|
  {
    if lane != [] {
      var d := Decide(lane[0], send, maxAttempts);
      assert InTable(t, lane[0]);
      SettleFrame(t, lane[0], d);
      if d != Retry {
        LaneTail(t, owner, lane, d);
        assert OffLane(lane[1..], id) by {
          assert forall i :: 0 <= i < |lane| - 1 ==> lane[1..][i] == lane[i + 1];
        }
        DrainedFrame(Settle(t, lane[0], d), owner, lane[1..], send, maxAttempts, id);
      }
    }
  }

  /** Conservation: sent, failed, conflicting and still pending rows add up to the
      rows that were pending. */
  lemma {:induction false} ReplayConserves(t: Table, lane: seq<Row>, send: Sender, maxAttempts: int)
    ensures var n := Drained(t, lane, send, maxAttempts).tally;
            n.sent + n.failed + n.conflicts + |Left(lane, Stop(lane, send, maxAttempts))| == |lane|
    decreases |lane|
  {
    if lane != [] {
      var d := Decide(lane[0], send, maxAttempts);
      if d != Retry {
        ReplayConserves(Settle(t, lane[0], d), lane[1..], send, maxAttempts);
      }
    }
  }

  /** Where a settled row is found afterwards. */
  predicate SettledAs(t: Table, r: Row, d: Decision) {
    match d
    case Sent => r.id !in t
    case Conflicted => InTable(t, r.(status := Conflict, attempts := r.attempts + 1))
    case DeadLetter => InTable(t, r.(status := Failed, attempts := r.attempts + 1))
    case Retry => InTable(t, r.(attempts := r.attempts + 1))
  }

  lemma HeadSettled(t: Table, owner: string, lane: seq<Row>, send: Sender, maxAttempts: int)
    requires Keyed(t) && IsLane(t, owner, lane) && lane != []
    ensures SettledAs(Drained(t, lane, send, maxAttempts).table, lane[0], Decide(lane[0], send, maxAttempts))
  {
    var d := Decide(lane[0], send, maxAttempts);
    var u := Settle(t, lane[0], d);
    assert InTable(t, lane[0]);
    assert SettledAs(u, lane[0], d);
    if d != Retry {
      SettleFrame(t, lane[0], d);
      LaneTail(t, owner, lane, d);
      LaneIds(t, owner, lane);
      DrainedFrame(u, owner, lane[1..], send, maxAttempts, lane[0].id);
    }
  }

  /** Every row the walk reached is in the one place its own outcome put it. */
  lemma {:induction false} EachSettled(t: Table, owner: string, lane: seq<Row>, send: Sender, maxAttempts: int, i: nat)
    requires Keyed(t) && IsLane(t, owner, lane)
    requires i < |lane| && i <= Stop(lane, send, maxAttempts)
    ensures SettledAs(Drained(t, lane, send, maxAttempts).table, lane[i], Decide(lane[i], send, maxAttempts))
    decreases |lane|
  {
    if i == 0 {
      HeadSettled(t, owner, lane, send, maxAttempts);
    } else {
      var d := Decide(lane[0], send, maxAttempts);
      assert InTable(t, lane[0]);
      SettleFrame(t, lane[0], d);
      LaneTail(t, owner, lane, d);
      EachSettled(Settle(t, lane[0], d), owner, lane[1..], send, maxAttempts, i - 1);
    }
  }

  // ---- Which response leads where -------------------------------------------------------

  predicate Accepts(o: Outcome) {
    o.ok
  }

  /** The server already has another version. */
  predicate Clashes(o: Outcome) {
    !o.ok && o.code == Some(409)
  }

  /** The server will never take it: a 4xx other than 408, 409, 425 and 429. */
  predicate Rejected(o: Outcome) {
    !o.ok && o.code.Some? && 400 <= o.code.value <= 499 && o.code.value !in {408, 409, 425, 429}
  }

  /** Anything else that is not an acceptance may pass, above all a send that throws. */
  predicate Passing(o: Outcome) {
    !o.ok && !Clashes(o) && !Rejected(o)
  }

  /** Where each row the walk reached is found afterwards, by what its own send came to:
      gone, in the conflict lane, in the failed lane, or, after a failure that may pass and
      with attempts to spare, still pending; and then the walk went no further. */
  lemma EachLands(t: Table, owner: string, lane: seq<Row>, send: Sender, maxAttempts: int, i: nat)
    requires Keyed(t) && IsLane(t, owner, lane)
    requires i < |lane| && i <= Stop(lane, send, maxAttempts)
    ensures var o, r, after := send(lane[i]), lane[i], Drained(t, lane, send, maxAttempts).table;
            var tried := r.(attempts := r.attempts + 1);
            && (o.ok ==> r.id !in after)
            && (Clashes(o) ==> InTable(after, tried.(status := Conflict)))
            && (Rejected(o) ==> InTable(after, tried.(status := Failed)))
            && (Passing(o) && r.attempts + 1 >= maxAttempts ==> InTable(after, tried.(status := Failed)))
            && (Passing(o) && r.attempts + 1 < maxAttempts ==> InTable(after, tried))
            && (Stop(lane, send, maxAttempts) == i <==> Passing(o) && r.attempts + 1 < maxAttempts)
  {
    EachSettled(t, owner, lane, send, maxAttempts, i);
  }

  /** A send that throws, or meets 408, 425, 429 or a 5xx, with attempts to spare, stops the
      replay at once: the whole lane stays pending, in order, and nothing is counted. */
  lemma TransientStops(t: Table, owner: string, lane: seq<Row>, send: Sender, maxAttempts: int)
    requires Keyed(t) && IsLane(t, owner, lane) && lane != [] && lane[0].attempts + 1 < maxAttempts
    requires var o := send(lane[0]);
             !o.ok && (o.code.None? || o.code.value in {408, 425, 429} || o.code.value >= 500)
    ensures var d := Drained(t, lane, send, maxAttempts);
            && d.tally == Tally(0, 0, 0)
            && IsLane(d.table, owner, [lane[0].(attempts := lane[0].attempts + 1)] + lane[1..])
  {
    DrainedLane(t, owner, lane, send, maxAttempts);
  }

  function Many(lane: seq<Row>, send: Sender, p: Outcome -> bool): nat {
    if lane == [] then 0 else (if p(send(lane[0])) then 1 else 0) + Many(lane[1..], send, p)
  }

  /** The counts a replay reports are those of the rows it settled: accepted, clashing, and
      given up. */
  lemma {:induction false} TallyCounts(t: Table, lane: seq<Row>, send: Sender, maxAttempts: int)
    ensures var n, settled := Drained(t, lane, send, maxAttempts).tally, lane[..Stop(lane, send, maxAttempts)];
            && n.sent == Many(settled, send, Accepts)
            && n.conflicts == Many(settled, send, Clashes)
            && n.sent + n.conflicts + n.failed == |settled|
    decreases |lane|
  {
    if lane != [] && Decide(lane[0], send, maxAttempts) != Retry {
      var k := Stop(lane, send, maxAttempts);
      TallyCounts(Settle(t, lane[0], Decide(lane[0], send, maxAttempts)), lane[1..], send, maxAttempts);
      assert lane[..k][1..] == lane[1..][..k - 1];
    }
  }

  // ---- Termination --------------------------------------------------------------------

  /** Pending rows have attempts to spare; no row ever had more than the ceiling. */
  predicate Spared(t: Table, maxAttempts: int) {
    forall id :: id in t ==>
      && t[id].attempts <= Ceiling(maxAttempts)
      && (t[id].status == Pending ==> t[id].attempts < Ceiling(maxAttempts))
  }

  lemma {:induction false} DrainedSpares(t: Table, lane: seq<Row>, send: Sender, maxAttempts: int)
    requires Spared(t, maxAttempts)
    requires forall i :: 0 <= i < |lane| ==> lane[i].attempts < Ceiling(maxAttempts)
    ensures Spared(Drained(t, lane, send, maxAttempts).table, maxAttempts)
    decreases |lane|
  {
    if lane != [] {
      DrainedSpares(Settle(t, lane[0], Decide(lane[0], send, maxAttempts)), lane[1..], send, maxAttempts);
    }
  }

  /** Attempts left over a lane. */
  function Room(lane: seq<Row>, maxAttempts: int): int {
    if lane == [] then 0 else Ceiling(maxAttempts) - lane[0].attempts + Room(lane[1..], maxAttempts)
  }

  lemma {:induction false} RoomTail(lane: seq<Row>, maxAttempts: int, k: nat)
    requires forall i :: 0 <= i < |lane| ==> lane[i].attempts < Ceiling(maxAttempts)
    requires k <= |lane|
    ensures Room(lane, maxAttempts) >= k + Room(lane[k..], maxAttempts)
    ensures Room(lane, maxAttempts) >= |lane|
    decreases |lane|
  {
    if lane != [] {
      RoomTail(lane[1..], maxAttempts, if k == 0 then 0 else k - 1);
      if k > 0 {
        assert lane[1..][k - 1..] == lane[k..];
      }
    }
  }

  /** A replay of a non-empty lane uses attempts up: the room strictly shrinks. */
  lemma ReplayShrinks(lane: seq<Row>, send: Sender, maxAttempts: int)
    requires lane != []
    requires forall i :: 0 <= i < |lane| ==> lane[i].attempts < Ceiling(maxAttempts)
    ensures var k := Stop(lane, send, maxAttempts);
            0 <= Room(Left(lane, k), maxAttempts) < Room(lane, maxAttempts)
  {
    var k := Stop(lane, send, maxAttempts);
    RoomTail(lane, maxAttempts, k);
    if k < |lane| {
      var left := Left(lane, k);
      assert left[1..] == lane[k..][1..] == lane[k + 1..];
      assert Room(left, maxAttempts) == Room(lane[k..], maxAttempts) - 1;
      RoomTail(lane[k + 1..], maxAttempts, 0);
    }
  }

  /** Replays one after another, each under its own network. */
  ghost predicate Replays(before: Table, owner: string, sends: seq<Sender>, maxAttempts: int, after: Table)
    decreases |sends|
  {
    if sends == [] then before == after
    else exists lane ::
      && IsLane(before, owner, lane)
      && Replays(Drained(before, lane, sends[0], maxAttempts).table, owner, sends[1..], maxAttempts, after)
  }

  /** However badly the network behaves, as many replays as the lane has attempts
      left empty it. */
  lemma {:induction false} EnoughReplaysDrain(before: Table, owner: string, lane: seq<Row>, sends: seq<Sender>,
                                               maxAttempts: int, after: Table)
    requires Keyed(before) && Spared(before, maxAttempts) && IsLane(before, owner, lane)
    requires Replays(before, owner, sends, maxAttempts, after)
    requires |sends| >= Room(lane, maxAttempts)
    ensures IsLane(after, owner, [])
    ensures Spared(after, maxAttempts)
    decreases |sends|
  {
    forall i | 0 <= i < |lane| ensures lane[i].attempts < Ceiling(maxAttempts) {
      assert InTable(before, lane[i]) && Waiting(lane[i], owner);
    }
    RoomTail(lane, maxAttempts, 0);
    if sends != [] {
      var l :| && IsLane(before, owner, l)
               && Replays(Drained(before, l, sends[0], maxAttempts).table, owner, sends[1..], maxAttempts, after);
      LaneUnique(before, owner, l, lane);
      DrainedLane(before, owner, lane, sends[0], maxAttempts);
      DrainedSpares(before, lane, sends[0], maxAttempts);
      if lane != [] {
        ReplayShrinks(lane, sends[0], maxAttempts);
      }
      var left := Left(lane, Stop(lane, sends[0], maxAttempts));
      var mid := Drained(before, lane, sends[0], maxAttempts).table;
      EnoughReplaysDrain(mid, owner, left, sends[1..], maxAttempts, after);
    }
  }

  /** A table has one pending lane. */
  lemma {:induction false} LaneUnique(t: Table, owner: string, a: seq<Row>, b: seq<Row>)
    requires IsLane(t, owner, a) && IsLane(t, owner, b)
    ensures a == b
  {
    AscendingUnique(a, b) by {
      forall x ensures x in a <==> x in b {
        if x in a {
          var i :| 0 <= i < |a| && a[i] == x;
          assert InTable(t, a[i]) && Waiting(a[i], owner);
        }
        if x in b {
          var i :| 0 <= i < |b| && b[i] == x;
          assert InTable(t, b[i]) && Waiting(b[i], owner);
        }
      }
    }
  }

  lemma EquallyEmpty(a: seq<Row>, b: seq<Row>)
    requires forall x :: x in a <==> x in b
    ensures a == [] <==> b == []
  {
    if a != [] { assert a[0] in b; }
    if b != [] { assert b[0] in a; }
  }

  lemma {:induction false} AscendingUnique(a: seq<Row>, b: seq<Row>)
    requires Ascending(a) && Ascending(b)
    requires forall x :: x in a <==> x in b
    ensures a == b
    decreases |a|
  {
    EquallyEmpty(a, b);
    if a != [] {
      assert a[0] in b;
      assert b[0] in a;
      assert a[0] == b[0];
      forall x ensures x in a[1..] <==> x in b[1..] {
        assert x in a <==> x == a[0] || x in a[1..];
        assert x in b <==> x == b[0] || x in b[1..];
        if x in a[1..] { var i :| 0 <= i < |a| - 1 && a[1..][i] == x; assert Before(a[0], a[i + 1]); }
        if x in b[1..] { var i :| 0 <= i < |b| - 1 && b[1..][i] == x; assert Before(b[0], b[i + 1]); }
      }
      AscendingUnique(a[1..], b[1..]);
    }
  }

  // ---- The queue ------------------------------------------------------------------------

  /** All rows of an owner in sequence order. */
  predicate IsListing(t: Table, owner: string, rows: seq<Row>) {
    && Ascending(rows)
    && (forall i :: 0 <= i < |rows| ==> InTable(t, rows[i]) && rows[i].owner == owner)
    && (forall id :: id in t && t[id].owner == owner ==> t[id] in rows)
  }

  function InsertBySeq(rows: seq<Row>, r: Row): (s: seq<Row>)
    ensures forall x :: x in s <==> x == r || x in rows
  {
    if rows == [] || Before(r, rows[0]) then [r] + rows
    else [rows[0]] + InsertBySeq(rows[1..], r)
  }

  lemma {:induction false} InsertKeepsOrder(rows: seq<Row>, r: Row)
    requires Ascending(rows)
    requires forall i :: 0 <= i < |rows| ==> rows[i].id != r.id
    ensures Ascending(InsertBySeq(rows, r))
  {
    if !(rows == [] || Before(r, rows[0])) {
      InsertKeepsOrder(rows[1..], r);
      var rest := InsertBySeq(rows[1..], r);
      forall i | 0 <= i < |rest| ensures Before(rows[0], rest[i]) {
        assert rest[i] in rest;
        if rest[i] != r {
          var j :| 0 <= j < |rows| - 1 && rows[1..][j] == rest[i];
          assert rows[j + 1] == rest[i];
        }
      }
    }
  }

  function OnlyPending(rows: seq<Row>): seq<Row> {
    if rows == [] then []
    else (if rows[0].status == Pending then [rows[0]] else []) + OnlyPending(rows[1..])
  }

  lemma {:induction false} OnlyPendingMembers(rows: seq<Row>)
    ensures forall x :: x in OnlyPending(rows) <==> x in rows && x.status == Pending
  {
    if rows != [] {
      OnlyPendingMembers(rows[1..]);
      assert forall x :: x in rows <==> x == rows[0] || x in rows[1..];
    }
  }

  method FilterPending(rows: seq<Row>) returns (lane: seq<Row>)
    ensures lane == OnlyPending(rows)
  {
    lane := [];
    for i := 0 to |rows|
      invariant lane + OnlyPending(rows[i..]) == OnlyPending(rows)
    {
      assert rows[i..][0] == rows[i] && rows[i..][1..] == rows[i + 1..];
      if rows[i].status == Pending {
        lane := lane + [rows[i]];
      }
    }
  }

  lemma {:induction false} FilterKeepsOrder(rows: seq<Row>)
    requires Ascending(rows)
    ensures Ascending(OnlyPending(rows))
  {
    if rows != [] {
      FilterKeepsOrder(rows[1..]);
      OnlyPendingMembers(rows[1..]);
      var rest := OnlyPending(rows[1..]);
      forall i | 0 <= i < |rest| ensures Before(rows[0], rest[i]) {
        assert rest[i] in rest;
        var j :| 0 <= j < |rows| - 1 && rows[1..][j] == rest[i];
        assert rows[j + 1] == rest[i];
      }
    }
  }

  lemma ListingLane(t: Table, owner: string, rows: seq<Row>)
    requires IsListing(t, owner, rows)
    ensures IsLane(t, owner, OnlyPending(rows))
  {
    FilterKeepsOrder(rows);
    OnlyPendingMembers(rows);
    var lane := OnlyPending(rows);
    forall i | 0 <= i < |lane| ensures InTable(t, lane[i]) && Waiting(lane[i], owner) {
      assert lane[i] in lane;
      var j :| 0 <= j < |rows| && rows[j] == lane[i];
    }
  }

  datatype Report = Report(sent: nat, remaining: nat, failed: nat, conflicts: nat)

  class OfflineQueue {
    var table: Table
    var count: nat
    var replaying: bool
    const owner: string
    const maxAttempts: int

    constructor (owner: Option<string>, maxAttempts: Option<int>)
      ensures table == map[] && !replaying && count == 0
      ensures this.owner == (if owner.Some? then owner.value else "default")
      ensures this.maxAttempts == if maxAttempts.Some? then maxAttempts.value else 5
    {
      table := map[];
      count := 0;
      replaying := false;
      this.owner := if owner.Some? then owner.value else "default";
      this.maxAttempts := if maxAttempts.Some? then maxAttempts.value else 5;
    }

    /** `id`, a generated `key` and the clock come from outside. A fresh id under a clock
        that has not gone back makes the row the youngest. */
    method Enqueue(id: Id, key: string, rowOwner: Option<string>, now: int) returns (row: Row)
      modifies this`table, this`count
      ensures row == Row(id, if rowOwner.Some? then rowOwner.value else owner, key, now * 1000 + count, 0, Pending)
      ensures count == old(count) + 1
      ensures table == old(table)[id := row]
      ensures old(Keyed(table)) ==> Keyed(table)
      ensures (forall k :: k in old(table) ==> old(table)[k].seqNo <= now * 1000 + old(count)) ==>
                forall k :: k in old(table) && k != id ==> Before(table[k], row)
    {
      count := count + 1;
      row := Row(id, if rowOwner.Some? then rowOwner.value else owner, key, now * 1000 + count, 0, Pending);
      table := table[id := row];
    }

    method List(who: string) returns (rows: seq<Row>)
      requires Keyed(table)
      ensures IsListing(table, who, rows)
    {
      rows := [];
      var ids := table.Keys;
      while ids != {}
        invariant ids <= table.Keys
        invariant Ascending(rows)
        invariant forall i :: 0 <= i < |rows| ==> InTable(table, rows[i]) && rows[i].owner == who && rows[i].id !in ids
        invariant forall id :: id in table && id !in ids && table[id].owner == who ==> table[id] in rows
        decreases |ids|
      {
        var id :| id in ids;
        ids := ids - {id};
        if table[id].owner == who {
          InsertKeepsOrder(rows, table[id]);
          ghost var before := rows;
          rows := InsertBySeq(rows, table[id]);
          forall i | 0 <= i < |rows| ensures InTable(table, rows[i]) && rows[i].owner == who && rows[i].id !in ids {
            assert rows[i] in rows;
          }
        }
      }
    }

    method PendingRows(who: Option<string>) returns (lane: seq<Row>)
      requires Keyed(table)
      ensures IsLane(table, if who.Some? then who.value else owner, lane)
    {
      var name := if who.Some? then who.value else owner;
      var rows := List(name);
      ListingLane(table, name, rows);
      lane := FilterPending(rows);
    }

    /** Replay the owner's pending rows; a replay already running is left alone. */
    method Replay(who: Option<string>, send: Sender) returns (report: Report, ghost lane: seq<Row>)
      requires Keyed(table)
      modifies this`table, this`replaying
      ensures replaying == old(replaying) && Keyed(table)
      ensures IsLane(old(table), if who.Some? then who.value else owner, lane)
      ensures old(replaying) ==> table == old(table) && report == Report(0, |lane|, 0, 0)
      ensures !old(replaying) ==>
                var r := Drained(old(table), lane, send, maxAttempts);
                && table == r.table
                && report == Report(r.tally.sent, |Left(lane, Stop(lane, send, maxAttempts))|,
                                    r.tally.failed, r.tally.conflicts)
    {
      ghost var name := if who.Some? then who.value else owner;
      if replaying {
        var now := PendingRows(who);
        lane := now;
        return Report(0, |now|, 0, 0), lane;
      }
      replaying := true;
      var queue := PendingRows(who);
      lane := queue;
      var tally := Drain(queue, send);
      replaying := false;
      DrainedLane(old(table), name, lane, send, maxAttempts);
      var now := PendingRows(who);
      LaneUnique(table, name, now, Left(lane, Stop(lane, send, maxAttempts)));
      report := Report(tally.sent, |now|, tally.failed, tally.conflicts);
    }

    /** The replay loop, over the rows listed when it began. */
    method Drain(queue: seq<Row>, send: Sender) returns (tally: Tally)
      modifies this`table
      ensures Replayed(table, tally) == Drained(old(table), queue, send, maxAttempts)
    {
      var sent, failed, conflicts := 0, 0, 0;
      var i := 0;
      while i < |queue|
        invariant i <= |queue|
        invariant var rest := Drained(table, queue[i..], send, maxAttempts);
                  Replayed(rest.table, Tally(sent + rest.tally.sent, failed + rest.tally.failed,
                                             conflicts + rest.tally.conflicts))
                    == Drained(old(table), queue, send, maxAttempts)
      {
        var row := queue[i];
        assert queue[i..][0] == row && queue[i..][1..] == queue[i + 1..];
        var decision := ClassifyReplayOutcome(send(row), row.attempts, maxAttempts);
        if decision == Sent {
          table := table - {row.id};
          sent := sent + 1;
        } else if decision == Conflicted {
          table := Amend(table, row.id, row.(status := Conflict, attempts := row.attempts + 1));
          conflicts := conflicts + 1;
        } else if decision == DeadLetter {
          table := Amend(table, row.id, row.(status := Failed, attempts := row.attempts + 1));
          failed := failed + 1;
        } else {
          table := Amend(table, row.id, row.(attempts := row.attempts + 1));
          return Tally(sent, failed, conflicts);
        }
        i := i + 1;
      }
      assert queue[i..] == [];
      tally := Tally(sent, failed, conflicts);
    }
  }
}
