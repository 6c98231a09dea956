/**
 The read side of sync: pull every page changed since the watermark, merge row by
 row, and move the watermark only at the end. Nothing undoes the rows of a pull
 that died half way, so what matters is that merging them again changes nothing.
 */
module Pull {
  import opened Common

  datatype Row = Row(id: string, deleted: bool, updatedAt: Option<int>, body: string)

  type Table = map<string, Row>

  /** Keys with a local edit still waiting to be uploaded. */
  type PendingKeys = set<string>

  // ---- Merging ----------------------------------------------------------------------

  predicate StrictlyNewer(local: Row, remote: Row) {
    local.updatedAt.Some? && remote.updatedAt.Some? && local.updatedAt.value > remote.updatedAt.value
  }

  /** Last write wins; a tombstone deletes; a strictly newer pending edit stays. */
  function Merge(t: Table, row: Row, pending: PendingKeys): Table {
    if row.deleted then t - {row.id}
    else if row.id in t && row.id in pending && StrictlyNewer(t[row.id], row) then t
    else t[row.id := row]
  }

  function MergeAll(t: Table, rows: seq<Row>, pending: PendingKeys): Table
    decreases |rows|
  {
    if rows == [] then t else MergeAll(Merge(t, rows[0], pending), rows[1..], pending)
  }

  /** A row merged again after another changes nothing that row did not settle. */
  lemma MergeSettles(t: Table, a: Row, b: Row, pending: PendingKeys)
    ensures Merge(Merge(Merge(t, a, pending), b, pending), a, pending) == Merge(Merge(t, b, pending), a, pending)
    ensures Merge(Merge(t, a, pending), a, pending) == Merge(t, a, pending)
  {
  }

  /** Merging any row of a batch before the batch makes no difference to its result. */
  lemma {:induction false} BatchAbsorbsRow(t: Table, row: Row, rows: seq<Row>, j: nat, pending: PendingKeys)
    requires j < |rows| && rows[j] == row
    ensures MergeAll(Merge(t, row, pending), rows, pending) == MergeAll(t, rows, pending)
    decreases |rows|
  {
    var first := rows[0];
    MergeSettles(t, row, first, pending);
    if j > 0 {
      var rest := rows[1..];
      BatchAbsorbsRow(Merge(Merge(t, row, pending), first, pending), row, rest, j - 1, pending);
      BatchAbsorbsRow(Merge(t, first, pending), row, rest, j - 1, pending);
    }
  }

  predicate DrawnFrom(some: seq<Row>, rows: seq<Row>) {
    forall i :: 0 <= i < |some| ==> some[i] in rows
  }

  /** Nor does merging any of its rows, in any order and any number of times. */
  lemma {:induction false} BatchAbsorbs(t: Table, some: seq<Row>, rows: seq<Row>, pending: PendingKeys)
    requires DrawnFrom(some, rows)
    ensures MergeAll(MergeAll(t, some, pending), rows, pending) == MergeAll(t, rows, pending)
    decreases |some|
  {
    if some != [] {
      assert some[0] in rows;
      var j :| 0 <= j < |rows| && rows[j] == some[0];
      assert forall i :: 0 <= i < |some| - 1 ==> some[1..][i] == some[i + 1];
      BatchAbsorbs(Merge(t, some[0], pending), some[1..], rows, pending);
      BatchAbsorbsRow(t, some[0], rows, j, pending);
    }
  }

  lemma {:induction false} MergeAllConcat(t: Table, a: seq<Row>, b: seq<Row>, pending: PendingKeys)
    ensures MergeAll(t, a + b, pending) == MergeAll(MergeAll(t, a, pending), b, pending)
    decreases |a|
  {
    if a == [] {
      assert a + b == b;
    } else {
      assert (a + b)[1..] == a[1..] + b;
      MergeAllConcat(Merge(t, a[0], pending), a[1..], b, pending);
    }
  }

  /** What a batch says about a key: its last row, unless that one deletes. */
  function LastWord(before: Option<Row>, rows: seq<Row>, key: string): Option<Row>
    decreases |rows|
  {
    if rows == [] then before
    else
      var now := if rows[0].id != key then before else if rows[0].deleted then None else Some(rows[0]);
      LastWord(now, rows[1..], key)
  }

  function Lookup(t: Table, key: string): Option<Row> {
    if key in t then Some(t[key]) else None
  }

  /** With no edit waiting, the last row for a key decides it, tombstones included. */
  lemma {:induction false} LastWriteWins(t: Table, rows: seq<Row>, key: string, pending: PendingKeys)
    requires key !in pending
    ensures Lookup(MergeAll(t, rows, pending), key) == LastWord(Lookup(t, key), rows, key)
    decreases |rows|
  {
    if rows != [] {
      LastWriteWins(Merge(t, rows[0], pending), rows[1..], key, pending);
    }
  }

  /** An edit waiting for upload survives a batch exactly when nothing in it deletes
      the row or is at least as new. */
  lemma {:induction false} EditSurvives(t: Table, rows: seq<Row>, key: string, pending: PendingKeys)
    requires key in t && t[key].id == key && key in pending && !t[key].deleted
    requires forall i :: 0 <= i < |rows| ==> rows[i] != t[key]
    ensures Lookup(MergeAll(t, rows, pending), key) == Some(t[key])
            <==> forall i :: 0 <= i < |rows| && rows[i].id == key ==>
                   && !rows[i].deleted && t[key].updatedAt.Some? && rows[i].updatedAt.Some?
                   && t[key].updatedAt.value > rows[i].updatedAt.value
    decreases |rows|
  {
    if rows != [] {
      var u := Merge(t, rows[0], pending);
      if rows[0].id == key && (rows[0].deleted || !StrictlyNewer(t[key], rows[0])) {
        NeverComesBack(u, rows[1..], t[key], pending);
      } else {
        assert key in u && u[key] == t[key];
        EditSurvives(u, rows[1..], key, pending);
        assert forall i :: 1 <= i < |rows| ==> rows[i] == rows[1..][i - 1];
      }
    }
  }

  /** A row that is neither stored nor in the batch is not stored afterwards. */
  lemma {:induction false} NeverComesBack(t: Table, rows: seq<Row>, row: Row, pending: PendingKeys)
    requires Lookup(t, row.id) != Some(row)
    requires forall i :: 0 <= i < |rows| ==> rows[i] != row
    ensures Lookup(MergeAll(t, rows, pending), row.id) != Some(row)
    decreases |rows|
  {
    if rows != [] {
      NeverComesBack(Merge(t, rows[0], pending), rows[1..], row, pending);
    }
  }

  /** What the source wired here does with it, no key ever counting as pending: an edit
      survives a batch exactly when the batch has no row for its key, however old. */
  lemma {:induction false} WiredEditSurvives(t: Table, rows: seq<Row>, key: string)
    requires key in t && t[key].id == key && !t[key].deleted
    requires forall i :: 0 <= i < |rows| ==> rows[i] != t[key]
    ensures Lookup(MergeAll(t, rows, {}), key) == Some(t[key]) <==> forall i :: 0 <= i < |rows| ==> rows[i].id != key
    decreases |rows|
  {
    if rows != [] {
      var u := Merge(t, rows[0], {});
      if rows[0].id == key {
        NeverComesBack(u, rows[1..], t[key], {});
      } else {
        WiredEditSurvives(u, rows[1..], key);
        assert forall i :: 1 <= i < |rows| ==> rows[i] == rows[1..][i - 1];
      }
    }
  }

  /** A newer edit, one older row for its key, and the edit is gone. */
  lemma WiredEditLost()
    ensures var edit, remote := Row("a", false, Some(2), "mine"), Row("a", false, Some(1), "theirs");
            && StrictlyNewer(edit, remote)
            && MergeAll(map["a" := edit], [remote], {}) == map["a" := remote]
            && MergeAll(map["a" := edit], [remote], {"a"}) == map["a" := edit]
  {
    var remote := Row("a", false, Some(1), "theirs");
    assert [remote][1..] == [];
  }

  // ---- Pages ----------------------------------------------------------------------------

  /** The body of a page as it arrives. */
  datatype Body = Body(rows: seq<Row>, nextCursor: Option<string>, serverTime: Option<string>)

  /** What is made of it: `more` is a cursor to go on with, `serverTime` a clock to move to. */
  datatype Page = Page(rows: seq<Row>, more: bool, serverTime: Option<string>)

  /** An empty cursor or clock is none at all. */
  function Given(s: Option<string>): Option<string> {
    if s == Some("") then None else s
  }

  function Read(b: Body): Page {
    Page(b.rows, Given(b.nextCursor).Some?, Given(b.serverTime))
  }

  /** One HTTP exchange: the fetch throws, or a response comes, of any status, whose
      body may not be a page. */
  datatype Reply = Broken | Response(body: Option<Body>)

  /** A response without a page is read as an empty last one. */
  function PageOf(r: Reply): Option<Page> {
    match r
    case Broken => None
    case Response(None) => Some(Page([], false, None))
    case Response(Some(b)) => Some(Read(b))
  }

  datatype Drain = Drain(rows: seq<Row>, latest: Option<string>, pages: nat, complete: bool)

  /** What the replies of one pull amount to; when they run out the fetch throws. */
  function Drained(replies: seq<Reply>): Drain {
    if replies == [] || PageOf(replies[0]).None? then Drain([], None, 0, false)
    else
      var p := PageOf(replies[0]).value;
      if !p.more then Drain(p.rows, p.serverTime, 1, true)
      else
        var rest := Drained(replies[1..]);
        var latest := if rest.latest.Some? then rest.latest else p.serverTime;
        Drain(p.rows + rest.rows, latest, rest.pages + 1, rest.complete)
  }

  /** How a pull ends: the store may stop taking rows after `dies` of them. */
  predicate RunsOut(d: Drain, dies: Option<nat>) {
    dies.Some? && dies.value < |d.rows|
  }

  predicate Finishes(d: Drain, dies: Option<nat>) {
    d.complete && !RunsOut(d, dies)
  }

  function Taken(d: Drain, dies: Option<nat>): seq<Row> {
    if RunsOut(d, dies) then d.rows[..dies.value] else d.rows
  }

  datatype Local = Local(table: Table, watermark: Option<string>)

  /** One pull. */
  function Pulled(l: Local, replies: seq<Reply>, dies: Option<nat>, pending: PendingKeys): Local {
    var d := Drained(replies);
    Local(MergeAll(l.table, Taken(d, dies), pending),
          if Finishes(d, dies) && d.latest.Some? then d.latest else l.watermark)
  }

  datatype Summary = Summary(applied: nat, pages: nat, alreadyRunning: bool)

  class Puller {
    var table: Table
    var watermark: Option<string>
    var pulling: bool

    constructor (table: Table, watermark: Option<string>)
      ensures this.table == table && this.watermark == watermark && !pulling
    {
      this.table := table;
      this.watermark := watermark;
      pulling := false;
    }

    /** A pull already running is left alone; otherwise drain, then commit. */
    method Pull(replies: seq<Reply>, dies: Option<nat>, pending: PendingKeys) returns (summary: Summary, threw: bool)
      modifies this
      ensures pulling == old(pulling)
      ensures old(pulling) ==>
                !threw && summary == Summary(0, 0, true) && table == old(table) && watermark == old(watermark)
      ensures !old(pulling) ==>
                var d := Drained(replies);
                && Local(table, watermark) == Pulled(old(Local(table, watermark)), replies, dies, pending)
                && threw == !Finishes(d, dies)
                && (!threw ==> summary == Summary(|d.rows|, d.pages, false))
    {
      if pulling {
        return Summary(0, 0, true), false;
      }
      pulling := true;
      var latest, applied, pages;
      latest, applied, pages, threw := DrainPages(replies, dies, pending);
      if !threw && latest.Some? {
        watermark := latest;
      }
      pulling := false;
      summary := Summary(applied, pages, false);
    }

    /** Read page after page, merging each as it comes. */
    method DrainPages(replies: seq<Reply>, dies: Option<nat>, pending: PendingKeys)
      returns (latest: Option<string>, applied: nat, pages: nat, threw: bool)
      modifies this`table
      ensures var d := Drained(replies);
              && table == MergeAll(old(table), Taken(d, dies), pending)
              && threw == !Finishes(d, dies)
              && (!threw ==> latest == d.latest && applied == |d.rows| && pages == d.pages)
    {
      ghost var d := Drained(replies);
      ghost var done: seq<Row> := [];
      latest, applied, pages := None, 0, 0;
      var more := true;
      while more
        invariant pages <= |replies|
        invariant applied == |done| && !(dies.Some? && dies.value < applied)
        invariant table == MergeAll(old(table), done, pending)
        invariant d == Joined(done, latest, pages, Rest(replies, pages, more))
        decreases |replies| - pages, more
      {
        JoinedStep(done, latest, replies, pages);
        if pages == |replies| || PageOf(replies[pages]).None? {
          assert d == Drain(done, latest, pages, false) && Taken(d, dies) == done;
          return latest, applied, pages, true;
        }
        var page := PageOf(replies[pages]).value;
        var room := if dies.Some? then Some(dies.value - applied) else None;
        var n := ApplyRows(page.rows, room, pending);
        MergeAllConcat(old(table), done, page.rows[..n], pending);
        if n < |page.rows| {
          TornRows(d.rows, done, page.rows, n);
          assert RunsOut(d, dies) && Taken(d, dies) == done + page.rows[..n];
          return latest, applied, pages, true;
        }
        assert page.rows[..n] == page.rows;
        done := done + page.rows;
        applied := applied + n;
        latest := if page.serverTime.Some? then page.serverTime else latest;
        more := page.more;
        pages := pages + 1;
      }
      assert done + [] == done;
      assert d == Drain(done, latest, pages, true) && Taken(d, dies) == done;
      threw := false;
    }

    /** Merge rows until the store stops taking them. */
    method ApplyRows(rows: seq<Row>, room: Option<nat>, pending: PendingKeys) returns (n: nat)
      modifies this`table
      ensures n == if room.Some? && room.value < |rows| then room.value else |rows|
      ensures table == MergeAll(old(table), rows[..n], pending)
    {
      n := 0;
      assert rows[..0] == [];
      while n < |rows| && !(room.Some? && room.value == n)
        invariant n <= |rows| && (room.Some? ==> n <= room.value)
        invariant table == MergeAll(old(table), rows[..n], pending)
      {
        assert rows[..n + 1] == rows[..n] + [rows[n]];
        assert [rows[n]][1..] == [];
        MergeAllConcat(old(table), rows[..n], [rows[n]], pending);
        table := Merge(table, rows[n], pending);
        n := n + 1;
      }
    }
  }

  /** The pages read so far, followed by what the others amount to. */
  function Joined(done: seq<Row>, latest: Option<string>, pages: nat, rest: Drain): Drain {
    Drain(done + rest.rows, if rest.latest.Some? then rest.latest else latest, pages + rest.pages, rest.complete)
  }

  function Rest(replies: seq<Reply>, from: nat, more: bool): Drain
    requires from <= |replies|
  {
    if more then Drained(replies[from..]) else Drain([], None, 0, true)
  }

  lemma JoinedStep(done: seq<Row>, latest: Option<string>, replies: seq<Reply>, i: nat)
    requires i <= |replies|
    ensures var d := Joined(done, latest, i, Rest(replies, i, true));
            if i == |replies| || PageOf(replies[i]).None? then d == Drain(done, latest, i, false)
            else
              var p := PageOf(replies[i]).value;
              && done + p.rows <= d.rows
              && d == Joined(done + p.rows, if p.serverTime.Some? then p.serverTime else latest, i + 1,
                             Rest(replies, i + 1, p.more))
  {
    if i < |replies| {
      assert replies[i..][0] == replies[i] && replies[i..][1..] == replies[i + 1..];
      if PageOf(replies[i]).Some? {
        var p := PageOf(replies[i]).value;
        var rest := Rest(replies, i + 1, p.more);
        assert done + (p.rows + rest.rows) == (done + p.rows) + rest.rows;
      }
    }
  }

  lemma TornRows(rows: seq<Row>, done: seq<Row>, page: seq<Row>, n: nat)
    requires done + page <= rows && n <= |page|
    ensures rows[..|done| + n] == done + page[..n]
  {
  }

  // ---- Interruptions ----------------------------------------------------------------------

  /** A pull that does not finish leaves the watermark, so the next one asks the server
      the same question. */
  lemma InterruptedKeepsWatermark(l: Local, replies: seq<Reply>, dies: Option<nat>, pending: PendingKeys)
    requires !Finishes(Drained(replies), dies)
    ensures Pulled(l, replies, dies, pending).watermark == l.watermark
  {
  }

  datatype Attempt = Attempt(replies: seq<Reply>, dies: Option<nat>)

  /** Attempts that die, having merged some of the rows the server has to give. */
  predicate Interruptions(attempts: seq<Attempt>, rows: seq<Row>) {
    forall i :: 0 <= i < |attempts| ==>
      var d := Drained(attempts[i].replies);
      !Finishes(d, attempts[i].dies) && DrawnFrom(Taken(d, attempts[i].dies), rows)
  }

  function AfterAttempts(l: Local, attempts: seq<Attempt>, pending: PendingKeys): Local
    decreases |attempts|
  {
    if attempts == [] then l
    else AfterAttempts(Pulled(l, attempts[0].replies, attempts[0].dies, pending), attempts[1..], pending)
  }

  /** Any number of pulls that die anywhere, followed by one that finishes, leave the
      table and the watermark one uninterrupted pull leaves, tombstones included. */
  lemma {:induction false} InterruptedPullIsAbsorbed(l: Local, attempts: seq<Attempt>, replies: seq<Reply>,
                                                     pending: PendingKeys)
    requires Drained(replies).complete && Interruptions(attempts, Drained(replies).rows)
    ensures Pulled(AfterAttempts(l, attempts, pending), replies, None, pending) == Pulled(l, replies, None, pending)
    decreases |attempts|
  {
    if attempts != [] {
      var first := attempts[0];
      var mid := Pulled(l, first.replies, first.dies, pending);
      assert Interruptions(attempts[1..], Drained(replies).rows) by {
        forall i | 0 <= i < |attempts| - 1 ensures attempts[1..][i] == attempts[i + 1] {}
      }
      InterruptedPullIsAbsorbed(mid, attempts[1..], replies, pending);
      BatchAbsorbs(l.table, Taken(Drained(first.replies), first.dies), Drained(replies).rows, pending);
      InterruptedKeepsWatermark(l, first.replies, first.dies, pending);
    }
  }

  /** A cut of the same pages is such an interruption: any replies up to a break, or
      any number of rows before the store gives out. */
  lemma CutIsInterruption(replies: seq<Reply>, k: nat, dies: Option<nat>)
    requires k <= |replies|
    ensures DrawnFrom(Taken(Drained(replies[..k] + [Broken]), dies), Drained(replies).rows)
  {
    CutRows(replies, k);
    var d := Drained(replies[..k] + [Broken]);
    assert forall i :: 0 <= i < |Taken(d, dies)| ==> Taken(d, dies)[i] == Drained(replies).rows[i];
  }

  lemma {:induction false} CutRows(replies: seq<Reply>, k: nat)
    requires k <= |replies|
    ensures Drained(replies[..k] + [Broken]).rows <= Drained(replies).rows
    decreases k
  {
    var cut := replies[..k] + [Broken];
    if k > 0 {
      assert cut[0] == replies[0];
      assert cut[1..] == replies[1..][..k - 1] + [Broken];
      CutRows(replies[1..], k - 1);
    }
  }

  // ---- When an interruption looks like the end ----------------------------------------------

  /** The pages of one answer: all but the last announce another. */
  predicate Chained(pages: seq<Body>) {
    pages != [] && forall i :: 0 <= i < |pages| ==> (Read(pages[i]).more <==> i < |pages| - 1)
  }

  function AsReplies(pages: seq<Body>): (r: seq<Reply>)
    ensures |r| == |pages|
  {
    seq(|pages|, i requires 0 <= i < |pages| => Response(Some(pages[i])))
  }

  predicate AnyClock(pages: seq<Body>) {
    exists i :: 0 <= i < |pages| && Read(pages[i]).serverTime.Some?
  }

  function RowsOf(pages: seq<Body>): seq<Row> {
    if pages == [] then [] else pages[0].rows + RowsOf(pages[1..])
  }

  /** The last clock given. */
  predicate LastClock(pages: seq<Body>, k: int) {
    && 0 <= k < |pages| && Read(pages[k]).serverTime.Some?
    && forall i :: k < i < |pages| ==> Read(pages[i]).serverTime.None?
  }

  /** Pages that all arrive are drained to the end: every row of every page in order, and the
      last clock any of them gave, an empty one being none. */
  lemma {:induction false} CleanDrain(pages: seq<Body>)
    requires Chained(pages)
    ensures var d := Drained(AsReplies(pages));
            && d.complete && d.pages == |pages| && d.rows == RowsOf(pages)
            && (d.latest.None? <==> !AnyClock(pages))
            && (forall k :: LastClock(pages, k) ==> d.latest == pages[k].serverTime && d.latest != Some(""))
    decreases |pages|
  {
    var replies := AsReplies(pages);
    if |pages| == 1 {
      assert replies[1..] == [] && pages[1..] == [] && RowsOf(pages) == pages[0].rows;
    } else {
      assert replies[1..] == AsReplies(pages[1..]);
      assert Chained(pages[1..]) by {
        assert forall i :: 0 <= i < |pages| - 1 ==> pages[1..][i] == pages[i + 1];
      }
      CleanDrain(pages[1..]);
      ClockSplit(pages);
      forall k | LastClock(pages, k)
        ensures k > 0 ==> LastClock(pages[1..], k - 1)
        ensures k == 0 ==> !AnyClock(pages[1..])
      {
        assert forall i :: 0 <= i < |pages| - 1 ==> pages[1..][i] == pages[i + 1];
      }
    }
  }

  /** So a pull nothing disturbs merges all rows and moves the watermark to that clock, or
      leaves it when none was given. */
  lemma CleanPull(l: Local, pages: seq<Body>, pending: PendingKeys)
    requires Chained(pages)
    ensures var z := Pulled(l, AsReplies(pages), None, pending);
            && z.table == MergeAll(l.table, RowsOf(pages), pending)
            && (!AnyClock(pages) ==> z.watermark == l.watermark)
            && (forall k :: LastClock(pages, k) ==> z.watermark == pages[k].serverTime)
  {
    CleanDrain(pages);
    forall k | LastClock(pages, k) ensures AnyClock(pages) {
    }
  }

  /** A reply that ends the drain before its time: the fetch throws, or a response of an
      error status comes, with whatever its body has in the way of a last page. */
  predicate CutsShort(last: Reply) {
    last.Response? ==> !PageOf(last).value.more
  }

  predicate BringsClock(last: Reply) {
    last.Response? && PageOf(last).value.serverTime.Some?
  }

  lemma {:induction false} CutDrain(pages: seq<Body>, j: nat, last: Reply)
    requires Chained(pages) && j < |pages| && CutsShort(last)
    ensures var d := Drained(AsReplies(pages[..j]) + [last]);
            && d.complete == last.Response?
            && (d.latest.Some? <==> AnyClock(pages[..j]) || BringsClock(last))
    decreases j
  {
    var replies := AsReplies(pages[..j]) + [last];
    if j > 0 {
      assert replies[0] == Response(Some(pages[0])) && pages[..j][0] == pages[0];
      assert pages[1..][..j - 1] == pages[..j][1..];
      assert replies[1..] == AsReplies(pages[1..][..j - 1]) + [last];
      assert Chained(pages[1..]) by {
        assert forall i :: 0 <= i < |pages| - 1 ==> pages[1..][i] == pages[i + 1];
      }
      CutDrain(pages[1..], j - 1, last);
      ClockSplit(pages[..j]);
    }
  }

  lemma ClockSplit(pages: seq<Body>)
    requires pages != []
    ensures AnyClock(pages) <==> Read(pages[0]).serverTime.Some? || AnyClock(pages[1..])
  {
    if AnyClock(pages[1..]) {
      var i :| 0 <= i < |pages| - 1 && Read(pages[1..][i]).serverTime.Some?;
      assert Read(pages[i + 1]).serverTime.Some?;
    }
    if AnyClock(pages) {
      var i :| 0 <= i < |pages| && Read(pages[i]).serverTime.Some?;
      assert i > 0 ==> Read(pages[1..][i - 1]).serverTime.Some?;
    }
  }

  /** When the exchange after `j` of several pages fails, the watermark moves past the
      unread ones exactly when the failure came as a response, and a page read so far or
      the response itself carried a clock: an error status is taken for a last page. */
  lemma WatermarkMovesEarly(pages: seq<Body>, j: nat, last: Reply)
    requires Chained(pages) && j < |pages| && CutsShort(last)
    ensures var d := Drained(AsReplies(pages[..j]) + [last]);
            (Finishes(d, None) && d.latest.Some?) <==> (last.Response? && (AnyClock(pages[..j]) || BringsClock(last)))
  {
    CutDrain(pages, j, last);
  }

  /** Two pages; the second request meets an error status. Its row is never read, and
      the next pull starts after it. */
  lemma ErrorStatusSkipsARow()
    ensures var read := Row("a", false, Some(1), "");
            var unread := Row("b", false, Some(2), "");
            var pages := [Body([read], Some("c1"), Some("t1")), Body([unread], None, Some("t1"))];
            var after := Pulled(Local(map[], None), AsReplies(pages[..1]) + [Response(None)], None, {});
            after.watermark == Some("t1") && "b" !in after.table
  {
    var p := Body([Row("a", false, Some(1), "")], Some("c1"), Some("t1"));
    var replies := [Response(Some(p)), Response(None)];
    assert AsReplies([p, Body([Row("b", false, Some(2), "")], None, Some("t1"))][..1]) + [Response(None)] == replies;
    assert replies[1..] == [Response(None)];
    assert Drained(replies[1..]) == Drain([], None, 1, true);
    assert Drained(replies) == Drain(p.rows, Some("t1"), 2, true);
    assert p.rows[1..] == [];
    assert "a" != "b";
  }
}
