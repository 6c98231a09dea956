/**
 Scroll-driven windowing: which window a scroll asks for, how a list that shrank gets
 back, and how much space stands in for the rows that are not there.
 */
module Virtualize {
  import opened Common

  /** What a lazy list's element says about itself; `extent` is the height of an item. */
  datatype Viewport = Viewport(key: Option<string>, count: int, windowSize: Option<int>, start: int,
                               rendered: nat, extent: nat, columns: int)

  datatype Scroll = Scroll(key: string, start: int, end: int)

  function WindowSize(v: Viewport): int {
    if v.windowSize.Some? then v.windowSize.value else v.rendered
  }

  function MaxStart(v: Viewport): int {
    Max(0, v.count - WindowSize(v))
  }

  function Page(v: Viewport, key: string, start: int): Scroll {
    Scroll(key, start, Min(v.count, start + WindowSize(v)))
  }

  type Requested = map<string, int>

  predicate Asked(requested: Requested, key: string, start: int) {
    key in requested && requested[key] == start
  }

  // ---- Scrolling ----------------------------------------------------------------------------

  predicate Windowed(v: Viewport) {
    v.key.Some? && v.extent > 0 && 0 < WindowSize(v) < v.count
  }

  function TopRow(v: Viewport, scrollTop: real): int
    requires v.extent > 0
  {
    (scrollTop / v.extent as real).Floor
  }

  /** The window that belongs to a scroll offset: a third of it above the top row. */
  function WantedStart(v: Viewport, scrollTop: real): int
    requires v.extent > 0
  {
    Min(MaxStart(v), Max(0, TopRow(v, scrollTop) - WindowSize(v) / 3))
  }

  function OnScroll(requested: Requested, v: Viewport, scrollTop: real): Option<Scroll> {
    if !Windowed(v) then None
    else
      var next := WantedStart(v, scrollTop);
      if next == v.start || Asked(requested, v.key.value, next) then None
      else Some(Page(v, v.key.value, next))
  }

  /** The item at the top of the view, for any offset, also past either end. */
  function TopItem(v: Viewport, scrollTop: real): int
    requires v.extent > 0
  {
    Min(v.count - 1, Max(0, TopRow(v, scrollTop)))
  }

  /** For every offset the window asked for lies in the list, is a full window and
      holds the item at the top of the view; and one is asked for unless it is the
      window tracked, or the last one asked for. */
  lemma WindowHoldsTop(requested: Requested, v: Viewport, scrollTop: real)
    requires Windowed(v)
    ensures var next := WantedStart(v, scrollTop);
            && 0 <= next && next + WindowSize(v) <= v.count
            && next <= TopItem(v, scrollTop) < next + WindowSize(v)
    ensures var s := OnScroll(requested, v, scrollTop);
            && (s.Some? <==> WantedStart(v, scrollTop) != v.start
                             && !Asked(requested, v.key.value, WantedStart(v, scrollTop)))
            && (s.Some? ==> 0 <= s.value.start && s.value.end <= v.count
                            && s.value.end - s.value.start == WindowSize(v)
                            && s.value.start <= TopItem(v, scrollTop) < s.value.end)
  {
    var size, row := WindowSize(v), TopRow(v, scrollTop);
    assert 0 <= size / 3 < size;
  }

  /** A third of the window, rounded down, lies above the top row, unless the list begins or
      ends there; and what is asked for is that window of this list. */
  lemma WindowLeads(requested: Requested, v: Viewport, scrollTop: real)
    requires Windowed(v)
    ensures var next, row, size := WantedStart(v, scrollTop), TopRow(v, scrollTop), Or(v.windowSize, v.rendered);
            && (0 < next < v.count - size ==> 3 * (row - next) <= size < 3 * (row - next) + 3)
            && (next == 0 ==> 3 * row < size + 3)
            && (next == v.count - size ==> size < 3 * (row - next) + 3)
    ensures var s := OnScroll(requested, v, scrollTop);
            s.Some? ==> s.value.key == v.key.value && s.value.start == WantedStart(v, scrollTop)
  {
  }

  /** A scroll asks exactly when the list has a key and an item to measure, shows some of its
      items and not all, and neither claims the window that belongs there nor asked for it
      last. */
  lemma ScrollAsksExactly(requested: Requested, v: Viewport, scrollTop: real)
    ensures OnScroll(requested, v, scrollTop).Some? <==>
              v.key.Some? && v.extent > 0 && 0 < Or(v.windowSize, v.rendered) < v.count
              && v.start != WantedStart(v, scrollTop)
              && !(v.key.value in requested && requested[v.key.value] == WantedStart(v, scrollTop))
  {
  }

  /** A list asks to be recovered exactly when its window starts past the last page, or it
      has items and shows none, and it has not just asked for that page. */
  lemma RecoversExactly(requested: Requested, v: Viewport, key: string)
    ensures var size := Or(v.windowSize, v.rendered);
            var last := if v.count > size then v.count - size else 0;
            RecoverWindow(requested, v, key).Some? <==>
              size > 0 && (v.start > last || (v.count > 0 && v.rendered == 0)) && !Asked(requested, key, last)
  {
  }

  // ---- Recovering -----------------------------------------------------------------------------

  /** A list that has items but shows none, or whose window starts past the last page. */
  predicate Lost(v: Viewport) {
    v.start > MaxStart(v) || (v.count > 0 && v.rendered == 0)
  }

  function RecoverWindow(requested: Requested, v: Viewport, key: string): Option<Scroll> {
    if WindowSize(v) <= 0 || !Lost(v) || Asked(requested, key, MaxStart(v)) then None
    else Some(Page(v, key, MaxStart(v)))
  }

  /** A lost window asks for the last page, all of it, once. */
  lemma RecoversLastPage(requested: Requested, v: Viewport, key: string)
    requires v.count >= 0
    ensures var s := RecoverWindow(requested, v, key);
            && (s.Some? ==> s.value.key == key && 0 <= s.value.start && s.value.end == v.count
                            && s.value.end - s.value.start == Min(v.count, WindowSize(v)))
            && (s.Some? ==> RecoverWindow(requested[key := s.value.start], v, key).None?)
            && (WindowSize(v) > 0 && Lost(v) && !Asked(requested, key, MaxStart(v)) ==> s.Some?)
  {
  }

  function Noted(requested: Requested, s: Option<Scroll>): Requested {
    if s.Some? then requested[s.value.key := s.value.start] else requested
  }

  // ---- A list over time -----------------------------------------------------------------------

  /** A pass of props over a list's element: those its windowing reads, where the pass
      names them. `window` is the first index of the window named, 0 for a null one. */
  datatype Pass = Pass(count: Option<int>, windowSize: Option<int>, columns: Option<int>, window: Option<int>)

  /** The rows an element holds: the index of the first, how many, and how tall. */
  datatype Rows = Rows(first: int, rendered: nat, extent: nat)

  function Or(x: Option<int>, y: int): int {
    if x.Some? then x.value else y
  }

  /** Every pass writes the start of the window, 0 when it does not name one. */
  function Passed(v: Viewport, p: Pass): Viewport {
    v.(count := Or(p.count, v.count),
       windowSize := if p.windowSize.Some? then p.windowSize else v.windowSize,
       columns := Or(p.columns, v.columns),
       start := Or(p.window, 0))
  }

  function PassedAll(v: Viewport, ps: seq<Pass>): Viewport
    decreases |ps|
  {
    if ps == [] then v else PassedAll(Passed(v, ps[0]), ps[1..])
  }

  function Holding(v: Viewport, rows: Rows): Viewport {
    v.(rendered := rows.rendered, extent := if rows.rendered == 0 then 0 else rows.extent)
  }

  function Blank(key: string): Viewport {
    Viewport(Some(key), 0, None, 0, 0, 0, 1)
  }

  /** One list: what its element says, the first row it really shows, the window the app
      last named for it, what it has asked for, and whether the window last asked for has
      since been shown. */
  datatype Life = Life(view: Viewport, shown: int, declared: int, requested: Requested, asks: seq<Scroll>,
                       landed: bool)

  /** The reader scrolls; a batch passes props over the element, twice where an update
      also unsets some, and leaves it with these rows; the element is built anew. */
  datatype Event =
    | ScrollTo(scrollTop: real)
    | Patched(passes: seq<Pass>, rows: Rows)
    | Rebuilt(props: Pass, rows: Rows)

  function Born(key: string): Life {
    Life(Blank(key), 0, 0, map[], [], false)
  }

  function LastAsk(l: Life): Option<int> {
    if l.asks == [] then None else Some(l.asks[|l.asks| - 1].start)
  }

  function Asking(l: Life, s: Option<Scroll>): Life {
    if s.Some? then l.(requested := Noted(l.requested, s), asks := l.asks + [s.value], landed := false) else l
  }

  function Declared(was: int, ps: seq<Pass>): int
    decreases |ps|
  {
    if ps == [] then was else Declared(Or(ps[0].window, was), ps[1..])
  }

  /** The rows are there, and the refresh after the batch looks at the list. */
  function Refreshing(l: Life, v: Viewport, declared: int, rows: Rows): Life
    requires v.key.Some?
  {
    var view := Holding(v, rows);
    var arrived := rows.rendered > 0 && LastAsk(l) == Some(rows.first);
    var now := l.(view := view, shown := rows.first, declared := declared, landed := l.landed || arrived);
    Asking(now, RecoverWindow(l.requested, view, v.key.value))
  }

  function Happen(l: Life, e: Event): (r: Life)
    requires l.view.key.Some?
    ensures r.view.key == l.view.key
  {
    match e
    case ScrollTo(scrollTop) => Asking(l, OnScroll(l.requested, l.view, scrollTop))
    case Patched(ps, rows) =>
      PassesKeepKey(l.view, ps);
      Refreshing(l, PassedAll(l.view, ps), Declared(l.declared, ps), rows)
    case Rebuilt(p, rows) =>
      Refreshing(l, Passed(Blank(l.view.key.value), p), Or(p.window, 0), rows)
  }

  lemma {:induction false} PassesKeepKey(v: Viewport, ps: seq<Pass>)
    ensures PassedAll(v, ps).key == v.key
    decreases |ps|
  {
    if ps != [] { PassesKeepKey(Passed(v, ps[0]), ps[1..]); }
  }

  function Live(l: Life, events: seq<Event>): (r: Life)
    requires l.view.key.Some?
    ensures r.view.key == l.view.key
    decreases |events|
  {
    if events == [] then l else Live(Happen(l, events[0]), events[1..])
  }

  // ---- What the element says of its window --------------------------------------------------------

  function PassesOf(e: Event): seq<Pass> {
    match e
    case ScrollTo(_) => []
    case Patched(ps, _) => ps
    case Rebuilt(p, _) => [p]
  }

  /** All the passes of a life, in order. */
  function AllPasses(events: seq<Event>): seq<Pass> {
    if events == [] then [] else PassesOf(events[0]) + AllPasses(events[1..])
  }

  function LastStart(start: int, ps: seq<Pass>): int {
    if ps == [] then start else Or(ps[|ps| - 1].window, 0)
  }

  lemma {:induction false} PassedStart(v: Viewport, declared: int, ps: seq<Pass>)
    ensures PassedAll(v, ps).start == LastStart(v.start, ps)
    ensures ps != [] && ps[|ps| - 1].window.Some? ==> Declared(declared, ps) == ps[|ps| - 1].window.value
    ensures (forall i :: 0 <= i < |ps| ==> ps[i].window.None?) ==> Declared(declared, ps) == declared
    decreases |ps|
  {
    if ps != [] {
      PassedStart(Passed(v, ps[0]), Or(ps[0].window, declared), ps[1..]);
    }
  }

  lemma HappenStart(l: Life, e: Event)
    requires l.view.key.Some?
    ensures Happen(l, e).view.start == LastStart(l.view.start, PassesOf(e))
    ensures var ps := PassesOf(e);
            && (ps == [] ==> Happen(l, e).declared == l.declared)
            && (ps != [] && ps[|ps| - 1].window.Some? ==> Happen(l, e).declared == ps[|ps| - 1].window.value)
  {
    if e.Patched? {
      PassedStart(l.view, l.declared, e.passes);
    }
  }

  lemma {:induction false} LiveStart(l: Life, events: seq<Event>)
    requires l.view.key.Some?
    ensures var z, ps := Live(l, events), AllPasses(events);
            && z.view.start == LastStart(l.view.start, ps)
            && (ps == [] ==> z.declared == l.declared)
            && (ps != [] && ps[|ps| - 1].window.Some? ==> z.declared == ps[|ps| - 1].window.value)
    decreases |events|
  {
    if events != [] {
      HappenStart(l, events[0]);
      LiveStart(Happen(l, events[0]), events[1..]);
    }
  }

  predicate Stale(l: Life) {
    l.view.start != l.shown
  }

  /** Over every life: where the app shows the window it named, the element is wrong about
      it exactly when the last pass over it named none, an update of some other prop, and
      the window is not the first; where the app never names one, exactly when the window
      is not the first. */
  lemma StaleExactly(key: string, events: seq<Event>)
    ensures var l, ps := Live(Born(key), events), AllPasses(events);
            && (l.shown == l.declared ==>
                  (Stale(l) <==> l.shown != 0 && ps != [] && ps[|ps| - 1].window.None?))
            && ((forall i :: 0 <= i < |ps| ==> ps[i].window.None?) ==> (Stale(l) <==> l.shown != 0))
  {
    LiveStart(Born(key), events);
  }

  // ---- Where it stops asking ------------------------------------------------------------------------

  /** The list remembers exactly the last window it asked for. */
  predicate Remembers(l: Life) {
    && l.view.key.Some?
    && (l.asks == [] <==> l.view.key.value !in l.requested)
    && (l.asks != [] ==> l.requested[l.view.key.value] == l.asks[|l.asks| - 1].start)
    && (l.landed ==> l.asks != [])
  }

  lemma {:induction false} LifeRemembers(l: Life, events: seq<Event>)
    requires Remembers(l)
    ensures Remembers(Live(l, events))
    decreases |events|
  {
    if events != [] {
      LifeRemembers(Happen(l, events[0]), events[1..]);
    }
  }

  /** The window that belongs at this offset is not the one shown. */
  predicate Misplaced(l: Life, scrollTop: real) {
    Windowed(l.view) && l.shown != WantedStart(l.view, scrollTop)
  }

  predicate Silent(l: Life, scrollTop: real) {
    Misplaced(l, scrollTop) && OnScroll(l.requested, l.view, scrollTop).None?
  }

  /** It has been asked for and has not come yet. */
  predicate Awaited(l: Life, start: int) {
    LastAsk(l) == Some(start) && !l.landed
  }

  /** The list needs another window, is not waiting for it, and does not ask. */
  predicate Stalled(l: Life, scrollTop: real) {
    Silent(l, scrollTop) && !Awaited(l, WantedStart(l.view, scrollTop))
  }

  /** Over every life of every list, and at every offset whose window is not shown: a
      scroll there asks for nothing exactly when the element claims to show that window or
      it was the last one asked for, and it stalls exactly when the claim is stale and that
      window is not on its way, or the window came and was moved away again. Scrolling
      there once more changes nothing. */
  lemma StallsExactly(key: string, events: seq<Event>, scrollTop: real)
    ensures var l := Live(Born(key), events);
            Misplaced(l, scrollTop) ==>
              var wanted := WantedStart(l.view, scrollTop);
              && (Silent(l, scrollTop) <==> l.view.start == wanted || LastAsk(l) == Some(wanted))
              && (Stalled(l, scrollTop)
                  <==> (Stale(l) && l.view.start == wanted && !Awaited(l, wanted))
                       || (LastAsk(l) == Some(wanted) && l.landed))
    ensures var l := Live(Born(key), events);
            Stalled(l, scrollTop) ==> Happen(l, ScrollTo(scrollTop)) == l
  {
    LifeRemembers(Born(key), events);
  }

  lemma OneEvent(l: Life, e: Event, rest: seq<Event>)
    requires l.view.key.Some?
    ensures Live(l, [e] + rest) == Live(Happen(l, e), rest)
  {
    assert ([e] + rest)[1..] == rest;
  }

  lemma TwoEvents(key: string, a: Event, b: Event)
    ensures Live(Born(key), [a, b]) == Happen(Happen(Born(key), a), b)
  {
    OneEvent(Born(key), a, [b]);
    OneEvent(Happen(Born(key), a), b, []);
    assert [a, b] == [a] + [b] && [b] == [b] + [];
  }

  /** A list of a hundred rows, nine at a time, with its first window shown. */
  function Hundred(window: Option<int>): Event {
    Rebuilt(Pass(Some(100), Some(9), None, window), Rows(0, 9, 10))
  }

  function Naming(window: int): Pass {
    Pass(None, None, None, Some(window))
  }

  /** That list once it has asked for the window at 47. */
  function Asked47(start: int, shown: int, declared: int, landed: bool): Life {
    Life(Viewport(Some("list"), 100, Some(9), start, 9, 10, 1), shown, declared, map["list" := 47],
         [Scroll("list", 47, 56)], landed)
  }

  lemma Scrolled(window: Option<int>)
    requires Or(window, 0) == 0
    ensures Live(Born("list"), [Hundred(window), ScrollTo(500.0)]) == Asked47(0, 0, 0, false)
  {
    TwoEvents("list", Hundred(window), ScrollTo(500.0));
    var l := Happen(Born("list"), Hundred(window));
    assert l == Life(Viewport(Some("list"), 100, Some(9), 0, 9, 10, 1), 0, 0, map[], [], false);
    Wanted(0, 0, 0, false);
    assert WantedStart(l.view, 500.0) == 47;
  }

  lemma Wanted(start: int, shown: int, declared: int, landed: bool)
    ensures var v := Asked47(start, shown, declared, landed).view;
            WantedStart(v, 500.0) == 47 && WantedStart(v, 0.0) == 0
  {
    var v := Asked47(start, shown, declared, landed).view;
    assert TopRow(v, 500.0) == 50 && TopRow(v, 0.0) == 0;
  }

  /** A pass that names at most the window, and the rows that are there after it. */
  lemma Slid(start: int, shown: int, declared: int, landed: bool, pass: Pass, first: nat)
    requires pass.count.None? && pass.windowSize.None? && pass.columns.None? && Or(pass.window, 0) <= 91
    ensures Happen(Asked47(start, shown, declared, landed), Patched([pass], Rows(first, 9, 10)))
            == Asked47(Or(pass.window, 0), first, Or(pass.window, declared), landed || first == 47)
  {
    var l := Asked47(start, shown, declared, landed);
    assert [pass][1..] == [];
    assert PassedAll(Passed(l.view, pass), []) == l.view.(start := Or(pass.window, 0));
    assert Declared(Or(pass.window, declared), []) == Or(pass.window, declared);
    assert PassedAll(l.view, [pass]) == l.view.(start := Or(pass.window, 0));
    assert Declared(declared, [pass]) == Or(pass.window, declared);
  }

  /** The reader scrolls, the window asked for comes, the app goes back to the top, and the
      reader scrolls to the same place: it stalls on what it remembers. */
  lemma RememberedRequestStalls()
    ensures var l := Live(Born("list"), [Hundred(Some(0)), ScrollTo(500.0)]);
            var z := Happen(Happen(l, Patched([Naming(47)], Rows(47, 9, 10))), Patched([Naming(0)], Rows(0, 9, 10)));
            Stalled(z, 500.0) && !Stale(z) && z.asks == [Scroll("list", 47, 56)]
  {
    Scrolled(Some(0));
    Slid(0, 0, 0, false, Naming(47), 47);
    Slid(47, 47, 47, true, Naming(0), 0);
    Wanted(0, 0, 0, true);
    var z := Asked47(0, 0, 0, true);
    assert Stalled(z, 500.0) && !Stale(z);
  }

  /** The app slides the window itself, the element goes on reading 0, and the reader
      scrolls back to the top: it stalls on a stale start. */
  lemma StaleStartStalls()
    ensures var l := Live(Born("list"), [Hundred(None), ScrollTo(500.0)]);
            var z := Happen(l, Patched([], Rows(47, 9, 10)));
            Stalled(z, 0.0) && LastAsk(z) == Some(47)
  {
    Scrolled(None);
    Wanted(0, 47, 0, true);
    assert Happen(Asked47(0, 0, 0, false), Patched([], Rows(47, 9, 10))) == Asked47(0, 47, 0, true);
  }

  /** So it does where the app names its windows but another prop was updated last. */
  lemma OtherUpdateStalls()
    ensures var other := Pass(None, None, None, None);
            var l := Live(Born("list"), [Hundred(Some(0)), ScrollTo(500.0)]);
            var z := Happen(Happen(l, Patched([Naming(47)], Rows(47, 9, 10))), Patched([other], Rows(47, 9, 10)));
            Stalled(z, 0.0) && z.declared == 47 && LastAsk(z) == Some(47)
  {
    Scrolled(Some(0));
    Slid(0, 0, 0, false, Naming(47), 47);
    Slid(47, 47, 47, true, Pass(None, None, None, None), 47);
    Wanted(0, 47, 47, true);
  }

  // ---- Spacers --------------------------------------------------------------------------------

  /** Rounded up, also below zero. */
  function CeilDiv(a: int, c: nat): int
    requires c > 0
  {
    -((-a) / c)
  }

  function Columns(v: Viewport): nat
    ensures Columns(v) >= 1
  {
    Max(1, v.columns)
  }

  datatype Rule = Rule(key: string, before: int, after: int)

  function RowsBefore(v: Viewport): int {
    CeilDiv(v.start, Columns(v))
  }

  function RowsAfter(v: Viewport): int {
    CeilDiv(Max(0, v.count - v.start - v.rendered), Columns(v))
  }

  /** The space reserved for one list, when it needs any. */
  function SpacerRule(v: Viewport): Option<Rule> {
    if v.key.None? || v.extent == 0 || v.count <= v.rendered then None
    else Some(Rule(v.key.value, RowsBefore(v) * v.extent, RowsAfter(v) * v.extent))
  }

  lemma CeilBounds(a: int, c: nat)
    requires c > 0
    ensures a <= CeilDiv(a, c) * c < a + c
  {
    assert -a == (-a) / c * c + (-a) % c;
    assert CeilDiv(a, c) * c == -((-a) / c * c);
  }

  lemma Multiples(x: int, y: int, c: nat)
    requires c > 0
    ensures x < y ==> x * c + c <= y * c
    ensures x * c < y * c ==> x < y
  {
    if x < y { MulLeq(x + 1, y, c); }
    if y <= x { MulLeq(y, x, c); }
  }

  lemma MulLeq(x: int, y: int, c: nat)
    requires x <= y
    ensures x * c <= y * c
  {
  }

  /** Rounding two counts up to rows apart costs at most one row more than together. */
  lemma CeilSplits(a: int, b: int, c: nat)
    requires c > 0
    ensures CeilDiv(a + b, c) <= CeilDiv(a, c) + CeilDiv(b, c) <= CeilDiv(a + b, c) + 1
  {
    var x, y, z := CeilDiv(a, c), CeilDiv(b, c), CeilDiv(a + b, c);
    CeilBounds(a, c);
    CeilBounds(b, c);
    CeilBounds(a + b, c);
    assert (x + y) * c == x * c + y * c;
    assert (z + 2) * c == z * c + 2 * c;
    Multiples(x + y, z, c);
    Multiples(z + 1, x + y, c);
    assert (z + 1) * c == z * c + c;
  }

  /** The spacers and the rows between them are as tall as the list, to within two
      rows; with one column exactly as tall. */
  lemma SpacersSpan(v: Viewport)
    requires 0 <= v.start && v.start + v.rendered <= v.count
    ensures var rows := RowsBefore(v) + CeilDiv(v.rendered, Columns(v)) + RowsAfter(v);
            && CeilDiv(v.count, Columns(v)) <= rows <= CeilDiv(v.count, Columns(v)) + 2
            && (Columns(v) == 1 ==> rows == v.count)
  {
    var c := Columns(v);
    CeilSplits(v.start, v.rendered, c);
    CeilSplits(v.start + v.rendered, v.count - v.start - v.rendered, c);
  }

  lemma ScaleBetween(a: int, b: int, c: int, e: nat)
    requires a <= b <= c
    ensures a * e <= b * e <= c * e
  {
    MulLeq(a, b, e);
    MulLeq(b, c, e);
  }

  /** The rule as written: the space before the rows puts the first of them at its offset,
      to within a row, and the space after makes the list as tall as all its rows, to within
      two; with one column both exactly. It is for this list, and there is one whenever
      something is left out and can be measured. */
  lemma SpacerHeights(v: Viewport)
    requires 0 <= v.start && v.start + v.rendered <= v.count
    ensures SpacerRule(v).Some? <==> v.key.Some? && v.extent > 0 && v.rendered < v.count
    ensures SpacerRule(v).Some? ==>
              var r, c, e := SpacerRule(v).value, (if v.columns > 1 then v.columns else 1), v.extent;
              && Some(r.key) == v.key
              && v.start * e <= r.before * c <= (v.start + c) * e
              && CeilDiv(v.count, c) * e <= r.before + CeilDiv(v.rendered, c) * e + r.after
              && r.before + CeilDiv(v.rendered, c) * e + r.after <= (CeilDiv(v.count, c) + 2) * e
              && (c == 1 ==> r.before == v.start * e && r.after == (v.count - v.start - v.rendered) * e)
  {
    if SpacerRule(v).Some? {
      var c, before, after := Columns(v), RowsBefore(v), RowsAfter(v);
      SpacersSpan(v);
      CeilBounds(v.start, c);
      HeightsSpan(before, CeilDiv(v.rendered, c), after, CeilDiv(v.count, c), v.extent);
      HeightBefore(v.start, before, c, v.extent);
      OneColumn(v);
    }
  }

  lemma OneColumn(v: Viewport)
    requires 0 <= v.start && v.start + v.rendered <= v.count
    ensures Columns(v) == 1 ==> RowsBefore(v) == v.start && RowsAfter(v) == v.count - v.start - v.rendered
  {
  }

  lemma HeightsSpan(before: int, mid: int, after: int, all: int, e: nat)
    requires all <= before + mid + after <= all + 2
    ensures all * e <= before * e + mid * e + after * e <= (all + 2) * e
  {
    ScaleBetween(all, before + mid + after, all + 2, e);
    assert (before + mid + after) * e == before * e + mid * e + after * e;
  }

  lemma HeightBefore(start: int, rows: int, c: nat, e: nat)
    requires start <= rows * c <= start + c
    ensures start * e <= rows * e * c <= (start + c) * e
  {
    ScaleBetween(start, rows * c, start + c, e);
    assert (rows * c) * e == (rows * e) * c;
  }

  // ---- The virtualizer --------------------------------------------------------------------------

  /** What a refresh leaves requested, asks for, and writes as rules. */
  datatype Refreshed = Refreshed(requested: Requested, asks: seq<Scroll>, rules: seq<Rule>)

  /** One list's share of a refresh, and what the others add to it. */
  function RefreshOne(requested: Requested, v: Viewport): Refreshed {
    var ask := if v.key.Some? then RecoverWindow(requested, v, v.key.value) else None;
    Refreshed(Noted(requested, ask), if ask.Some? then [ask.value] else [],
              if SpacerRule(v).Some? then [SpacerRule(v).value] else [])
  }

  function Then(first: Refreshed, rest: Refreshed): Refreshed {
    Refreshed(rest.requested, first.asks + rest.asks, first.rules + rest.rules)
  }

  lemma ThenAssociates(a: Refreshed, b: Refreshed, c: Refreshed)
    ensures Then(Then(a, b), c) == Then(a, Then(b, c))
  {
  }

  function Refresh(requested: Requested, vs: seq<Viewport>): Refreshed
    decreases |vs|
  {
    if vs == [] then Refreshed(requested, [], [])
    else
      var first := RefreshOne(requested, vs[0]);
      Then(first, Refresh(first.requested, vs[1..]))
  }

  predicate KeysDiffer(vs: seq<Viewport>) {
    forall i, j :: 0 <= i < j < |vs| && vs[i].key.Some? ==> vs[i].key != vs[j].key
  }

  /** A list already answered for asks no more. */
  predicate Quiet(requested: Requested, v: Viewport) {
    v.key.Some? ==> RecoverWindow(requested, v, v.key.value).None?
  }

  /** A refresh only notes its own lists' keys. */
  lemma {:induction false} RefreshFrame(requested: Requested, vs: seq<Viewport>, v: Viewport)
    requires forall i :: 0 <= i < |vs| && vs[i].key.Some? ==> vs[i].key != v.key
    ensures Quiet(requested, v) <==> Quiet(Refresh(requested, vs).requested, v)
    decreases |vs|
  {
    if vs != [] {
      assert vs[0].key.Some? ==> vs[0].key != v.key;
      RefreshFrame(RefreshOne(requested, vs[0]).requested, vs[1..], v);
    }
  }

  /** Refreshing after every batch does not repeat itself: with no list changed, the
      next refresh asks for nothing. */
  lemma {:induction false} RefreshAsksOnce(requested: Requested, vs: seq<Viewport>)
    requires KeysDiffer(vs)
    ensures forall i :: 0 <= i < |vs| ==> Quiet(Refresh(requested, vs).requested, vs[i])
    decreases |vs|
  {
    if vs != [] {
      var first := RefreshOne(requested, vs[0]);
      RefreshAsksOnce(first.requested, vs[1..]);
      assert Quiet(first.requested, vs[0]);
      forall i | 0 <= i < |vs| - 1 && vs[1..][i].key.Some? ensures vs[1..][i].key != vs[0].key {
        assert vs[1..][i] == vs[i + 1];
      }
      RefreshFrame(first.requested, vs[1..], vs[0]);
      forall i | 0 <= i < |vs| ensures Quiet(Refresh(requested, vs).requested, vs[i]) {
        if i > 0 { assert vs[i] == vs[1..][i - 1]; }
      }
    }
  }

  function RulesOf(vs: seq<Viewport>): seq<Rule> {
    if vs == [] then []
    else (if SpacerRule(vs[0]).Some? then [SpacerRule(vs[0]).value] else []) + RulesOf(vs[1..])
  }

  function AsksOf(requested: Requested, vs: seq<Viewport>): seq<Scroll> {
    if vs == [] then []
    else
      var ask := if vs[0].key.Some? then RecoverWindow(requested, vs[0], vs[0].key.value) else None;
      (if ask.Some? then [ask.value] else []) + AsksOf(requested, vs[1..])
  }

  lemma {:induction false} AsksStay(requested: Requested, vs: seq<Viewport>, key: string, start: int)
    requires forall i :: 0 <= i < |vs| ==> vs[i].key != Some(key)
    ensures AsksOf(requested[key := start], vs) == AsksOf(requested, vs)
    decreases |vs|
  {
    if vs != [] {
      assert vs[0].key != Some(key);
      AsksStay(requested, vs[1..], key, start);
    }
  }

  /** A refresh writes every list's rule, in page order, and asks for every list that needs
      recovering, each on its own account. */
  lemma {:induction false} RefreshReachesAll(requested: Requested, vs: seq<Viewport>)
    requires KeysDiffer(vs)
    ensures Refresh(requested, vs).rules == RulesOf(vs)
    ensures Refresh(requested, vs).asks == AsksOf(requested, vs)
    decreases |vs|
  {
    if vs != [] {
      var first := RefreshOne(requested, vs[0]);
      assert forall i :: 0 <= i < |vs| - 1 ==> vs[1..][i] == vs[i + 1];
      RefreshReachesAll(first.requested, vs[1..]);
      if first.asks != [] {
        AsksStay(requested, vs[1..], vs[0].key.value, first.asks[0].start);
      }
    }
  }

  class Virtualizer {
    var requested: Requested
    var asks: seq<Scroll>

    constructor ()
      ensures requested == map[] && asks == []
    {
      requested, asks := map[], [];
    }

    method Ask(s: Scroll)
      modifies this
      ensures requested == Noted(old(requested), Some(s)) && asks == old(asks) + [s]
    {
      requested := requested[s.key := s.start];
      asks := asks + [s];
    }

    method Recover(v: Viewport, key: string)
      modifies this
      ensures var s := RecoverWindow(old(requested), v, key);
              && requested == Noted(old(requested), s)
              && asks == old(asks) + if s.Some? then [s.value] else []
    {
      var windowSize := WindowSize(v);
      if windowSize <= 0 { return; }
      var maxStart := Max(0, v.count - windowSize);
      var stranded := v.count > 0 && v.rendered == 0;
      if (v.start <= maxStart && !stranded) || Asked(requested, key, maxStart) { return; }
      Ask(Scroll(key, maxStart, Min(v.count, maxStart + windowSize)));
    }

    method HandleScroll(v: Viewport, scrollTop: real)
      modifies this
      ensures var s := OnScroll(old(requested), v, scrollTop);
              && requested == Noted(old(requested), s)
              && asks == old(asks) + if s.Some? then [s.value] else []
    {
      if v.key.None? { return; }
      var windowSize := WindowSize(v);
      if v.extent == 0 || windowSize <= 0 || windowSize >= v.count { return; }
      var lead := windowSize / 3;
      var top := (scrollTop / v.extent as real).Floor;
      var maxStart := Max(0, v.count - windowSize);
      var next := Min(maxStart, Max(0, top - lead));
      if next == v.start || Asked(requested, v.key.value, next) { return; }
      Ask(Scroll(v.key.value, next, Min(v.count, next + windowSize)));
    }

    method RefreshViewport(v: Viewport) returns (rule: seq<Rule>)
      modifies this
      ensures var r := RefreshOne(old(requested), v);
              requested == r.requested && asks == old(asks) + r.asks && rule == r.rules
    {
      if v.key.Some? {
        Recover(v, v.key.value);
      }
      var r := SpacerRule(v);
      rule := if r.Some? then [r.value] else [];
    }

    /** Run after every patch batch, over every lazy list on the page. */
    method RefreshAll(vs: seq<Viewport>) returns (rules: seq<Rule>)
      modifies this
      ensures Refreshed(requested, asks, rules)
              == Then(Refreshed(old(requested), old(asks), []), Refresh(old(requested), vs))
    {
      rules := [];
      ghost var start := Refreshed(requested, asks, []);
      for i := 0 to |vs|
        invariant Then(Refreshed(requested, asks, rules), Refresh(requested, vs[i..]))
                  == Then(start, Refresh(start.requested, vs))
      {
        assert vs[i..][0] == vs[i] && vs[i..][1..] == vs[i + 1..];
        ghost var before := Refreshed(requested, asks, rules);
        ghost var one := RefreshOne(requested, vs[i]);
        ThenAssociates(before, one, Refresh(one.requested, vs[i + 1..]));
        var rule := RefreshViewport(vs[i]);
        rules := rules + rule;
      }
      ghost var done := Refreshed(requested, asks, rules);
      assert Then(done, Refresh(requested, vs[|vs|..])) == done;
    }
  }
}
