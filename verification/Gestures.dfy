/**
 The pointer-gesture recognizer: pointers per element, a pinch baseline while two are
 down, reports coalesced to one a frame, and double taps that never share a release.
 */
module Gestures {
  import opened Common

  const DOUBLE_TAP_MS := 300.0
  const LONG_PRESS_MS := 500.0
  const SWIPE_MIN_PX := 30
  const DOUBLE_TAP_SLOP_PX := 24.0

  datatype Widget = GestureDetector | PanHandler | ScaleHandler | InteractiveViewer

  predicate ReportsTap(w: Widget) { w.GestureDetector? }

  predicate ReportsDoubleTap(w: Widget) { w.GestureDetector? || w.ScaleHandler? }

  /** What a moving pointer reports: a pinch when a second one is down, else a drag. */
  predicate ReportsMove(w: Widget, pinching: bool) {
    if pinching then w.ScaleHandler? || w.InteractiveViewer? else w.PanHandler? || w.InteractiveViewer?
  }

  datatype Point = Point(x: real, y: real)

  function Apart(a: Point, b: Point): real {
    (a.x - b.x) * (a.x - b.x) + (a.y - b.y) * (a.y - b.y)
  }

  datatype Pointer = Pointer(id: nat, el: nat, widget: Widget, at: Point, t: real, start: Point, moved: bool)

  /** A pointer lifted; it `counts` towards a double tap when it lay still on a widget
      that reports them. */
  datatype Release = Release(el: nat, at: Point, t: real, counts: bool)

  /** The tap an element remembers, and which release it was. */
  datatype Tap = Tap(index: nat, release: Release)

  /** `produced` numbers each element's continuous reports; `sent` is what went out, in
      order; `frames` counts the frames still scheduled; `releases` are all there were
      and `doubles` the pairs of them reported as double taps. */
  datatype State = State(pointers: seq<Pointer>, pinches: set<nat>, lastTap: map<nat, Tap>,
                         pending: map<nat, nat>, frames: map<nat, nat>,
                         produced: map<nat, nat>, sent: seq<(nat, nat)>,
                         releases: seq<Release>, doubles: seq<(nat, nat)>)

  datatype Step =
    | Down(id: nat, el: nat, widget: Widget, at: Point, t: real)
    | Move(id: nat, at: Point, t: real)
    | Up(id: nat, at: Point, t: real)
    | Cancel(id: nat)
    | Frame(el: nat)

  // ---- Pointers ---------------------------------------------------------------------------

  /** Where a pointer stands in arrival order, or the number of pointers. */
  function Find(ps: seq<Pointer>, id: nat): (i: nat)
    ensures i <= |ps|
    ensures i < |ps| ==> ps[i].id == id
    ensures forall j :: 0 <= j < i ==> ps[j].id != id
  {
    if ps == [] || ps[0].id == id then 0 else 1 + Find(ps[1..], id)
  }

  function On(ps: seq<Pointer>, el: nat): nat {
    if ps == [] then 0 else (if ps[0].el == el then 1 else 0) + On(ps[1..], el)
  }

  function Without(ps: seq<Pointer>, i: nat): seq<Pointer>
    requires i < |ps|
  {
    ps[..i] + ps[i + 1..]
  }

  /** A map keeps the place of a key it already has. */
  function Tracked(ps: seq<Pointer>, p: Pointer): seq<Pointer> {
    var i := Find(ps, p.id);
    if i < |ps| then ps[i := p] else ps + [p]
  }

  function Count(m: map<nat, nat>, el: nat): nat {
    if el in m then m[el] else 0
  }

  // ---- Reports ------------------------------------------------------------------------------

  /** The newest report replaces the one waiting; only the first asks for a frame. */
  function PerFrame(s: State, el: nat): State {
    var n := Count(s.produced, el) + 1;
    s.(produced := s.produced[el := n],
       pending := s.pending[el := n],
       frames := if el in s.pending then s.frames else s.frames[el := Count(s.frames, el) + 1])
  }

  function FlushPending(s: State, el: nat): State {
    if el in s.pending then s.(pending := s.pending - {el}, sent := s.sent + [(el, s.pending[el])]) else s
  }

  /** A pointer at its new place; more than 2 px from where it went down it has strayed. */
  function Moved(p: Pointer, at: Point, t: real): Pointer {
    p.(at := at, t := t, moved := p.moved || Apart(at, p.start) > 4.0)
  }

  /** A pointer leaves its element. */
  function Lifted(s: State, i: nat): State
    requires i < |s.pointers|
  {
    var el := s.pointers[i].el;
    var left := FlushPending(s.(pointers := Without(s.pointers, i)), el);
    if On(left.pointers, el) < 2 then left.(pinches := left.pinches - {el}) else left
  }

  /** Quick enough after the tap before, and close enough to it. */
  predicate Follows(previous: Release, tap: Release) {
    && tap.t - previous.t <= DOUBLE_TAP_MS
    && Apart(tap.at, previous.at) <= DOUBLE_TAP_SLOP_PX * DOUBLE_TAP_SLOP_PX
  }

  function Paired(s: State, el: nat, n: nat): State
    requires el in s.lastTap
  {
    s.(lastTap := s.lastTap - {el}, doubles := s.doubles + [(s.lastTap[el].index, n)])
  }

  /** The tap pairs with the one waiting for the element, or waits in its place. */
  function DoubleTapped(s: State, el: nat, tap: Tap, follows: bool): State {
    if el in s.lastTap && follows then Paired(s, el, tap.index) else s.(lastTap := s.lastTap[el := tap])
  }

  function ReleaseOf(p: Pointer, at: Point, t: real): Release {
    Release(p.el, at, t, !p.moved && ReportsDoubleTap(p.widget))
  }

  /** A release goes on record; one that counts may be half of a double tap. */
  function Released(s: State, r: Release): State {
    var recorded := s.(releases := s.releases + [r]);
    if r.counts then
      DoubleTapped(recorded, r.el, Tap(|s.releases|, r), r.el in s.lastTap && Follows(s.lastTap[r.el].release, r))
    else recorded
  }

  function Next(s: State, step: Step): State {
    match step
    case Down(id, el, widget, at, t) =>
      var down := s.(pointers := Tracked(s.pointers, Pointer(id, el, widget, at, t, at, false)));
      if On(down.pointers, el) == 2 then down.(pinches := down.pinches + {el}) else down
    case Move(id, at, t) =>
      var i := Find(s.pointers, id);
      if i == |s.pointers| then s
      else
        var p := s.pointers[i];
        var now := s.(pointers := s.pointers[i := Moved(p, at, t)]);
        var pinching := On(s.pointers, p.el) >= 2 && p.el in s.pinches;
        if ReportsMove(p.widget, pinching) then PerFrame(now, p.el) else now
    case Up(id, at, t) =>
      var i := Find(s.pointers, id);
      if i == |s.pointers| then s
      else Released(Lifted(s, i), ReleaseOf(s.pointers[i], at, t))
    case Cancel(id) =>
      var i := Find(s.pointers, id);
      if i == |s.pointers| then s else Lifted(s, i)
    case Frame(el) =>
      if Count(s.frames, el) == 0 then s
      else FlushPending(s.(frames := s.frames[el := s.frames[el] - 1]), el)
  }

  /** Every press is a new pointer. */
  predicate Legal(s: State, step: Step) {
    match step
    case Down(id, _, _, _, _) => Find(s.pointers, id) == |s.pointers|
    case Frame(el) => Count(s.frames, el) > 0
    case _ => true
  }

  predicate LegalRun(s: State, steps: seq<Step>)
    decreases |steps|
  {
    steps == [] || (Legal(s, steps[0]) && LegalRun(Next(s, steps[0]), steps[1..]))
  }

  function Run(s: State, steps: seq<Step>): State
    decreases |steps|
  {
    if steps == [] then s else Run(Next(s, steps[0]), steps[1..])
  }

  function Start(): State {
    State([], {}, map[], map[], map[], map[], [], [], [])
  }

  // ---- Pinches ----------------------------------------------------------------------------------

  /** A baseline exactly while at least two pointers are on the element. */
  ghost predicate Baselines(ps: seq<Pointer>, pinches: set<nat>) {
    forall el: nat :: el in pinches <==> On(ps, el) >= 2
  }

  lemma {:induction false} OnConcat(a: seq<Pointer>, b: seq<Pointer>, el: nat)
    ensures On(a + b, el) == On(a, el) + On(b, el)
  {
    if a == [] {
      assert a + b == b;
    } else {
      assert (a + b)[1..] == a[1..] + b;
      OnConcat(a[1..], b, el);
    }
  }

  /** One pointer among the others, wherever it stands. */
  lemma OnOne(ps: seq<Pointer>, i: nat, p: Pointer, el: nat)
    requires i < |ps|
    ensures On(ps[i := p], el) == On(Without(ps, i), el) + if p.el == el then 1 else 0
  {
    OnConcat(ps[..i], ps[i + 1..], el);
    OnConcat(ps[..i], [p] + ps[i + 1..], el);
    OnConcat([p], ps[i + 1..], el);
    assert ps[i := p] == ps[..i] + ([p] + ps[i + 1..]);
  }

  lemma BaselinesAfterDown(s: State, p: Pointer)
    requires Baselines(s.pointers, s.pinches) && Find(s.pointers, p.id) == |s.pointers|
    ensures var after := s.pointers + [p];
            Baselines(after, if On(after, p.el) == 2 then s.pinches + {p.el} else s.pinches)
  {
    forall el: nat ensures On(s.pointers + [p], el) == On(s.pointers, el) + if p.el == el then 1 else 0 {
      OnConcat(s.pointers, [p], el);
    }
  }

  lemma BaselinesAfterLift(ps: seq<Pointer>, pinches: set<nat>, i: nat)
    requires Baselines(ps, pinches) && i < |ps|
    ensures var el := ps[i].el;
            Baselines(Without(ps, i), if On(Without(ps, i), el) < 2 then pinches - {el} else pinches)
  {
    forall el: nat ensures On(ps, el) == On(Without(ps, i), el) + if ps[i].el == el then 1 else 0 {
      OnOne(ps, i, ps[i], el);
      assert ps[i := ps[i]] == ps;
    }
  }

  lemma BaselinesAfterMove(ps: seq<Pointer>, pinches: set<nat>, i: nat, p: Pointer)
    requires Baselines(ps, pinches) && i < |ps| && p.el == ps[i].el
    ensures Baselines(ps[i := p], pinches)
  {
    forall el: nat ensures On(ps[i := p], el) == On(ps, el) {
      OnOne(ps, i, p, el);
      OnOne(ps, i, ps[i], el);
      assert ps[i := ps[i]] == ps;
    }
  }

  // ---- Reports in order -----------------------------------------------------------------------------

  /** The number of the last report sent for an element, 0 when none was. */
  function LastSent(sent: seq<(nat, nat)>, el: nat): nat {
    if sent == [] then 0
    else if sent[|sent| - 1].0 == el then sent[|sent| - 1].1
    else LastSent(sent[..|sent| - 1], el)
  }

  lemma LastSentSnoc(sent: seq<(nat, nat)>, x: (nat, nat), el: nat)
    ensures LastSent(sent + [x], el) == if x.0 == el then x.1 else LastSent(sent, el)
  {
    assert (sent + [x])[..|sent|] == sent;
  }

  /** Each element's reports go out in the order they were made, none twice. */
  predicate SentInOrder(sent: seq<(nat, nat)>) {
    && (forall i, j :: 0 <= i < j < |sent| && sent[i].0 == sent[j].0 ==> sent[i].1 < sent[j].1)
    && (forall i :: 0 <= i < |sent| ==> 1 <= sent[i].1 <= LastSent(sent, sent[i].0))
  }

  lemma SendsInOrder(sent: seq<(nat, nat)>, el: nat, n: nat)
    requires SentInOrder(sent) && LastSent(sent, el) < n
    ensures SentInOrder(sent + [(el, n)])
  {
    var more := sent + [(el, n)];
    forall i | 0 <= i < |more| ensures 1 <= more[i].1 <= LastSent(more, more[i].0) {
      LastSentSnoc(sent, (el, n), more[i].0);
    }
    forall i, j | 0 <= i < j < |more| && more[i].0 == more[j].0 ensures more[i].1 < more[j].1 {
      assert more[i] == sent[i];
    }
  }

  /** The report waiting for an element is its newest; with none waiting the newest has
      been sent. */
  predicate Settled(s: State, el: nat) {
    if el in s.pending then s.pending[el] == Count(s.produced, el) && LastSent(s.sent, el) < s.pending[el]
    else LastSent(s.sent, el) == Count(s.produced, el)
  }

  predicate Framed(s: State, el: nat) {
    el in s.pending ==> Count(s.frames, el) > 0
  }

  ghost predicate Coalesced(s: State) {
    && SentInOrder(s.sent)
    && (forall el: nat :: Settled(s, el))
    && (forall el: nat :: Framed(s, el))
  }

  lemma PerFrameCoalesces(s: State, el: nat)
    requires Coalesced(s)
    ensures Coalesced(PerFrame(s, el))
  {
    var z := PerFrame(s, el);
    assert Settled(s, el) && Framed(s, el);
    forall e: nat ensures Settled(z, e) && Framed(z, e) {
      assert Settled(s, e) && Framed(s, e);
    }
  }

  lemma FlushCoalesces(s: State, el: nat)
    requires SentInOrder(s.sent) && (forall e: nat :: Settled(s, e)) && (forall e: nat :: e != el ==> Framed(s, e))
    ensures Coalesced(FlushPending(s, el))
    ensures el !in FlushPending(s, el).pending
  {
    var z := FlushPending(s, el);
    assert Settled(s, el);
    if el in s.pending {
      SendsInOrder(s.sent, el, s.pending[el]);
      forall e: nat ensures Settled(z, e) && Framed(z, e) {
        assert Settled(s, e) && (e != el ==> Framed(s, e));
        LastSentSnoc(s.sent, (el, s.pending[el]), e);
      }
    } else {
      assert Framed(s, el);
    }
  }

  /** Coalescing looks at nothing else. */
  lemma CoalescedIgnores(s: State, z: State)
    requires Coalesced(s)
    requires z.sent == s.sent && z.pending == s.pending && z.produced == s.produced && z.frames == s.frames
    ensures Coalesced(z)
  {
    forall e: nat ensures Settled(z, e) && Framed(z, e) {
      assert Settled(s, e) && Framed(s, e);
    }
  }

  // ---- Double taps --------------------------------------------------------------------------------------

  predicate Unshared(a: (nat, nat), b: (nat, nat)) {
    a.0 != b.0 && a.0 != b.1 && a.1 != b.0 && a.1 != b.1
  }

  predicate Unused(doubles: seq<(nat, nat)>, n: nat) {
    forall i :: 0 <= i < |doubles| ==> doubles[i].0 != n && doubles[i].1 != n
  }

  predicate Second(doubles: seq<(nat, nat)>, n: nat) {
    exists i :: 0 <= i < |doubles| && doubles[i].1 == n
  }

  predicate Doubled(doubles: seq<(nat, nat)>, a: nat, b: nat) {
    exists i :: 0 <= i < |doubles| && doubles[i] == (a, b)
  }

  /** No later release counts for the element. */
  predicate Latest(h: seq<Release>, n: nat) {
    && n < |h| && h[n].counts
    && forall k :: n < k < |h| ==> !(h[k].counts && h[k].el == h[n].el)
  }

  /** Two releases that count for one element with none that counts between. */
  predicate Consecutive(h: seq<Release>, a: nat, b: nat) {
    && a < b < |h| && h[b].counts && h[a].el == h[b].el
    && Latest(h[..b], a)
  }

  /** No release takes part in two double taps, and one waiting has taken part in none. */
  predicate TapsDisjoint(doubles: seq<(nat, nat)>, lastTap: map<nat, Tap>, n: nat) {
    && (forall i :: 0 <= i < |doubles| ==> doubles[i].0 < doubles[i].1 < n)
    && (forall i, j :: 0 <= i < j < |doubles| ==> Unshared(doubles[i], doubles[j]))
    && (forall el :: el in lastTap ==> lastTap[el].index < n && Unused(doubles, lastTap[el].index))
    && (forall a, b :: a in lastTap && b in lastTap && a != b ==> lastTap[a].index != lastTap[b].index)
  }

  /** The tap an element waits with is its latest that counts; without one, its latest
      was the second of a double tap. */
  ghost predicate TapsWait(h: seq<Release>, doubles: seq<(nat, nat)>, lastTap: map<nat, Tap>) {
    && (forall el :: el in lastTap ==>
          && Latest(h, lastTap[el].index) && h[lastTap[el].index] == lastTap[el].release
          && lastTap[el].release.el == el)
    && (forall n: nat :: Latest(h, n) ==>
          (h[n].el in lastTap && lastTap[h[n].el].index == n) || Second(doubles, n))
  }

  type Near = (Release, Release) -> bool

  /** Two consecutive taps are a double tap exactly when they are near and the first is
      not the second half of another. */
  ghost predicate TapsExact(h: seq<Release>, doubles: seq<(nat, nat)>, near: Near) {
    && (forall i :: 0 <= i < |doubles| ==> Consecutive(h, doubles[i].0, doubles[i].1))
    && (forall a: nat, b: nat :: Consecutive(h, a, b) ==>
          (Doubled(doubles, a, b) <==> near(h[a], h[b]) && !Second(doubles, a)))
  }

  ghost predicate TapsSound(h: seq<Release>, doubles: seq<(nat, nat)>, lastTap: map<nat, Tap>, near: Near) {
    TapsDisjoint(doubles, lastTap, |h|) && TapsWait(h, doubles, lastTap) && TapsExact(h, doubles, near)
  }

  lemma LatestSnoc(h: seq<Release>, r: Release, n: nat)
    ensures Latest(h + [r], n) <==>
              (if n == |h| then r.counts else Latest(h, n) && !(r.counts && r.el == h[n].el))
  {
    var more := h + [r];
    if n < |h| {
      assert forall k :: n < k < |h| ==> more[k] == h[k];
      assert more[|h|] == r;
    }
  }

  lemma ConsecutiveSnoc(h: seq<Release>, r: Release, a: nat, b: nat)
    ensures Consecutive(h + [r], a, b) <==>
              (if b == |h| then r.counts && Latest(h, a) && h[a].el == r.el else Consecutive(h, a, b))
  {
    if b <= |h| {
      assert (h + [r])[..b] == h[..b];
      assert h[..|h|] == h;
    }
  }

  lemma PairSnoc(doubles: seq<(nat, nat)>, p: (nat, nat))
    ensures forall n: nat :: Second(doubles + [p], n) <==> Second(doubles, n) || p.1 == n
    ensures forall a: nat, b: nat :: Doubled(doubles + [p], a, b) <==> Doubled(doubles, a, b) || p == (a, b)
  {
    var more := doubles + [p];
    assert more[|doubles|] == p;
    forall n: nat ensures Second(more, n) <==> Second(doubles, n) || p.1 == n {
      if Second(doubles, n) {
        var i :| 0 <= i < |doubles| && doubles[i].1 == n;
        assert more[i].1 == n;
      }
    }
    forall a: nat, b: nat ensures Doubled(more, a, b) <==> Doubled(doubles, a, b) || p == (a, b) {
      if Doubled(doubles, a, b) {
        var i :| 0 <= i < |doubles| && doubles[i] == (a, b);
        assert more[i] == (a, b);
      }
    }
  }

  /** A release that does not count changes nothing about taps. */
  lemma IdleRelease(h: seq<Release>, doubles: seq<(nat, nat)>, lastTap: map<nat, Tap>, near: Near, r: Release)
    requires TapsSound(h, doubles, lastTap, near) && !r.counts
    ensures TapsSound(h + [r], doubles, lastTap, near)
  {
    forall n: nat ensures Latest(h + [r], n) <==> Latest(h, n) {
      LatestSnoc(h, r, n);
    }
    forall a: nat, b: nat ensures Consecutive(h + [r], a, b) <==> Consecutive(h, a, b) {
      ConsecutiveSnoc(h, r, a, b);
    }
  }

  lemma WaitsDisjoint(doubles: seq<(nat, nat)>, lastTap: map<nat, Tap>, n: nat, tap: Tap)
    requires TapsDisjoint(doubles, lastTap, n) && tap.index == n
    ensures TapsDisjoint(doubles, lastTap[tap.release.el := tap], n + 1)
  {
    assert Unused(doubles, n);
  }

  lemma PairsDisjoint(doubles: seq<(nat, nat)>, lastTap: map<nat, Tap>, n: nat, el: nat)
    requires TapsDisjoint(doubles, lastTap, n) && el in lastTap
    ensures TapsDisjoint(doubles + [(lastTap[el].index, n)], lastTap - {el}, n + 1)
  {
    var pair := (lastTap[el].index, n);
    assert Unused(doubles, n) && Unused(doubles, pair.0);
    forall e | e in lastTap - {el} ensures Unused(doubles + [pair], lastTap[e].index) {
      assert Unused(doubles, lastTap[e].index);
    }
  }

  /** A tap with nothing near before it waits. */
  lemma TapWaits(h: seq<Release>, doubles: seq<(nat, nat)>, lastTap: map<nat, Tap>, near: Near, r: Release)
    requires TapsSound(h, doubles, lastTap, near) && r.counts
    requires r.el in lastTap ==> !near(lastTap[r.el].release, r)
    ensures TapsSound(h + [r], doubles, lastTap[r.el := Tap(|h|, r)], near)
  {
    var n, taps := |h|, lastTap[r.el := Tap(|h|, r)];
    WaitsDisjoint(doubles, lastTap, n, Tap(n, r));
    forall k: nat ensures Latest(h + [r], k) <==> (if k == n then true else Latest(h, k) && r.el != h[k].el) {
      LatestSnoc(h, r, k);
    }
    assert TapsWait(h + [r], doubles, taps);
    forall a: nat, b: nat | Consecutive(h + [r], a, b)
      ensures Doubled(doubles, a, b) <==> near((h + [r])[a], (h + [r])[b]) && !Second(doubles, a)
    {
      ConsecutiveSnoc(h, r, a, b);
      if b == n {
        assert Latest(h, a);
      }
    }
    forall i | 0 <= i < |doubles| ensures Consecutive(h + [r], doubles[i].0, doubles[i].1) {
      ConsecutiveSnoc(h, r, doubles[i].0, doubles[i].1);
    }
  }

  /** A tap near the one waiting pairs with it. */
  lemma TapPairs(h: seq<Release>, doubles: seq<(nat, nat)>, lastTap: map<nat, Tap>, near: Near, r: Release)
    requires TapsSound(h, doubles, lastTap, near) && r.counts
    requires r.el in lastTap && near(lastTap[r.el].release, r)
    ensures TapsSound(h + [r], doubles + [(lastTap[r.el].index, |h|)], lastTap - {r.el}, near)
  {
    var n, p := |h|, lastTap[r.el].index;
    var more := doubles + [(p, n)];
    PairsDisjoint(doubles, lastTap, n, r.el);
    PairSnoc(doubles, (p, n));
    forall k: nat ensures Latest(h + [r], k) <==> (if k == n then true else Latest(h, k) && r.el != h[k].el) {
      LatestSnoc(h, r, k);
    }
    assert TapsWait(h + [r], more, lastTap - {r.el});
    forall a: nat, b: nat | Consecutive(h + [r], a, b)
      ensures Doubled(more, a, b) <==> near((h + [r])[a], (h + [r])[b]) && !Second(more, a)
    {
      ConsecutiveSnoc(h, r, a, b);
      if b == n {
        assert Latest(h, a);
        OneLatest(h, a, p);
      }
    }
    forall i | 0 <= i < |more| ensures Consecutive(h + [r], more[i].0, more[i].1) {
      ConsecutiveSnoc(h, r, more[i].0, more[i].1);
    }
  }

  lemma OneLatest(h: seq<Release>, a: nat, b: nat)
    requires Latest(h, a) && Latest(h, b) && h[a].el == h[b].el
    ensures a == b
  {
  }

  // ---- Every step --------------------------------------------------------------------------------------------

  ghost predicate Sound(s: State) {
    && Baselines(s.pointers, s.pinches)
    && Coalesced(s)
    && TapsSound(s.releases, s.doubles, s.lastTap, Follows)
  }

  lemma LiftSound(s: State, i: nat)
    requires Sound(s) && i < |s.pointers|
    ensures Sound(Lifted(s, i))
    ensures s.pointers[i].el !in Lifted(s, i).pending
    ensures Lifted(s, i).releases == s.releases
  {
    var el := s.pointers[i].el;
    var without := s.(pointers := Without(s.pointers, i));
    CoalescedIgnores(s, without);
    FlushCoalesces(without, el);
    CoalescedIgnores(FlushPending(without, el), Lifted(s, i));
    BaselinesAfterLift(s.pointers, s.pinches, i);
  }

  lemma MoveSound(s: State, id: nat, at: Point, t: real)
    requires Sound(s)
    ensures Sound(Next(s, Move(id, at, t)))
  {
    var i := Find(s.pointers, id);
    if i < |s.pointers| {
      var p := s.pointers[i];
      var q := Moved(p, at, t);
      var now := s.(pointers := s.pointers[i := q]);
      BaselinesAfterMove(s.pointers, s.pinches, i, q);
      CoalescedIgnores(s, now);
      PerFrameCoalesces(now, p.el);
    }
  }

  lemma ReleasedSound(s: State, r: Release)
    requires Sound(s)
    ensures Sound(Released(s, r))
    ensures Released(s, r).pending == s.pending && Released(s, r).sent == s.sent
  {
    CoalescedIgnores(s, Released(s, r));
    if !r.counts {
      IdleRelease(s.releases, s.doubles, s.lastTap, Follows, r);
    } else if r.el in s.lastTap && Follows(s.lastTap[r.el].release, r) {
      TapPairs(s.releases, s.doubles, s.lastTap, Follows, r);
    } else {
      TapWaits(s.releases, s.doubles, s.lastTap, Follows, r);
    }
  }

  lemma UpSound(s: State, id: nat, at: Point, t: real)
    requires Sound(s)
    ensures Sound(Next(s, Up(id, at, t)))
  {
    var i := Find(s.pointers, id);
    if i < |s.pointers| {
      LiftSound(s, i);
      ReleasedSound(Lifted(s, i), ReleaseOf(s.pointers[i], at, t));
    }
  }

  lemma FrameSound(s: State, el: nat)
    requires Sound(s)
    ensures Sound(Next(s, Frame(el)))
  {
    if Count(s.frames, el) > 0 {
      var spent := s.(frames := s.frames[el := s.frames[el] - 1]);
      forall e: nat ensures Settled(spent, e) && (e != el ==> Framed(spent, e)) {
        assert Settled(s, e) && Framed(s, e);
      }
      FlushCoalesces(spent, el);
    }
  }

  lemma StepSound(s: State, step: Step)
    requires Sound(s) && Legal(s, step)
    ensures Sound(Next(s, step))
  {
    match step
    case Down(id, el, widget, at, t) =>
      BaselinesAfterDown(s, Pointer(id, el, widget, at, t, at, false));
      CoalescedIgnores(s, Next(s, step));
    case Move(id, at, t) => MoveSound(s, id, at, t);
    case Up(id, at, t) => UpSound(s, id, at, t);
    case Cancel(id) =>
      if Find(s.pointers, id) < |s.pointers| {
        LiftSound(s, Find(s.pointers, id));
      }
    case Frame(el) => FrameSound(s, el);
  }

  lemma {:induction false} RunSound(s: State, steps: seq<Step>)
    requires Sound(s) && LegalRun(s, steps)
    ensures Sound(Run(s, steps))
    decreases |steps|
  {
    if steps != [] {
      StepSound(s, steps[0]);
      RunSound(Next(s, steps[0]), steps[1..]);
    }
  }

  lemma StartSound()
    ensures Sound(Start())
  {
    forall el: nat ensures Settled(Start(), el) && Framed(Start(), el) {
    }
  }

  /** Reports sent are reports made, and only the newest may still be waiting. */
  lemma CoalescedMeans(s: State, el: nat)
    requires Coalesced(s)
    ensures LastSent(s.sent, el) <= Count(s.produced, el)
    ensures el !in s.pending ==> LastSent(s.sent, el) == Count(s.produced, el)
    ensures el in s.pending ==> Count(s.frames, el) > 0
  {
    assert Settled(s, el) && Framed(s, el);
  }

  /** In every run: a pinch baseline exists for an element exactly while two pointers
      are on it; the continuous reports sent are among those made, in order, none twice,
      the newest included unless it is waiting with a frame coming; no release takes part
      in two double taps, and two consecutive taps are one exactly when they are quick and
      close and the first ends no other. */
  lemma GestureRuns(steps: seq<Step>)
    requires LegalRun(Start(), steps)
    ensures var z := Run(Start(), steps);
            && (forall el: nat :: el in z.pinches <==> On(z.pointers, el) >= 2)
            && (forall i, j :: 0 <= i < j < |z.sent| && z.sent[i].0 == z.sent[j].0 ==> z.sent[i].1 < z.sent[j].1)
            && (forall i :: 0 <= i < |z.sent| ==> 1 <= z.sent[i].1 <= Count(z.produced, z.sent[i].0))
            && (forall el: nat :: el !in z.pending ==> LastSent(z.sent, el) == Count(z.produced, el))
            && (forall el: nat :: el in z.pending ==> Count(z.frames, el) > 0)
            && (forall i, j :: 0 <= i < j < |z.doubles| ==> Unshared(z.doubles[i], z.doubles[j]))
            && TapsExact(z.releases, z.doubles, Follows)
  {
    StartSound();
    RunSound(Start(), steps);
    var z := Run(Start(), steps);
    forall el: nat
      ensures LastSent(z.sent, el) <= Count(z.produced, el)
      ensures el !in z.pending ==> LastSent(z.sent, el) == Count(z.produced, el)
      ensures el in z.pending ==> Count(z.frames, el) > 0
    {
      CoalescedMeans(z, el);
    }
  }

  /** Whoever lifts or loses a pointer, the last report its element made has gone out. */
  lemma ReleaseSendsTheLast(s: State, step: Step)
    requires Sound(s) && (step.Up? || step.Cancel?) && Find(s.pointers, step.id) < |s.pointers|
    ensures var el := s.pointers[Find(s.pointers, step.id)].el;
            var z := Next(s, step);
            el !in z.pending && LastSent(z.sent, el) == Count(s.produced, el)
  {
    var i := Find(s.pointers, step.id);
    var up := Lifted(s, i);
    LiftSound(s, i);
    assert Settled(up, s.pointers[i].el);
    if step.Up? {
      ReleasedSound(up, ReleaseOf(s.pointers[i], step.at, step.t));
    }
  }

  // ---- Who reports what -------------------------------------------------------------------------------------------

  /** A move is one more report for its element, and for no other, exactly when the widget
      follows it: a pinch surface or a viewer while two or more pointers are on the element,
      a pan surface or a viewer while one is. A tap detector never reports a move. Only the
      first report waiting for a frame asks for one. */
  lemma MoveReports(s: State, id: nat, at: Point, t: real, el: nat)
    requires Sound(s) && Find(s.pointers, id) < |s.pointers|
    ensures var p, z := s.pointers[Find(s.pointers, id)], Next(s, Move(id, at, t));
            var follows := if On(s.pointers, p.el) >= 2 then p.widget == ScaleHandler || p.widget == InteractiveViewer
                           else p.widget == PanHandler || p.widget == InteractiveViewer;
            && Count(z.produced, el) == Count(s.produced, el) + (if el == p.el && follows then 1 else 0)
            && Count(z.frames, el) == Count(s.frames, el) + if el == p.el && follows && el !in s.pending then 1 else 0
  {
    var on := s.pointers[Find(s.pointers, id)].el;
    assert on in s.pinches <==> On(s.pointers, on) >= 2;
  }

  /** Quick is within 300 ms, close within 24 px. */
  lemma FollowsExactly(a: Release, b: Release)
    ensures Follows(a, b) <==>
              b.t - a.t <= 300.0
              && (b.at.x - a.at.x) * (b.at.x - a.at.x) + (b.at.y - a.at.y) * (b.at.y - a.at.y) <= 576.0
  {
  }

  /** A release counts towards a double tap exactly when its pointer never strayed and the
      widget reports double taps. */
  lemma ReleaseCounts(s: State, id: nat, at: Point, t: real)
    requires Find(s.pointers, id) < |s.pointers|
    ensures var p, z := s.pointers[Find(s.pointers, id)], Next(s, Up(id, at, t));
            && |z.releases| == |s.releases| + 1
            && var r := z.releases[|s.releases|];
               && r.el == p.el && r.at == at && r.t == t
               && (r.counts <==> !p.moved && (p.widget == GestureDetector || p.widget == ScaleHandler))
  {
    var i := Find(s.pointers, id);
    LiftRecordsNothing(s, i);
    ReleaseRecorded(Lifted(s, i), ReleaseOf(s.pointers[i], at, t));
  }

  lemma LiftRecordsNothing(s: State, i: nat)
    requires i < |s.pointers|
    ensures Lifted(s, i).releases == s.releases && Lifted(s, i).doubles == s.doubles
    ensures Lifted(s, i).pointers == Without(s.pointers, i)
  {
  }

  lemma ReleaseRecorded(s: State, r: Release)
    ensures Released(s, r).releases == s.releases + [r] && Released(s, r).pointers == s.pointers
  {
  }

  /** A press is tracked where it happened, last. */
  lemma PressTracked(s: State, step: Step)
    requires Legal(s, step) && step.Down?
    ensures Next(s, step).pointers
            == s.pointers + [Pointer(step.id, step.el, step.widget, step.at, step.t, step.at, false)]
  {
  }

  /** A lift or a cancel takes that pointer away and no other; a cancel puts nothing on
      record. */
  lemma PointerLeaves(s: State, step: Step)
    requires step.Up? || step.Cancel?
    requires Find(s.pointers, step.id) < |s.pointers|
    ensures var i := Find(s.pointers, step.id);
            Next(s, step).pointers == s.pointers[..i] + s.pointers[i + 1..]
    ensures step.Cancel? ==> Next(s, step).releases == s.releases && Next(s, step).doubles == s.doubles
  {
    var i := Find(s.pointers, step.id);
    LiftRecordsNothing(s, i);
    if step.Up? {
      ReleaseRecorded(Lifted(s, i), ReleaseOf(s.pointers[i], step.at, step.t));
    }
  }

  /** The frame sends the report that waits, the newest there is. */
  lemma FrameSendsNewest(s: State, el: nat)
    requires Sound(s) && Count(s.frames, el) > 0
    ensures var z := Next(s, Frame(el));
            el !in z.pending && LastSent(z.sent, el) == Count(s.produced, el)
  {
    FrameSound(s, el);
    assert Settled(Next(s, Frame(el)), el);
  }

  /** A pointer has strayed once it was more than 2 px from where it went down. */
  lemma MoveStrays(s: State, id: nat, at: Point, t: real)
    requires Find(s.pointers, id) < |s.pointers|
    ensures var p, z := s.pointers[Find(s.pointers, id)], Next(s, Move(id, at, t));
            && Find(z.pointers, id) < |z.pointers|
            && var q := z.pointers[Find(z.pointers, id)];
               && q == p.(at := at, t := t, moved := q.moved)
               && (q.moved <==> p.moved || (at.x - p.start.x) * (at.x - p.start.x)
                                           + (at.y - p.start.y) * (at.y - p.start.y) > 4.0)
  {
    var i := Find(s.pointers, id);
    var p := s.pointers[i];
    FoundAgain(s.pointers, i, Moved(p, at, t));
    MovePointers(s, id, at, t);
  }

  lemma MovePointers(s: State, id: nat, at: Point, t: real)
    requires Find(s.pointers, id) < |s.pointers|
    ensures var i := Find(s.pointers, id);
            Next(s, Move(id, at, t)).pointers == s.pointers[i := Moved(s.pointers[i], at, t)]
  {
  }

  lemma {:induction false} FoundAgain(ps: seq<Pointer>, i: nat, p: Pointer)
    requires i < |ps| && i == Find(ps, p.id)
    ensures Find(ps[i := p], p.id) == i
    decreases |ps|
  {
    if i > 0 {
      assert ps[i := p][1..] == ps[1..][i - 1 := p];
      FoundAgain(ps[1..], i - 1, p);
    }
  }

  // ---- A pointer's history ------------------------------------------------------------------------------------

  predicate IsTracked(s: State, id: nat) {
    Find(s.pointers, id) < |s.pointers|
  }

  function Tracking(s: State, id: nat): (p: Pointer)
    requires IsTracked(s, id)
    ensures p.id == id
  {
    s.pointers[Find(s.pointers, id)]
  }

  lemma FindAt(ps: seq<Pointer>, id: nat, i: nat)
    requires i < |ps| && ps[i].id == id && forall j :: 0 <= j < i ==> ps[j].id != id
    ensures Find(ps, id) == i
  {
  }

  /** Another pointer's press, move or leaving does not hide one. */
  lemma FindAppended(ps: seq<Pointer>, id: nat, q: Pointer)
    requires Find(ps, id) < |ps|
    ensures Find(ps + [q], id) == Find(ps, id)
  {
    FindAt(ps + [q], id, Find(ps, id));
  }

  lemma FindReplaced(ps: seq<Pointer>, id: nat, j: nat, q: Pointer)
    requires Find(ps, id) < |ps| && q.id != id && j < |ps| && ps[j].id != id
    ensures Find(ps[j := q], id) == Find(ps, id)
  {
    FindAt(ps[j := q], id, Find(ps, id));
  }

  lemma FindWithout(ps: seq<Pointer>, id: nat, j: nat)
    requires Find(ps, id) < |ps| && j < |ps| && ps[j].id != id
    ensures var i := Find(Without(ps, j), id);
            i < |Without(ps, j)| && Without(ps, j)[i] == ps[Find(ps, id)]
  {
    var i := Find(ps, id);
    FindAt(Without(ps, j), id, if j < i then i - 1 else i);
  }

  /** A step about another pointer, or a move of this one. */
  predicate StaysDown(step: Step, id: nat) {
    match step
    case Down(k, _, _, _, _) => k != id
    case Up(k, _, _) => k != id
    case Cancel(k) => k != id
    case _ => true
  }

  function After(p: Pointer, step: Step): Pointer {
    if step.Move? && step.id == p.id then Moved(p, step.at, step.t) else p
  }

  lemma StepTracks(s: State, step: Step, id: nat)
    requires Legal(s, step) && IsTracked(s, id) && StaysDown(step, id)
    ensures IsTracked(Next(s, step), id) && Tracking(Next(s, step), id) == After(Tracking(s, id), step)
  {
    match step
    case Down(k, el, widget, at, t) =>
      PressTracked(s, step);
      FindAppended(s.pointers, id, Pointer(k, el, widget, at, t, at, false));
    case Move(k, at, t) => MoveTracks(s, step, id);
    case Frame(_) =>
    case _ =>
      if IsTracked(s, step.id) {
        PointerLeaves(s, step);
        FindWithout(s.pointers, id, Find(s.pointers, step.id));
      }
  }

  lemma MoveTracks(s: State, step: Step, id: nat)
    requires step.Move? && IsTracked(s, id)
    ensures IsTracked(Next(s, step), id) && Tracking(Next(s, step), id) == After(Tracking(s, id), step)
  {
    var k, at, t := step.id, step.at, step.t;
    if IsTracked(s, k) {
      MovePointers(s, k, at, t);
      if k == id {
        FoundAgain(s.pointers, Find(s.pointers, id), Moved(Tracking(s, id), at, t));
      } else {
        FindReplaced(s.pointers, id, Find(s.pointers, k), Moved(Tracking(s, k), at, t));
      }
    }
  }

  function AfterAll(p: Pointer, steps: seq<Step>): Pointer
    decreases |steps|
  {
    if steps == [] then p else AfterAll(After(p, steps[0]), steps[1..])
  }

  lemma {:induction false} RunTracks(s: State, steps: seq<Step>, id: nat)
    requires LegalRun(s, steps) && IsTracked(s, id) && forall i :: 0 <= i < |steps| ==> StaysDown(steps[i], id)
    ensures IsTracked(Run(s, steps), id) && Tracking(Run(s, steps), id) == AfterAll(Tracking(s, id), steps)
    decreases |steps|
  {
    if steps != [] {
      assert StaysDown(steps[0], id);
      StepTracks(s, steps[0], id);
      RunTracks(Next(s, steps[0]), steps[1..], id);
    }
  }

  /** A move that takes a pointer more than 2 px from its press. */
  predicate Strays(start: Point, step: Step, id: nat) {
    step.Move? && step.id == id && Apart(step.at, start) > 4.0
  }

  predicate StraysIn(start: Point, steps: seq<Step>, id: nat) {
    exists i :: 0 <= i < |steps| && Strays(start, steps[i], id)
  }

  lemma StraysFirst(start: Point, steps: seq<Step>, id: nat)
    requires steps != []
    ensures StraysIn(start, steps, id) <==> Strays(start, steps[0], id) || StraysIn(start, steps[1..], id)
  {
    if StraysIn(start, steps[1..], id) {
      var i :| 0 <= i < |steps| - 1 && Strays(start, steps[1..][i], id);
      assert Strays(start, steps[i + 1], id);
    }
    if StraysIn(start, steps, id) {
      var i :| 0 <= i < |steps| && Strays(start, steps[i], id);
      assert i > 0 ==> Strays(start, steps[1..][i - 1], id);
    }
  }

  /** The last of these steps that is a move of this pointer. */
  predicate LastMove(steps: seq<Step>, id: nat, k: int) {
    && 0 <= k < |steps| && steps[k].Move? && steps[k].id == id
    && forall i :: k < i < |steps| ==> !(steps[i].Move? && steps[i].id == id)
  }

  lemma AfterOne(p: Pointer, step: Step)
    ensures var q := After(p, step);
            && q.id == p.id && q.el == p.el && q.widget == p.widget && q.start == p.start
            && (q.moved <==> p.moved || Strays(p.start, step, p.id))
            && q.t == if step.Move? && step.id == p.id then step.t else p.t
  {
  }

  lemma {:induction false} AfterAllKeeps(p: Pointer, steps: seq<Step>)
    ensures var q := AfterAll(p, steps);
            && q.el == p.el && q.widget == p.widget && q.start == p.start
            && (q.moved <==> p.moved || StraysIn(p.start, steps, p.id))
    decreases |steps|
  {
    if steps != [] {
      AfterOne(p, steps[0]);
      AfterAllKeeps(After(p, steps[0]), steps[1..]);
      StraysFirst(p.start, steps, p.id);
    }
  }

  lemma {:induction false} AfterAllClock(p: Pointer, steps: seq<Step>, k: int)
    requires LastMove(steps, p.id, k)
    ensures AfterAll(p, steps).t == steps[k].t
    decreases |steps|
  {
    AfterOne(p, steps[0]);
    if k == 0 {
      AfterAllStill(After(p, steps[0]), steps[1..]);
    } else {
      assert forall i :: 1 <= i < |steps| ==> steps[i] == steps[1..][i - 1];
      AfterAllClock(After(p, steps[0]), steps[1..], k - 1);
    }
  }

  lemma {:induction false} AfterAllStill(p: Pointer, steps: seq<Step>)
    requires forall i :: 0 <= i < |steps| ==> !(steps[i].Move? && steps[i].id == p.id)
    ensures AfterAll(p, steps) == p
    decreases |steps|
  {
    if steps != [] {
      assert !(steps[0].Move? && steps[0].id == p.id);
      AfterAllStill(p, steps[1..]);
    }
  }

  /** While it is down, whatever else happens: a pointer keeps its element, its widget and
      where it went down; it has strayed exactly when one of its moves did; and its clock is
      that of its last move, or of its press if it never moved. */
  lemma PointerHistory(s: State, steps: seq<Step>, id: nat)
    requires LegalRun(s, steps) && IsTracked(s, id) && forall i :: 0 <= i < |steps| ==> StaysDown(steps[i], id)
    ensures IsTracked(Run(s, steps), id)
    ensures var p, q := Tracking(s, id), Tracking(Run(s, steps), id);
            && q.el == p.el && q.widget == p.widget && q.start == p.start
            && (q.moved <==> p.moved || StraysIn(p.start, steps, id))
            && (forall k :: LastMove(steps, id, k) ==> q.t == steps[k].t)
            && ((forall i :: 0 <= i < |steps| ==> !(steps[i].Move? && steps[i].id == id)) ==> q.t == p.t)
  {
    var p := Tracking(s, id);
    RunTracks(s, steps, id);
    AfterAllKeeps(p, steps);
    forall k | LastMove(steps, id, k) ensures AfterAll(p, steps).t == steps[k].t {
      AfterAllClock(p, steps, k);
    }
    if forall i :: 0 <= i < |steps| ==> !(steps[i].Move? && steps[i].id == id) {
      AfterAllStill(p, steps);
    }
  }

  // ---- What a release was -----------------------------------------------------------------------------------------

  datatype Direction = Left | Right | Upward | Downward

  datatype Gesture = Swipe(direction: Direction, dx: int, dy: int) | LongPress(x: int, y: int) | Tapped(x: int, y: int)

  function Round(x: real): int {
    (x + 0.5).Floor
  }

  function Abs(n: int): int { if n < 0 then -n else n }

  function ClassifyGesture(start: Point, startT: real, end: Point, endT: real): Gesture {
    var dx, dy := Round(end.x - start.x), Round(end.y - start.y);
    if dx * dx + dy * dy >= SWIPE_MIN_PX * SWIPE_MIN_PX then
      var way := if Abs(dx) >= Abs(dy) then (if dx > 0 then Right else Left) else if dy > 0 then Downward else Upward;
      Swipe(way, dx, dy)
    else if endT - startT >= LONG_PRESS_MS then LongPress(Round(start.x), Round(start.y))
    else Tapped(Round(start.x), Round(start.y))
  }

  /** The nearest integer, halves up. */
  lemma RoundNearest(x: real)
    ensures x - 0.5 < Round(x) as real <= x + 0.5
  {
  }

  /** What a release was: a swipe when it ends 30 px or more from where it began, across in
      the measure of whole pixels; otherwise, still in place, a long press when half a second
      or more has passed, a tap when less. Presses and taps are reported where they began,
      swipes with their travel. */
  lemma GestureExactly(start: Point, startT: real, end: Point, endT: real)
    ensures var g, dx, dy := ClassifyGesture(start, startT, end, endT), Round(end.x - start.x), Round(end.y - start.y);
            && (g.Swipe? <==> dx * dx + dy * dy >= 900)
            && (g.Swipe? ==> g.dx == dx && g.dy == dy)
            && (g.LongPress? <==> dx * dx + dy * dy < 900 && endT - startT >= 500.0)
            && (g.Tapped? <==> dx * dx + dy * dy < 900 && endT - startT < 500.0)
            && (!g.Swipe? ==> g.x == Round(start.x) && g.y == Round(start.y))
  {
  }

  /** What a release there and then would be, for a pointer that is down. */
  function ReleasedAs(s: State, id: nat, at: Point, t: real): Gesture
    requires IsTracked(s, id)
  {
    var p := Tracking(s, id);
    ClassifyGesture(p.start, p.t, at, t)
  }

  /** A hold is measured from the pointer's last move, not from its press: a press held for
      half a second or more, still in place, comes out as a long press exactly unless the
      pointer moved, however little, in the last half second. */
  lemma HoldExactly(s: State, steps: seq<Step>, id: nat, k: int, at: Point, t: real)
    requires LegalRun(s, steps) && IsTracked(s, id) && forall i :: 0 <= i < |steps| ==> StaysDown(steps[i], id)
    requires LastMove(steps, id, k) && t - Tracking(s, id).t >= 500.0
    ensures IsTracked(Run(s, steps), id)
    ensures var g := ReleasedAs(Run(s, steps), id, at, t);
            !g.Swipe? ==> (g.LongPress? <==> !(t - steps[k].t < 500.0))
  {
    PointerHistory(s, steps, id);
  }

  /** Held for a second with one move of no distance on the way, and reported as a tap. */
  lemma WiggledHoldIsATap()
    ensures var o := Point(0.0, 0.0);
            var pressed := Next(Start(), Down(0, 0, GestureDetector, o, 0.0));
            var held := Next(pressed, Move(0, o, 900.0));
            && IsTracked(held, 0)
            && ReleasedAs(held, 0, o, 1000.0).Tapped?
            && IsTracked(pressed, 0) && ReleasedAs(pressed, 0, o, 1000.0).LongPress?
  {
    var o := Point(0.0, 0.0);
    var pressed := Next(Start(), Down(0, 0, GestureDetector, o, 0.0));
    PressTracked(Start(), Down(0, 0, GestureDetector, o, 0.0));
    assert pressed.pointers == [Pointer(0, 0, GestureDetector, o, 0.0, o, false)];
    FindAt(pressed.pointers, 0, 0);
    StepTracks(pressed, Move(0, o, 900.0), 0);
    GestureExactly(o, 0.0, o, 1000.0);
    GestureExactly(o, 900.0, o, 1000.0);
  }

  /** How far a swipe went in the direction it names. */
  function Travel(g: Gesture): int
    requires g.Swipe?
  {
    match g.direction
    case Left => -g.dx
    case Right => g.dx
    case Upward => -g.dy
    case Downward => g.dy
  }

  /** A swipe went, in the direction it names, further than in any other, and at least
      22 px: a quarter turn either way shares the 30 px between two axes. */
  lemma SwipeWentThatWay(start: Point, startT: real, end: Point, endT: real)
    requires ClassifyGesture(start, startT, end, endT).Swipe?
    ensures var g := ClassifyGesture(start, startT, end, endT);
            Travel(g) >= Abs(g.dx) && Travel(g) >= Abs(g.dy) && Travel(g) >= 22
  {
    var g := ClassifyGesture(start, startT, end, endT);
    var far := if Abs(g.dx) >= Abs(g.dy) then Abs(g.dx) else Abs(g.dy);
    Squares(g.dx, far);
    Squares(g.dy, far);
    if far < 22 {
      Squares(far, 21);
    }
  }

  lemma Squares(n: int, most: int)
    requires Abs(n) <= most
    ensures n * n <= most * most
  {
    assert n * n == Abs(n) * Abs(n);
    assert Abs(n) * Abs(n) <= most * Abs(n) <= most * most;
  }

  // ---- The recognizer ------------------------------------------------------------------------

  class Recognizer {
    var pointers: seq<Pointer>
    var pinches: set<nat>
    var lastTap: map<nat, Tap>
    var pending: map<nat, nat>
    var frames: map<nat, nat>
    var produced: map<nat, nat>
    var sent: seq<(nat, nat)>
    var releases: seq<Release>
    var doubles: seq<(nat, nat)>

    function Now(): State
      reads this
    {
      State(pointers, pinches, lastTap, pending, frames, produced, sent, releases, doubles)
    }

    constructor ()
      ensures Now() == Start()
    {
      pointers, pinches, lastTap := [], {}, map[];
      pending, frames, produced, sent := map[], map[], map[], [];
      releases, doubles := [], [];
    }

    method PointersOn(el: nat) returns (live: nat)
      ensures live == On(pointers, el)
    {
      live := 0;
      for i := 0 to |pointers|
        invariant live + On(pointers[i..], el) == On(pointers, el)
      {
        assert pointers[i..][0] == pointers[i] && pointers[i..][1..] == pointers[i + 1..];
        if pointers[i].el == el {
          live := live + 1;
        }
      }
    }

    method Report(el: nat)
      modifies this`pending, this`frames, this`produced
      ensures Now() == PerFrame(old(Now()), el)
    {
      var already := el in pending;
      produced := produced[el := Count(produced, el) + 1];
      pending := pending[el := produced[el]];
      if !already {
        frames := frames[el := Count(frames, el) + 1];
      }
    }

    method Flush(el: nat)
      modifies this`pending, this`sent
      ensures Now() == FlushPending(old(Now()), el)
    {
      if el in pending {
        sent := sent + [(el, pending[el])];
        pending := pending - {el};
      }
    }

    method OnPointerDown(id: nat, el: nat, widget: Widget, at: Point, t: real)
      modifies this`pointers, this`pinches
      ensures Now() == Next(old(Now()), Down(id, el, widget, at, t))
    {
      pointers := Tracked(pointers, Pointer(id, el, widget, at, t, at, false));
      var live := PointersOn(el);
      if live == 2 {
        pinches := pinches + {el};
      }
    }

    method OnPointerMove(id: nat, at: Point, t: real)
      modifies this
      ensures Now() == Next(old(Now()), Move(id, at, t))
    {
      var i := Find(pointers, id);
      if i == |pointers| { return; }
      var p := pointers[i];
      var live := PointersOn(p.el);
      pointers := pointers[i := p.(at := at, t := t, moved := p.moved || Apart(at, p.start) > 4.0)];
      if ReportsMove(p.widget, live >= 2 && p.el in pinches) {
        Report(p.el);
      }
    }

    method Lift(i: nat)
      requires i < |pointers|
      modifies this
      ensures Now() == Lifted(old(Now()), i)
    {
      var el := pointers[i].el;
      pointers := Without(pointers, i);
      Flush(el);
      var live := PointersOn(el);
      if live < 2 {
        pinches := pinches - {el};
      }
    }

    /** The release that completes a double tap uses up the one before it. */
    method ReportDoubleTap(tap: Tap) returns (reported: bool)
      modifies this`lastTap, this`doubles
      ensures var el := tap.release.el;
              && reported == (el in old(lastTap) && Follows(old(lastTap)[el].release, tap.release))
              && Now() == DoubleTapped(old(Now()), el, tap, reported)
    {
      var el := tap.release.el;
      reported := false;
      if el in lastTap {
        var previous := lastTap[el];
        if Follows(previous.release, tap.release) {
          lastTap := lastTap - {el};
          doubles := doubles + [(previous.index, tap.index)];
          return true;
        }
      }
      lastTap := lastTap[el := tap];
    }

    /** `gesture` is what is reported besides: a double tap swallows its release. */
    method OnPointerUp(id: nat, at: Point, t: real) returns (gesture: Option<Gesture>)
      modifies this
      ensures Now() == Next(old(Now()), Up(id, at, t))
      ensures var i := Find(old(pointers), id);
              gesture == if i < |old(pointers)| && old(pointers)[i].widget == GestureDetector && doubles == old(doubles)
                         then Some(ClassifyGesture(old(pointers)[i].start, old(pointers)[i].t, at, t)) else None
    {
      var i := Find(pointers, id);
      if i == |pointers| { return None; }
      var p := pointers[i];
      Lift(i);
      var tap := Tap(|releases|, ReleaseOf(p, at, t));
      releases := releases + [tap.release];
      if tap.release.counts {
        var reported := ReportDoubleTap(tap);
        if reported { return None; }
      }
      gesture := if ReportsTap(p.widget) then Some(ClassifyGesture(p.start, p.t, at, t)) else None;
    }

    method OnPointerCancel(id: nat)
      modifies this
      ensures Now() == Next(old(Now()), Cancel(id))
    {
      var i := Find(pointers, id);
      if i < |pointers| {
        Lift(i);
      }
    }

    method OnFrame(el: nat)
      requires Count(frames, el) > 0
      modifies this`frames, this`pending, this`sent
      ensures Now() == Next(old(Now()), Frame(el))
    {
      frames := frames[el := frames[el] - 1];
      Flush(el);
    }
  }
}
