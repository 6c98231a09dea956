/**
 Compressing an image to a byte budget: a binary search on encoder quality whose
 step skips a hundredth on either side, stated over exact reals.
 */
module Imaging {
  import opened Common

  /** The encoder: a size in bytes for each quality. */
  type Encoder = real -> nat

  datatype Attempt = Attempt(quality: real, size: nat)

  datatype Compressed = Encoded(chosen: Attempt, attempts: nat, withinBudget: bool) | EncodeFailed

  /** No budget means any size will do. */
  predicate Fits(size: nat, budget: Option<real>) {
    budget.Some? ==> size as real <= budget.value
  }

  function Halved(width: real, n: nat): real {
    if n == 0 then width else Halved(width, n - 1) / 2.0
  }

  ghost predicate Monotone(size: Encoder, low: real, high: real) {
    forall p: real, q: real :: low <= p <= q <= high ==> size(p) <= size(q)
  }

  predicate InSpan(qs: seq<real>, low: real, high: real) {
    forall i :: 0 <= i < |qs| ==> low <= qs[i] <= high
  }

  /** The best attempt that fits so far. */
  predicate IsBest(best: Option<Attempt>, tried: seq<real>, size: Encoder, budget: Option<real>) {
    match best
    case None => forall i :: 0 <= i < |tried| ==> !Fits(size(tried[i]), budget)
    case Some(b) =>
      && b.size == size(b.quality) && b.quality in tried && Fits(b.size, budget)
      && forall i :: 0 <= i < |tried| && Fits(size(tried[i]), budget) ==> tried[i] <= b.quality
  }

  predicate IsSmallest(smallest: Option<Attempt>, tried: seq<real>, size: Encoder) {
    match smallest
    case None => tried == []
    case Some(s) =>
      && s.size == size(s.quality) && s.quality in tried
      && forall i :: 0 <= i < |tried| ==> s.size <= size(tried[i])
  }

  /** Where the search has got to: everything that fits lies under the ceiling. */
  ghost predicate Under(size: Encoder, budget: Option<real>, low: real, high: real, ceiling: real) {
    forall q: real :: low <= q <= high && Fits(size(q), budget) ==> q <= ceiling
  }

  lemma CeilingDrops(size: Encoder, budget: Option<real>, low: real, high: real, quality: real)
    requires Monotone(size, low, high) && low <= quality <= high && !Fits(size(quality), budget)
    ensures Under(size, budget, low, high, quality)
  {
    forall q: real | low <= q <= high && Fits(size(q), budget) ensures q <= quality {
      assert quality <= q ==> size(quality) <= size(q);
    }
  }

  /** One more attempt at a quality above every fitting one, or below every failure. */
  lemma OneMoreAttempt(best: Option<Attempt>, tried: seq<real>, size: Encoder, budget: Option<real>, q: real)
    requires IsBest(best, tried, size, budget) && (best.Some? ==> best.value.quality <= q)
    ensures IsBest(if Fits(size(q), budget) then Some(Attempt(q, size(q))) else best, tried + [q], size, budget)
  {
  }

  lemma BestIsAll(best: Option<Attempt>, tried: seq<real>, size: Encoder, budget: Option<real>)
    requires IsBest(best, tried, size, budget)
    ensures best.Some? <==> exists i :: 0 <= i < |tried| && Fits(size(tried[i]), budget)
    ensures best.None? && tried != [] ==>
              budget.Some? && forall i :: 0 <= i < |tried| ==> size(tried[i]) as real > budget.value
  {
    if best.None? && tried != [] {
      assert !Fits(size(tried[0]), budget);
    }
  }

  /** The gap a search of so many steps may leave, never less than none. */
  function Gap(width: real, steps: nat): real {
    if Halved(width, steps) > 0.0 then Halved(width, steps) else 0.0
  }

  /** Halve the range step by step, keeping the best attempt that fits and the smallest. */
  method Search(size: Encoder, budget: Option<real>, low0: real, high0: real, steps: nat)
    returns (best: Option<Attempt>, smallest: Option<Attempt>, tries: nat, ghost tried: seq<real>)
    ensures InSpan(tried, low0, high0) && |tried| == tries <= steps
    ensures tried == [] <==> steps == 0 || low0 > high0
    ensures IsBest(best, tried, size, budget) && IsSmallest(smallest, tried, size)
    ensures tried != [] && Monotone(size, low0, high0) ==>
              Under(size, budget, low0, high0,
                    (if best.Some? then best.value.quality + 0.02 else low0 + 0.01) + Gap(high0 - low0, steps))
  {
    var low, high := low0, high0;
    best, smallest, tries, tried := None, None, 0, [];
    while tries < steps && low <= high
      invariant |tried| == tries <= steps
      invariant tries == 0 ==> low == low0 && high == high0
      invariant tries > 0 ==> low0 <= high0
      invariant InSpan(tried, low0, high0)
      invariant low0 <= low && high <= high0
      invariant low == if best.Some? then best.value.quality + 0.01 else low0
      invariant high - low <= Halved(high0 - low0, tries)
      invariant IsBest(best, tried, size, budget)
      invariant IsSmallest(smallest, tried, size)
      invariant Monotone(size, low0, high0) ==> Under(size, budget, low0, high0, high + 0.01)
    {
      var quality := (low + high) / 2.0;
      var bytes := size(quality);
      OneMoreAttempt(best, tried, size, budget, quality);
      tried := tried + [quality];
      if smallest.None? || bytes < smallest.value.size {
        smallest := Some(Attempt(quality, bytes));
      }
      if Fits(bytes, budget) {
        best := Some(Attempt(quality, bytes));
        low := quality + 0.01;
      } else {
        if Monotone(size, low0, high0) {
          CeilingDrops(size, budget, low0, high0, quality);
        }
        high := quality - 0.01;
      }
      tries := tries + 1;
    }
  }

  /** Search for the highest quality that fits. The result is the best attempt that
      fits, or else the smallest; and for an encoder whose size grows with quality no
      quality in range that fits is more than a bounded gap above it. */
  method Compress(size: Encoder, budget: Option<real>, low0: real, high0: real, steps: nat)
    returns (r: Compressed, ghost tried: seq<real>)
    ensures InSpan(tried, low0, high0) && |tried| <= steps
    ensures r.EncodeFailed? <==> tried == []
    ensures r.EncodeFailed? <==> steps == 0 || low0 > high0
    ensures r.Encoded? ==> r.attempts == |tried| && r.chosen.quality in tried && r.chosen.size == size(r.chosen.quality)
    ensures r.Encoded? ==> (r.withinBudget <==> exists i :: 0 <= i < |tried| && Fits(size(tried[i]), budget))
    ensures r.Encoded? && r.withinBudget && budget.Some? ==> r.chosen.size as real <= budget.value
    ensures r.Encoded? && !r.withinBudget ==>
              budget.Some? && forall i :: 0 <= i < |tried| ==> size(tried[i]) as real > budget.value
    ensures r.Encoded? && r.withinBudget ==> IsBest(Some(r.chosen), tried, size, budget)
    ensures r.Encoded? && !r.withinBudget ==> IsSmallest(Some(r.chosen), tried, size)
    ensures r.Encoded? && Monotone(size, low0, high0) ==>
              Under(size, budget, low0, high0,
                    (if r.withinBudget then r.chosen.quality + 0.02 else low0 + 0.01) + Gap(high0 - low0, steps))
  {
    var best, smallest, tries;
    best, smallest, tries, tried := Search(size, budget, low0, high0, steps);
    if smallest.None? {
      return EncodeFailed, tried;
    }
    BestIsAll(best, tried, size, budget);
    var chosen := if best.Some? then best.value else smallest.value;
    r := Encoded(chosen, tries, Fits(chosen.size, budget));
  }

  // ---- Fitting a size ---------------------------------------------------------------------

  function Lesser(a: real, b: real): real { if a < b then a else b }

  /** A cap of zero is no cap. */
  predicate Caps(cap: Option<real>, edge: real) {
    cap.Some? && cap.value > 0.0 && edge > cap.value
  }

  function Scale(width: real, height: real, maxWidth: Option<real>, maxHeight: Option<real>): real
    requires width > 0.0 && height > 0.0
  {
    var s := if Caps(maxWidth, width) then Lesser(1.0, maxWidth.value / width) else 1.0;
    if Caps(maxHeight, height) then Lesser(s, maxHeight.value / height) else s
  }

  lemma ScaledEdge(edge: real, cap: real, s: real)
    requires edge > 0.0 && cap > 0.0 && s <= cap / edge
    ensures edge * s <= cap
    ensures s == cap / edge ==> edge * s == cap
  {
    assert edge * (cap / edge) == cap;
  }

  /** The fitted size is within both caps, never larger than it was, and is either the
      size it was or touches a cap. */
  lemma FitTouches(width: real, height: real, maxWidth: Option<real>, maxHeight: Option<real>)
    requires width > 0.0 && height > 0.0
    ensures var s := Scale(width, height, maxWidth, maxHeight);
            && 0.0 < s <= 1.0
            && (maxWidth.Some? && maxWidth.value > 0.0 ==> width * s <= maxWidth.value)
            && (maxHeight.Some? && maxHeight.value > 0.0 ==> height * s <= maxHeight.value)
            && (s == 1.0
                || (maxWidth.Some? && maxWidth.value > 0.0 && width * s == maxWidth.value)
                || (maxHeight.Some? && maxHeight.value > 0.0 && height * s == maxHeight.value))
  {
    var s := Scale(width, height, maxWidth, maxHeight);
    if Caps(maxWidth, width) { ScaledEdge(width, maxWidth.value, s); }
    if Caps(maxHeight, height) { ScaledEdge(height, maxHeight.value, s); }
    Shrinks(width, s);
    Shrinks(height, s);
  }

  lemma Shrinks(edge: real, s: real)
    requires edge > 0.0 && s <= 1.0
    ensures edge * s <= edge
  {
  }
}
