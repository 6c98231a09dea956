/**
 The child-list edits a patch makes, on plain sequences: both the abstract tree
 and the element tree use them. Indices come off the wire, so any integer is
 possible and one with no child behind it means what the DOM calls make of it.
 */
module ChildList {
  import opened Common

  /** `insertBefore(kid, children[index] ?? null)`: no such child appends. */
  function Inserted<T>(kids: seq<T>, index: int, kid: T): seq<T> {
    if 0 <= index < |kids| then kids[..index] + [kid] + kids[index..] else kids + [kid]
  }

  /** Removing a child that is not there is a no-op. */
  function Removed<T>(kids: seq<T>, index: int): seq<T> {
    if 0 <= index < |kids| then kids[..index] + kids[index + 1..] else kids
  }

  lemma InsertedAt<T>(kids: seq<T>, index: int, kid: T) returns (at: nat)
    ensures at == (if 0 <= index < |kids| then index else |kids|)
    ensures |Inserted(kids, index, kid)| == |kids| + 1
    ensures forall j :: 0 <= j <= |kids| ==>
              Inserted(kids, index, kid)[j] == if j < at then kids[j] else if j == at then kid else kids[j - 1]
  {
    at := if 0 <= index < |kids| then index else |kids|;
  }

  /** The child at the index goes, one copy of it, and the others keep their order; an
      index with no child behind it takes nothing. */
  lemma RemovedExactly<T>(kids: seq<T>, index: int)
    ensures 0 <= index < |kids| ==>
              && |Removed(kids, index)| == |kids| - 1
              && multiset(Removed(kids, index)) + multiset{kids[index]} == multiset(kids)
              && (forall j :: 0 <= j < index ==> Removed(kids, index)[j] == kids[j])
              && (forall j :: index < j < |kids| ==> Removed(kids, index)[j - 1] == kids[j])
    ensures !(0 <= index < |kids|) ==> Removed(kids, index) == kids
  {
    if 0 <= index < |kids| {
      assert kids == kids[..index] + ([kids[index]] + kids[index + 1..]);
    }
  }

  /** Removing a child just inserted restores the list, wherever it landed. */
  lemma RemoveUndoesInsert<T>(kids: seq<T>, index: int, kid: T)
    ensures Removed(Inserted(kids, index, kid), if 0 <= index < |kids| then index else |kids|) == kids
  {
  }

  // ---- Reorder -----------------------------------------------------------
  //
  // Reordering snapshots the children and re-appends the ones `order` names; an
  // append moves a child that is already there. `Slots` runs that loop on the
  // positions 0..n-1 of the snapshot instead of on the children themselves.

  function Iota(n: nat): (s: seq<int>)
    ensures |s| == n && forall i :: 0 <= i < n ==> s[i] == i
  {
    seq(n, i => i)
  }

  function Without(s: seq<int>, x: int): (r: seq<int>)
    ensures forall y :: y in r <==> y in s && y != x
  {
    if s == [] then []
    else if s[0] == x then Without(s[1..], x)
    else [s[0]] + Without(s[1..], x)
  }

  /** One `appendChild` of a child that is already in the list. */
  function MovedLast(s: seq<int>, x: int): seq<int> {
    Without(s, x) + [x]
  }

  /** The append loop over `order`, skipping the indices that name no child. */
  function SlotsFrom(s: seq<int>, n: nat, order: seq<int>): seq<int>
    decreases |order|
  {
    if order == [] then s
    else if 0 <= order[0] < n then SlotsFrom(MovedLast(s, order[0]), n, order[1..])
    else SlotsFrom(s, n, order[1..])
  }

  function Slots(n: nat, order: seq<int>): seq<int> {
    SlotsFrom(Iota(n), n, order)
  }

  predicate InRange(s: seq<int>, n: nat) {
    forall i :: 0 <= i < |s| ==> 0 <= s[i] < n
  }

  predicate NoDup(s: seq<int>) {
    forall i, j :: 0 <= i < j < |s| ==> s[i] != s[j]
  }

  function Pick<T>(kids: seq<T>, s: seq<int>): (r: seq<T>)
    requires InRange(s, |kids|)
    ensures |r| == |s|
  {
    seq(|s|, i requires 0 <= i < |s| => kids[s[i]])
  }

  lemma {:induction false} WithoutOnce(s: seq<int>, x: int)
    requires NoDup(s)
    ensures NoDup(Without(s, x))
    ensures x in s ==> multiset(Without(s, x)) + multiset{x} == multiset(s)
    ensures x !in s ==> Without(s, x) == s
  {
    if s != [] {
      assert s == [s[0]] + s[1..];
      assert forall y :: y in s <==> y == s[0] || y in s[1..];
      assert s[0] !in s[1..];
      WithoutOnce(s[1..], x);
    }
  }

  /** A permutation of the positions stays one when a position moves last. */
  lemma SlotsStay(s: seq<int>, n: nat, x: int)
    requires NoDup(s) && multiset(s) == multiset(Iota(n)) && 0 <= x < n
    ensures x in s && NoDup(MovedLast(s, x)) && multiset(MovedLast(s, x)) == multiset(Iota(n))
    ensures InRange(s, n) && InRange(MovedLast(s, x), n)
  {
    MembersOf(s, n);
    MovedLastKeeps(s, x);
    MembersOf(MovedLast(s, x), n);
  }

  lemma {:induction false} WithoutAt(s: seq<int>, at: nat)
    requires NoDup(s) && at < |s|
    ensures Without(s, s[at]) == s[..at] + s[at + 1..]
  {
    if at > 0 {
      assert s[1..][at - 1] == s[at];
      WithoutAt(s[1..], at - 1);
      assert s[1..][..at - 1] == s[1..at] && s[..at] == [s[0]] + s[1..at];
    } else {
      WithoutOnce(s[1..], s[0]);
    }
  }

  /** Moving one slot last is moving what it picks last. */
  lemma MovedPicks<T>(kids: seq<T>, s: seq<int>, at: nat)
    requires InRange(s, |kids|) && NoDup(s) && at < |s|
    ensures InRange(MovedLast(s, s[at]), |kids|)
    ensures var p := Pick(kids, s); Pick(kids, MovedLast(s, s[at])) == p[..at] + p[at + 1..] + [p[at]]
  {
    WithoutAt(s, at);
  }

  lemma MovedLastKeeps(s: seq<int>, x: int)
    requires NoDup(s) && x in s
    ensures NoDup(MovedLast(s, x))
    ensures multiset(MovedLast(s, x)) == multiset(s)
  {
    WithoutOnce(s, x);
    var w := Without(s, x);
    assert forall i :: 0 <= i < |w| ==> w[i] in w;
  }

  /** The positions after the loop are the positions before it, rearranged. */
  lemma {:induction false} SlotsPermute(s: seq<int>, n: nat, order: seq<int>)
    requires NoDup(s) && multiset(s) == multiset(Iota(n))
    ensures NoDup(SlotsFrom(s, n, order))
    ensures multiset(SlotsFrom(s, n, order)) == multiset(Iota(n))
    ensures |SlotsFrom(s, n, order)| == n && InRange(SlotsFrom(s, n, order), n)
    decreases |order|
  {
    if order == [] {
      MembersOf(s, n);
    } else if 0 <= order[0] < n {
      assert order[0] == Iota(n)[order[0]];
      assert order[0] in multiset(s);
      MovedLastKeeps(s, order[0]);
      SlotsPermute(MovedLast(s, order[0]), n, order[1..]);
    } else {
      SlotsPermute(s, n, order[1..]);
    }
  }

  lemma MembersOf(s: seq<int>, n: nat)
    requires multiset(s) == multiset(Iota(n))
    ensures |s| == n && InRange(s, n)
    ensures forall x :: x in s <==> 0 <= x < n
  {
    assert |s| == |multiset(s)| == |multiset(Iota(n))| == n;
    forall x ensures x in s <==> 0 <= x < n {
      assert x in s <==> x in multiset(s);
      assert x in Iota(n) <==> x in multiset(Iota(n));
      if 0 <= x < n { assert Iota(n)[x] == x; }
    }
    forall i | 0 <= i < |s| ensures 0 <= s[i] < n { assert s[i] in s; }
  }

  /** The children after a Reorder patch. */
  function Reordered<T>(kids: seq<T>, order: seq<int>): (r: seq<T>)
    ensures |r| == |kids|
  {
    SlotsPermute(Iota(|kids|), |kids|, order);
    Pick(kids, Slots(|kids|, order))
  }

  // ---- What the loop computes ---------------------------------------------

  /** The members of `s` that `order` does not mention, in the order of `s`. */
  function Unlisted(s: seq<int>, order: seq<int>): seq<int> {
    if s == [] then []
    else (if s[0] in order then [] else [s[0]]) + Unlisted(s[1..], order)
  }

  /** The indices `order` names, each kept at its last occurrence only. */
  function LastOccurrences(n: nat, order: seq<int>): seq<int> {
    if order == [] then []
    else (if 0 <= order[0] < n && order[0] !in order[1..] then [order[0]] else [])
         + LastOccurrences(n, order[1..])
  }

  lemma {:induction false} UnlistedAfterMove(s: seq<int>, x: int, rest: seq<int>)
    ensures Unlisted(Without(s, x), rest) == Unlisted(s, [x] + rest)
  {
    if s != [] {
      assert s[0] in [x] + rest <==> s[0] == x || s[0] in rest;
      UnlistedAfterMove(s[1..], x, rest);
    }
  }

  lemma {:induction false} UnlistedConcat(s: seq<int>, t: seq<int>, order: seq<int>)
    ensures Unlisted(s + t, order) == Unlisted(s, order) + Unlisted(t, order)
  {
    if s == [] {
      assert s + t == t;
    } else {
      assert (s + t)[1..] == s[1..] + t;
      UnlistedConcat(s[1..], t, order);
    }
  }

  lemma {:induction false} UnlistedIgnores(s: seq<int>, x: int, rest: seq<int>)
    requires x !in s
    ensures Unlisted(s, [x] + rest) == Unlisted(s, rest)
  {
    if s != [] {
      UnlistedIgnores(s[1..], x, rest);
    }
  }

  /** One step of the loop, seen through the description. */
  lemma SpecStep(s: seq<int>, n: nat, x: int, rest: seq<int>)
    requires 0 <= x < n
    ensures Unlisted(MovedLast(s, x), rest) + LastOccurrences(n, rest)
         == Unlisted(s, [x] + rest) + LastOccurrences(n, [x] + rest)
  {
    UnlistedConcat(Without(s, x), [x], rest);
    UnlistedAfterMove(s, x, rest);
    var kept := if x in rest then [] else [x];
    assert Unlisted([x], rest) == kept + Unlisted([], rest) == kept;
    assert ([x] + rest)[1..] == rest;
    assert LastOccurrences(n, [x] + rest) == kept + LastOccurrences(n, rest);
  }

  lemma {:induction false} SlotsFromSpec(s: seq<int>, n: nat, order: seq<int>)
    requires forall x :: x in s ==> 0 <= x < n
    ensures SlotsFrom(s, n, order) == Unlisted(s, order) + LastOccurrences(n, order)
    decreases |order|
  {
    if order == [] {
      NothingListed(s);
    } else {
      var x, rest := order[0], order[1..];
      assert order == [x] + rest;
      if 0 <= x < n {
        SlotsFromSpec(MovedLast(s, x), n, rest);
        SpecStep(s, n, x, rest);
      } else {
        SlotsFromSpec(s, n, rest);
        UnlistedIgnores(s, x, rest);
        assert LastOccurrences(n, order) == LastOccurrences(n, rest);
      }
    }
  }

  lemma {:induction false} NothingListed(s: seq<int>)
    ensures Unlisted(s, []) == s
  {
    if s != [] {
      NothingListed(s[1..]);
    }
  }

  /** Reorder yields the unlisted children in their old order, then the listed
      ones by last occurrence, for any list of indices whatsoever. */
  lemma ReorderSpec<T>(kids: seq<T>, order: seq<int>)
    ensures InRange(Unlisted(Iota(|kids|), order) + LastOccurrences(|kids|, order), |kids|)
    ensures Reordered(kids, order)
         == Pick(kids, Unlisted(Iota(|kids|), order) + LastOccurrences(|kids|, order))
  {
    SlotsPermute(Iota(|kids|), |kids|, order);
    SlotsFromSpec(Iota(|kids|), |kids|, order);
  }

  // ---- Conservation ---------------------------------------------------------

  lemma TakenOut<T>(p: seq<T>, at: nat)
    requires at < |p|
    ensures multiset(p[..at] + p[at + 1..]) + multiset{p[at]} == multiset(p)
  {
    assert p == p[..at] + [p[at]] + p[at + 1..];
  }

  lemma PickWithout<T>(kids: seq<T>, s: seq<int>, x: int)
    requires InRange(s, |kids|) && NoDup(s) && x in s
    ensures InRange(Without(s, x), |kids|)
    ensures multiset(Pick(kids, Without(s, x))) + multiset{kids[x]} == multiset(Pick(kids, s))
  {
    var at :| 0 <= at < |s| && s[at] == x;
    WithoutAt(s, at);
    PickSplit(kids, s, at);
    TakenOut(Pick(kids, s), at);
  }

  lemma PickSplit<T>(kids: seq<T>, s: seq<int>, at: nat)
    requires InRange(s, |kids|) && at < |s|
    ensures InRange(s[..at] + s[at + 1..], |kids|)
    ensures var p := Pick(kids, s); Pick(kids, s[..at] + s[at + 1..]) == p[..at] + p[at + 1..] && p[at] == kids[s[at]]
  {
  }

  lemma {:induction false} SlotsConserve<T>(kids: seq<T>, s: seq<int>, order: seq<int>)
    requires NoDup(s) && multiset(s) == multiset(Iota(|kids|)) && InRange(s, |kids|)
    ensures InRange(SlotsFrom(s, |kids|, order), |kids|)
    ensures multiset(Pick(kids, SlotsFrom(s, |kids|, order))) == multiset(Pick(kids, s))
    decreases |order|
  {
    if order != [] && 0 <= order[0] < |kids| {
      var x := order[0];
      MembersOf(s, |kids|);
      MovedLastKeeps(s, x);
      PickWithout(kids, s, x);
      MembersOf(MovedLast(s, x), |kids|);
      assert Pick(kids, MovedLast(s, x)) == Pick(kids, Without(s, x)) + [kids[x]];
      SlotsConserve(kids, MovedLast(s, x), order[1..]);
    } else if order != [] {
      SlotsConserve(kids, s, order[1..]);
    }
  }

  /** No child is lost or doubled, whatever the list says. */
  lemma ReorderConserves<T>(kids: seq<T>, order: seq<int>)
    ensures multiset(Reordered(kids, order)) == multiset(kids)
  {
    SlotsConserve(kids, Iota(|kids|), order);
    assert Pick(kids, Iota(|kids|)) == kids;
  }

  // ---- Permutations ---------------------------------------------------------

  predicate IsPermutation(order: seq<int>, n: nat) {
    |order| == n && InRange(order, n) && NoDup(order)
  }

  function SetOf(s: seq<int>): set<int> {
    set x | x in s
  }

  lemma {:induction false} NoDupSize(s: seq<int>)
    requires NoDup(s)
    ensures |SetOf(s)| == |s|
  {
    if s != [] {
      var t := s[..|s| - 1];
      var last := s[|s| - 1];
      NoDupSize(t);
      assert s == t + [last];
      assert last !in SetOf(t);
      assert SetOf(s) == SetOf(t) + {last};
    }
  }

  lemma PermutationCovers(order: seq<int>, n: nat)
    requires IsPermutation(order, n)
    ensures forall x :: 0 <= x < n ==> x in order
  {
    var all := SetOf(Iota(n));
    NoDupSize(order);
    NoDupSize(Iota(n));
    forall x | 0 <= x < n ensures x in all { assert Iota(n)[x] == x; }
    assert SetOf(order) <= all;
    SubsetOfSameSize(SetOf(order), all);
    forall x | 0 <= x < n ensures x in order { assert x in all; }
  }

  lemma SubsetOfSameSize(a: set<int>, b: set<int>)
    requires a <= b && |a| == |b|
    ensures a == b
  {
    assert b == a + (b - a);
  }

  lemma {:induction false} NoDupAllLast(n: nat, order: seq<int>)
    requires InRange(order, n) && NoDup(order)
    ensures LastOccurrences(n, order) == order
  {
    if order != [] {
      assert order[0] !in order[1..];
      NoDupAllLast(n, order[1..]);
    }
  }

  lemma {:induction false} AllListed(s: seq<int>, order: seq<int>)
    requires forall i :: 0 <= i < |s| ==> s[i] in order
    ensures Unlisted(s, order) == []
  {
    if s != [] {
      assert s[0] in order;
      AllListed(s[1..], order);
    }
  }

  /** For a permutation, new child `i` is old child `order[i]`. */
  lemma ReorderPermutes<T>(kids: seq<T>, order: seq<int>)
    requires IsPermutation(order, |kids|)
    ensures forall i :: 0 <= i < |kids| ==> Reordered(kids, order)[i] == kids[order[i]]
  {
    var n := |kids|;
    ReorderSpec(kids, order);
    PermutationCovers(order, n);
    AllListed(Iota(n), order);
    NoDupAllLast(n, order);
    NothingBefore(Unlisted(Iota(n), order), LastOccurrences(n, order));
    assert Reordered(kids, order) == Pick(kids, order);
  }

  lemma NothingBefore<T>(a: seq<T>, b: seq<T>)
    requires a == []
    ensures a + b == b
  {
  }

  function IndexOf<T(==)>(s: seq<T>, x: T): (i: nat)
    requires x in s
    ensures i < |s| && s[i] == x
  {
    if s[0] == x then 0 else 1 + IndexOf(s[1..], x)
  }

  /** The permutation that undoes `order`. */
  function Inverse(order: seq<int>, n: nat): (inv: seq<int>)
    requires IsPermutation(order, n)
    ensures IsPermutation(inv, n)
    ensures forall i :: 0 <= i < n ==> order[inv[i]] == i
  {
    PermutationCovers(order, n);
    seq(n, i requires 0 <= i < n => IndexOf(order, i))
  }

  /** Reordering by the inverse permutation restores the list. */
  lemma ReorderUndone<T>(kids: seq<T>, order: seq<int>)
    requires IsPermutation(order, |kids|)
    ensures Reordered(Reordered(kids, order), Inverse(order, |kids|)) == kids
  {
    ReorderPermutes(kids, order);
    ReorderPermutes(Reordered(kids, order), Inverse(order, |kids|));
  }
}
