/**
 The renderer on live elements: objects with a child list and a parent pointer,
 mutated in place. A ghost tree of the element objects says which object stands
 where; its abstraction is the element tree the rest of the model reasons about.
 */
module Dom {
  import opened Common
  import opened Tree
  import opened ChildList
  import opened Patches
  import opened Parts
  import opened Render
  import opened Refinement

  class Element {
    var tag: Tag
    var kids: seq<Element>
    var parent: Element?

    constructor (tag: Tag)
      ensures this.tag == tag && kids == [] && parent == null
    {
      this.tag := tag;
      kids := [];
      parent := null;
    }
  }

  /** Which element object stands where. */
  type Snapshot = Tree<Element>

  ghost function Els(s: Snapshot): set<Element> {
    {s.tag} + Union(EachEls(s.kids))
  }

  ghost function EachEls(kids: seq<Snapshot>): (r: seq<set<Element>>) {
    seq(|kids|, i requires 0 <= i < |kids| => Els(kids[i]))
  }

  ghost function Union(sets: seq<set<Element>>): set<Element> {
    set i, e | 0 <= i < |sets| && e in sets[i] :: e
  }

  ghost predicate Disjoint(sets: seq<set<Element>>) {
    forall i, j :: 0 <= i < j < |sets| ==> sets[i] !! sets[j]
  }

  function Heads(kids: seq<Snapshot>): (r: seq<Element>)
  {
    seq(|kids|, i requires 0 <= i < |kids| => kids[i].tag)
  }

  /** No object stands in two places. */
  ghost predicate Apart(s: Snapshot) {
    && s.tag !in Union(EachEls(s.kids))
    && Disjoint(EachEls(s.kids))
    && forall i :: 0 <= i < |s.kids| ==> Apart(s.kids[i])
  }

  lemma KidEls(s: Snapshot, i: nat)
    requires i < |s.kids|
    ensures Els(s.kids[i]) <= Union(EachEls(s.kids)) <= Els(s)
  {
    assert EachEls(s.kids)[i] == Els(s.kids[i]);
  }

  /** The objects point at one another as the snapshot says. */
  ghost predicate Live(s: Snapshot)
    reads Els(s)
  {
    && s.tag.kids == Heads(s.kids)
    && forall i :: 0 <= i < |s.kids| ==>
         (KidEls(s, i); s.kids[i].tag.parent == s.tag && Live(s.kids[i]))
  }

  ghost function Abs(s: Snapshot): Elem
    reads Els(s)
  {
    Tree(s.tag.tag, seq(|s.kids|, i requires 0 <= i < |s.kids| reads Els(s) => (KidEls(s, i); Abs(s.kids[i]))))
  }

  // ---- Grafting a child into the child list -------------------------------------

  lemma UnionInsert(sets: seq<set<Element>>, i: nat, x: set<Element>)
    requires i <= |sets|
    ensures Union(sets[..i] + [x] + sets[i..]) == Union(sets) + x
  {
    var t := sets[..i] + [x] + sets[i..];
    forall e ensures e in Union(t) <==> e in Union(sets) + x {
      if e in Union(sets) {
        var j :| 0 <= j < |sets| && e in sets[j];
        assert e in t[if j < i then j else j + 1];
      }
      if e in x { assert e in t[i]; }
    }
  }

  lemma DisjointInsert(sets: seq<set<Element>>, i: nat, x: set<Element>)
    requires i <= |sets| && Disjoint(sets) && Union(sets) !! x
    ensures Disjoint(sets[..i] + [x] + sets[i..])
  {
    var t := sets[..i] + [x] + sets[i..];
    forall a, b | 0 <= a < b < |t| ensures t[a] !! t[b] {
      if a != i && b != i {
        assert t[a] == sets[if a < i then a else a - 1];
        assert t[b] == sets[if b < i then b else b - 1];
      } else if a == i {
        assert t[b] == sets[b - 1];
      } else {
        assert t[a] == sets[a];
      }
    }
  }

  function Grafted(s: Snapshot, i: nat, ks: Snapshot): Snapshot
    requires i <= |s.kids|
  {
    Tree(s.tag, s.kids[..i] + [ks] + s.kids[i..])
  }

  lemma GraftedEls(s: Snapshot, i: nat, ks: Snapshot)
    requires i <= |s.kids|
    ensures Els(Grafted(s, i, ks)) == Els(s) + Els(ks)
    ensures EachEls(Grafted(s, i, ks).kids) == EachEls(s.kids)[..i] + [Els(ks)] + EachEls(s.kids)[i..]
  {
    assert EachEls(Grafted(s, i, ks).kids) == EachEls(s.kids)[..i] + [Els(ks)] + EachEls(s.kids)[i..];
    UnionInsert(EachEls(s.kids), i, Els(ks));
  }

  lemma GraftedApart(s: Snapshot, i: nat, ks: Snapshot)
    requires i <= |s.kids| && Apart(s) && Apart(ks) && Els(s) !! Els(ks)
    ensures Apart(Grafted(s, i, ks))
  {
    GraftedEls(s, i, ks);
    DisjointInsert(EachEls(s.kids), i, Els(ks));
    UnionInsert(EachEls(s.kids), i, Els(ks));
    var s' := Grafted(s, i, ks);
    forall j | 0 <= j < |s'.kids| ensures Apart(s'.kids[j]) {
      assert s'.kids[j] == if j < i then s.kids[j] else if j == i then ks else s.kids[j - 1];
    }
  }

  /** The branches below a root, whatever its child list says: each is live, knows
      its parent and stands for the given element. */
  ghost predicate Branches(s: Snapshot, els: seq<Elem>)
    reads Els(s)
  {
    && |els| == |s.kids|
    && forall i :: 0 <= i < |s.kids| ==>
         (KidEls(s, i); s.kids[i].tag.parent == s.tag && Live(s.kids[i]) && Abs(s.kids[i]) == els[i])
  }

  lemma BranchesLive(s: Snapshot, els: seq<Elem>)
    requires Branches(s, els) && s.tag.kids == Heads(s.kids)
    ensures Live(s) && Abs(s) == Tree(s.tag.tag, els)
  {
    assert Abs(s).kids == els;
  }

  twostate predicate BelowStays(s: Snapshot)
    reads Els(s)
  {
    forall e: Element :: e in Els(s) && e != s.tag ==> old(allocated(e)) && unchanged(e)
  }

  /** Touching only a subtree's root object leaves its branches alone. */
  twostate lemma BranchesStay(s: Snapshot)
    requires old(Live(s)) && Apart(s) && BelowStays(s)
    ensures Branches(s, old(Abs(s)).kids)
  {
    forall i | 0 <= i < |s.kids|
      ensures s.kids[i].tag.parent == s.tag && Live(s.kids[i]) && Abs(s.kids[i]) == old(Abs(s)).kids[i]
    {
      KidEls(s, i);
      assert s.tag !in Els(s.kids[i]);
      assert s.kids[i].tag in Els(s.kids[i]);
    }
  }

  /** A new parent for a subtree's root changes nothing inside it. */
  twostate lemma RootStays(s: Snapshot)
    requires old(Live(s)) && Apart(s) && BelowStays(s)
    requires s.tag.kids == old(s.tag.kids) && s.tag.tag == old(s.tag.tag)
    ensures Live(s) && Abs(s) == old(Abs(s))
  {
    BranchesStay(s);
    BranchesLive(s, old(Abs(s)).kids);
  }

  lemma GraftBranches(s: Snapshot, els: seq<Elem>, i: nat, ks: Snapshot)
    requires i <= |s.kids| && Branches(s, els)
    requires Live(ks) && ks.tag.parent == s.tag
    ensures Branches(Grafted(s, i, ks), InsertAt(els, i, Abs(ks)))
  {
    var s', els' := Grafted(s, i, ks), InsertAt(els, i, Abs(ks));
    forall j | 0 <= j < |s'.kids|
      ensures s'.kids[j].tag.parent == s.tag && Live(s'.kids[j]) && Abs(s'.kids[j]) == els'[j]
    {
      assert s'.kids[j] == if j < i then s.kids[j] else if j == i then ks else s.kids[j - 1];
    }
  }

  method InsertKid(el: Element, i: nat, kid: Element, ghost s: Snapshot, ghost ks: Snapshot)
    returns (ghost s': Snapshot)
    requires s.tag == el && Live(s) && Apart(s)
    requires ks.tag == kid && Live(ks) && Apart(ks) && Els(s) !! Els(ks)
    requires i <= |s.kids| == |el.kids|
    modifies el`kids, kid`parent
    ensures s' == Grafted(s, i, ks)
    ensures el.kids == old(el.kids)[..i] + [kid] + old(el.kids)[i..]
    ensures Live(s') && Apart(s') && Els(s') == Els(s) + Els(ks)
    ensures Abs(s') == Tree(el.tag, InsertAt(old(Abs(s)).kids, i, old(Abs(ks))))
  {
    el.kids := el.kids[..i] + [kid] + el.kids[i..];
    kid.parent := el;
    s' := Grafted(s, i, ks);
    assert el in Els(s) && kid in Els(ks);
    assert old(allocated(Els(s)) && allocated(Els(ks)));
    BranchesStay(s);
    RootStays(ks);
    assert Heads(s'.kids) == el.kids;
    GraftedEls(s, i, ks);
    GraftedApart(s, i, ks);
    GraftBranches(s, old(Abs(s)).kids, i, ks);
    BranchesLive(s', InsertAt(old(Abs(s)).kids, i, old(Abs(ks))));
  }

  // ---- Keeping some children, in some order ----------------------------------------

  function Picked(s: Snapshot, idx: seq<int>): Snapshot
    requires InRange(idx, |s.kids|)
  {
    Tree(s.tag, Pick(s.kids, idx))
  }

  lemma PickedApart(s: Snapshot, idx: seq<int>)
    requires InRange(idx, |s.kids|) && NoDup(idx) && Apart(s)
    ensures Apart(Picked(s, idx)) && Els(Picked(s, idx)) <= Els(s)
  {
    var t := Picked(s, idx);
    var sets, sets' := EachEls(s.kids), EachEls(t.kids);
    assert forall j :: 0 <= j < |idx| ==> sets'[j] == sets[idx[j]];
    forall a, b | 0 <= a < b < |idx| ensures sets'[a] !! sets'[b] {
      assert idx[a] != idx[b];
    }
    assert Union(sets') <= Union(sets);
  }

  /** One branch of a root, live and standing for `e`. */
  ghost predicate Branch(s: Snapshot, i: int, e: Elem)
    requires 0 <= i < |s.kids|
    reads Els(s)
  {
    KidEls(s, i);
    s.kids[i].tag.parent == s.tag && Live(s.kids[i]) && Abs(s.kids[i]) == e
  }

  lemma PickedBranches(s: Snapshot, els: seq<Elem>, idx: seq<int>)
    requires |els| == |s.kids| && InRange(idx, |s.kids|)
    requires forall j :: 0 <= j < |idx| ==> Branch(s, idx[j], els[idx[j]])
    ensures Branches(Picked(s, idx), Pick(els, idx))
  {
    var t := Picked(s, idx);
    forall j | 0 <= j < |t.kids|
      ensures t.kids[j].tag.parent == s.tag && Live(t.kids[j]) && Abs(t.kids[j]) == Pick(els, idx)[j]
    {
      assert Branch(s, idx[j], els[idx[j]]);
      KidEls(t, j);
    }
  }

  /** All positions but one, and all positions with one moved last. */
  function Skip(n: nat, i: nat): (r: seq<int>)
    requires i < n
    ensures InRange(r, n) && NoDup(r) && i !in r && |r| == n - 1
  {
    seq(n - 1, j => if j < i then j else j + 1)
  }

  method RemoveKid(el: Element, i: nat, kid: Element, ghost s: Snapshot) returns (ghost s': Snapshot)
    requires s.tag == el && Live(s) && Apart(s) && i < |el.kids| && el.kids[i] == kid
    modifies el`kids, kid`parent
    ensures i < |s.kids| && s' == Tree(el, s.kids[..i] + s.kids[i + 1..])
    ensures Live(s') && Apart(s') && Els(s') <= Els(s) && kid.parent == null
    ensures Abs(s') == Tree(el.tag, old(Abs(s)).kids[..i] + old(Abs(s)).kids[i + 1..])
  {
    el.kids := el.kids[..i] + el.kids[i + 1..];
    kid.parent := null;
    ghost var idx := Skip(|s.kids|, i);
    ghost var els := old(Abs(s)).kids;
    s' := Picked(s, idx);
    assert kid in Els(s.kids[i]);
    forall j | 0 <= j < |idx| ensures Branch(s, idx[j], els[idx[j]]) {
      KidEls(s, idx[j]);
      OtherBranch(s, i, idx[j]);
      assert s.kids[idx[j]].tag in Els(s.kids[idx[j]]);
    }
    PickedApart(s, idx);
    PickedBranches(s, els, idx);
    SkipPicks(s.kids, i);
    SkipPicks(els, i);
    HeadsPick(s.kids, idx);
    SkipPicks(old(el.kids), i);
    BranchesLive(s', Pick(els, idx));
  }

  lemma OthersStay<T>(kids: seq<T>, i: nat)
    requires i < |kids|
    ensures forall k :: k in kids && k != kids[i] ==> k in kids[..i] + kids[i + 1..]
  {
  }

  /** `el.children[i].remove()`. */
  method RemoveNth(el: Element, i: nat, ghost s: Snapshot) returns (ghost s': Snapshot)
    requires s.tag == el && Live(s) && Apart(s) && i < |el.kids|
    modifies Els(s)
    ensures i < |s.kids| && s' == Tree(el, s.kids[..i] + s.kids[i + 1..])
    ensures Live(s') && Apart(s') && Els(s') <= Els(s)
    ensures el.tag == old(el.tag) && el.parent == old(el.parent)
    ensures Abs(s') == Tree(el.tag, old(Abs(s)).kids[..i] + old(Abs(s)).kids[i + 1..])
    ensures el.kids == old(el.kids)[..i] + old(el.kids)[i + 1..] && s.kids[i].tag.parent == null
    ensures forall k :: k in old(el.kids) ==> k.tag == old(k.tag)
    ensures forall k :: k in old(el.kids) && k != old(el.kids[i]) ==> k in el.kids
  {
    KidEls(s, i);
    assert s.kids[i].tag in Els(s.kids[i]) && el in Els(s);
    s' := RemoveKid(el, i, el.kids[i], s);
    OthersStay(old(el.kids), i);
  }

  lemma SkipPicks<T>(kids: seq<T>, i: nat)
    requires i < |kids|
    ensures Pick(kids, Skip(|kids|, i)) == kids[..i] + kids[i + 1..]
  {
  }

  lemma HeadsPick(kids: seq<Snapshot>, idx: seq<int>)
    requires InRange(idx, |kids|)
    ensures |Heads(kids)| == |kids| && Heads(Pick(kids, idx)) == Pick(Heads(kids), idx)
  {
  }

  lemma BranchesEach(s: Snapshot, els: seq<Elem>, idx: seq<int>)
    requires InRange(idx, |s.kids|) && Branches(s, els)
    ensures forall j :: 0 <= j < |idx| ==> Branch(s, idx[j], els[idx[j]])
  {
  }

  /** Two branches share no object, and neither holds the root. */
  lemma OtherBranch(s: Snapshot, i: int, j: int)
    requires Apart(s) && 0 <= i < |s.kids| && 0 <= j < |s.kids| && i != j
    ensures Els(s.kids[i]) !! Els(s.kids[j]) && s.tag !in Els(s.kids[j])
  {
    KidEls(s, j);
    assert EachEls(s.kids)[i] !! EachEls(s.kids)[j];
  }

  function Rotated(n: nat, i: nat): (r: seq<int>)
    requires i < n
    ensures InRange(r, n) && NoDup(r) && |r| == n
  {
    Skip(n, i) + [i]
  }

  lemma RotatedPicks<T>(kids: seq<T>, i: nat)
    requires i < |kids|
    ensures Pick(kids, Rotated(|kids|, i)) == kids[..i] + kids[i + 1..] + [kids[i]]
  {
    assert Skip(|kids|, i) == seq(|kids| - 1, j => if j < i then j else j + 1);
  }

  /** `appendChild` of a child that is already there moves it to the end. */
  method MoveLast(el: Element, i: nat, ghost s: Snapshot) returns (ghost s': Snapshot)
    requires s.tag == el && Live(s) && Apart(s) && i < |el.kids|
    modifies el`kids
    ensures i < |s.kids| && s' == Tree(el, s.kids[..i] + s.kids[i + 1..] + [s.kids[i]])
    ensures Live(s') && Apart(s') && Els(s') <= Els(s)
    ensures var els := old(Abs(s)).kids; Abs(s') == Tree(el.tag, els[..i] + els[i + 1..] + [els[i]])
  {
    el.kids := el.kids[..i] + el.kids[i + 1..] + [el.kids[i]];
    ghost var idx := Rotated(|s.kids|, i);
    ghost var els := old(Abs(s)).kids;
    s' := Picked(s, idx);
    assert el in Els(s);
    assert old(allocated(Els(s)));
    BranchesStay(s);
    BranchesEach(s, els, idx);
    PickedApart(s, idx);
    PickedBranches(s, els, idx);
    RotatedPicks(s.kids, i);
    RotatedPicks(els, i);
    HeadsPick(s.kids, idx);
    RotatedPicks(old(el.kids), i);
    BranchesLive(s', Pick(els, idx));
  }

  // ---- Painting: the parts the renderer owns ------------------------------------------
  //
  // Every painter works on one element, `s.tag`, and may touch what is below it.

  /** What the reader types into, and its list of suggestions. */
  predicate IsControl(tag: Tag) {
    tag == Part(InputControl) || tag == Part(SelectControl) || tag == Part(DataList)
  }

  /** The very objects that are controls are still there. */
  twostate predicate KeepsControls(el: Element)
    reads el, el.kids
  {
    forall k :: k in old(el.kids) && IsControl(old(k.tag)) ==> k in el.kids && k.tag == old(k.tag)
  }

  /** `textContent = ""`. */
  method Clear(el: Element, ghost s: Snapshot) returns (ghost s': Snapshot)
    requires s.tag == el && Live(s) && Apart(s)
    modifies Els(s)
    ensures s' == Tree(el, []) && Live(s') && Apart(s') && Els(s') == {el}
    ensures el.tag == old(el.tag) && el.parent == old(el.parent)
    ensures Abs(s') == Tree(el.tag, [])
  {
    forall j | 0 <= j < |s.kids| ensures el.kids[j] in Els(s) && el.kids[j] != el {
      KidEls(s, j);
      assert s.kids[j].tag in Els(s.kids[j]);
    }
    forall k | k in el.kids { k.parent := null; }
    el.kids := [];
    s' := Tree(el, []);
    assert Heads(s'.kids) == [];
    BranchesLive(s', []);
  }

  method FindPart(el: Element, name: PartName, ghost s: Snapshot) returns (i: nat)
    requires s.tag == el && Live(s)
    ensures Live(s) && Abs(s) == old(Abs(s))
    ensures i == Find(Abs(s).kids, name) <= |Abs(s).kids| == |el.kids|
  {
    i := 0;
    while i < |el.kids| && el.kids[i].tag != Part(name)
      invariant i <= |el.kids|
      invariant forall j :: 0 <= j < i ==> el.kids[j].tag != Part(name)
    {
      i := i + 1;
    }
    assert forall j :: 0 <= j < |el.kids| ==> Abs(s).kids[j].tag == el.kids[j].tag;
    FindIs(Abs(s).kids, name, i);
  }

  method InsertPart(el: Element, i: nat, name: PartName, ghost s: Snapshot) returns (ghost s': Snapshot)
    requires s.tag == el && Live(s) && Apart(s) && i <= |el.kids|
    modifies Els(s)
    ensures s'.tag == el && Live(s') && Apart(s')
    ensures forall e :: e in Els(s') ==> e in Els(s) || fresh(e)
    ensures el.tag == old(el.tag) && el.parent == old(el.parent)
    ensures Abs(s') == Tree(el.tag, InsertAt(old(Abs(s)).kids, i, PartEl(name)))
    ensures KeepsControls(el)
  {
    assert el in Els(s) && old(allocated(Els(s)));
    var part := new Element(Part(name));
    ghost var ks := Tree(part, []);
    assert Heads(ks.kids) == [];
    BranchesLive(ks, []);
    assert Abs(s) == old(Abs(s)) && Live(s);
    s' := InsertKid(el, i, part, s, ks);
  }

  method DropPart(el: Element, name: PartName, ghost s: Snapshot) returns (ghost s': Snapshot)
    requires s.tag == el && Live(s) && Apart(s)
    modifies Els(s)
    ensures s'.tag == el && Live(s') && Apart(s')
    ensures forall e :: e in Els(s') ==> e in Els(s)
    ensures el.tag == old(el.tag) && el.parent == old(el.parent)
    ensures Abs(s') == Tree(el.tag, Dropped(old(Abs(s)).kids, name))
    ensures !IsControl(Part(name)) ==> KeepsControls(el)
  {
    var i := FindPart(el, name, s);
    s' := s;
    if i < |el.kids| {
      assert Abs(s).kids[i].tag == el.kids[i].tag;
      s' := RemoveNth(el, i, s);
    }
  }

  method PaintFront(el: Element, name: PartName, ghost s: Snapshot) returns (ghost s': Snapshot)
    requires s.tag == el && Live(s) && Apart(s)
    modifies Els(s)
    ensures s'.tag == el && Live(s') && Apart(s')
    ensures forall e :: e in Els(s') ==> e in Els(s) || fresh(e)
    ensures el.tag == old(el.tag) && el.parent == old(el.parent)
    ensures Abs(s') == Tree(el.tag, EnsureFront(old(Abs(s)).kids, name))
    ensures KeepsControls(el)
  {
    var i := FindPart(el, name, s);
    s' := s;
    if i == |el.kids| {
      s' := InsertPart(el, 0, name, s);
    }
  }

  method PaintBack(el: Element, name: PartName, ghost s: Snapshot) returns (ghost s': Snapshot)
    requires s.tag == el && Live(s) && Apart(s)
    modifies Els(s)
    ensures s'.tag == el && Live(s') && Apart(s')
    ensures forall e :: e in Els(s') ==> e in Els(s) || fresh(e)
    ensures el.tag == old(el.tag) && el.parent == old(el.parent)
    ensures Abs(s') == Tree(el.tag, EnsureBack(old(Abs(s)).kids, name))
    ensures KeepsControls(el)
  {
    var i := FindPart(el, name, s);
    s' := s;
    if i == |el.kids| {
      s' := InsertPart(el, i, name, s);
    }
  }

  method PaintIcon(el: Element, wanted: Option<bool>, part: PartName, anchor: PartName, ghost s: Snapshot)
    returns (ghost s': Snapshot)
    requires s.tag == el && Live(s) && Apart(s)
    modifies Els(s)
    ensures s'.tag == el && Live(s') && Apart(s')
    ensures forall e :: e in Els(s') ==> e in Els(s) || fresh(e)
    ensures el.tag == old(el.tag) && el.parent == old(el.parent)
    ensures Abs(s') == Tree(el.tag, SetPart(old(Abs(s)).kids, wanted, part, anchor))
    ensures !IsControl(Part(part)) ==> KeepsControls(el)
  {
    s' := s;
    if wanted == Some(false) {
      s' := DropPart(el, part, s);
    } else if wanted == Some(true) {
      var i := FindPart(el, part, s);
      if i == |el.kids| {
        var at := FindPart(el, anchor, s);
        s' := InsertPart(el, at, part, s);
      }
    }
  }

  method PaintIcons(el: Element, props: Props, control: PartName, ghost s: Snapshot) returns (ghost s': Snapshot)
    requires s.tag == el && Live(s) && Apart(s)
    modifies Els(s)
    ensures s'.tag == el && Live(s') && Apart(s')
    ensures forall e :: e in Els(s') ==> e in Els(s) || fresh(e)
    ensures el.tag == old(el.tag) && el.parent == old(el.parent)
    ensures Abs(s') == Tree(el.tag, SetIcons(old(Abs(s)).kids, props, control))
    ensures KeepsControls(el)
  {
    ghost var mid := PaintIcon(el, Wanted(props, LeadingIcon), Leading, control, s);
    s' := PaintIcon(el, Wanted(props, TrailingIcon), Trailing, Reveal, mid);
  }

  method PaintReveal(el: Element, props: Props, ghost s: Snapshot) returns (ghost s': Snapshot)
    requires s.tag == el && Live(s) && Apart(s)
    modifies Els(s)
    ensures s'.tag == el && Live(s') && Apart(s')
    ensures forall e :: e in Els(s') ==> e in Els(s) || fresh(e)
    ensures el.tag == old(el.tag) && el.parent == old(el.parent)
    ensures Abs(s') == Tree(el.tag, SetReveal(old(Abs(s)).kids, props))
    ensures KeepsControls(el)
  {
    s' := s;
    if Secure in props {
      if IsSecure(props) {
        s' := PaintBack(el, Reveal, s);
      } else {
        s' := DropPart(el, Reveal, s);
      }
    }
  }

  method InsertChevron(el: Element, ghost s: Snapshot) returns (ghost s': Snapshot)
    requires s.tag == el && Live(s) && Apart(s)
    modifies Els(s)
    ensures s'.tag == el && Live(s') && Apart(s')
    ensures forall e :: e in Els(s') ==> e in Els(s) || fresh(e)
    ensures el.tag == old(el.tag) && el.parent == old(el.parent)
    ensures Abs(s') == Tree(el.tag, WithChevron(old(Abs(s)).kids))
    ensures KeepsControls(el)
  {
    var select := FindPart(el, SelectControl, s);
    s' := InsertPart(el, Min(select + 1, |el.kids|), Chevron, s);
  }

  method PaintMissingChevron(el: Element, ghost s: Snapshot) returns (ghost s': Snapshot)
    requires s.tag == el && Live(s) && Apart(s)
    modifies Els(s)
    ensures s'.tag == el && Live(s') && Apart(s')
    ensures forall e :: e in Els(s') ==> e in Els(s) || fresh(e)
    ensures el.tag == old(el.tag) && el.parent == old(el.parent)
    ensures Abs(s') == Tree(el.tag, EnsureChevron(old(Abs(s)).kids))
    ensures KeepsControls(el)
  {
    s' := s;
    var chevron := FindPart(el, Chevron, s);
    if chevron == |el.kids| {
      s' := InsertChevron(el, s);
    }
  }

  method PaintChevron(el: Element, ghost s: Snapshot) returns (ghost s': Snapshot)
    requires s.tag == el && Live(s) && Apart(s)
    modifies Els(s)
    ensures s'.tag == el && Live(s') && Apart(s')
    ensures forall e :: e in Els(s') ==> e in Els(s) || fresh(e)
    ensures el.tag == old(el.tag) && el.parent == old(el.parent)
    ensures Abs(s') == Tree(el.tag, SetChevron(old(Abs(s)).kids))
    ensures KeepsControls(el)
  {
    var trailing := FindPart(el, Trailing, s);
    if trailing < |el.kids| {
      s' := DropPart(el, Chevron, s);
    } else {
      s' := PaintMissingChevron(el, s);
    }
  }

  method PaintCopies(el: Element, name: PartName, n: nat, ghost s: Snapshot) returns (ghost s': Snapshot)
    requires s.tag == el && Live(s) && Apart(s)
    modifies Els(s)
    ensures s'.tag == el && Live(s') && Apart(s')
    ensures forall e :: e in Els(s') ==> e in Els(s) || fresh(e)
    ensures el.tag == old(el.tag) && el.parent == old(el.parent)
    ensures Abs(s') == Tree(el.tag, old(Abs(s)).kids + Copies(name, n))
  {
    s' := s;
    for i := 0 to n
      invariant s'.tag == el && Live(s') && Apart(s')
      invariant forall e :: e in Els(s') ==> e in Els(s) || fresh(e)
      invariant el.tag == old(el.tag) && el.parent == old(el.parent)
      invariant Abs(s') == Tree(el.tag, old(Abs(s)).kids + Copies(name, i))
    {
      ghost var mid := s';
      s' := InsertPart(el, |el.kids|, name, mid);
      assert Abs(s').kids == old(Abs(s)).kids + Copies(name, i + 1);
    }
  }

  lemma DropAllStep(kids: seq<Elem>, i: nat, name: PartName)
    requires i < |kids|
    ensures var after := kids[..i] + kids[i + 1..];
            kids[..i] + DropAll(kids[i..], name)
              == if IsPart(kids[i], name) then after[..i] + DropAll(after[i..], name)
                 else kids[..i + 1] + DropAll(kids[i + 1..], name)
  {
    assert kids[i..][1..] == kids[i + 1..];
    assert (kids[..i] + kids[i + 1..])[i..] == kids[i + 1..];
  }

  method ClearParts(el: Element, name: PartName, ghost s: Snapshot) returns (ghost s': Snapshot)
    requires s.tag == el && Live(s) && Apart(s)
    modifies Els(s)
    ensures s'.tag == el && Live(s') && Apart(s')
    ensures forall e :: e in Els(s') ==> e in Els(s)
    ensures el.tag == old(el.tag) && el.parent == old(el.parent)
    ensures Abs(s') == Tree(el.tag, DropAll(old(Abs(s)).kids, name))
  {
    s' := s;
    var i := 0;
    ghost var kids := Abs(s).kids;
    while i < |el.kids|
      invariant s'.tag == el && Live(s') && Apart(s')
      invariant forall e :: e in Els(s') ==> e in Els(s)
      invariant el.tag == old(el.tag) && el.parent == old(el.parent)
      invariant i <= |el.kids| && Abs(s') == Tree(el.tag, kids)
      invariant kids[..i] + DropAll(kids[i..], name) == DropAll(old(Abs(s)).kids, name)
      decreases |el.kids| - i
    {
      DropAllStep(kids, i, name);
      if el.kids[i].tag == Part(name) {
        s' := RemoveNth(el, i, s');
        kids := kids[..i] + kids[i + 1..];
      } else {
        i := i + 1;
      }
    }
  }

  method PaintFieldParts(el: Element, kind: Kind, props: Props, ghost s: Snapshot) returns (ghost s': Snapshot)
    requires s.tag == el && Live(s) && Apart(s) && IsField(kind)
    modifies Els(s)
    ensures s'.tag == el && Live(s') && Apart(s')
    ensures forall e :: e in Els(s') ==> e in Els(s) || fresh(e)
    ensures el.tag == old(el.tag) && el.parent == old(el.parent)
    ensures Abs(s') == Tree(el.tag, PaintField(kind, old(Abs(s)).kids, props))
    ensures KeepsControls(el)
  {
    if kind.Input? {
      s' := PaintFront(el, InputControl, s);
      s' := PaintReveal(el, props, s');
      s' := PaintIcons(el, props, InputControl, s');
    } else if kind.Dropdown? {
      s' := PaintFront(el, SelectControl, s);
      s' := PaintIcons(el, props, SelectControl, s');
      s' := PaintChevron(el, s');
    } else {
      s' := PaintFront(el, InputControl, s);
      s' := PaintBack(el, DataList, s');
      s' := PaintIcons(el, props, InputControl, s');
    }
  }

  method PaintRedrawn(el: Element, kind: Kind, props: Props, ghost s: Snapshot) returns (ghost s': Snapshot)
    requires s.tag == el && Live(s) && Apart(s) && Redraws(kind)
    modifies Els(s)
    ensures s'.tag == el && Live(s') && Apart(s')
    ensures forall e :: e in Els(s') ==> e in Els(s) || fresh(e)
    ensures el.tag == old(el.tag) && el.parent == old(el.parent)
    ensures Abs(s') == Tree(el.tag, Redrawn(kind, old(Abs(s)).kids, props))
  {
    s' := s;
    if kind.IconWidget? {
      if Name in props || Size in props {
        s' := Clear(el, s);
        if Resolves(props) {
          s' := InsertPart(el, 0, Outline, s');
        }
      }
    } else if kind.TabBar? {
      if Tabs in props {
        s' := Clear(el, s);
        s' := PaintCopies(el, Tab, Rows(props[Tabs]), s');
      }
    } else if Items in props {
      s' := ClearParts(el, MenuItem, s);
      s' := PaintCopies(el, MenuItem, Rows(props[Items]), s');
    }
  }

  method PaintFixedParts(el: Element, kind: Kind, props: Props, ghost s: Snapshot) returns (ghost s': Snapshot)
    requires s.tag == el && Live(s) && Apart(s) && !IsField(kind) && !Redraws(kind)
    modifies Els(s)
    ensures s'.tag == el && Live(s') && Apart(s')
    ensures forall e :: e in Els(s') ==> e in Els(s) || fresh(e)
    ensures el.tag == old(el.tag) && el.parent == old(el.parent)
    ensures Abs(s') == Tree(el.tag, PaintFixed(kind, old(Abs(s)).kids, props))
    ensures KeepsControls(el)
  {
    s' := s;
    if Nested(kind) {
      s' := PaintFront(el, InputControl, s);
    } else if kind.RangeSlider? {
      s' := PaintBack(el, LowThumb, s);
      s' := PaintBack(el, HighThumb, s');
    } else if kind.ProgressBar? {
      s' := PaintBack(el, Fill, s);
    } else if kind.RefreshControl? {
      s' := PaintBack(el, Spinner, s);
    } else if kind.IconButton? && Icon in props {
      s' := PaintBack(el, Glyph, s);
    }
  }

  /** A pass that writes no text, on a widget not drawn afresh. */
  predicate SparesControls(tag: Tag, props: Props) {
    match tag
    case Widget(shape) => !Blanks(shape.kind, props) && !Redraws(shape.kind)
    case Part(_) => Content !in props
  }

  lemma NotItsOwnKid(s: Snapshot)
    requires Live(s) && Apart(s)
    ensures s.tag !in s.tag.kids
  {
    forall i | 0 <= i < |s.kids| ensures s.tag.kids[i] != s.tag {
      KidEls(s, i);
      assert s.kids[i].tag in Els(s.kids[i]);
    }
  }

  /** One pass of props over one element: text first, then the parts. What the reader is
      typing into is not swapped for another. */
  method ApplyProps(el: Element, props: Props, ghost s: Snapshot) returns (ghost s': Snapshot)
    requires s.tag == el && Live(s) && Apart(s)
    modifies Els(s)
    ensures s'.tag == el && Live(s') && Apart(s')
    ensures forall e :: e in Els(s') ==> e in Els(s) || fresh(e)
    ensures el.parent == old(el.parent)
    ensures Abs(s') == Pass(old(Abs(s)), props)
    ensures SparesControls(old(el.tag), props) ==> KeepsControls(el)
  {
    s' := s;
    NotItsOwnKid(s);
    match el.tag
    case Widget(shape) =>
      s' := Retag(el, Widget(shape.(props := shape.props + props)), s);
      if Blanks(shape.kind, props) {
        s' := Clear(el, s');
      }
      var told := Told(shape.kind, shape.props, props);
      if IsField(shape.kind) {
        s' := PaintFieldParts(el, shape.kind, told, s');
      } else if Redraws(shape.kind) {
        s' := PaintRedrawn(el, shape.kind, told, s');
      } else {
        s' := PaintFixedParts(el, shape.kind, told, s');
      }
    case Part(_) =>
      if Content in props {
        s' := Clear(el, s);
      }
  }

  method Retag(el: Element, tag: Tag, ghost s: Snapshot) returns (ghost s': Snapshot)
    requires s.tag == el && Live(s) && Apart(s)
    modifies el`tag
    ensures s' == s && Live(s) && el.tag == tag
    ensures Abs(s) == old(Abs(s)).(tag := tag)
  {
    el.tag := tag;
    s' := s;
    assert old(allocated(Els(s)));
    BranchesStay(s);
    BranchesLive(s, old(Abs(s)).kids);
  }

  // ---- Editing one element deep in the tree ----------------------------------------------

  lemma {:induction false} AtEls(s: Snapshot, path: seq<int>)
    requires At(s, path).Some?
    ensures Els(At(s, path).value) <= Els(s)
    ensures Apart(s) ==> Apart(At(s, path).value)
    decreases |path|
  {
    if path != [] {
      KidEls(s, path[0]);
      AtEls(s.kids[path[0]], path[1..]);
    }
  }

  lemma {:induction false} AtAbs(s: Snapshot, path: seq<int>)
    requires Live(s)
    ensures At(s, path).Some? <==> At(Abs(s), path).Some?
    ensures At(s, path).Some? ==>
              (AtEls(s, path); Live(At(s, path).value) && At(Abs(s), path).value == Abs(At(s, path).value))
    decreases |path|
  {
    if path != [] && HasKid(s, path[0]) {
      KidEls(s, path[0]);
      AtAbs(s.kids[path[0]], path[1..]);
      if At(s, path).Some? { AtEls(s, path); }
    }
  }

  /** An edit of the subtree at a path: what stood there, and what stands there now. */
  datatype Graft = Graft(whole: Snapshot, path: seq<int>, now: Snapshot)

  ghost predicate GraftShape(g: Graft) {
    && Apart(g.whole) && Apart(g.now)
    && At(g.whole, g.path).Some?
    && At(g.whole, g.path).value.tag == g.now.tag
    && (Els(g.now) - Els(At(g.whole, g.path).value)) !! Els(g.whole)
  }

  function Regrown(g: Graft): Snapshot
    requires At(g.whole, g.path).Some?
  {
    RewriteHits(g.whole, g.path, Put(g.now));
    Rewrite(g.whole, g.path, Put(g.now)).value
  }

  function Deeper(g: Graft): Graft
    requires g.path != [] && HasKid(g.whole, g.path[0])
  {
    Graft(g.whole.kids[g.path[0]], g.path[1..], g.now)
  }

  lemma {:induction false} RegrownEls(g: Graft)
    requires GraftShape(g)
    ensures Apart(Regrown(g)) && Regrown(g).tag == g.whole.tag
    ensures Els(Regrown(g)) <= Els(g.whole) + Els(g.now)
    decreases |g.path|
  {
    if g.path != [] {
      var i := g.path[0];
      var kid := g.whole.kids[i];
      KidEls(g.whole, i);
      AtEls(kid, g.path[1..]);
      RegrownEls(Deeper(g));
      ReplacedKid(g.whole, i, Regrown(Deeper(g)), Els(g.now));
      RewriteHits(kid, g.path[1..], Put(g.now));
      assert Rewrite(kid, g.path[1..], Put(g.now)) == Some(Regrown(Deeper(g)));
      assert Regrown(g) == g.whole.(kids := g.whole.kids[i := Regrown(Deeper(g))]);
    }
  }

  /** One branch of a root changes, taking in only objects from outside. */
  lemma ReplacedKid(s: Snapshot, i: int, kid: Snapshot, more: set<Element>)
    requires Apart(s) && 0 <= i < |s.kids| && Apart(kid)
    requires Els(kid) <= Els(s.kids[i]) + more
    requires (more - Els(s.kids[i])) !! Els(s)
    ensures var t := s.(kids := s.kids[i := kid]); Apart(t) && Els(t) <= Els(s) + more
  {
    var t := s.(kids := s.kids[i := kid]);
    var sets, sets' := EachEls(s.kids), EachEls(t.kids);
    assert sets' == sets[i := Els(kid)];
    forall a, b | 0 <= a < b < |sets'| ensures sets'[a] !! sets'[b] {
      KidEls(s, a);
      KidEls(s, b);
      assert sets[a] !! sets[b];
    }
    KidEls(s, i);
    assert Union(sets') <= Union(sets) + more;
  }

  /** Everything off the path, and the path itself down to its end, is live and
      stands for `e`; nothing is said about the subtree the path ends at. */
  ghost predicate LiveBut(s: Snapshot, path: seq<int>, e: Elem)
    requires At(s, path).Some?
    reads Els(s)
    decreases |path|
  {
    path != [] ==>
      var i := path[0];
      && s.tag.kids == Heads(s.kids)
      && s.tag.tag == e.tag
      && |e.kids| == |s.kids|
      && (forall j :: 0 <= j < |s.kids| && j != i ==> Branch(s, j, e.kids[j]))
      && (KidEls(s, i); s.kids[i].tag.parent == s.tag && LiveBut(s.kids[i], path[1..], e.kids[i]))
  }

  datatype Spot = Spot(whole: Snapshot, path: seq<int>)

  ghost predicate SpotShape(p: Spot) {
    Apart(p.whole) && At(p.whole, p.path).Some?
  }

  ghost function OffSpot(p: Spot): set<Element>
    requires At(p.whole, p.path).Some?
  {
    Els(p.whole) - Els(At(p.whole, p.path).value)
  }

  /** An edit below one spot leaves the rest live. */
  twostate lemma {:induction false} PathStays(p: Spot)
    requires SpotShape(p) && old(Live(p.whole))
    requires forall e: Element :: e in OffSpot(p) ==> old(allocated(e)) && unchanged(e)
    requires At(p.whole, p.path).value.tag.parent == old(At(p.whole, p.path).value.tag.parent)
    ensures LiveBut(p.whole, p.path, old(Abs(p.whole)))
    ensures p.whole.tag.parent == old(p.whole.tag.parent)
    decreases |p.path|
  {
    var s, path := p.whole, p.path;
    if path != [] {
      var i := path[0];
      KidEls(s, i);
      AtEls(s.kids[i], path[1..]);
      assert s.tag !in Els(s.kids[i]) && s.tag in OffSpot(p);
      var deeper := Spot(s.kids[i], path[1..]);
      assert forall e: Element :: e in OffSpot(deeper) ==> e in OffSpot(p);
      PathStays(deeper);
      assert s.kids[i].tag in Els(s.kids[i]);
      forall j | 0 <= j < |s.kids| && j != i ensures Branch(s, j, old(Abs(s)).kids[j]) {
        KidEls(s, j);
        OtherBranch(s, i, j);
        assert s.kids[j].tag in Els(s.kids[j]);
        assert forall e: Element :: e in Els(s.kids[j]) ==> e in OffSpot(p);
      }
    }
  }

  /** With the edited subtree live again, so is the whole, and it stands for the
      old elements with that one subtree put in. */
  lemma {:induction false} RegrownLives(g: Graft, e: Elem)
    requires GraftShape(g) && Live(g.now)
    requires LiveBut(g.whole, g.path, e)
    ensures Live(Regrown(g))
    ensures Rewrite(e, g.path, Put(Abs(g.now))) == Some(Abs(Regrown(g)))
    decreases |g.path|
  {
    if g.path != [] {
      var s, i := g.whole, g.path[0];
      KidEls(s, i);
      RegrownLives(Deeper(g), e.kids[i]);
      RewriteHits(s.kids[i], g.path[1..], Put(g.now));
      var kid := Regrown(Deeper(g));
      assert Rewrite(s.kids[i], g.path[1..], Put(g.now)) == Some(kid);
      assert Regrown(g) == s.(kids := s.kids[i := kid]);
      RegrownEls(Deeper(g));
      KidSwapped(s, i, kid, e);
    }
  }

  lemma KidSwapped(s: Snapshot, i: int, kid: Snapshot, e: Elem)
    requires 0 <= i < |s.kids| && |e.kids| == |s.kids|
    requires s.tag.kids == Heads(s.kids) && s.tag.tag == e.tag
    requires forall j :: 0 <= j < |s.kids| && j != i ==> Branch(s, j, e.kids[j])
    requires kid.tag == s.kids[i].tag && kid.tag.parent == s.tag && Live(kid)
    ensures var t := s.(kids := s.kids[i := kid]);
            Live(t) && Abs(t) == Tree(e.tag, e.kids[i := Abs(kid)])
  {
    var t := s.(kids := s.kids[i := kid]);
    forall j | 0 <= j < |t.kids|
      ensures t.kids[j].tag.parent == t.tag && Live(t.kids[j]) && Abs(t.kids[j]) == e.kids[i := Abs(kid)][j]
    {
      if j != i { assert Branch(s, j, e.kids[j]); }
    }
    assert Heads(t.kids) == Heads(s.kids);
    BranchesLive(t, e.kids[i := Abs(kid)]);
  }

  // ---- The patch appliers -------------------------------------------------------------------

  /** Walk child indices from `root`; `None` is the path error. */
  method ResolvePath(root: Element, path: seq<int>, ghost s: Snapshot) returns (el: Option<Element>)
    requires s.tag == root && Live(s)
    ensures Live(s) && Abs(s) == old(Abs(s))
    ensures el.Some? <==> At(s, path).Some?
    ensures el.Some? ==> el.value == At(s, path).value.tag
  {
    var cur := root;
    ghost var c := s;
    var step := 0;
    while step < |path|
      invariant step <= |path|
      invariant Live(s) && Abs(s) == old(Abs(s))
      invariant c.tag == cur && Els(c) <= Els(s) && Live(c)
      invariant At(s, path) == At(c, path[step..])
    {
      var index := path[step];
      if !(0 <= index < |cur.kids|) {
        return None;
      }
      KidEls(c, index);
      cur := cur.kids[index];
      c := c.kids[index];
      step := step + 1;
    }
    return Some(cur);
  }

  /** A detached element with one pass of props and no children of its own. */
  method NewElement(tag: Shape) returns (el: Element, ghost s: Snapshot)
    ensures s.tag == el && fresh(el) && el.parent == null
    ensures forall e :: e in Els(s) ==> fresh(e)
    ensures Live(s) && Apart(s) && Abs(s) == Tree(Widget(tag), Paint(tag.kind, [], tag.props))
  {
    el := new Element(Widget(tag.(props := map[])));
    s := Tree(el, []);
    assert Heads(s.kids) == [];
    BranchesLive(s, []);
    assert Els(s) == {el};
    s := ApplyProps(el, tag.props, s);
    assert map[] + tag.props == tag.props;
  }

  /** Build a detached element subtree from a node. */
  method BuildElement(n: Node) returns (el: Element, ghost s: Snapshot)
    ensures s.tag == el && fresh(el) && el.parent == null
    ensures forall e :: e in Els(s) ==> fresh(e)
    ensures Live(s) && Apart(s) && Abs(s) == Build(n)
    decreases n, 0
  {
    el, s := NewElement(n.tag);
    ghost var painted := Paint(n.tag.kind, [], n.tag.props);
    assert painted + BuildAll(n.kids[..0]) == painted;
    for i := 0 to |n.kids|
      invariant s.tag == el && el.parent == null
      invariant forall e :: e in Els(s) ==> fresh(e)
      invariant Live(s) && Apart(s) && Abs(s) == Tree(Widget(n.tag), painted + BuildAll(n.kids[..i]))
    {
      s := AppendBuilt(el, n.kids[i], s);
      BuildAllStep(n.kids, i);
      assert painted + BuildAll(n.kids[..i]) + [Build(n.kids[i])] == painted + BuildAll(n.kids[..i + 1]);
    }
    assert n.kids[..|n.kids|] == n.kids;
    assert Build(n).kids == painted + BuildAll(n.kids);
  }

  method AppendBuilt(el: Element, n: Node, ghost s: Snapshot) returns (ghost s': Snapshot)
    requires s.tag == el && Live(s) && Apart(s)
    modifies el`kids
    ensures s'.tag == el && Live(s') && Apart(s') && el.parent == old(el.parent)
    ensures forall e :: e in Els(s') ==> e in Els(s) || fresh(e)
    ensures Abs(s') == Tree(el.tag, old(Abs(s)).kids + [Build(n)])
    decreases n, 1
  {
    assert el in Els(s) && old(allocated(Els(s)));
    ghost var ks;
    var child;
    child, ks := BuildElement(n);
    assert Live(s) && Abs(s) == old(Abs(s));
    s' := InsertKid(el, |el.kids|, child, s, ks);
    assert InsertAt(old(Abs(s)).kids, |old(Abs(s)).kids|, Build(n)) == old(Abs(s)).kids + [Build(n)];
  }

  ghost function BuildAll(ns: seq<Node>): (r: seq<Elem>)
    ensures |r| == |ns|
  {
    seq(|ns|, i requires 0 <= i < |ns| => Build(ns[i]))
  }

  lemma BuildAllStep(ns: seq<Node>, i: nat)
    requires i < |ns|
    ensures BuildAll(ns[..i + 1]) == BuildAll(ns[..i]) + [Build(ns[i])]
  {
  }

  /** The object that stood at the index has left its parent; the others stand as they did. */
  predicate TookOut(s: Snapshot, s': Snapshot, index: int)
    reads set i | 0 <= i < |s.kids| :: s.kids[i].tag
  {
    && s'.kids == Removed(s.kids, index)
    && (HasKid(s, index) ==> s.kids[index].tag.parent == null)
  }

  /** An op other than Replace, on the element its path reached. */
  method EditElement(el: Element, op: Op, ghost s: Snapshot) returns (ghost s': Snapshot)
    requires s.tag == el && Live(s) && Apart(s) && !op.Replace?
    modifies Els(s)
    ensures s'.tag == el && Live(s') && Apart(s') && el.parent == old(el.parent)
    ensures forall e :: e in Els(s') ==> e in Els(s) || fresh(e)
    ensures Abs(s') == React(old(Abs(s)), op)
    ensures op.Remove? ==> TookOut(s, s', op.index)
    ensures op.Reorder? ==> el.kids == Reordered(old(el.kids), op.order)
    ensures op.Update? && SparesControls(old(el.tag), OrEmpty(op.assign) + Nulls(op.unset)) ==> KeepsControls(el)
  {
    assert el in Els(s);
    s' := s;
    match op
    case Update(assign, unset) =>
      if assign.Some? {
        s' := ApplyProps(el, assign.value, s');
      }
      if unset != {} {
        s' := ApplyProps(el, Nulls(unset), s');
      }
    case Insert(index, node) =>
      var child;
      ghost var ks;
      s', child, ks := InsertBuilt(el, index, node, s);
    case Remove(index) =>
      if 0 <= index < |el.kids| {
        s' := RemoveNth(el, index, s);
      }
    case Reorder(order) =>
      s' := ReorderKids(el, order, s);
  }

  /** An index with no child behind it lands at the end. */
  function Landing(index: int, n: nat): (i: nat)
    ensures i <= n
  {
    if 0 <= index < n then index else n
  }

  method InsertBuilt(el: Element, index: int, node: Node, ghost s: Snapshot)
    returns (ghost s': Snapshot, child: Element, ghost ks: Snapshot)
    requires s.tag == el && Live(s) && Apart(s)
    modifies el`kids
    ensures s' == Grafted(s, Landing(index, |s.kids|), ks) && ks.tag == child
    ensures Live(s') && Apart(s') && el.parent == old(el.parent)
    ensures forall e :: e in Els(s') ==> e in Els(s) || fresh(e)
    ensures Abs(s') == React(old(Abs(s)), Insert(index, node))
  {
    assert el in Els(s) && old(allocated(Els(s)));
    child, ks := BuildElement(node);
    assert Live(s) && Abs(s) == old(Abs(s));
    var i := Landing(index, |el.kids|);
    s' := InsertKid(el, i, child, s, ks);
    assert InsertAt(old(Abs(s)).kids, i, Build(node)) == Inserted(old(Abs(s)).kids, index, Build(node));
  }

  lemma KidsDiffer(s: Snapshot)
    requires Apart(s)
    ensures forall i, j :: 0 <= i < j < |s.kids| ==> s.kids[i].tag != s.kids[j].tag
  {
    forall i, j | 0 <= i < j < |s.kids| ensures s.kids[i].tag != s.kids[j].tag {
      OtherBranch(s, i, j);
      assert s.kids[i].tag in Els(s.kids[i]) && s.kids[j].tag in Els(s.kids[j]);
    }
  }

  predicate AllDiffer(kids: seq<Element>) {
    forall i, j :: 0 <= i < j < |kids| ==> kids[i] != kids[j]
  }

  /** `appendChild(before[index])` on children that are `before` in the order `slots`. */
  method AppendAgain(el: Element, index: int, before: seq<Element>, ghost els: seq<Elem>, ghost slots: seq<int>,
                     ghost s: Snapshot)
    returns (ghost s': Snapshot)
    requires s.tag == el && Live(s) && Apart(s)
    requires AllDiffer(before) && |els| == |before|
    requires InRange(slots, |before|) && NoDup(slots) && 0 <= index < |before| && index in slots
    requires InRange(MovedLast(slots, index), |before|)
    requires el.kids == Pick(before, slots) && Abs(s).kids == Pick(els, slots)
    modifies el`kids
    ensures s'.tag == el && Live(s') && Apart(s') && Els(s') <= Els(s)
    ensures el.kids == Pick(before, MovedLast(slots, index))
    ensures Abs(s') == Tree(el.tag, Pick(els, MovedLast(slots, index)))
  {
    assert el.kids[IndexOf(slots, index)] == before[index];
    var at := IndexOf(el.kids, before[index]);
    assert before[slots[at]] == before[index] && slots[at] == index;
    MovedPicks(els, slots, at);
    MovedPicks(before, slots, at);
    ghost var kids := el.kids;
    s' := MoveLast(el, at, s);
    HeadsPick(s.kids, Rotated(|s.kids|, at));
    RotatedPicks(s.kids, at);
    RotatedPicks(kids, at);
  }

  /** Snapshot the children, then append the ones `order` names, one by one. */
  method ReorderKids(el: Element, order: seq<int>, ghost s: Snapshot) returns (ghost s': Snapshot)
    requires s.tag == el && Live(s) && Apart(s)
    modifies el`kids
    ensures s'.tag == el && Live(s') && Apart(s') && Els(s') <= Els(s)
    ensures el.kids == Reordered(old(el.kids), order)
    ensures Abs(s') == React(old(Abs(s)), Reorder(order))
  {
    var before := el.kids;
    var n := |before|;
    ghost var els := Abs(s).kids;
    ghost var slots := Iota(n);
    s' := s;
    KidsDiffer(s);
    assert AllDiffer(before);
    assert Pick(els, slots) == els && Pick(before, slots) == before;
    for k := 0 to |order|
      invariant s'.tag == el && Live(s') && Apart(s') && Els(s') <= Els(s)
      invariant NoDup(slots) && multiset(slots) == multiset(Iota(n)) && InRange(slots, n)
      invariant el.kids == Pick(before, slots) && Abs(s') == Tree(el.tag, Pick(els, slots))
      invariant SlotsFrom(slots, n, order[k..]) == Slots(n, order)
    {
      var index := order[k];
      assert order[k..][0] == index && order[k..][1..] == order[k + 1..];
      if 0 <= index < n {
        SlotsStay(slots, n, index);
        s' := AppendAgain(el, index, before, els, slots, s');
        slots := MovedLast(slots, index);
      }
    }
    assert order[|order|..] == [];
  }

  /** The edited subtree put back in its place. */
  lemma Regrow(h: Snapshot, path: seq<int>, sub: Snapshot, before: Elem, op: Op)
    requires GraftShape(Graft(h, path, sub)) && Live(sub)
    requires LiveBut(h, path, before) && At(before, path).Some?
    requires Abs(sub) == React(At(before, path).value, op)
    ensures var h' := Regrown(Graft(h, path, sub));
            && Live(h') && Apart(h') && h'.tag == h.tag
            && Els(h') <= Els(h) + Els(sub)
            && Rewrite(before, path, Renderer(op)) == Some(Abs(h'))
  {
    var g := Graft(h, path, sub);
    RegrownEls(g);
    RegrownLives(g, before);
    RewriteDepends(before, path, Put(Abs(sub)), Renderer(op));
  }

  method EditAt(el: Element, op: Op, ghost h: Snapshot, ghost path: seq<int>)
    returns (ghost h': Snapshot, ghost sub': Snapshot)
    requires Live(h) && Apart(h) && At(h, path).Some? && At(h, path).value.tag == el && !op.Replace?
    modifies Els(h)
    ensures Live(h') && Apart(h') && h'.tag == h.tag
    ensures forall e :: e in Els(h') ==> e in Els(h) || fresh(e)
    ensures Rewrite(old(Abs(h)), path, Renderer(op)) == Some(Abs(h'))
    ensures Rewrite(h, path, Put(sub')) == Some(h') && sub'.tag == el
    ensures op.Remove? ==> TookOut(At(h, path).value, sub', op.index)
  {
    ghost var sub := At(h, path).value;
    AtEls(h, path);
    AtAbs(h, path);
    RewriteHits(h, path, Put(sub));
    assert old(allocated(Els(h)));
    sub' := EditElement(el, op, sub);
    RewriteHits(h, path, Put(sub'));
    PathStays(Spot(h, path));
    Regrow(h, path, sub', old(Abs(h)), op);
    h' := Regrown(Graft(h, path, sub'));
  }

  /** Empty the element at a path. */
  method ClearAt(el: Element, ghost h: Snapshot, ghost path: seq<int>) returns (ghost h': Snapshot)
    requires Live(h) && Apart(h) && At(h, path).Some? && At(h, path).value.tag == el
    modifies Els(h)
    ensures Live(h') && Apart(h') && h'.tag == h.tag && Els(h') <= Els(h)
    ensures el.tag == old(el.tag)
    ensures Rewrite(old(Abs(h)), path, Put(Tree(el.tag, []))) == Some(Abs(h'))
    ensures Rewrite(h, path, Put(Tree(el, []))) == Some(h')
  {
    ghost var sub := At(h, path).value;
    AtEls(h, path);
    AtAbs(h, path);
    RewriteHits(h, path, Put(sub));
    assert old(allocated(Els(h)));
    ghost var sub' := Clear(el, sub);
    RewriteHits(h, path, Put(sub'));
    PathStays(Spot(h, path));
    ghost var g := Graft(h, path, sub');
    assert el in Els(sub);
    RegrownEls(g);
    RegrownLives(g, old(Abs(h)));
    h' := Regrown(g);
  }

  lemma SwapIsInsert<T>(kids: seq<T>, i: nat, kid: T)
    requires i < |kids|
    ensures Inserted(kids[..i] + kids[i + 1..], i, kid) == kids[i := kid]
  {
  }

  /** `parent.replaceChild(fresh, old)`. */
  method ReplaceKid(el: Element, i: nat, node: Node, ghost s: Snapshot) returns (ghost s': Snapshot, now: Element)
    requires s.tag == el && Live(s) && Apart(s) && i < |el.kids|
    modifies Els(s)
    ensures s'.tag == el && Live(s') && Apart(s') && el.parent == old(el.parent)
    ensures forall e :: e in Els(s') ==> e in Els(s) || fresh(e)
    ensures Abs(s') == Tree(el.tag, old(Abs(s)).kids[i := Build(node)])
    ensures el.tag == old(el.tag) && |s'.kids| == |s.kids| && i < |s.kids|
    ensures s'.kids == s.kids[i := s'.kids[i]] && s'.kids[i].tag == now
  {
    ghost var kids := Abs(s).kids;
    assert el in Els(s) && old(allocated(Els(s)));
    s' := RemoveNth(el, i, s);
    assert |s'.kids| == |Abs(s').kids| == |kids| - 1;
    SwapIsInsert(kids, i, Build(node));
    ghost var ks;
    s', now, ks := InsertBuilt(el, i, node, s');
  }

  lemma {:induction false} ParentOf(h: Snapshot, up: seq<int>, i: int)
    requires Live(h) && At(h, up + [i]).Some?
    ensures At(h, up).Some? && HasKid(At(h, up).value, i)
    ensures At(h, up + [i]).value == At(h, up).value.kids[i]
    ensures At(h, up + [i]).value.tag in Els(h) && At(h, up + [i]).value.tag.parent == At(h, up).value.tag
    decreases |up|
  {
    AtEls(h, up + [i]);
    assert At(h, up + [i]).value.tag in Els(At(h, up + [i]).value);
    if up == [] {
      assert [i][1..] == [];
      KidEls(h, i);
    } else {
      assert (up + [i])[1..] == up[1..] + [i];
      KidEls(h, up[0]);
      ParentOf(h.kids[up[0]], up[1..], i);
    }
  }

  lemma ReplacedWhole(h: Snapshot, up: seq<int>, i: int, sub: Snapshot, before: Elem, node: Node)
    requires GraftShape(Graft(h, up, sub)) && Live(sub)
    requires LiveBut(h, up, before) && At(before, up).Some? && HasKid(At(before, up).value, i)
    requires Abs(sub) == At(before, up).value.(kids := At(before, up).value.kids[i := Build(node)])
    ensures var h' := Regrown(Graft(h, up, sub));
            && Live(h') && Apart(h') && h'.tag == h.tag
            && Els(h') <= Els(h) + Els(sub)
            && Rewrite(before, up + [i], Renderer(Replace(node))) == Some(Abs(h'))
            && At(h', up + [i]) == At(sub, [i])
  {
    var g := Graft(h, up, sub);
    RegrownEls(g);
    RegrownLives(g, before);
    RewriteBelow(before, up, [i], Renderer(Replace(node)));
    assert [i][1..] == [];
    assert Rewrite(At(before, up).value, [i], Renderer(Replace(node))) == Some(Abs(sub));
    RewriteHits(h, up, Put(sub));
    RewriteBelow(Regrown(g), up, [i], Put(sub));
  }

  /** At most the child `i` differs. */
  predicate OneKid(s: Snapshot, s': Snapshot, i: int) {
    |s'.kids| == |s.kids| && forall j :: 0 <= j < |s.kids| && j != i ==> s'.kids[j] == s.kids[j]
  }

  /** Everything beside the branch a path goes down is untouched. */
  predicate Beside(h: Snapshot, h': Snapshot, path: seq<int>) {
    path != [] ==> OneKid(h, h', path[0])
  }

  lemma RewrittenBeside(h: Snapshot, base: seq<int>, path: seq<int>, sub: Snapshot)
    requires base != [] && Rewrite(h, base + path, Put(sub)).Some?
    ensures Beside(h, Rewrite(h, base + path, Put(sub)).value, base)
  {
    assert (base + path)[0] == base[0];
  }

  lemma ReplacedBeside(h: Snapshot, base: seq<int>, path: seq<int>, sub: Snapshot)
    requires base + path != []
    requires var full := base + path; var up := full[..|full| - 1];
             Rewrite(h, up, Put(sub)).Some? && At(h, up).Some? && OneKid(At(h, up).value, sub, full[|full| - 1])
    ensures var full := base + path; Beside(h, Rewrite(h, full[..|full| - 1], Put(sub)).value, base)
  {
    var full := base + path;
    if base != [] && |full| > 1 {
      assert full[..|full| - 1][0] == base[0];
    }
  }

  /** The parent finds the child it replaces among its own. */
  method SwapChild(parent: Element, el: Element, node: Node, ghost s: Snapshot, ghost i: int)
    returns (ghost s': Snapshot, now: Element)
    requires s.tag == parent && Live(s) && Apart(s) && HasKid(s, i) && s.kids[i].tag == el
    modifies Els(s)
    ensures s'.tag == parent && Live(s') && Apart(s') && parent.parent == old(parent.parent)
    ensures forall e :: e in Els(s') ==> e in Els(s) || fresh(e)
    ensures HasKid(old(Abs(s)), i)
    ensures Abs(s') == Tree(old(Abs(s)).tag, old(Abs(s)).kids[i := Build(node)])
    ensures OneKid(s, s', i) && s'.kids[i].tag == now
  {
    KidsDiffer(s);
    assert parent.kids[i] == el;
    var at := IndexOf(parent.kids, el);
    assert at == i;
    s', now := ReplaceKid(parent, at, node, s);
  }

  /** Swap the element at `path + [i]` for a fresh one, through its parent. */
  method ReplaceAt(el: Element, node: Node, ghost h: Snapshot, ghost path: seq<int>)
    returns (ghost h': Snapshot, now: Element, ghost sub': Snapshot)
    requires Live(h) && Apart(h) && path != [] && At(h, path).Some? && At(h, path).value.tag == el
    modifies Els(h)
    ensures Live(h') && Apart(h') && h'.tag == h.tag
    ensures forall e :: e in Els(h') ==> e in Els(h) || fresh(e)
    ensures Rewrite(old(Abs(h)), path, Renderer(Replace(node))) == Some(Abs(h'))
    ensures At(h', path).Some? && At(h', path).value.tag == now
    ensures var up := path[..|path| - 1];
            && Rewrite(h, up, Put(sub')) == Some(h') && At(h, up).Some?
            && sub'.tag == At(h, up).value.tag
            && OneKid(At(h, up).value, sub', path[|path| - 1])
  {
    ghost var last := |path| - 1;
    ghost var up, i := path[..last], path[last];
    assert up + [i] == path;
    ParentOf(h, up, i);
    ghost var sub := At(h, up).value;
    AtEls(h, up);
    AtAbs(h, up);
    assert old(allocated(Els(h)));
    sub', now := SwapChild(el.parent, el, node, sub, i);
    RewriteHits(h, up, Put(sub'));
    PathStays(Spot(h, up));
    ReplacedWhole(h, up, i, sub', old(Abs(h)), node);
    h' := Regrown(Graft(h, up, sub'));
  }

  /** The same below the tree `root` that hangs at `base`; at its own path it is itself
      swapped. */
  method ReplaceBelow(root: Element, el: Element, node: Node, ghost h: Snapshot, ghost base: seq<int>, path: seq<int>)
    returns (ghost h': Snapshot, now: Element)
    requires Live(h) && Apart(h) && base + path != []
    requires At(h, base).Some? && At(h, base).value.tag == root
    requires At(h, base + path).Some? && At(h, base + path).value.tag == el
    modifies Els(h)
    ensures Live(h') && Apart(h') && h'.tag == h.tag
    ensures forall e :: e in Els(h') ==> e in Els(h) || fresh(e)
    ensures Rewrite(old(Abs(h)), base + path, Renderer(Replace(node))) == Some(Abs(h'))
    ensures At(h', base).Some? && At(h', base).value.tag == now
    ensures Beside(h, h', base)
    ensures path != [] ==> now == root
  {
    ghost var sub;
    h', now, sub := ReplaceAt(el, node, h, base + path);
    ReplacedBeside(h, base, path, sub);
    if path == [] {
      assert base + path == base;
    } else {
      now := root;
      assert (base + path)[..|base + path| - 1] == base + path[..|path| - 1];
      KeepsAbove(h, base, path[..|path| - 1], sub);
    }
  }

  /** What a path means below the tree that hangs at `base`. */
  lemma Aimed(h: Snapshot, base: seq<int>, path: seq<int>, op: Op)
    requires Live(h) && At(h, base).Some? && At(Abs(h), base).Some?
    ensures var s, t := At(h, base).value, At(Abs(h), base).value;
            && Els(s) <= Els(h)
            && Live(s)
            && At(h, base + path) == At(s, path)
            && (At(s, path).Some? <==> Rewrite(t, path, Renderer(op)).Some?)
            && (At(s, path).Some? ==>
                  Rewrite(Abs(h), base + path, Renderer(op))
                    == Rewrite(Abs(h), base, Put(Rewrite(t, path, Renderer(op)).value)))
  {
    var s := At(h, base).value;
    AtEls(h, base);
    AtAbs(h, base);
    AtAbs(s, path);
    RewriteBelow(h, base, path, Put(s));
    RewriteBelow(Abs(h), base, path, Renderer(op));
    RewriteHits(Abs(s), path, Renderer(op));
  }

  /** One patch on the tree that hangs at `base` below `h`: classify it, walk to its
      target, edit there. Only a root replacement needs a parent to act through. */
  method ApplyPatch(root: Element, w: Wire, ghost h: Snapshot, ghost base: seq<int>)
    returns (ok: bool, now: Element, ghost h': Snapshot)
    requires Live(h) && Apart(h) && At(h, base).Some? && At(h, base).value.tag == root
    requires base == [] ==> !IsRootReplace(w)
    requires At(Abs(h), base).Some?
    modifies Els(h)
    ensures Live(h') && Apart(h') && h'.tag == h.tag
    ensures forall e :: e in Els(h') ==> e in Els(h) || fresh(e)
    ensures At(h', base).Some? && At(h', base).value.tag == now
    ensures Beside(h, h', base)
    ensures !IsRootReplace(w) ==> now == root
    ensures var r := Apply(Renderer, old(At(Abs(h), base)).value, w);
            && (ok <==> r.Some?)
            && (ok ==> Rewrite(old(Abs(h)), base, Put(r.value)) == Some(Abs(h')))
            && (!ok ==> h' == h && Abs(h) == old(Abs(h)))
    ensures ok && Classify(w).value.Remove? ==>
              && At(h, base + w.path).Some? && At(h', base + w.path).Some?
              && TookOut(At(h, base + w.path).value, At(h', base + w.path).value, Classify(w).value.index)
  {
    now := root;
    h' := h;
    ok := false;
    var op := Classify(w);
    if op.Some? {
      ghost var full := base + w.path;
      ghost var s := At(h, base).value;
      Aimed(h, base, w.path, op.value);
      assert old(allocated(Els(h)));
      var target := ResolvePath(root, w.path, s);
      if target.Some? {
        ok := true;
        if op.value.Replace? {
          RootReplaceAgrees(w);
          h', now := ReplaceBelow(root, target.value, op.value.node, h, base, w.path);
        } else {
          ghost var sub;
          h', sub := EditAt(target.value, op.value, h, full);
          RewriteHits(h, full, Put(sub));
          if base != [] { RewrittenBeside(h, base, w.path, sub); }
          KeepsAbove(h, base, w.path, sub);
        }
      }
    }
  }

  /** A tree batch, stopping at the first patch that fails. A root replacement swaps
      the mounted element, and the caller's reference follows it. */
  method ApplyTreePatches(tree: Element, ws: seq<Wire>, ghost h: Snapshot, ghost base: seq<int>)
    returns (current: Element, applied: nat, ghost h': Snapshot)
    requires Live(h) && Apart(h) && base != [] && At(h, base).Some? && At(h, base).value.tag == tree
    requires At(Abs(h), base).Some?
    modifies Els(h)
    ensures Live(h') && Apart(h') && h'.tag == h.tag
    ensures forall e :: e in Els(h') ==> e in Els(h) || fresh(e)
    ensures At(h', base).Some? && At(h', base).value.tag == current
    ensures Beside(h, h', base)
    ensures (forall i :: 0 <= i < |ws| ==> !IsRootReplace(ws[i])) ==> current == tree
    ensures var t := old(At(Abs(h), base)).value;
            var r := Batch(Renderer, t, ws);
            && applied == r.applied
            && Rewrite(old(Abs(h)), base, Put(r.tree)) == Some(Abs(h'))
            && (WellDrawn(t) && Followable(Erase(t), ws) ==>
                  && WellDrawn(r.tree)
                  && Outcome(Erase(r.tree), applied) == Batch(Editor, Erase(t), ws))
  {
    current := tree;
    applied := 0;
    h' := h;
    ghost var e0 := Abs(h);
    ghost var t := At(e0, base).value;
    ghost var now := t;
    PutSame(e0, base);
    while applied < |ws|
      invariant applied <= |ws|
      invariant Live(h') && Apart(h') && h'.tag == h.tag
      invariant forall e :: e in Els(h') ==> e in Els(h) || fresh(e)
      invariant At(h', base).Some? && At(h', base).value.tag == current
      invariant Beside(h, h', base)
      invariant (forall i :: 0 <= i < |ws| ==> !IsRootReplace(ws[i])) ==> current == tree
      invariant Rewrite(e0, base, Put(now)) == Some(Abs(h'))
      invariant Batch(Renderer, t, ws) == var rest := Batch(Renderer, now, ws[applied..]);
                                          Outcome(rest.tree, applied + rest.applied)
    {
      assert ws[applied..][0] == ws[applied] && ws[applied..][1..] == ws[applied + 1..];
      RewriteHits(e0, base, Put(now));
      var ok;
      ok, current, h' := ApplyPatch(current, ws[applied], h', base);
      if !ok {
        break;
      }
      ghost var next := Apply(Renderer, now, ws[applied]).value;
      PutTwice(e0, base, now, next);
      now := next;
      applied := applied + 1;
    }
    if applied == |ws| {
      assert ws[applied..] == [];
    }
    if WellDrawn(t) && Followable(Erase(t), ws) {
      BatchRefines(t, ws);
    }
  }

  lemma ReplaceThenRest(t: Elem, ws: seq<Wire>)
    requires ws != [] && IsRootReplace(ws[0])
    ensures Classify(ws[0]).Some? && Classify(ws[0]).value.Replace?
    ensures var rest := Batch(Renderer, Build(Classify(ws[0]).value.node), ws[1..]);
            Batch(Renderer, t, ws) == Outcome(rest.tree, rest.applied + 1)
  {
    RootReplaceAgrees(ws[0]);
    assert Apply(Renderer, t, ws[0]) == Some(Build(Classify(ws[0]).value.node));
  }

  lemma KidAt(s: Snapshot, i: nat)
    requires Live(s) && i < |s.kids|
    ensures At(s, [i]) == Some(s.kids[i]) && At(Abs(s), [i]) == Some(Abs(s).kids[i])
  {
    assert [i][1..] == [];
  }

  lemma PutKid<L>(t: Tree<L>, i: nat, u: Tree<L>)
    requires i < |t.kids|
    ensures Rewrite(t, [i], Put(u)) == Some(t.(kids := t.kids[i := u]))
  {
    assert [i][1..] == [];
  }

  /** A tree batch on the host's child `k`. */
  method ApplyToKid(tree: Element, ws: seq<Wire>, ghost h: Snapshot, ghost k: nat)
    returns (current: Element, applied: nat, ghost h': Snapshot)
    requires Live(h) && Apart(h) && k < |h.kids| && h.kids[k].tag == tree
    modifies Els(h)
    ensures Live(h') && Apart(h') && h'.tag == h.tag
    ensures forall e :: e in Els(h') ==> e in Els(h) || fresh(e)
    ensures OneKid(h, h', k) && h'.kids[k].tag == current
    ensures (forall i :: 0 <= i < |ws| ==> !IsRootReplace(ws[i])) ==> current == tree
    ensures applied == Batch(Renderer, old(Abs(h)).kids[k], ws).applied
    ensures var r := Batch(Renderer, old(Abs(h)).kids[k], ws);
            Abs(h') == Tree(old(Abs(h)).tag, old(Abs(h)).kids[k := r.tree])
  {
    ghost var was, base := Abs(h), [k as int];
    KidAt(h, k);
    current, applied, h' := ApplyTreePatches(tree, ws, h, base);
    PutKid(was, k, Batch(Renderer, was.kids[k], ws).tree);
    KidAt(h', k);
  }

  /** Build a node and put it first into the host. */
  method PlaceFirst(node: Node, host: Element, ghost m: Snapshot) returns (ghost m': Snapshot, current: Element)
    requires m.tag == host && Live(m) && Apart(m)
    modifies host`kids
    ensures m'.tag == host && Live(m') && Apart(m')
    ensures forall e :: e in Els(m') ==> e in Els(m) || fresh(e)
    ensures m'.kids != [] && m'.kids[0].tag == current
    ensures Abs(m') == Tree(host.tag, [Build(node)] + old(Abs(m)).kids)
  {
    ghost var ks;
    m', current, ks := InsertBuilt(host, 0, node, m);
    assert Inserted(old(Abs(m)).kids, 0, Build(node)) == [Build(node)] + old(Abs(m)).kids;
  }

  /** What follows a root replacement on a root without a parent: the fresh element becomes
      the host's first child and takes the rest of the batch. */
  method ApplyPlacing(node: Node, ws: seq<Wire>, host: Element, ghost m: Snapshot)
    returns (current: Element, applied: nat, ghost m': Snapshot)
    requires m.tag == host && Live(m) && Apart(m)
    modifies Els(m)
    ensures m'.tag == host && Live(m') && Apart(m')
    ensures m'.kids != [] && m'.kids[0].tag == current
    ensures applied == Batch(Renderer, Build(node), ws).applied
    ensures Abs(m') == Tree(old(host.tag), [Batch(Renderer, Build(node), ws).tree] + old(Abs(m)).kids)
  {
    ghost var kids := Abs(m).kids;
    assert host in Els(m) && old(allocated(Els(m)));
    m', current := PlaceFirst(node, host, m);
    ghost var r := Batch(Renderer, Build(node), ws);
    assert Abs(m').kids[0] == Build(node);
    assert ([Build(node)] + kids)[0 := r.tree] == [r.tree] + kids;
    current, applied, m' := ApplyToKid(current, ws, m', 0);
  }

  predicate PlacesRoot(ws: seq<Wire>) {
    exists k :: 0 <= k < |ws| && IsRootReplace(ws[k])
  }

  /** The batch `ws` on `t` has come to its patch `n` with the tree `now`. */
  ghost predicate Reached(t: Elem, ws: seq<Wire>, n: nat, now: Elem) {
    && n <= |ws|
    && !PlacesRoot(ws[..n])
    && Batch(Renderer, t, ws) == var rest := Batch(Renderer, now, ws[n..]); Outcome(rest.tree, n + rest.applied)
  }

  lemma ReachesNext(t: Elem, ws: seq<Wire>, n: nat, now: Elem)
    requires Reached(t, ws, n, now) && n < |ws| && !IsRootReplace(ws[n])
    ensures var next := Apply(Renderer, now, ws[n]);
            if next.Some? then Reached(t, ws, n + 1, next.value) else Batch(Renderer, t, ws) == Outcome(now, n)
  {
    BatchStep(now, ws, n);
    StillUnplaced(ws, n);
  }

  lemma BatchStep(now: Elem, ws: seq<Wire>, n: nat)
    requires n < |ws|
    ensures Batch(Renderer, now, ws[n..])
            == match Apply(Renderer, now, ws[n])
               case None => Outcome(now, 0)
               case Some(next) => var rest := Batch(Renderer, next, ws[n + 1..]); Outcome(rest.tree, 1 + rest.applied)
  {
    assert ws[n..][0] == ws[n] && ws[n..][1..] == ws[n + 1..];
  }

  lemma StillUnplaced(ws: seq<Wire>, n: nat)
    requires n < |ws| && !PlacesRoot(ws[..n]) && !IsRootReplace(ws[n])
    ensures !PlacesRoot(ws[..n + 1])
  {
    assert ws[..n + 1] == ws[..n] + [ws[n]];
  }

  /** A patch other than a root replacement, on a root that need not have a parent. */
  method ApplyHere(root: Element, w: Wire, ghost h: Snapshot) returns (ok: bool, ghost h': Snapshot)
    requires h.tag == root && Live(h) && Apart(h) && !IsRootReplace(w)
    modifies Els(h)
    ensures h'.tag == root && Live(h') && Apart(h')
    ensures forall e :: e in Els(h') ==> e in Els(h) || fresh(e)
    ensures ok <==> Apply(Renderer, old(Abs(h)), w).Some?
    ensures Abs(h') == if ok then Apply(Renderer, old(Abs(h)), w).value else old(Abs(h))
  {
    var same;
    ok, same, h' := ApplyPatch(root, w, h, []);
  }

  /** The patches a root without a parent takes in place: up to a root replacement, a
      failure or the end of the batch. */
  method ApplyInPlace(tree: Element, ws: seq<Wire>, ghost h: Snapshot)
    returns (applied: nat, done: bool, ghost h': Snapshot)
    requires h.tag == tree && Live(h) && Apart(h)
    modifies Els(h)
    ensures h'.tag == tree && Live(h') && Apart(h')
    ensures Reached(old(Abs(h)), ws, applied, Abs(h'))
    ensures !done ==> applied < |ws| && IsRootReplace(ws[applied])
    ensures done ==> Batch(Renderer, old(Abs(h)), ws) == Outcome(Abs(h'), applied)
  {
    applied, done, h' := 0, false, h;
    ghost var t := Abs(h);
    assert ws[0..] == ws;
    while applied < |ws| && !IsRootReplace(ws[applied])
      invariant h'.tag == tree && Live(h') && Apart(h')
      invariant forall e :: e in Els(h') ==> e in Els(h) || fresh(e)
      invariant Reached(t, ws, applied, Abs(h'))
    {
      ReachesNext(t, ws, applied, Abs(h'));
      var ok;
      ok, h' := ApplyHere(tree, ws[applied], h');
      if !ok {
        return applied, true, h';
      }
      applied := applied + 1;
    }
    if applied == |ws| {
      done := true;
      assert ws[applied..] == [];
    }
  }

  /** A tree batch on a root that hangs nowhere. Patches edit it in place until a root
      replacement, whose fresh element goes first into the mount host. */
  method ApplyUnmounted(tree: Element, ws: seq<Wire>, host: Element, ghost h: Snapshot, ghost m: Snapshot)
    returns (current: Element, applied: nat, ghost h': Snapshot, ghost m': Snapshot)
    requires h.tag == tree && Live(h) && Apart(h)
    requires m.tag == host && Live(m) && Apart(m) && Els(h) !! Els(m)
    modifies Els(h), Els(m)
    ensures applied == Batch(Renderer, old(Abs(h)), ws).applied
    ensures m'.tag == host && Live(m') && Apart(m')
    ensures var r := Batch(Renderer, old(Abs(h)), ws);
            if PlacesRoot(ws[..applied])
            then m'.kids != [] && m'.kids[0].tag == current
                 && Abs(m') == Tree(old(host.tag), [r.tree] + old(Abs(m)).kids)
            else h'.tag == current == tree && Live(h') && Apart(h') && Abs(h') == r.tree
                 && m' == m && Abs(m) == old(Abs(m))
  {
    current, m' := tree, m;
    assert host in Els(m) && old(allocated(Els(m)));
    var done;
    applied, done, h' := ApplyInPlace(tree, ws, h);
    assert Live(m) && Abs(m) == old(Abs(m)) && host.tag == old(host.tag);
    if !done {
      ghost var before := applied;
      var rest := ws[applied..];
      ReplaceThenRest(Abs(h'), rest);
      var more;
      current, more, m' := ApplyPlacing(Classify(rest[0]).value.node, rest[1..], host, m);
      applied := applied + 1 + more;
      assert IsRootReplace(ws[..applied][before]);
    }
  }
}
