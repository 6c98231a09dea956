/**
 The element tree the renderer keeps, and why it stays the abstract tree: erasing
 the parts the renderer owns turns every patch on elements into the same patch on
 nodes.
 */
module Render {
  import opened Common
  import opened Tree
  import opened ChildList
  import opened Patches
  import opened Parts

  // ---- What the renderer does ---------------------------------------------------

  /** Build an element from a node: shape it, then append its built children. */
  ghost function Build(n: Node): (e: Elem)
    ensures e.tag == Widget(n.tag)
  {
    Tree(Widget(n.tag),
         Paint(n.tag.kind, [], n.tag.props) + seq(|n.kids|, i requires 0 <= i < |n.kids| => Build(n.kids[i])))
  }

  /** One pass of props. A part has no widget type: only text reaches it. */
  ghost function Pass(e: Elem, props: Props): (r: Elem)
    ensures r.tag.Widget? == e.tag.Widget?
  {
    match e.tag
    case Widget(shape) =>
      var told := Told(shape.kind, shape.props, props);
      Tree(Widget(shape.(props := shape.props + props)), Paint(shape.kind, e.kids, told))
    case Part(_) =>
      if Content in props then e.(kids := []) else e
  }

  ghost function Passed(e: Elem, props: Option<Props>): (r: Elem)
    ensures r.tag.Widget? == e.tag.Widget?
  {
    if props.Some? then Pass(e, props.value) else e
  }

  function Nulls(unset: set<Prop>): Props {
    map k | k in unset :: Null
  }

  /** The effect of an op on the element its path reaches. An unset prop is applied
      as null, in a second pass, and only when there is one. */
  ghost function React(e: Elem, op: Op): Elem {
    match op
    case Update(assign, unset) =>
      Passed(Passed(e, assign), if unset == {} then None else Some(Nulls(unset)))
    case Insert(index, node) => e.(kids := Inserted(e.kids, index, Build(node)))
    case Remove(index) => e.(kids := Removed(e.kids, index))
    case Reorder(order) => e.(kids := Reordered(e.kids, order))
    case Replace(node) => Build(node)
  }

  ghost function Renderer(op: Op): Elem -> Elem {
    (e: Elem) => React(e, op)
  }

  // ---- Erasing what the renderer owns ---------------------------------------------

  /** An element read back as a node. Its tag keeps the props it was given, which a real
      element holds only as attributes and listeners: what the renderer has to get right,
      and what erasing checks, is which children stand where. */
  function Erase(e: Elem): Node
    requires e.tag.Widget?
    decreases e, 1
  {
    Tree(e.tag.shape.(props := Clean(e.tag.shape.props)), EraseAll(e.kids))
  }

  function EraseAll(kids: seq<Elem>): seq<Node>
    decreases kids, 0
  {
    if kids == [] then []
    else (if kids[0].tag.Widget? then [Erase(kids[0])] else []) + EraseAll(kids[1..])
  }

  predicate AllParts(kids: seq<Elem>) {
    forall i :: 0 <= i < |kids| ==> kids[i].tag.Part?
  }

  predicate AllWidgets(kids: seq<Elem>) {
    forall i :: 0 <= i < |kids| ==> kids[i].tag.Widget?
  }

  /** Parts live only inside the widgets the renderer draws, and nothing else does. */
  predicate WellDrawn(e: Elem) {
    && e.tag.Widget?
    && if Drawn(e.tag.shape.kind) then AllParts(e.kids)
       else forall i :: 0 <= i < |e.kids| ==> WellDrawn(e.kids[i])
  }

  /** The widgets the renderer draws are leaves of the abstract tree. */
  predicate Leafy(n: Node) {
    if Drawn(n.tag.kind) then n.kids == []
    else forall i :: 0 <= i < |n.kids| ==> Leafy(n.kids[i])
  }

  lemma {:induction false} EraseConcat(a: seq<Elem>, b: seq<Elem>)
    ensures EraseAll(a + b) == EraseAll(a) + EraseAll(b)
  {
    if a == [] {
      assert a + b == b;
    } else {
      EraseConcat(a[1..], b);
      assert (a + b)[1..] == a[1..] + b && (a + b)[0] == a[0];
      EraseHead(a + b);
      EraseHead(a);
      assert EraseAll(a + b) == EraseAll(a[..1]) + (EraseAll(a[1..]) + EraseAll(b));
    }
  }

  lemma EraseHead(kids: seq<Elem>)
    requires kids != []
    ensures EraseAll(kids) == EraseAll(kids[..1]) + EraseAll(kids[1..])
  {
    assert kids[..1][0] == kids[0] && kids[..1][1..] == [];
  }

  lemma {:induction false} EraseParts(kids: seq<Elem>)
    requires AllParts(kids)
    ensures EraseAll(kids) == []
  {
    if kids != [] {
      EraseParts(kids[1..]);
    }
  }

  lemma {:induction false} EraseWidgets(kids: seq<Elem>)
    requires AllWidgets(kids)
    ensures |EraseAll(kids)| == |kids|
    ensures forall i :: 0 <= i < |kids| ==> EraseAll(kids)[i] == Erase(kids[i])
  {
    if kids != [] {
      EraseWidgets(kids[1..]);
    }
  }

  lemma EnsureKeepsParts(kids: seq<Elem>, name: PartName)
    requires AllParts(kids)
    ensures AllParts(EnsureFront(kids, name)) && AllParts(EnsureBack(kids, name)) && AllParts(Dropped(kids, name))
  {
  }

  lemma InsertKeepsParts(kids: seq<Elem>, i: nat, name: PartName)
    requires AllParts(kids) && i <= |kids|
    ensures AllParts(InsertAt(kids, i, PartEl(name)))
  {
  }

  lemma SetKeepsParts(kids: seq<Elem>, wanted: Option<bool>, part: PartName, anchor: PartName)
    requires AllParts(kids)
    ensures AllParts(SetPart(kids, wanted, part, anchor))
  {
    if wanted == Some(false) {
      EnsureKeepsParts(kids, part);
    } else if wanted == Some(true) {
      InsertKeepsParts(kids, Find(kids, anchor), part);
    }
  }

  lemma IconsKeepParts(kids: seq<Elem>, props: Props, control: PartName)
    requires AllParts(kids)
    ensures AllParts(SetIcons(kids, props, control))
  {
    SetKeepsParts(kids, Wanted(props, LeadingIcon), Leading, control);
    var led := SetPart(kids, Wanted(props, LeadingIcon), Leading, control);
    SetKeepsParts(led, Wanted(props, TrailingIcon), Trailing, Reveal);
  }

  lemma ChevronKeepsParts(kids: seq<Elem>)
    requires AllParts(kids)
    ensures AllParts(SetChevron(kids))
  {
  }

  lemma PaintKeepsParts(kind: Kind, kids: seq<Elem>, props: Props)
    requires Drawn(kind) && AllParts(kids)
    ensures AllParts(Paint(kind, kids, props))
  {
    var k := if Blanks(kind, props) then [] else kids;
    if IsField(kind) {
      FieldKeepsParts(kind, k, props);
    } else if Redraws(kind) {
      DropAllParts(k);
    } else {
      FixedKeepsParts(kind, k, props);
    }
  }

  lemma FieldKeepsParts(kind: Kind, k: seq<Elem>, props: Props)
    requires IsField(kind) && AllParts(k)
    ensures AllParts(PaintField(kind, k, props))
  {
    if kind.Input? {
      EnsureKeepsParts(k, InputControl);
      EnsureKeepsParts(EnsureFront(k, InputControl), Reveal);
      IconsKeepParts(SetReveal(EnsureFront(k, InputControl), props), props, InputControl);
    } else if kind.Dropdown? {
      EnsureKeepsParts(k, SelectControl);
      IconsKeepParts(EnsureFront(k, SelectControl), props, SelectControl);
      ChevronKeepsParts(SetIcons(EnsureFront(k, SelectControl), props, SelectControl));
    } else {
      EnsureKeepsParts(k, InputControl);
      EnsureKeepsParts(EnsureFront(k, InputControl), DataList);
      IconsKeepParts(EnsureBack(EnsureFront(k, InputControl), DataList), props, InputControl);
    }
  }

  lemma FixedKeepsParts(kind: Kind, kids: seq<Elem>, props: Props)
    requires AllParts(kids)
    ensures AllParts(PaintFixed(kind, kids, props))
  {
    OneKeepsParts(kids);
    EnsureKeepsParts(EnsureBack(kids, LowThumb), HighThumb);
  }

  lemma OneKeepsParts(kids: seq<Elem>)
    requires AllParts(kids)
    ensures forall name :: AllParts(EnsureFront(kids, name)) && AllParts(EnsureBack(kids, name))
  {
    forall name ensures AllParts(EnsureFront(kids, name)) && AllParts(EnsureBack(kids, name)) {
      EnsureKeepsParts(kids, name);
    }
  }

  lemma {:induction false} DropAllParts(kids: seq<Elem>)
    requires AllParts(kids)
    ensures AllParts(DropAll(kids, MenuItem))
  {
    if kids != [] {
      DropAllParts(kids[1..]);
    }
  }

  lemma FirstPaint(kind: Kind, props: Props)
    ensures AllParts(Paint(kind, [], props))
    ensures !Drawn(kind) ==> Paint(kind, [], props) == []
  {
    if Drawn(kind) {
      PaintKeepsParts(kind, [], props);
    }
  }

  /** Parts around widgets erase away. */
  lemma EraseAround(front: seq<Elem>, widgets: seq<Elem>, back: seq<Elem>)
    requires AllParts(front) && AllWidgets(widgets) && AllParts(back)
    ensures EraseAll(front + (widgets + back)) == EraseAll(widgets)
  {
    EraseConcat(front, widgets + back);
    EraseConcat(widgets, back);
    EraseParts(front);
    EraseParts(back);
  }

  lemma {:induction false} BuildErases(n: Node)
    ensures Erase(Build(n)) == Scrub(n)
  {
    var painted := Paint(n.tag.kind, [], n.tag.props);
    var built := seq(|n.kids|, i requires 0 <= i < |n.kids| => Build(n.kids[i]));
    forall i | 0 <= i < |n.kids| ensures Erase(Build(n.kids[i])) == Scrub(n.kids[i]) {
      BuildErases(n.kids[i]);
    }
    FirstPaint(n.tag.kind, n.tag.props);
    assert built + [] == built;
    EraseAround(painted, built, []);
    EraseWidgets(built);
    assert Erase(Build(n)).kids == Scrub(n).kids;
  }

  lemma {:induction false} BuildIsDrawn(n: Node)
    requires Leafy(n)
    ensures WellDrawn(Build(n))
  {
    FirstPaint(n.tag.kind, n.tag.props);
    if !Drawn(n.tag.kind) {
      forall i | 0 <= i < |n.kids| ensures WellDrawn(Build(n.kids[i])) {
        BuildIsDrawn(n.kids[i]);
      }
    }
  }

  /** A built element erases to the node it was built from. */
  lemma EraseBuild(n: Node)
    ensures Erase(Build(n)) == Scrub(n)
    ensures Leafy(n) ==> WellDrawn(Build(n))
  {
    BuildErases(n);
    if Leafy(n) {
      BuildIsDrawn(n);
    }
  }

  // ---- One op at one element --------------------------------------------------------

  predicate BlankingUpdate(kind: Kind, op: Op) {
    op.Update? && (Blanks(kind, OrNone(op.assign)) || Blanks(kind, Nulls(op.unset)))
  }

  lemma WellDrawnKids(e: Elem)
    requires WellDrawn(e)
    ensures Drawn(e.tag.shape.kind) ==> AllParts(e.kids) && EraseAll(e.kids) == []
    ensures !Drawn(e.tag.shape.kind) ==>
              && AllWidgets(e.kids)
              && |EraseAll(e.kids)| == |e.kids|
              && forall i :: 0 <= i < |e.kids| ==> EraseAll(e.kids)[i] == Erase(e.kids[i])
  {
    if Drawn(e.tag.shape.kind) {
      EraseParts(e.kids);
    } else {
      EraseWidgets(e.kids);
    }
  }

  lemma PaintPlain(kind: Kind, kids: seq<Elem>, props: Props)
    requires !Drawn(kind)
    ensures Paint(kind, kids, props) == if Blanks(kind, props) then [] else kids
  {
  }

  /** A pass whose painted children are parts of a drawn widget, or those of a
      plain one, left alone or wiped. */
  lemma PassErasesTo(e: Elem, shape: Shape, painted: seq<Elem>, wiped: bool)
    requires WellDrawn(e) && shape.kind == e.tag.shape.kind
    requires if Drawn(shape.kind) then AllParts(painted) else painted == if wiped then [] else e.kids
    ensures var r := Tree(Widget(shape), painted);
            && WellDrawn(r)
            && Erase(r).tag == shape.(props := Clean(shape.props))
            && Erase(r).kids == (if wiped then [] else EraseAll(e.kids))
  {
    if Drawn(shape.kind) {
      EraseParts(e.kids);
      EraseParts(painted);
    }
  }

  function OrNone(props: Option<Props>): Props {
    if props.Some? then props.value else map[]
  }

  lemma PassErases(e: Elem, props: Option<Props>)
    requires WellDrawn(e)
    ensures var r := Passed(e, props);
            && WellDrawn(r)
            && r.tag == Widget(e.tag.shape.(props := e.tag.shape.props + OrNone(props)))
            && Erase(r).tag == r.tag.shape.(props := Clean(r.tag.shape.props))
            && Erase(r).kids == (if Blanks(e.tag.shape.kind, OrNone(props)) then [] else EraseAll(e.kids))
  {
    var shape := e.tag.shape;
    assert shape.props + map[] == shape.props;
    if props.Some? {
      var told := Told(shape.kind, shape.props, props.value);
      var painted := Paint(shape.kind, e.kids, told);
      if Drawn(shape.kind) {
        PaintKeepsParts(shape.kind, e.kids, told);
      } else {
        PaintPlain(shape.kind, e.kids, told);
      }
      PassErasesTo(e, shape.(props := shape.props + props.value), painted, Blanks(shape.kind, props.value));
    }
  }

  lemma CleanTwice(p: Props, q: Props)
    ensures Clean(Clean(p) + q) == Clean(p + q)
  {
  }

  lemma NullsDrop(p: Props, unset: set<Prop>)
    ensures Clean(p + Nulls(unset)) == Clean(p) - unset
  {
  }

  lemma MergeIsNulls(p: Props, assign: Option<Props>, unset: set<Prop>)
    ensures Clean(p + OrNone(assign) + Nulls(unset)) == Merged(Clean(p), assign, unset)
  {
    assert p + map[] == p && Clean(p) + map[] == Clean(p);
    CleanTwice(p, OrNone(assign));
    NullsDrop(p + OrNone(assign), unset);
  }

  /** An update on an element is the update on its node, except that text written
      over a container's children removes them. */
  lemma UpdateRefines(e: Elem, op: Op)
    requires WellDrawn(e) && op.Update?
    ensures WellDrawn(React(e, op))
    ensures Erase(React(e, op)).tag == Edit(Erase(e), op).tag
    ensures Erase(React(e, op)).kids == (if BlankingUpdate(e.tag.shape.kind, op) then [] else Edit(Erase(e), op).kids)
  {
    var nulls := if op.unset == {} then None else Some(Nulls(op.unset));
    assert OrNone(nulls) == Nulls(op.unset);
    MergeIsNulls(e.tag.shape.props, op.assign, op.unset);
    PassErases(e, op.assign);
    PassErases(Passed(e, op.assign), nulls);
  }

  /** Widgets, and the nodes they erase to. */
  predicate ErasesTo(kids: seq<Elem>, ns: seq<Node>) {
    |kids| == |ns| && forall i :: 0 <= i < |kids| ==> kids[i].tag.Widget? && Erase(kids[i]) == ns[i]
  }

  lemma ErasedList(kids: seq<Elem>, ns: seq<Node>)
    requires ErasesTo(kids, ns)
    ensures EraseAll(kids) == ns
  {
    EraseWidgets(kids);
  }

  lemma InsertErases(kids: seq<Elem>, ns: seq<Node>, index: int, e: Elem, n: Node)
    requires ErasesTo(kids, ns) && e.tag.Widget? && Erase(e) == n
    ensures ErasesTo(Inserted(kids, index, e), Inserted(ns, index, n))
  {
    var at := InsertedAt(kids, index, e);
    var _ := InsertedAt(ns, index, n);
  }

  lemma InsertRefinesPlain(e: Elem, index: int, node: Node)
    requires WellDrawn(e) && !Drawn(e.tag.shape.kind)
    ensures EraseAll(Inserted(e.kids, index, Build(node))) == Inserted(EraseAll(e.kids), index, Scrub(node))
  {
    WellDrawnKids(e);
    EraseBuild(node);
    InsertErases(e.kids, EraseAll(e.kids), index, Build(node), Scrub(node));
    ErasedList(Inserted(e.kids, index, Build(node)), Inserted(EraseAll(e.kids), index, Scrub(node)));
  }

  lemma InsertRefinesDrawn(e: Elem, index: int, node: Node)
    requires WellDrawn(e) && Drawn(e.tag.shape.kind)
    ensures EraseAll(Inserted(e.kids, index, Build(node))) == Inserted(EraseAll(e.kids), index, Scrub(node))
  {
    WellDrawnKids(e);
    EraseBuild(node);
    EraseParts(e.kids);
    InsertAmongParts(e.kids, index, Build(node));
  }

  lemma InsertAmongParts(parts: seq<Elem>, index: int, e: Elem)
    requires AllParts(parts) && e.tag.Widget?
    ensures EraseAll(Inserted(parts, index, e)) == [Erase(e)]
  {
    var i := if 0 <= index < |parts| then index else |parts|;
    assert Inserted(parts, index, e) == parts[..i] + ([e] + parts[i..]);
    EraseAround(parts[..i], [e], parts[i..]);
    EraseWidgets([e]);
  }

  lemma InsertRefines(e: Elem, op: Op)
    requires WellDrawn(e) && op.Insert?
    ensures Erase(React(e, op)) == Edit(Erase(e), op)
  {
    if Drawn(e.tag.shape.kind) {
      InsertRefinesDrawn(e, op.index, op.node);
    } else {
      InsertRefinesPlain(e, op.index, op.node);
    }
  }

  lemma RemoveErases(kids: seq<Elem>, ns: seq<Node>, index: int)
    requires ErasesTo(kids, ns)
    ensures ErasesTo(Removed(kids, index), Removed(ns, index))
  {
  }

  lemma RemoveRefines(e: Elem, op: Op)
    requires WellDrawn(e) && op.Remove?
    ensures Erase(React(e, op)) == Edit(Erase(e), op)
  {
    WellDrawnKids(e);
    if Drawn(e.tag.shape.kind) {
      EraseParts(Removed(e.kids, op.index));
    } else {
      RemoveErases(e.kids, EraseAll(e.kids), op.index);
      ErasedList(Removed(e.kids, op.index), Removed(EraseAll(e.kids), op.index));
    }
  }

  lemma ReorderErases(kids: seq<Elem>, ns: seq<Node>, order: seq<int>)
    requires ErasesTo(kids, ns)
    ensures ErasesTo(Reordered(kids, order), Reordered(ns, order))
  {
    SlotsPermute(Iota(|kids|), |kids|, order);
  }

  lemma ReorderKeepsParts(kids: seq<Elem>, order: seq<int>)
    requires AllParts(kids)
    ensures AllParts(Reordered(kids, order))
  {
    SlotsPermute(Iota(|kids|), |kids|, order);
  }

  lemma ReorderRefines(e: Elem, op: Op)
    requires WellDrawn(e) && op.Reorder?
    ensures Erase(React(e, op)) == Edit(Erase(e), op)
  {
    WellDrawnKids(e);
    var after := Reordered(e.kids, op.order);
    if Drawn(e.tag.shape.kind) {
      ReorderKeepsParts(e.kids, op.order);
      EraseParts(after);
      NothingReordered<Node>(op.order);
    } else {
      ReorderErases(e.kids, EraseAll(e.kids), op.order);
      ErasedList(after, Reordered(EraseAll(e.kids), op.order));
    }
  }

  lemma NothingReordered<T>(order: seq<int>)
    ensures Reordered<T>([], order) == []
  {
  }

  /** Every op, at the element it reaches. */
  lemma ReactRefines(e: Elem, op: Op)
    requires WellDrawn(e)
    ensures React(e, op).tag.Widget?
    ensures Erase(React(e, op)).tag == Edit(Erase(e), op).tag
    ensures Erase(React(e, op)).kids == (if BlankingUpdate(e.tag.shape.kind, op) then [] else Edit(Erase(e), op).kids)
  {
    match op
    case Update(_, _) => UpdateRefines(e, op);
    case Insert(_, _) => InsertRefines(e, op);
    case Remove(_) => RemoveRefines(e, op);
    case Reorder(_) => ReorderRefines(e, op);
    case Replace(node) => EraseBuild(node);
  }

  lemma LeafyInsert(tag: Shape, kids: seq<Node>, index: int, kid: Node)
    requires Leafy(Tree(tag, Inserted(kids, index, kid)))
    ensures !Drawn(tag.kind) && Leafy(kid)
  {
    var at := InsertedAt(kids, index, kid);
    assert Inserted(kids, index, kid)[at] == kid;
  }

  lemma WellDrawnInsert(e: Elem, index: int, kid: Elem)
    requires WellDrawn(e) && !Drawn(e.tag.shape.kind) && WellDrawn(kid)
    ensures WellDrawn(Tree(e.tag, Inserted(e.kids, index, kid)))
  {
    var at := InsertedAt(e.kids, index, kid);
  }

  lemma InsertKeepsDrawn(e: Elem, index: int, node: Node)
    requires WellDrawn(e) && Leafy(Edit(Erase(e), Insert(index, node)))
    ensures WellDrawn(React(e, Insert(index, node)))
  {
    LeafyInsert(Erase(e).tag, Erase(e).kids, index, Scrub(node));
    ScrubLeafy(node);
    EraseBuild(node);
    WellDrawnInsert(e, index, Build(node));
  }

  lemma RemoveKeepsDrawn(e: Elem, index: int)
    requires WellDrawn(e)
    ensures WellDrawn(React(e, Remove(index)))
  {
    var after := Removed(e.kids, index);
    assert forall j :: 0 <= j < |after| ==> after[j] == e.kids[if 0 <= index <= j < |e.kids| - 1 then j + 1 else j];
  }

  lemma ReorderKeepsDrawn(e: Elem, order: seq<int>)
    requires WellDrawn(e)
    ensures WellDrawn(React(e, Reorder(order)))
  {
    SlotsPermute(Iota(|e.kids|), |e.kids|, order);
  }

  /** If the abstract tree is still one whose drawn widgets are leaves, the elements
      are still drawn that way. */
  lemma ReactKeepsDrawn(e: Elem, op: Op)
    requires WellDrawn(e) && Leafy(Edit(Erase(e), op))
    ensures WellDrawn(React(e, op))
  {
    match op
    case Update(_, _) => UpdateRefines(e, op);
    case Insert(index, node) => InsertKeepsDrawn(e, index, node);
    case Remove(index) => RemoveKeepsDrawn(e, index);
    case Reorder(order) => ReorderKeepsDrawn(e, order);
    case Replace(node) =>
      ScrubLeafy(node);
      EraseBuild(node);
  }

  lemma {:induction false} ScrubLeafy(n: Node)
    ensures Leafy(Scrub(n)) <==> Leafy(n)
  {
    forall i | 0 <= i < |n.kids| ensures Leafy(Scrub(n.kids[i])) <==> Leafy(n.kids[i]) {
      ScrubLeafy(n.kids[i]);
    }
    assert forall i :: 0 <= i < |n.kids| ==> Scrub(n).kids[i] == Scrub(n.kids[i]);
  }
}
