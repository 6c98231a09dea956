/**
 What the widget builders can produce, and why the renderer follows every diff between
 such trees: text is a prop of childless widgets only, and nothing a typed patch does
 puts a child under a widget the renderer draws into.
 */
module Typing {
  import opened Common
  import opened Tree
  import opened ChildList
  import opened Patches
  import opened Parts
  import opened Render
  import opened Refinement

  /** Widgets whose builder takes no children. */
  predicate Childless(kind: Kind) {
    Drawn(kind) || kind.Text? || kind.Button? || kind.Toast?
  }

  /** Props only some builders have; the others are on several kinds. */
  predicate HasProp(kind: Kind, prop: Prop) {
    && (prop.Content? ==> kind.Text?)
    && (prop.LeadingIcon? || prop.TrailingIcon? ==> IsField(kind))
    && (prop.Icon? ==> kind.IconButton?)
    && (prop.Items? ==> kind.Menu? || kind.ActionSheet?)
  }

  predicate Typed(kind: Kind, names: set<Prop>) {
    forall p :: p in names ==> HasProp(kind, p)
  }

  predicate TypedNode(n: Node) {
    && Typed(n.tag.kind, n.tag.props.Keys)
    && (Childless(n.tag.kind) ==> n.kids == [])
    && forall i :: 0 <= i < |n.kids| ==> TypedNode(n.kids[i])
  }

  /** An op as a diff makes it for a widget of this kind: an update names props the
      kind has, and only widgets that take children are given one. */
  predicate TypedOp(kind: Kind, op: Op) {
    match op
    case Update(assign, unset) => Typed(kind, OrNone(assign).Keys) && Typed(kind, unset)
    case Insert(_, node) => !Childless(kind) && TypedNode(node)
    case Replace(node) => TypedNode(node)
    case _ => true
  }

  predicate TypedPatch(n: Node, w: Wire) {
    var op, target := Classify(w), At(n, w.path);
    op.Some? && target.Some? ==> TypedOp(target.value.tag.kind, op.value)
  }

  /** Each patch is typed for the widget it reaches. */
  predicate TypedBatch(n: Node, ws: seq<Wire>)
    decreases |ws|
  {
    ws == [] || (TypedPatch(n, ws[0])
                 && match Apply(Editor, n, ws[0])
                    case None => true
                    case Some(m) => TypedBatch(m, ws[1..]))
  }

  // ---- What typing rules out -----------------------------------------------------------------

  /** No typed update writes text over a widget the renderer draws into. */
  lemma TypedNeverBlanks(kind: Kind, props: Props)
    requires Drawn(kind) && Typed(kind, props.Keys)
    ensures !Blanks(kind, props)
  {
    assert Content in props.Keys ==> HasProp(kind, Content);
  }

  /** A typed text update lands on a childless widget. */
  lemma TextIsChildless(kind: Kind, props: Props)
    requires Typed(kind, props.Keys) && Blanks(kind, props)
    ensures Childless(kind)
  {
    assert Content in props.Keys ==> HasProp(kind, Content);
  }

  lemma {:induction false} TypedAt(n: Node, path: seq<int>)
    requires TypedNode(n) && At(n, path).Some?
    ensures TypedNode(At(n, path).value)
    decreases |path|
  {
    if path != [] {
      TypedAt(n.kids[path[0]], path[1..]);
    }
  }

  /** So no typed patch wipes a container. */
  lemma TypedNeverWipes(n: Node, w: Wire)
    requires TypedNode(n) && TypedPatch(n, w)
    ensures !Wipes(n, w)
  {
    if At(n, w.path).Some? && Classify(w).Some? && Classify(w).value.Update? {
      TypedAt(n, w.path);
      var kind, op := At(n, w.path).value.tag.kind, Classify(w).value;
      if Blanks(kind, OrNone(op.assign)) {
        TextIsChildless(kind, OrNone(op.assign));
      }
      if Blanks(kind, Nulls(op.unset)) {
        TextIsChildless(kind, Nulls(op.unset));
      }
    }
  }

  lemma {:induction false} TypedLeafy(n: Node)
    requires TypedNode(n)
    ensures Leafy(n)
  {
    if !Drawn(n.tag.kind) {
      forall i | 0 <= i < |n.kids| ensures Leafy(n.kids[i]) {
        TypedLeafy(n.kids[i]);
      }
    }
  }

  /** In a tree whose drawn widgets are leaves, a path that resolves passes none. */
  lemma {:induction false} ResolvedNotPast(n: Node, path: seq<int>)
    requires Leafy(n) && At(n, path).Some?
    ensures !PastDrawn(n, path)
    decreases |path|
  {
    if path != [] {
      ResolvedNotPast(n.kids[path[0]], path[1..]);
    }
  }

  // ---- What typing keeps ----------------------------------------------------------------------

  lemma {:induction false} TypedScrub(n: Node)
    requires TypedNode(n)
    ensures TypedNode(Scrub(n))
  {
    forall i | 0 <= i < |n.kids| ensures TypedNode(Scrub(n).kids[i]) {
      TypedScrub(n.kids[i]);
    }
  }

  lemma UpdateTyped(n: Node, op: Op)
    requires TypedNode(n) && op.Update? && TypedOp(n.tag.kind, op)
    ensures TypedNode(Edit(n, op))
  {
    var names := Edit(n, op).tag.props.Keys;
    assert names <= n.tag.props.Keys + OrNone(op.assign).Keys;
  }

  predicate AllTyped(kids: seq<Node>) {
    forall i :: 0 <= i < |kids| ==> TypedNode(kids[i])
  }

  lemma InsertTyped(kids: seq<Node>, index: int, kid: Node)
    requires AllTyped(kids) && TypedNode(kid)
    ensures AllTyped(Inserted(kids, index, kid))
  {
    var at := InsertedAt(kids, index, kid);
  }

  lemma RemoveTyped(kids: seq<Node>, index: int)
    requires AllTyped(kids)
    ensures AllTyped(Removed(kids, index))
  {
  }

  lemma ReorderTyped(kids: seq<Node>, order: seq<int>)
    requires AllTyped(kids)
    ensures AllTyped(Reordered(kids, order))
  {
    SlotsPermute(Iota(|kids|), |kids|, order);
  }

  /** A typed op leaves a typed widget. */
  lemma EditTyped(n: Node, op: Op)
    requires TypedNode(n) && TypedOp(n.tag.kind, op)
    ensures TypedNode(Edit(n, op))
  {
    match op
    case Update(_, _) => UpdateTyped(n, op);
    case Insert(index, node) =>
      TypedScrub(node);
      InsertTyped(n.kids, index, Scrub(node));
    case Remove(index) => RemoveTyped(n.kids, index);
    case Reorder(order) => ReorderTyped(n.kids, order);
    case Replace(node) => TypedScrub(node);
  }

  /** Typing is kept by a typed patch, wherever it lands. */
  lemma {:induction false} PatchTyped(n: Node, path: seq<int>, op: Op)
    requires TypedNode(n) && At(n, path).Some? && TypedOp(At(n, path).value.tag.kind, op)
    ensures Rewrite(n, path, Editor(op)).Some? && TypedNode(Rewrite(n, path, Editor(op)).value)
    decreases |path|
  {
    if path == [] {
      EditTyped(n, op);
    } else {
      PatchTyped(n.kids[path[0]], path[1..], op);
    }
  }

  lemma ApplyTyped(n: Node, w: Wire)
    requires TypedNode(n) && TypedPatch(n, w) && Apply(Editor, n, w).Some?
    ensures At(n, w.path).Some? && TypedNode(Apply(Editor, n, w).value)
  {
    var op := Classify(w).value;
    RewriteHits(n, w.path, Editor(op));
    PatchTyped(n, w.path, op);
  }

  /** The renderer follows every typed batch that applies in full: typing alone rules
      out every way of going wrong, patch after patch. */
  lemma {:induction false} TypedFollowable(n: Node, ws: seq<Wire>)
    requires TypedNode(n) && TypedBatch(n, ws) && Batch(Editor, n, ws).applied == |ws|
    ensures Followable(n, ws) && TypedNode(Batch(Editor, n, ws).tree)
    decreases |ws|
  {
    if ws != [] {
      var m := Apply(Editor, n, ws[0]).value;
      TypedNeverWipes(n, ws[0]);
      ApplyTyped(n, ws[0]);
      TypedLeafy(n);
      ResolvedNotPast(n, ws[0].path);
      TypedLeafy(m);
      TypedFollowable(m, ws[1..]);
    }
  }

  /** For the updates an app can make the law of parts needs no exception: after any run
      of them a drawn widget's parts are those of one build with the merged props. */
  lemma TypedHistory(kind: Kind, first: Props, updates: seq<Props>)
    requires Drawn(kind) && forall i :: 0 <= i < |updates| ==> Typed(kind, updates[i].Keys)
    ensures PaintAll(kind, first, Paint(kind, [], first), updates) == Layout(kind, Accumulated(first, updates))
  {
    forall i | 0 <= i < |updates| ensures !Blanks(kind, updates[i]) {
      TypedNeverBlanks(kind, updates[i]);
    }
    HistoryLaw(kind, first, updates);
  }
}
