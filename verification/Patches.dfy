/**
 The wire format of a tick: nodes, patches, and what a batch does to the abstract
 tree. The five patch kinds are told apart by which keys are present; a patch of
 no known shape fails like one whose path does not resolve.
 */
module Patches {
  import opened Common
  import opened Tree
  import opened ChildList

  /** A prop's value. An icon's name comes with whether the icon tables know it. */
  datatype Value =
    | Null | Bool(on: bool) | Num(n: int) | Str(text: string) | Arr(items: seq<Value>)
    | IconName(name: string, known: bool)

  /** Prop names; only the ones that change an element's children are told apart. */
  datatype Prop =
    | Content | Label | Message | Secure | LeadingIcon | TrailingIcon | Icon | Tabs | Items | Name | Size
    | OtherProp(name: string)

  type Props = map<Prop, Value>

  /** Widget types; the ones whose text or children the renderer writes are told apart.
      `IconWidget` is the type called `Icon`. */
  datatype Kind =
    | Text | Button | Toast
    | IconWidget | CameraPreview | QrScanner
    | Input | Dropdown | Autocomplete
    | Checkbox | Switch | DatePicker | TimePicker | FilePicker
    | RangeSlider | ProgressBar | RefreshControl | IconButton | TabBar | Menu | ActionSheet
    | OtherKind(name: string)

  /** What a node says about itself; its children are the tree's. */
  datatype Shape = Shape(kind: Kind, key: Option<string>, props: Props)

  type Node = Tree<Shape>

  datatype Op =
    | Update(assign: Option<Props>, unset: set<Prop>)
    | Insert(index: int, node: Node)
    | Remove(index: int)
    | Reorder(order: seq<int>)
    | Replace(node: Node)

  /** A patch as it arrives: a path and whichever other fields are present. */
  datatype Wire = Wire(path: seq<int>,
                       setProps: Option<Props>,
                       unsetProps: Option<set<Prop>>,
                       order: Option<seq<int>>,
                       node: Option<Node>,
                       index: Option<int>)

  /** Dispatch on key presence, in the order the renderer asks. */
  function Classify(w: Wire): Option<Op> {
    if w.setProps.Some? || w.unsetProps.Some? then
      Some(Update(w.setProps, if w.unsetProps.Some? then w.unsetProps.value else {}))
    else if w.order.Some? then Some(Reorder(w.order.value))
    else if w.node.Some? && w.index.Some? then Some(Insert(w.index.value, w.node.value))
    else if w.node.Some? then Some(Replace(w.node.value))
    else if w.index.Some? then Some(Remove(w.index.value))
    else None
  }

  /** A whole-tree replacement: an empty path, a node, and none of the rest. */
  predicate IsRootReplace(w: Wire) {
    && w.path == []
    && w.node.Some?
    && w.index.None?
    && w.order.None?
    && w.setProps.None?
    && w.unsetProps.None?
  }

  /** The root test and the dispatch agree on what a whole-tree replacement is. */
  lemma RootReplaceAgrees(w: Wire)
    ensures IsRootReplace(w) <==> w.path == [] && Classify(w).Some? && Classify(w).value.Replace?
  {
  }

  /** A patch as Python lowers it. An update always carries both of its fields. */
  function Lowered(path: seq<int>, op: Op): Wire {
    match op
    case Update(assign, unset) => Wire(path, Some(OrEmpty(assign)), Some(unset), None, None, None)
    case Insert(index, node) => Wire(path, None, None, None, Some(node), Some(index))
    case Replace(node) => Wire(path, None, None, None, Some(node), None)
    case Remove(index) => Wire(path, None, None, None, None, Some(index))
    case Reorder(order) => Wire(path, None, None, Some(order), None, None)
  }

  function OrEmpty(assign: Option<Props>): Props {
    if assign.Some? then assign.value else map[]
  }

  /** What Python lowers, the dispatch reads back: each of the five kinds, at its path. */
  lemma WireRoundTrip(path: seq<int>, op: Op)
    ensures Lowered(path, op).path == path
    ensures Classify(Lowered(path, op)) == Some(if op.Update? then op.(assign := Some(OrEmpty(op.assign))) else op)
  {
  }

  // ---- The abstract tree ----------------------------------------------------

  /** Null and absent are one value: a prop an app stops passing arrives as null. */
  function Clean(props: Props): Props {
    map k | k in props && props[k] != Null :: props[k]
  }

  /** A node as the abstract tree holds it, null props dropped throughout. */
  function Scrub(n: Node): Node {
    Tree(n.tag.(props := Clean(n.tag.props)), seq(|n.kids|, i requires 0 <= i < |n.kids| => Scrub(n.kids[i])))
  }

  function Merged(props: Props, assign: Option<Props>, unset: set<Prop>): Props {
    Clean(if assign.Some? then props + assign.value else props) - unset
  }

  /** The effect of an op on the node its path reaches. */
  function Edit(n: Node, op: Op): Node {
    match op
    case Update(assign, unset) => n.(tag := n.tag.(props := Merged(n.tag.props, assign, unset)))
    case Insert(index, node) => n.(kids := Inserted(n.kids, index, Scrub(node)))
    case Remove(index) => n.(kids := Removed(n.kids, index))
    case Reorder(order) => n.(kids := Reordered(n.kids, order))
    case Replace(node) => Scrub(node)
  }

  /** Prop by prop: what an update unsets is gone, what it assigns is there with that value
      unless it is null, and the rest is as it was. Nothing else of the node changes. */
  lemma UpdateSets(n: Node, assign: Option<Props>, unset: set<Prop>, p: Prop)
    ensures var m := Edit(n, Update(assign, unset));
            && m == n.(tag := n.tag.(props := m.tag.props))
            && (p in unset ==> p !in m.tag.props)
            && (p !in unset && assign.Some? && p in assign.value ==>
                  if assign.value[p] == Null then p !in m.tag.props
                  else p in m.tag.props && m.tag.props[p] == assign.value[p])
            && (p !in unset && (assign.Some? ==> p !in assign.value) ==>
                  if p in n.tag.props && n.tag.props[p] != Null
                  then p in m.tag.props && m.tag.props[p] == n.tag.props[p] else p !in m.tag.props)
  {
  }

  /** Scrubbing changes no shape and only drops nulls: the same paths resolve, to the same
      kind and key and the same props less the null ones. */
  lemma {:induction false} ScrubKeeps(n: Node, path: seq<int>, p: Prop)
    ensures At(Scrub(n), path).Some? <==> At(n, path).Some?
    ensures At(n, path).Some? ==>
              var was, now := At(n, path).value.tag, At(Scrub(n), path).value.tag;
              && now.kind == was.kind && now.key == was.key
              && (p in now.props <==> p in was.props && was.props[p] != Null)
              && (p in now.props ==> now.props[p] == was.props[p])
    decreases |path|
  {
    if path != [] && HasKid(n, path[0]) {
      ScrubKeeps(n.kids[path[0]], path[1..], p);
    }
  }

  function Editor(op: Op): Node -> Node {
    (n: Node) => Edit(n, op)
  }

  // ---- Patches and batches, for any labels -----------------------------------

  /** How one kind of tree reacts to an op at the node a path reaches. */
  type Actor<!L> = Op -> (Tree<L> -> Tree<L>)

  /** One patch; `None` is the error the batch stops at. */
  function Apply<L>(act: Actor<L>, t: Tree<L>, w: Wire): Option<Tree<L>> {
    match Classify(w)
    case None => None
    case Some(op) => Rewrite(t, w.path, act(op))
  }

  /** A patch lands where its path leads, and fails exactly when it leads nowhere or the patch
      is of no known kind. */
  lemma PatchLands<L>(act: Actor<L>, t: Tree<L>, w: Wire)
    ensures Apply(act, t, w).Some? <==> Classify(w).Some? && At(t, w.path).Some?
    ensures Apply(act, t, w).Some? ==>
              At(Apply(act, t, w).value, w.path) == Some(act(Classify(w).value)(At(t, w.path).value))
  {
    if Classify(w).Some? {
      RewriteHits(t, w.path, act(Classify(w).value));
    }
  }

  datatype Outcome<L> = Outcome(tree: Tree<L>, applied: nat)

  /** A batch stops at the first patch that fails; `applied` counts those before. */
  function Batch<L>(act: Actor<L>, t: Tree<L>, ws: seq<Wire>): (r: Outcome<L>)
    ensures r.applied <= |ws|
    decreases |ws|
  {
    if ws == [] then Outcome(t, 0)
    else
      match Apply(act, t, ws[0])
      case None => Outcome(t, 0)
      case Some(u) =>
        var rest := Batch(act, u, ws[1..]);
        rest.(applied := rest.applied + 1)
  }

  /** A failed batch leaves exactly the effect of the patches before the failure. */
  lemma {:induction false} FailedBatchIsPrefix<L>(act: Actor<L>, t: Tree<L>, ws: seq<Wire>)
    ensures var r := Batch(act, t, ws);
            && Batch(act, t, ws[..r.applied]) == r
            && (r.applied < |ws| ==> Apply(act, r.tree, ws[r.applied]).None?)
    decreases |ws|
  {
    if ws != [] {
      var u := Apply(act, t, ws[0]);
      if u.Some? {
        FailedBatchIsPrefix(act, u.value, ws[1..]);
        var n := Batch(act, u.value, ws[1..]).applied;
        assert ws[..n + 1][1..] == ws[1..][..n];
      }
    }
  }

  /** Batches compose: a batch that applies in full hands its tree to the next. */
  lemma {:induction false} BatchConcat<L>(act: Actor<L>, t: Tree<L>, xs: seq<Wire>, ys: seq<Wire>)
    requires Batch(act, t, xs).applied == |xs|
    ensures Batch(act, t, xs + ys).tree == Batch(act, Batch(act, t, xs).tree, ys).tree
    ensures Batch(act, t, xs + ys).applied == |xs| + Batch(act, Batch(act, t, xs).tree, ys).applied
    decreases |xs|
  {
    if xs == [] {
      assert xs + ys == ys;
    } else {
      BatchConcat(act, Apply(act, t, xs[0]).value, xs[1..], ys);
      assert (xs + ys)[1..] == xs[1..] + ys;
    }
  }

  /** Patches at incomparable paths commute for every pair of kinds, in the tree
      they leave and in whether they fail, and neither touches the other's node. */
  lemma PatchesCommute<L>(act: Actor<L>, t: Tree<L>, a: Wire, b: Wire)
    requires Incomparable(a.path, b.path)
    ensures Batch(act, t, [a, b]).applied == 2 <==> Batch(act, t, [b, a]).applied == 2
    ensures Batch(act, t, [a, b]).applied == 2 ==> Batch(act, t, [a, b]).tree == Batch(act, t, [b, a]).tree
    ensures Apply(act, t, a).Some? ==>
              && At(Apply(act, t, a).value, b.path) == At(t, b.path)
              && (Apply(act, Apply(act, t, a).value, b).Some? <==> Apply(act, t, b).Some?)
  {
    var f, g := Classify(a), Classify(b);
    TwoPatches(act, t, a, b);
    TwoPatches(act, t, b, a);
    if f.Some? {
      RewriteHits(t, a.path, act(f.value));
      if Apply(act, t, a).Some? {
        RewriteMisses(t, a.path, act(f.value), b.path);
      }
    }
    if f.Some? && g.Some? {
      RewritesCommute(t, a.path, act(f.value), b.path, act(g.value));
    }
  }

  lemma TwoPatches<L>(act: Actor<L>, t: Tree<L>, a: Wire, b: Wire)
    ensures var r := Batch(act, t, [a, b]);
            && (r.applied == 2 <==> Apply(act, t, a).Some? && Apply(act, Apply(act, t, a).value, b).Some?)
            && (r.applied == 2 ==> r.tree == Apply(act, Apply(act, t, a).value, b).value)
  {
    assert [a, b][1..] == [b] && [b][1..] == [];
    var u := Apply(act, t, a);
    if u.Some? {
      var v := Apply(act, u.value, b);
      assert Batch(act, u.value, [b]) == if v.Some? then Outcome(v.value, 1) else Outcome(u.value, 0);
    }
  }
}
