/**
 The two client ends of the repair protocol: the decoder every transport runs over
 its frames, and the mount that applies what decodes. Each keeps its own flag so
 that a broken stream asks for one fresh scene, not a flood of them.
 */
module Mount {
  import opened Common
  import opened Tree
  import opened ChildList
  import opened Patches

  /** A patch with its address: the tree, or the overlay layer (its leading path
      step already stripped). */
  datatype ScenePatch = ScenePatch(overlay: bool, wire: Wire)

  type PatchBatch = seq<ScenePatch>

  predicate ReplacesRoot(p: ScenePatch) { !p.overlay && IsRootReplace(p.wire) }

  predicate HasRoot(ps: PatchBatch) {
    exists i :: 0 <= i < |ps| && ReplacesRoot(ps[i])
  }

  /** The patches addressed to one of the two places, in batch order. */
  function Addressed(ps: PatchBatch, overlay: bool): seq<Wire> {
    if ps == [] then []
    else (if ps[0].overlay == overlay then [ps[0].wire] else []) + Addressed(ps[1..], overlay)
  }

  // ---- The decoder ------------------------------------------------------------------

  class WireDecoder {
    var resyncPending: bool

    constructor ()
      ensures !resyncPending
    {
      resyncPending := false;
    }

    /** Decode one frame; `ask` is the repair request it makes. */
    method Decode(garbled: bool) returns (ok: bool, ask: bool)
      modifies this
      ensures ok == !garbled
      ensures ask == (garbled && !old(resyncPending))
      ensures resyncPending == garbled
    {
      if garbled {
        ask := !resyncPending;
        resyncPending := true;
        ok := false;
      } else {
        ask := false;
        resyncPending := false;
        ok := true;
      }
    }
  }

  // ---- The mount ----------------------------------------------------------------------

  /** What a mount shows a scene on: how it builds a node, how it reacts to an op,
      the label of the overlay host, and the node a tree is read back as (none when
      it is not properly drawn). Abstract nodes are one face, live elements another. */
  datatype Face<!L> = Face(build: Node -> Tree<L>, act: Actor<L>, bare: L, read: Tree<L> -> Option<Node>)

  /** What the mount holds: the tree it tracks, the overlays it shows, its flag. */
  datatype View<!L> = View(tree: Option<Tree<L>>, layer: seq<Tree<L>>, pending: bool)

  datatype Reaction<!L> = Reaction(view: View<L>, asked: bool, threw: bool)

  /** The overlay host: patches reach the overlays as its children. */
  function Host<L>(face: Face<L>, layer: seq<Tree<L>>): Tree<L> {
    Tree(face.bare, layer)
  }

  /** A failed patch asks for a scene unless one is already on its way. */
  function Failed<L>(v: View<L>, canAsk: bool): Reaction<L> {
    if v.pending || !canAsk then Reaction(v, false, false)
    else Reaction(v.(pending := true), true, false)
  }

  /** The tree's share of a batch. */
  function TreePart<L>(face: Face<L>, v: View<L>, canAsk: bool, ts: seq<Wire>): (r: Reaction<L>)
    requires v.tree.Some?
    ensures r.view.tree.Some? && r.view.layer == v.layer
  {
    var t := Batch(face.act, v.tree.value, ts);
    var after := v.(tree := Some(t.tree));
    if t.applied < |ts| then Failed(after, canAsk) else Reaction(after, false, false)
  }

  /** The overlays' share; the answer to a repair request empties the layer first. */
  function LayerPart<L>(face: Face<L>, v: View<L>, canAsk: bool, isResync: bool, os: seq<Wire>): (r: Reaction<L>)
    ensures r.view.tree == v.tree
  {
    var o := Batch(face.act, Host(face, if isResync then [] else v.layer), os);
    var after := v.(layer := o.tree.kids);
    if o.applied < |os| then Failed(after, canAsk) else Reaction(after, false, false)
  }

  /** Tree patches first, then the layer. */
  function Applied<L>(face: Face<L>, v: View<L>, canAsk: bool, isResync: bool, ps: PatchBatch): Reaction<L>
    requires v.tree.Some?
  {
    var r1 := TreePart(face, v, canAsk, Addressed(ps, false));
    var r2 := LayerPart(face, r1.view, canAsk, isResync, Addressed(ps, true));
    r2.(asked := r1.asked || r2.asked)
  }

  /** One batch. Before there is a tree, its first patch must bring a node. */
  function Handle<L>(face: Face<L>, v: View<L>, canAsk: bool, ps: PatchBatch): Reaction<L> {
    var isResync := v.pending && HasRoot(ps);
    var v0 := if HasRoot(ps) then v.(pending := false) else v;
    if v.tree.Some? then Applied(face, v0, canAsk, isResync, ps)
    else if ps == [] || ps[0].wire.node.None? then Reaction(v0, false, true)
    else Applied(face, v0.(tree := Some(face.build(ps[0].wire.node.value))), canAsk, isResync, ps[1..])
  }

  /** Routing takes every patch to one of the two places and none to both, batch after
      batch in order. */
  lemma {:induction false} AddressedConcat(a: PatchBatch, b: PatchBatch, overlay: bool)
    ensures Addressed(a + b, overlay) == Addressed(a, overlay) + Addressed(b, overlay)
    decreases |a|
  {
    if a == [] {
      assert a + b == b;
    } else {
      assert (a + b)[0] == a[0] && (a + b)[1..] == a[1..] + b;
      AddressedConcat(a[1..], b, overlay);
      var head := if a[0].overlay == overlay then [a[0].wire] else [];
      var rest, more := Addressed(a[1..], overlay), Addressed(b, overlay);
      assert head + (rest + more) == Addressed(a, overlay) + more;
    }
  }

  lemma AddressedOne(p: ScenePatch, overlay: bool)
    ensures Addressed([p], overlay) == if p.overlay == overlay then [p.wire] else []
    ensures |Addressed([p], true)| + |Addressed([p], false)| == 1
  {
    assert [p][1..] == [];
  }

  /** What a batch comes to on a mount that shows `t`: each place takes its patches up to
      the first that fails. A failure in either, if the mount can ask, leaves it waiting,
      and is a request unless it was waiting already; without one nothing is asked. */
  ghost predicate Answers<L(!new)>(face: Face<L>, v: View<L>, canAsk: bool, ps: PatchBatch, t: Tree<L>,
                                   rest: PatchBatch, r: Reaction<L>)
  {
    var awaited := v.pending && HasRoot(ps);
    var waiting := v.pending && !HasRoot(ps);
    var ts, os := Addressed(rest, false), Addressed(rest, true);
    var tree, host := Batch(face.act, t, ts), Batch(face.act, Tree(face.bare, if awaited then [] else v.layer), os);
    var fails := tree.applied < |ts| || host.applied < |os|;
    && !r.threw
    && r.view.tree == Some(tree.tree)
    && r.view.layer == host.tree.kids
    && r.view.pending == (waiting || (fails && canAsk))
    && r.asked == (fails && canAsk && !waiting)
  }

  /** So it is for every batch on a mounted tree. */
  lemma FailureAsks<L(!new)>(face: Face<L>, v: View<L>, canAsk: bool, ps: PatchBatch)
    requires v.tree.Some?
    ensures Answers(face, v, canAsk, ps, v.tree.value, ps, Handle(face, v, canAsk, ps))
  {
  }

  /** And for the first batch, past the patch whose node is mounted; one that brings no
      node is an error and shows nothing. */
  lemma FirstBatch<L(!new)>(face: Face<L>, v: View<L>, canAsk: bool, ps: PatchBatch)
    requires v.tree.None?
    ensures var r := Handle(face, v, canAsk, ps);
            if ps != [] && ps[0].wire.node.Some?
            then Answers(face, v, canAsk, ps, face.build(ps[0].wire.node.value), ps[1..], r)
            else r.threw && !r.asked && r.view.tree.None? && r.view.layer == v.layer
  {
  }

  class Mounted<!L> {
    var tree: Option<Tree<L>>
    var layer: seq<Tree<L>>
    var resyncPending: bool
    const face: Face<L>
    const canAsk: bool

    function State(): View<L>
      reads this
    {
      View(tree, layer, resyncPending)
    }

    constructor (face: Face<L>, initial: Option<Node>, canAsk: bool)
      ensures this.face == face && this.canAsk == canAsk
      ensures State() == View(if initial.Some? then Some(face.build(initial.value)) else None, [], false)
    {
      this.face := face;
      this.canAsk := canAsk;
      tree := if initial.Some? then Some(face.build(initial.value)) else None;
      layer := [];
      resyncPending := false;
    }

    method OnPatchFailure() returns (asked: bool)
      modifies this`resyncPending
      ensures Reaction(State(), asked, false) == Failed(old(State()), canAsk)
    {
      asked := false;
      if !resyncPending && canAsk {
        resyncPending := true;
        asked := true;
      }
    }

    /** The tree's share of a batch. */
    method ApplyToTree(patches: seq<Wire>) returns (asked: bool)
      requires tree.Some?
      modifies this`tree, this`resyncPending
      ensures tree.Some?
      ensures Reaction(State(), asked, false) == TreePart(face, old(State()), canAsk, patches)
    {
      var current, applied := ApplyAll(face.act, tree.value, patches);
      tree := Some(current);
      asked := false;
      if applied < |patches| {
        asked := OnPatchFailure();
      }
    }

    /** The overlays' share of a batch. */
    method ApplyToLayer(isResync: bool, patches: seq<Wire>) returns (asked: bool)
      modifies this`layer, this`resyncPending
      ensures Reaction(State(), asked, false) == LayerPart(face, old(State()), canAsk, isResync, patches)
    {
      if isResync { layer := []; }
      var host, placed := ApplyAll(face.act, Host(face, layer), patches);
      layer := host.kids;
      asked := false;
      if placed < |patches| {
        asked := OnPatchFailure();
      }
    }

    /** The transport's patch callback. */
    method OnPatches(patches: PatchBatch) returns (asked: bool, threw: bool)
      modifies this
      ensures Reaction(State(), asked, threw) == Handle(face, old(State()), canAsk, patches)
    {
      var batch := patches;
      var hasRoot := SomeRoot(patches);
      var isResync := resyncPending && hasRoot;
      if hasRoot { resyncPending := false; }
      if tree.None? {
        if patches == [] || patches[0].wire.node.None? {
          return false, true;
        }
        tree := Some(face.build(patches[0].wire.node.value));
        batch := patches[1..];
      }
      var treePatches, overlayPatches := Split(batch);
      asked := ApplyToTree(treePatches);
      var again := ApplyToLayer(isResync, overlayPatches);
      asked := asked || again;
      threw := false;
    }
  }

  method SomeRoot(ps: PatchBatch) returns (some: bool)
    ensures some == HasRoot(ps)
  {
    some := false;
    for i := 0 to |ps|
      invariant some == HasRoot(ps[..i])
    {
      assert forall j :: 0 <= j < i ==> ps[..i + 1][j] == ps[..i][j];
      assert ps[..i + 1][i] == ps[i];
      if ReplacesRoot(ps[i]) {
        some := true;
      }
    }
    assert ps[..|ps|] == ps;
  }

  /** Route each patch to the tree or to the layer. */
  method Split(ps: PatchBatch) returns (ts: seq<Wire>, os: seq<Wire>)
    ensures ts == Addressed(ps, false) && os == Addressed(ps, true)
  {
    ts, os := [], [];
    for i := 0 to |ps|
      invariant ts + Addressed(ps[i..], false) == Addressed(ps, false)
      invariant os + Addressed(ps[i..], true) == Addressed(ps, true)
    {
      assert ps[i..][0] == ps[i] && ps[i..][1..] == ps[i + 1..];
      if ps[i].overlay {
        os := os + [ps[i].wire];
      } else {
        ts := ts + [ps[i].wire];
      }
    }
  }

  /** Apply patches in order, stopping at the first that fails. */
  method ApplyAll<L>(act: Actor<L>, t: Tree<L>, ws: seq<Wire>) returns (current: Tree<L>, applied: nat)
    ensures Outcome(current, applied) == Batch(act, t, ws)
  {
    current, applied := t, 0;
    while applied < |ws|
      invariant applied <= |ws|
      invariant var rest := Batch(act, current, ws[applied..]);
                Outcome(rest.tree, applied + rest.applied) == Batch(act, t, ws)
    {
      assert ws[applied..][0] == ws[applied] && ws[applied..][1..] == ws[applied + 1..];
      var next := Apply(act, current, ws[applied]);
      if next.None? {
        return;
      }
      current := next.value;
      applied := applied + 1;
    }
    assert ws[applied..] == [];
  }
}
