/**
 The repair protocol on its two faces: abstract trees, and live elements read back by
 erasing what the renderer drew into them.
 */
module Faces {
  import opened Common
  import opened Tree
  import opened ChildList
  import opened Patches
  import opened Parts
  import opened Render
  import opened Refinement
  import opened Typing
  import opened Mount
  import opened Repair

  /** The overlay layer's own label. */
  const LayerShape: Shape := Shape(OtherKind("overlays"), None, map[])

  /** The abstract tree shown on itself. */
  function NodeFace(): Face<Shape> {
    Face((n: Node) => Scrub(n), Editor, LayerShape, (t: Node) => Some(t))
  }

  lemma NodeFaceLawful(s: Scene)
    ensures Lawful(NodeFace()) && SceneShowable(NodeFace(), s)
  {
    forall t: Node, n: Node ensures NodeFace().act(Op.Replace(n))(t) == Scrub(n) {
      assert Editor(Op.Replace(n))(t) == Edit(t, Op.Replace(n));
    }
    forall t: Node, i: int, n: Node
      ensures NodeFace().act(Op.Insert(i, n))(t) == t.(kids := Inserted(t.kids, i, Scrub(n)))
    {
      assert Editor(Op.Insert(i, n))(t) == Edit(t, Op.Insert(i, n));
    }
  }

  /** Live elements, read back by erasing what the renderer drew. */
  ghost function DomFace(): Face<Tag> {
    Face((n: Node) => Build(n), Renderer, Widget(LayerShape),
         (e: Elem) => if WellDrawn(e) then Some(Erase(e)) else None)
  }

  lemma DomFaceLawful(s: Scene)
    ensures Lawful(DomFace())
    ensures TypedScene(s) ==> SceneShowable(DomFace(), s)
  {
    forall t: Elem, n: Node ensures DomFace().act(Op.Replace(n))(t) == Build(n) {
      assert Renderer(Op.Replace(n))(t) == React(t, Op.Replace(n));
    }
    forall t: Elem, i: int, n: Node
      ensures DomFace().act(Op.Insert(i, n))(t) == t.(kids := Inserted(t.kids, i, Build(n)))
    {
      assert Renderer(Op.Insert(i, n))(t) == React(t, Op.Insert(i, n));
    }
    if TypedScene(s) {
      TypedLeafy(s.root);
      EraseBuild(s.root);
      forall i | 0 <= i < |s.overlays| ensures Showable(DomFace(), s.overlays[i]) {
        TypedLeafy(s.overlays[i]);
        EraseBuild(s.overlays[i]);
      }
    }
  }

  function Scrubbed(ns: seq<Node>): (r: seq<Node>)
    ensures |r| == |ns|
  {
    seq(|ns|, i requires 0 <= i < |ns| => Scrub(ns[i]))
  }

  /** What Python promises of a diff, on its own trees. */
  predicate DiffsNodes(from: Scene, to: Scene, ps: PatchBatch) {
    var ts, os := Addressed(ps, false), Addressed(ps, true);
    var t := Batch(Editor, Scrub(from.root), ts);
    var o := Batch(Editor, Host(NodeFace(), Scrubbed(from.overlays)), os);
    && t == Outcome(Scrub(to.root), |ts|)
    && o == Outcome(Host(NodeFace(), Scrubbed(to.overlays)), |os|)
  }

  /** Scenes and diffs as the widget builders and the diff make them. */
  predicate TypedScene(s: Scene) {
    TypedNode(s.root) && forall i :: 0 <= i < |s.overlays| ==> TypedNode(s.overlays[i])
  }

  predicate TypedDiff(from: Scene, ps: PatchBatch) {
    && TypedBatch(Scrub(from.root), Addressed(ps, false))
    && TypedBatch(Host(NodeFace(), Scrubbed(from.overlays)), Addressed(ps, true))
  }

  /** A diff that is correct between Python's trees is correct on abstract trees. */
  lemma NodeDiffs(from: Scene, to: Scene, ps: PatchBatch)
    requires DiffsNodes(from, to, ps)
    ensures Diffs(NodeFace(), from, to, ps)
  {
    var face := NodeFace();
    forall layer: seq<Node> | LayerShows(face, layer, from.overlays)
      ensures layer == Scrubbed(from.overlays)
    {
      forall i | 0 <= i < |layer| ensures layer[i] == Scrubbed(from.overlays)[i] {
        assert TreeShows(face, layer[i], from.overlays[i]);
      }
    }
  }

  lemma HostErases(layer: seq<Elem>, ns: seq<Node>)
    requires LayerShows(DomFace(), layer, ns)
    ensures var h := Host(DomFace(), layer);
            WellDrawn(h) && Erase(h) == Host(NodeFace(), Scrubbed(ns))
  {
    var h := Host(DomFace(), layer);
    forall i | 0 <= i < |layer| ensures WellDrawn(layer[i]) && Erase(layer[i]) == Scrub(ns[i]) {
      assert TreeShows(DomFace(), layer[i], ns[i]);
    }
    EraseWidgets(layer);
    assert EraseAll(layer) == Scrubbed(ns);
  }

  lemma HostShows(h: Elem, ns: seq<Node>)
    requires WellDrawn(h) && Erase(h) == Host(NodeFace(), Scrubbed(ns))
    ensures LayerShows(DomFace(), h.kids, ns)
  {
    WellDrawnKids(h);
    forall i | 0 <= i < |ns| ensures TreeShows(DomFace(), h.kids[i], ns[i]) {
      assert Erase(h).kids[i] == Scrub(ns[i]);
    }
  }

  lemma TypedHost(ns: seq<Node>)
    requires forall i :: 0 <= i < |ns| ==> TypedNode(ns[i])
    ensures TypedNode(Host(NodeFace(), Scrubbed(ns)))
  {
    forall i | 0 <= i < |ns| ensures TypedNode(Scrubbed(ns)[i]) {
      TypedScrub(ns[i]);
    }
  }

  /** A typed diff that is correct between Python's trees is correct on live elements:
      the renderer follows it, patch by patch. */
  lemma DomDiffs(from: Scene, to: Scene, ps: PatchBatch)
    requires DiffsNodes(from, to, ps) && TypedScene(from) && TypedDiff(from, ps)
    ensures Diffs(DomFace(), from, to, ps)
  {
    var face := DomFace();
    var ts, os := Addressed(ps, false), Addressed(ps, true);
    TypedScrub(from.root);
    TypedFollowable(Scrub(from.root), ts);
    TypedHost(from.overlays);
    TypedFollowable(Host(NodeFace(), Scrubbed(from.overlays)), os);
    forall t: Elem | TreeShows(face, t, from.root)
      ensures var r := Batch(face.act, t, ts); r.applied == |ts| && TreeShows(face, r.tree, to.root)
    {
      BatchRefines(t, ts);
    }
    forall layer: seq<Elem> | LayerShows(face, layer, from.overlays)
      ensures var r := Batch(face.act, Host(face, layer), os);
              r.applied == |os| && LayerShows(face, r.tree.kids, to.overlays)
    {
      HostErases(layer, from.overlays);
      BatchRefines(Host(face, layer), os);
      HostShows(Batch(Renderer, Host(face, layer), os).tree, to.overlays);
    }
  }

  // ---- Self-repair on abstract trees ---------------------------------------------------

  /** A step as Python and the network make it: a tick sends a correct diff. */
  predicate NodeStep(w: World<Shape>, s: Step) {
    Possible(NodeFace(), w, s) && (s.Tick? ==> DiffsNodes(w.server, s.next, s.patches))
  }

  predicate NodeRun(w: World<Shape>, steps: seq<Step>)
    decreases |steps|
  {
    steps == [] || (NodeStep(w, steps[0]) && NodeRun(Next(NodeFace(), w, steps[0]), steps[1..]))
  }

  lemma {:induction false} NodeRunLegal(w: World<Shape>, steps: seq<Step>)
    requires NodeRun(w, steps)
    ensures LegalRun(NodeFace(), w, steps)
    decreases |steps|
  {
    if steps != [] {
      if steps[0].Tick? {
        NodeFaceLawful(steps[0].next);
        NodeDiffs(w.server, steps[0].next, steps[0].patches);
      }
      NodeRunLegal(Next(NodeFace(), w, steps[0]), steps[1..]);
    }
  }

  /** From an empty page on, however frames are lost, batches fail and connections drop,
      once nothing is in flight the abstract tree is the one Python holds. No scene need
      be typed. */
  lemma TreeRepairs(first: Scene, steps: seq<Step>)
    requires NodeRun(EmptyPage(first), steps)
    ensures LegalRun(NodeFace(), EmptyPage(first), steps)
    ensures var z := Run(NodeFace(), EmptyPage(first), steps);
            z.down == [] && z.up == 0 ==> z.client.view.tree == Some(Scrub(z.server.root))
  {
    NodeFaceLawful(first);
    StartsConsistent(NodeFace(), first);
    NodeRunLegal(EmptyPage(first), steps);
    SelfRepair(NodeFace(), EmptyPage(first), steps);
    var z := Run(NodeFace(), EmptyPage(first), steps);
    if z.down == [] && z.up == 0 {
      assert TreeShows(NodeFace(), z.client.view.tree.value, z.server.root);
    }
  }

  // ---- Self-repair on live elements ------------------------------------------------------

  /** The same on live elements, whose renderer follows typed diffs between typed scenes. */
  ghost predicate LiveStep(w: World<Tag>, s: Step) {
    && Possible(DomFace(), w, s)
    && (s.Tick? ==> TypedScene(s.next) && DiffsNodes(w.server, s.next, s.patches) && TypedDiff(w.server, s.patches))
  }

  ghost predicate LiveRun(w: World<Tag>, steps: seq<Step>)
    decreases |steps|
  {
    steps == [] || (LiveStep(w, steps[0]) && LiveRun(Next(DomFace(), w, steps[0]), steps[1..]))
  }

  lemma {:induction false} LiveRunLegal(w: World<Tag>, steps: seq<Step>)
    requires TypedScene(w.server) && LiveRun(w, steps)
    ensures LegalRun(DomFace(), w, steps)
    decreases |steps|
  {
    if steps != [] {
      if steps[0].Tick? {
        DomFaceLawful(steps[0].next);
        DomDiffs(w.server, steps[0].next, steps[0].patches);
      }
      LiveRunLegal(Next(DomFace(), w, steps[0]), steps[1..]);
    }
  }

  /** Elements that, less what the renderer drew into them, are this node. */
  predicate Shows(e: Elem, n: Node) {
    WellDrawn(e) && Erase(e) == Scrub(n)
  }

  /** Where such a run from an empty page leads. */
  ghost function LiveWorld(first: Scene, steps: seq<Step>): World<Tag>
    requires TypedScene(first) && LiveRun(EmptyPage(first), steps)
  {
    LiveRunLegal(EmptyPage(first), steps);
    Run(DomFace(), EmptyPage(first), steps)
  }

  lemma LiveDebt(first: Scene, steps: seq<Step>)
    requires TypedScene(first) && LiveRun(EmptyPage(first), steps)
    ensures Consistent(DomFace(), LiveWorld(first, steps))
  {
    DomFaceLawful(first);
    StartsConsistent(DomFace(), first);
    LiveRunLegal(EmptyPage(first), steps);
    SelfRepair(DomFace(), EmptyPage(first), steps);
  }

  /** The refinement and the protocol together: from an empty page on, however frames are
      lost, batches fail and connections drop, once nothing is in flight the live elements,
      less what the renderer drew into them, are the tree Python holds; and when every full
      scene found a waiting mount or a bare layer, the live overlays are Python's. */
  lemma LiveDomRepairs(first: Scene, steps: seq<Step>)
    requires TypedScene(first) && LiveRun(EmptyPage(first), steps)
    ensures LegalRun(DomFace(), EmptyPage(first), steps)
    ensures var z := Run(DomFace(), EmptyPage(first), steps);
            z.down == [] && z.up == 0 ==>
              z.client.view.tree.Some? && Shows(z.client.view.tree.value, z.server.root)
    ensures var z := Run(DomFace(), EmptyPage(first), steps);
            z.down == [] && z.up == 0 && ClearingRun(DomFace(), EmptyPage(first), steps) ==>
              && |z.client.view.layer| == |z.server.overlays|
              && forall i :: 0 <= i < |z.server.overlays| ==> Shows(z.client.view.layer[i], z.server.overlays[i])
  {
    var w := EmptyPage(first);
    DomFaceLawful(first);
    StartsConsistent(DomFace(), first);
    LiveRunLegal(w, steps);
    SelfRepair(DomFace(), w, steps);
    var z := Run(DomFace(), w, steps);
    if z.down == [] && z.up == 0 {
      assert TreeShows(DomFace(), z.client.view.tree.value, z.server.root);
      if ClearingRun(DomFace(), w, steps) {
        OverlaysNeverStack(DomFace(), w, steps);
        forall i | 0 <= i < |z.server.overlays| ensures Shows(z.client.view.layer[i], z.server.overlays[i]) {
          assert TreeShows(DomFace(), z.client.view.layer[i], z.server.overlays[i]);
        }
      }
    }
  }
}
