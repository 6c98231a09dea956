/**
 The mount on live elements: one host object, under it the tree and the overlay layer,
 mutated batch by batch. What it does to the objects is what the protocol says a mount
 does to the elements they stand for.
 */
module Page {
  import opened Common
  import opened Tree
  import opened ChildList
  import opened Patches
  import opened Parts
  import opened Render
  import opened Refinement
  import opened Dom
  import opened Mount
  import opened Repair
  import opened Faces

  /** What a host's children show: the tree after those it had before, then the layer. */
  function Showing(host: Elem, before: nat, pending: bool): View<Tag> {
    View(if before < |host.kids| then Some(host.kids[before]) else None,
         if before + 1 < |host.kids| then host.kids[before + 1].kids else [], pending)
  }

  /** No patch updates or replaces the layer itself; it may gain, lose and reorder
      children, and anything may happen below. */
  predicate SparesHost(ws: seq<Wire>) {
    forall i :: 0 <= i < |ws| ==>
      ws[i].path == [] && Classify(ws[i]).Some? ==> !Classify(ws[i]).value.Update? && !Classify(ws[i]).value.Replace?
  }

  lemma {:induction false} HostTagStays(t: Elem, ws: seq<Wire>)
    requires SparesHost(ws)
    ensures Batch(Renderer, t, ws).tree.tag == t.tag
    decreases |ws|
  {
    if ws != [] && Apply(Renderer, t, ws[0]).Some? {
      var u := Apply(Renderer, t, ws[0]).value;
      assert u.tag == t.tag;
      assert forall i :: 0 <= i < |ws| - 1 ==> ws[1..][i] == ws[i + 1];
      HostTagStays(u, ws[1..]);
    }
  }

  lemma NoRootReplace(ws: seq<Wire>)
    requires SparesHost(ws)
    ensures forall i :: 0 <= i < |ws| ==> !IsRootReplace(ws[i])
  {
    forall i | 0 <= i < |ws| ensures !IsRootReplace(ws[i]) {
      RootReplaceAgrees(ws[i]);
    }
  }

  lemma SparedAfterFirst(ps: PatchBatch)
    requires ps != [] && SparesHost(Addressed(ps, true))
    ensures SparesHost(Addressed(ps[1..], true))
  {
    var os, rest := Addressed(ps, true), Addressed(ps[1..], true);
    forall i | 0 <= i < |rest| ensures rest[i] in os {
      assert os[|os| - |rest| + i] == rest[i];
    }
  }

  /** A fresh layer has nothing in it. */
  lemma BareLayer()
    ensures Build(Tree(LayerShape, [])) == Host(DomFace(), [])
  {
  }

  class LiveMount {
    const host: Element
    var tree: Element?
    var overlayRoot: Element?
    var resyncPending: bool
    const canAsk: bool
    ghost const before: nat
    ghost var page: Snapshot

    ghost predicate Valid()
      reads this, Els(page)
    {
      && Live(page) && Apart(page) && page.tag == host
      && before <= |page.kids| <= before + 2
      && (tree != null <==> before < |page.kids|)
      && (tree != null ==> page.kids[before].tag == tree)
      && (overlayRoot != null <==> before + 1 < |page.kids|)
      && (overlayRoot != null ==> page.kids[before + 1].tag == overlayRoot
                                  && Abs(page).kids[before + 1].tag == Widget(LayerShape))
    }

    ghost function State(): View<Tag>
      reads this, Els(page)
    {
      Showing(Abs(page), before, resyncPending)
    }

    /** A mount starts on a host with whatever children it has, with or without a node to
        show at once. */
    constructor (host: Element, initial: Option<Node>, canAsk: bool, ghost page: Snapshot)
      requires Live(page) && Apart(page) && page.tag == host
      modifies Els(page)
      ensures Valid() && this.canAsk == canAsk
      ensures forall e :: e in Els(this.page) ==> e in Els(page) || fresh(e)
      ensures State() == View(if initial.Some? then Some(Build(initial.value)) else None, [], false)
    {
      this.host := host;
      this.canAsk := canAsk;
      this.before := |page.kids|;
      this.page := page;
      tree, overlayRoot, resyncPending := null, null, false;
      new;
      if initial.Some? {
        MountTree(initial.value);
      }
    }

    method OnPatchFailure() returns (asked: bool)
      requires Valid()
      modifies this`resyncPending
      ensures Valid() && page == old(page)
      ensures Reaction(State(), asked, false) == Failed(old(State()), canAsk)
    {
      asked := false;
      if !resyncPending && canAsk {
        resyncPending := true;
        asked := true;
      }
    }

    /** Build a node and append it to the host. */
    method AppendToHost(node: Node) returns (child: Element)
      requires Valid()
      modifies this`page, host`kids
      ensures page.tag == host && Live(page) && Apart(page)
      ensures |page.kids| == |old(page).kids| + 1 && page.kids[..|old(page).kids|] == old(page).kids
      ensures page.kids[|old(page).kids|].tag == child
      ensures forall e :: e in Els(page) ==> e in old(Els(page)) || fresh(e)
      ensures Abs(page) == Tree(old(Abs(page)).tag, old(Abs(page)).kids + [Build(node)])
    {
      assert host in Els(page);
      ghost var ks;
      page, child, ks := InsertBuilt(host, |host.kids|, node, page);
    }

    /** Build the first tree and append it to the host. */
    method MountTree(node: Node)
      requires Valid() && tree == null
      modifies this`tree, this`page, Els(page)
      ensures Valid() && tree != null
      ensures forall e :: e in Els(page) ==> e in old(Els(page)) || fresh(e)
      ensures State() == old(State()).(tree := Some(Build(node)))
    {
      tree := AppendToHost(node);
    }

    method PatchTree(patches: seq<Wire>) returns (applied: nat)
      requires Valid() && tree != null
      modifies this`tree, this`page, Els(page)
      ensures Valid() && tree != null
      ensures forall e :: e in Els(page) ==> e in old(Els(page)) || fresh(e)
      ensures var r := Batch(Renderer, old(State()).tree.value, patches);
              applied == r.applied && State() == old(State()).(tree := Some(r.tree))
    {
      var current;
      current, applied, page := ApplyToKid(tree, patches, page, before);
      tree := current;
    }

    /** The tree's share of a batch. */
    method ApplyToTree(patches: seq<Wire>) returns (asked: bool)
      requires Valid() && tree != null
      modifies this`tree, this`resyncPending, this`page, Els(page)
      ensures Valid() && tree != null
      ensures forall e :: e in Els(page) ==> e in old(Els(page)) || fresh(e)
      ensures Reaction(State(), asked, false) == TreePart(DomFace(), old(State()), canAsk, patches)
    {
      var applied := PatchTree(patches);
      asked := false;
      if applied < |patches| {
        asked := OnPatchFailure();
      }
    }

    /** Empty the layer, if there is one. */
    method ClearOverlays()
      requires Valid()
      modifies this`page, Els(page)
      ensures Valid()
      ensures forall e :: e in Els(page) ==> e in old(Els(page)) || fresh(e)
      ensures State() == old(State()).(layer := [])
    {
      if overlayRoot != null {
        ghost var was, at := Abs(page), before as int + 1;
        KidAt(page, before + 1);
        page := ClearAt(overlayRoot, page, [at]);
        PutKid(was, before + 1, Tree(Widget(LayerShape), []));
        KidAt(page, before + 1);
      }
    }

    /** The layer's element, made and appended to the host the first time. */
    method OverlayHost() returns (layer: Element)
      requires Valid() && tree != null
      modifies this`overlayRoot, this`page, Els(page)
      ensures Valid() && overlayRoot == layer
      ensures forall e :: e in Els(page) ==> e in old(Els(page)) || fresh(e)
      ensures State() == old(State())
    {
      if overlayRoot == null {
        BareLayer();
        overlayRoot := AppendToHost(Tree(LayerShape, []));
      }
      layer := overlayRoot;
    }

    /** The overlays' share of a batch. */
    method ApplyToLayer(isResync: bool, patches: seq<Wire>) returns (asked: bool)
      requires Valid() && tree != null && SparesHost(patches)
      modifies this`overlayRoot, this`resyncPending, this`page, Els(page)
      ensures Valid() && tree != null
      ensures forall e :: e in Els(page) ==> e in old(Els(page)) || fresh(e)
      ensures Reaction(State(), asked, false) == LayerPart(DomFace(), old(State()), canAsk, isResync, patches)
    {
      asked := false;
      if isResync {
        ClearOverlays();
      }
      if patches != [] {
        asked := PatchLayer(patches);
      }
    }

    /** The layer takes its patches where it stands: with no root replacement among them the
        loop over a tree's patches is the loop over any element's. */
    method PatchThere(layer: Element, patches: seq<Wire>) returns (applied: nat)
      requires Valid() && overlayRoot == layer && SparesHost(patches)
      modifies this`page, Els(page)
      ensures Valid()
      ensures forall e :: e in Els(page) ==> e in old(Els(page)) || fresh(e)
      ensures var r := Batch(Renderer, Host(DomFace(), old(State()).layer), patches);
              applied == r.applied && State() == old(State()).(layer := r.tree.kids)
    {
      ghost var shown := Abs(page).kids[before + 1];
      NoRootReplace(patches);
      HostTagStays(shown, patches);
      assert shown == Host(DomFace(), State().layer);
      var current;
      current, applied, page := ApplyToKid(layer, patches, page, before + 1);
    }

    method PatchLayer(patches: seq<Wire>) returns (asked: bool)
      requires Valid() && tree != null && SparesHost(patches)
      modifies this`overlayRoot, this`resyncPending, this`page, Els(page)
      ensures Valid() && tree != null
      ensures forall e :: e in Els(page) ==> e in old(Els(page)) || fresh(e)
      ensures Reaction(State(), asked, false) == LayerPart(DomFace(), old(State()), canAsk, false, patches)
    {
      var layer := OverlayHost();
      var applied := PatchThere(layer, patches);
      asked := false;
      if applied < |patches| {
        asked := OnPatchFailure();
      }
    }

    /** Tree patches first, then the layer. */
    method ApplyBatch(isResync: bool, patches: PatchBatch) returns (asked: bool)
      requires Valid() && tree != null && SparesHost(Addressed(patches, true))
      modifies this`tree, this`overlayRoot, this`resyncPending, this`page, Els(page)
      ensures Valid() && tree != null
      ensures forall e :: e in Els(page) ==> e in old(Els(page)) || fresh(e)
      ensures Reaction(State(), asked, false) == Applied(DomFace(), old(State()), canAsk, isResync, patches)
    {
      var treePatches, overlayPatches := Split(patches);
      assert old(allocated(Els(page)));
      asked := ApplyToTree(treePatches);
      var again := ApplyToLayer(isResync, overlayPatches);
      asked := asked || again;
    }

    predicate BringsNode(patches: PatchBatch) {
      patches != [] && patches[0].wire.node.Some?
    }

    /** Before there is a tree, the first patch must bring one. */
    method Land(isResync: bool, patches: PatchBatch) returns (asked: bool, threw: bool)
      requires Valid() && SparesHost(Addressed(patches, true))
      modifies this`tree, this`overlayRoot, this`resyncPending, this`page, Els(page)
      ensures Valid()
      ensures forall e :: e in Els(page) ==> e in old(Els(page)) || fresh(e)
      ensures threw <==> old(tree) == null && !BringsNode(patches)
      ensures threw ==> !asked && State() == old(State())
      ensures old(tree) != null ==>
                Reaction(State(), asked, false) == Applied(DomFace(), old(State()), canAsk, isResync, patches)
      ensures old(tree) == null && !threw ==>
                var v := old(State()).(tree := Some(Build(patches[0].wire.node.value)));
                Reaction(State(), asked, false) == Applied(DomFace(), v, canAsk, isResync, patches[1..])
    {
      var batch := patches;
      if tree == null {
        if !BringsNode(patches) {
          return false, true;
        }
        SparedAfterFirst(patches);
        MountTree(patches[0].wire.node.value);
        batch := patches[1..];
      }
      asked := ApplyBatch(isResync, batch);
      threw := false;
    }

    /** A root replacement is the answer awaited, if one is. */
    method LowerFlag(patches: PatchBatch) returns (isResync: bool)
      requires Valid()
      modifies this`resyncPending
      ensures Valid() && isResync == (old(resyncPending) && HasRoot(patches))
      ensures State() == if HasRoot(patches) then old(State()).(pending := false) else old(State())
    {
      var hasRoot := SomeRoot(patches);
      assert old(allocated(Els(page)));
      isResync := resyncPending && hasRoot;
      if hasRoot { resyncPending := false; }
    }

    /** The transport's patch callback. */
    method OnPatches(patches: PatchBatch) returns (asked: bool, threw: bool)
      requires Valid() && SparesHost(Addressed(patches, true))
      modifies this, Els(page)
      ensures Valid()
      ensures forall e :: e in Els(page) ==> e in old(Els(page)) || fresh(e)
      ensures Reaction(State(), asked, threw) == Handle(DomFace(), old(State()), canAsk, patches)
    {
      var isResync := LowerFlag(patches);
      asked, threw := Land(isResync, patches);
    }
  }

  // ---- The client ------------------------------------------------------------------------------

  /** No frame in flight carries a patch to the layer itself. */
  predicate Spares(f: Frame) {
    f.Diff? ==> SparesHost(Addressed(f.patches, true))
  }

  lemma {:induction false} InsertsSpare(overlays: seq<Node>, from: nat)
    requires from <= |overlays|
    ensures SparesHost(Addressed(Inserts(overlays, from), true))
    decreases |overlays| - from
  {
    if from < |overlays| {
      var rest := Inserts(overlays, from + 1);
      InsertsSpare(overlays, from + 1);
      assert Inserts(overlays, from)[1..] == rest;
      assert Addressed(Inserts(overlays, from), true)
             == [OverlayInsert(from, overlays[from]).wire] + Addressed(rest, true);
    }
  }

  /** The decoder and the mount together, on live elements. */
  class LiveClient {
    const decoder: WireDecoder
    const mount: LiveMount

    ghost predicate Valid()
      reads mount, Els(mount.page)
    {
      mount.Valid() && mount.canAsk
    }

    ghost function State(): Client<Tag>
      reads decoder, mount, Els(mount.page)
    {
      Client(mount.State(), decoder.resyncPending)
    }

    constructor (mount: LiveMount)
      requires mount.Valid() && mount.canAsk
      ensures Valid() && this.mount == mount && State() == Client(mount.State(), false)
    {
      assert old(allocated(Els(mount.page)));
      decoder := new WireDecoder();
      this.mount := mount;
    }

    /** One frame: decode it and hand its patches to the mount. */
    method Receive(f: Frame) returns (asks: nat)
      requires Valid() && Spares(f)
      modifies decoder, mount, Els(mount.page)
      ensures Valid()
      ensures forall e :: e in Els(mount.page) ==> e in old(Els(mount.page)) || fresh(e)
      ensures Received(State(), asks) == Repair.Receive(DomFace(), old(State()), f)
    {
      assert old(allocated(Els(mount.page)));
      var ok, ask := decoder.Decode(f.Garbled?);
      asks := if ask then 1 else 0;
      if ok && (f.Diff? || f.Full?) {
        var asked := Apply(f);
        asks := if asked then 1 else 0;
      }
    }

    method Apply(f: Frame) returns (asked: bool)
      requires Valid() && Spares(f) && (f.Diff? || f.Full?)
      modifies mount, Els(mount.page)
      ensures Valid()
      ensures forall e :: e in Els(mount.page) ==> e in old(Els(mount.page)) || fresh(e)
      ensures var r := Handle(DomFace(), old(mount.State()), true, if f.Diff? then f.patches else FullScene(f.scene));
              mount.State() == r.view && asked == r.asked
    {
      assert old(allocated(Els(mount.page)));
      var patches;
      if f.Diff? {
        patches := f.patches;
      } else {
        patches := SceneToInitialPatches(f.scene);
        FullAddressed(f.scene);
        InsertsSpare(f.scene.overlays, 0);
      }
      var threw;
      asked, threw := mount.OnPatches(patches);
    }

    /** Every frame in flight, in order: the live client ends where the protocol says the
        client ends, having asked as often. */
    method ReceiveAll(fs: seq<Frame>) returns (asks: nat)
      requires Valid() && forall i :: 0 <= i < |fs| ==> Spares(fs[i])
      modifies decoder, mount, Els(mount.page)
      ensures Valid()
      ensures Received(State(), asks) == Drain(DomFace(), old(State()), fs)
    {
      asks := 0;
      for i := 0 to |fs|
        invariant Valid()
        invariant forall e :: e in Els(mount.page) ==> e in old(Els(mount.page)) || fresh(e)
        invariant var rest := Drain(DomFace(), State(), fs[i..]);
                  rest.(asks := asks + rest.asks) == Drain(DomFace(), old(State()), fs)
      {
        assert fs[i..][0] == fs[i] && fs[i..][1..] == fs[i + 1..];
        var more := Receive(fs[i]);
        asks := asks + more;
      }
      assert fs[|fs|..] == [];
    }

    /** Once no repair is owed, the frames in flight leave the objects on the page, less
        what the renderer drew into them, as the tree Python holds. */
    method CatchUp(fs: seq<Frame>, ghost first: Scene, ghost steps: seq<Step>)
      requires Valid() && forall i :: 0 <= i < |fs| ==> Spares(fs[i])
      requires TypedScene(first) && LiveRun(EmptyPage(first), steps)
      requires var w := LiveWorld(first, steps);
               w.client == State() && w.down == fs && Owed(DomFace(), w) == 0
      modifies decoder, mount, Els(mount.page)
      ensures Valid() && mount.tree != null
      ensures Shows(Abs(mount.page).kids[mount.before], LiveWorld(first, steps).server.root)
    {
      LiveDebt(first, steps);
      var asks := ReceiveAll(fs);
      assert TreeShows(DomFace(), State().view.tree.value, LiveWorld(first, steps).server.root);
    }
  }
}
