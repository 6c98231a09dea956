/**
 The repair protocol as a two-party machine: Python's session and the mounted
 client, one FIFO of frames down, one stream of repair requests up.

 The server never learns what the client holds. What makes that safe is a debt:
 play the frames still in flight on the client, and either it ends on the server's
 scene or somebody has asked, or will ask, for a fresh one.
 */
module Repair {
  import opened Common
  import opened Tree
  import opened ChildList
  import opened Patches
  import opened Mount

  datatype Scene = Scene(root: Node, overlays: seq<Node>)

  // ---- The full scene a request is answered with -------------------------------------

  function RootReplace(n: Node): ScenePatch {
    ScenePatch(false, Wire([], None, None, None, Some(n), None))
  }

  function OverlayInsert(index: int, n: Node): ScenePatch {
    ScenePatch(true, Wire([], None, None, None, Some(n), Some(index)))
  }

  function Inserts(overlays: seq<Node>, from: nat): (r: PatchBatch)
    requires from <= |overlays|
    ensures |r| == |overlays| - from
    decreases |overlays| - from
  {
    if from == |overlays| then [] else [OverlayInsert(from, overlays[from])] + Inserts(overlays, from + 1)
  }

  function FullScene(s: Scene): PatchBatch {
    [RootReplace(s.root)] + Inserts(s.overlays, 0)
  }

  method SceneToInitialPatches(s: Scene) returns (patches: PatchBatch)
    ensures patches == FullScene(s)
  {
    patches := [RootReplace(s.root)];
    for index := 0 to |s.overlays|
      invariant patches + Inserts(s.overlays, index) == FullScene(s)
    {
      patches := patches + [OverlayInsert(index, s.overlays[index])];
    }
  }

  // ---- Faces that keep their promises -------------------------------------------------

  /** A replacement is the new node's build; an insert puts the build at its index. */
  ghost predicate Lawful<L(!new)>(face: Face<L>) {
    && (forall t: Tree<L>, n: Node :: face.act(Op.Replace(n))(t) == face.build(n))
    && (forall t: Tree<L>, i: int, n: Node ::
          face.act(Op.Insert(i, n))(t) == t.(kids := Inserted(t.kids, i, face.build(n))))
  }

  predicate Showable<L>(face: Face<L>, n: Node) {
    face.read(face.build(n)) == Some(Scrub(n))
  }

  predicate SceneShowable<L>(face: Face<L>, s: Scene) {
    && Showable(face, s.root)
    && forall i :: 0 <= i < |s.overlays| ==> Showable(face, s.overlays[i])
  }

  predicate TreeShows<L>(face: Face<L>, t: Tree<L>, n: Node) {
    face.read(t) == Some(Scrub(n))
  }

  predicate LayerShows<L>(face: Face<L>, layer: seq<Tree<L>>, ns: seq<Node>) {
    |layer| == |ns| && forall i :: 0 <= i < |ns| ==> TreeShows(face, layer[i], ns[i])
  }

  /** A correct diff: on anything showing the old scene every patch applies, and the
      result shows the new one. */
  ghost predicate Diffs<L(!new)>(face: Face<L>, from: Scene, to: Scene, ps: PatchBatch) {
    && (forall t: Tree<L> :: TreeShows(face, t, from.root) ==>
          var r := Batch(face.act, t, Addressed(ps, false));
          r.applied == |Addressed(ps, false)| && TreeShows(face, r.tree, to.root))
    && (forall layer: seq<Tree<L>> :: LayerShows(face, layer, from.overlays) ==>
          var r := Batch(face.act, Host(face, layer), Addressed(ps, true));
          r.applied == |Addressed(ps, true)| && LayerShows(face, r.tree.kids, to.overlays))
  }

  // ---- The machine ------------------------------------------------------------------------

  /** What travels down: a frame that does not parse, an envelope that carries no
      patches, a diff, a full scene. */
  datatype Frame = Garbled | Chatter | Diff(patches: PatchBatch) | Full(scene: Scene)

  datatype Client<!L> = Client(view: View<L>, garbling: bool)

  datatype Received<!L> = Received(client: Client<L>, asks: nat)

  /** The decoder's flag is down after any frame that parses. */
  function Receive<L>(face: Face<L>, c: Client<L>, f: Frame): Received<L> {
    match f
    case Garbled => Received(c.(garbling := true), if c.garbling then 0 else 1)
    case Chatter => Received(c.(garbling := false), 0)
    case Diff(ps) =>
      var r := Handle(face, c.view, true, ps);
      Received(Client(r.view, false), if r.asked then 1 else 0)
    case Full(s) =>
      var r := Handle(face, c.view, true, FullScene(s));
      Received(Client(r.view, false), if r.asked then 1 else 0)
  }

  /** The client once every frame in flight has arrived, and what it asked for. */
  function Drain<L>(face: Face<L>, c: Client<L>, fs: seq<Frame>): Received<L>
    decreases |fs|
  {
    if fs == [] then Received(c, 0)
    else
      var first := Receive(face, c, fs[0]);
      var rest := Drain(face, first.client, fs[1..]);
      rest.(asks := first.asks + rest.asks)
  }

  datatype World<!L> = World(server: Scene, down: seq<Frame>, up: nat, client: Client<L>)

  /** The client as it will be when everything in flight has arrived. */
  function End<L>(face: Face<L>, w: World<L>): Client<L> {
    Drain(face, w.client, w.down).client
  }

  /** Requests made and not yet answered, counting those the frames in flight will
      provoke. */
  function Owed<L>(face: Face<L>, w: World<L>): nat {
    w.up + Drain(face, w.client, w.down).asks
  }

  /** Any frame may arrive undecodable. */
  datatype Step =
    | Tick(next: Scene, patches: PatchBatch, garbled: bool)  // a new scene, sent as a diff
    | Say                                                    // any other envelope
    | Answer(garbled: bool)                                  // a request reaches the server
    | Resend(garbled: bool)                                  // a full scene nobody asked for
    | Reconnect(garbled: bool, up: nat)                      // a new connection, and what is asked over it
    | Deliver                                                // a frame reaches the client

  /** The step can happen. Of an undecodable full scene it is required that it will be
      noticed, by a decoder not already waiting, or that another is still to come. */
  predicate Possible<L>(face: Face<L>, w: World<L>, s: Step) {
    match s
    case Answer(garbled) => w.up > 0 && (garbled ==> !End(face, w).garbling || Owed(face, w) > 1)
    case Reconnect(garbled, up) => garbled ==> !w.client.garbling || up > 0
    case Deliver => w.down != []
    case _ => true
  }

  ghost predicate Legal<L(!new)>(face: Face<L>, w: World<L>, s: Step) {
    && Possible(face, w, s)
    && (s.Tick? ==> SceneShowable(face, s.next) && Diffs(face, w.server, s.next, s.patches))
  }

  function Whole(s: Scene, garbled: bool): Frame {
    if garbled then Garbled else Full(s)
  }

  /** A reconnect takes the frames and the requests in flight with it. */
  function Next<L>(face: Face<L>, w: World<L>, s: Step): World<L>
    requires s.Answer? ==> w.up > 0
    requires s.Deliver? ==> w.down != []
  {
    match s
    case Tick(next, ps, garbled) => w.(server := next, down := w.down + [if garbled then Garbled else Diff(ps)])
    case Say => w.(down := w.down + [Chatter])
    case Answer(garbled) => w.(up := w.up - 1, down := w.down + [Whole(w.server, garbled)])
    case Resend(garbled) => w.(down := w.down + [Whole(w.server, garbled)])
    case Reconnect(garbled, up) => w.(down := [Whole(w.server, garbled)], up := up)
    case Deliver =>
      var r := Receive(face, w.client, w.down[0]);
      w.(down := w.down[1..], up := w.up + r.asks, client := r.client)
  }

  ghost predicate LegalRun<L(!new)>(face: Face<L>, w: World<L>, steps: seq<Step>)
    decreases |steps|
  {
    steps == [] || (Legal(face, w, steps[0]) && LegalRun(face, Next(face, w, steps[0]), steps[1..]))
  }

  ghost function Run<L(!new)>(face: Face<L>, w: World<L>, steps: seq<Step>): World<L>
    requires LegalRun(face, w, steps)
    decreases |steps|
  {
    if steps == [] then w else Run(face, Next(face, w, steps[0]), steps[1..])
  }

  // ---- What a full scene does ---------------------------------------------------------

  function Built<L>(face: Face<L>, ns: seq<Node>): (r: seq<Tree<L>>)
    ensures |r| == |ns|
  {
    seq(|ns|, i requires 0 <= i < |ns| => face.build(ns[i]))
  }

  lemma {:induction false} InsertsAddressed(overlays: seq<Node>, from: nat)
    requires from <= |overlays|
    ensures Addressed(Inserts(overlays, from), false) == []
    decreases |overlays| - from
  {
    if from < |overlays| {
      InsertsAddressed(overlays, from + 1);
      assert Inserts(overlays, from)[1..] == Inserts(overlays, from + 1);
    }
  }

  /** Inserting overlay by overlay puts them, in order, before what was there. */
  lemma {:induction false} InsertsBuild<L(!new)>(face: Face<L>, overlays: seq<Node>, from: nat, below: seq<Tree<L>>)
    requires Lawful(face)
    requires from <= |overlays|
    ensures var os := Addressed(Inserts(overlays, from), true);
            Batch(face.act, Host(face, Built(face, overlays[..from]) + below), os)
              == Outcome(Host(face, Built(face, overlays) + below), |os|)
    decreases |overlays| - from
  {
    var done := Built(face, overlays[..from]) + below;
    if from == |overlays| {
      assert overlays[..from] == overlays;
    } else {
      var w := OverlayInsert(from, overlays[from]).wire;
      var rest := Inserts(overlays, from + 1);
      assert Inserts(overlays, from)[1..] == rest;
      var os := Addressed(Inserts(overlays, from), true);
      assert os[1..] == Addressed(rest, true);
      assert Classify(w) == Some(Op.Insert(from, overlays[from]));
      assert Inserted(done, from, face.build(overlays[from])) == Built(face, overlays[..from + 1]) + below;
      assert Apply(face.act, Host(face, done), w) == Some(Host(face, Built(face, overlays[..from + 1]) + below));
      InsertsBuild(face, overlays, from + 1, below);
    }
  }

  lemma FullAddressed(s: Scene)
    ensures var ps := FullScene(s);
            && HasRoot(ps)
            && ps[1..] == Inserts(s.overlays, 0)
            && Addressed(ps, false) == [RootReplace(s.root).wire]
            && Addressed(ps, true) == Addressed(Inserts(s.overlays, 0), true)
            && Addressed(Inserts(s.overlays, 0), false) == []
  {
    var ps := FullScene(s);
    assert ps[0] == RootReplace(s.root) && ReplacesRoot(ps[0]);
    assert ps[1..] == Inserts(s.overlays, 0);
    InsertsAddressed(s.overlays, 0);
  }

  lemma RootLands<L(!new)>(face: Face<L>, v: View<L>, n: Node)
    requires Lawful(face) && v.tree.Some?
    ensures TreePart(face, v, true, [RootReplace(n).wire]) == Reaction(v.(tree := Some(face.build(n))), false, false)
  {
    var w := RootReplace(n).wire;
    assert Classify(w) == Some(Op.Replace(n));
    assert Apply(face.act, v.tree.value, w) == Some(face.build(n));
    assert [w][1..] == [];
    assert Batch(face.act, v.tree.value, [w]) == Outcome(face.build(n), 1);
  }

  lemma OverlaysLand<L(!new)>(face: Face<L>, v: View<L>, isResync: bool, overlays: seq<Node>)
    requires Lawful(face)
    ensures LayerPart(face, v, true, isResync, Addressed(Inserts(overlays, 0), true))
            == Reaction(v.(layer := Built(face, overlays) + (if isResync then [] else v.layer)), false, false)
  {
    var below := if isResync then [] else v.layer;
    InsertsBuild(face, overlays, 0, below);
    assert Built(face, overlays[..0]) + below == below;
  }

  /** A full scene always lands: it sets the tree, lowers the flag, asks for nothing,
      and puts its overlays before whatever the layer still held. */
  lemma FullHandled<L(!new)>(face: Face<L>, v: View<L>, s: Scene)
    requires Lawful(face)
    ensures Handle(face, v, true, FullScene(s))
              == Reaction(View(Some(face.build(s.root)),
                               Built(face, s.overlays) + (if v.pending then [] else v.layer), false), false, false)
  {
    FullAddressed(s);
    var v0 := View(Some(face.build(s.root)), v.layer, false);
    if v.tree.Some? {
      RootLands(face, v.(pending := false), s.root);
    } else {
      assert TreePart(face, v0, true, []) == Reaction(v0, false, false);
    }
    OverlaysLand(face, v0, v.pending, s.overlays);
  }

  /** After a full scene the layer is the server's overlays exactly when the frame
      answered a repair the mount had asked for, or there was nothing below. */
  lemma OverlaysExactly<L(!new)>(face: Face<L>, v: View<L>, s: Scene)
    requires Lawful(face) && SceneShowable(face, s)
    ensures LayerShows(face, Handle(face, v, true, FullScene(s)).view.layer, s.overlays)
            <==> v.pending || v.layer == []
  {
    FullHandled(face, v, s);
  }

  /** Such a layer, reached from an empty page: the first scene arrives, another comes that
      the mount did not ask for, and everything falls silent with each overlay shown twice. */
  lemma OverlaysStack<L(!new)>(face: Face<L>, s: Scene, again: Step)
    requires Lawful(face) && SceneShowable(face, s)
    requires again == Resend(false) || again == Reconnect(false, 0)
    ensures var steps := [Deliver, again, Deliver];
            && LegalRun(face, EmptyPage(s), steps)
            && var z := Run(face, EmptyPage(s), steps);
               && z.down == [] && z.up == 0 && Synced(face, z.client, s)
               && z.client.view.layer == Built(face, s.overlays) + Built(face, s.overlays)
               && (LayerShows(face, z.client.view.layer, s.overlays) <==> s.overlays == [])
  {
    var w := EmptyPage<L>(s);
    FullHandled(face, w.client.view, s);
    var shown := Next(face, w, Deliver);
    assert shown == World(s, [], 0, Client(View(Some(face.build(s.root)), Built(face, s.overlays), false), false));
    FullHandled(face, shown.client.view, s);
    var sent := Next(face, shown, again);
    assert sent == shown.(down := [Full(s)]);
    assert [Deliver, again, Deliver][1..] == [again, Deliver] && [again, Deliver][1..] == [Deliver];
    OneStep(face, sent, Deliver);
    assert LegalRun(face, shown, [again, Deliver]);
  }

  lemma OneStep<L(!new)>(face: Face<L>, w: World<L>, s: Step)
    requires Legal(face, w, s)
    ensures LegalRun(face, w, [s]) && Run(face, w, [s]) == Next(face, w, s)
  {
    assert [s][1..] == [];
  }

  // ---- What a diff does -------------------------------------------------------------------

  /** A raised flag is a request made: the flag never goes up on its own. */
  lemma FlagAsks<L>(face: Face<L>, v: View<L>, ps: PatchBatch)
    ensures var r := Handle(face, v, true, ps);
            r.view.pending ==> r.asked || (v.pending && !HasRoot(ps))
    ensures var r := Handle(face, v, true, ps);
            r.asked ==> r.view.pending && (v.pending ==> HasRoot(ps))
  {
  }

  /** A correct diff moves a synchronized client to the new scene. */
  lemma DiffHandled<L(!new)>(face: Face<L>, v: View<L>, from: Scene, to: Scene, ps: PatchBatch)
    requires Diffs(face, from, to, ps)
    requires v.tree.Some? && TreeShows(face, v.tree.value, from.root)
    ensures var r := Handle(face, v, true, ps);
            && r.view.tree.Some? && TreeShows(face, r.view.tree.value, to.root)
            && (LayerShows(face, v.layer, from.overlays) && !(v.pending && HasRoot(ps)) ==>
                  !r.asked && LayerShows(face, r.view.layer, to.overlays))
  {
  }

  // ---- Self-repair ----------------------------------------------------------------------------

  predicate Synced<L>(face: Face<L>, c: Client<L>, s: Scene) {
    c.view.tree.Some? && TreeShows(face, c.view.tree.value, s.root)
  }

  /** The debt invariant. */
  predicate Consistent<L>(face: Face<L>, w: World<L>) {
    var end := End(face, w);
    && SceneShowable(face, w.server)
    && (Owed(face, w) == 0 ==> Synced(face, end, w.server) && !end.view.pending && !end.garbling)
  }

  lemma {:induction false} DrainSnoc<L>(face: Face<L>, c: Client<L>, fs: seq<Frame>, f: Frame)
    ensures var d := Drain(face, c, fs);
            var r := Receive(face, d.client, f);
            Drain(face, c, fs + [f]) == Received(r.client, d.asks + r.asks)
    decreases |fs|
  {
    if fs == [] {
      assert ([] + [f])[1..] == [];
      assert fs + [f] == [f];
    } else {
      assert (fs + [f])[0] == fs[0] && (fs + [f])[1..] == fs[1..] + [f];
      DrainSnoc(face, Receive(face, c, fs[0]).client, fs[1..], f);
    }
  }

  /** A full scene put on the wire, decodable or not. */
  lemma WholeSent<L(!new)>(face: Face<L>, w: World<L>, garbled: bool)
    requires Lawful(face)
    ensures var z := w.(down := w.down + [Whole(w.server, garbled)]);
            var end := End(face, w);
            if garbled then
              && End(face, z) == end.(garbling := true)
              && Owed(face, z) == Owed(face, w) + if end.garbling then 0 else 1
            else
              && End(face, z) == Client(Handle(face, end.view, true, FullScene(w.server)).view, false)
              && Owed(face, z) == Owed(face, w)
  {
    DrainSnoc(face, w.client, w.down, Whole(w.server, garbled));
    FullHandled(face, End(face, w).view, w.server);
  }

  lemma Reconnected<L(!new)>(face: Face<L>, w: World<L>, garbled: bool, up: nat)
    requires Lawful(face)
    ensures var z := Next(face, w, Reconnect(garbled, up));
            if garbled then
              && End(face, z) == w.client.(garbling := true)
              && Owed(face, z) == up + if w.client.garbling then 0 else 1
            else
              && End(face, z) == Client(Handle(face, w.client.view, true, FullScene(w.server)).view, false)
              && Owed(face, z) == up
  {
    WholeSent(face, w.(down := [], up := up), garbled);
    assert [] + [Whole(w.server, garbled)] == [Whole(w.server, garbled)];
  }

  lemma StepConsistent<L(!new)>(face: Face<L>, w: World<L>, s: Step)
    requires Lawful(face) && Consistent(face, w) && Legal(face, w, s)
    ensures Consistent(face, Next(face, w, s))
  {
    var end := End(face, w);
    match s
    case Tick(next, ps, garbled) =>
      DrainSnoc(face, w.client, w.down, if garbled then Garbled else Diff(ps));
      FlagAsks(face, end.view, ps);
      if Synced(face, end, w.server) {
        DiffHandled(face, end.view, w.server, next, ps);
      }
    case Say =>
      DrainSnoc(face, w.client, w.down, Chatter);
    case Answer(garbled) =>
      WholeSent(face, w.(up := w.up - 1), garbled);
      FullHandled(face, end.view, w.server);
    case Resend(garbled) =>
      WholeSent(face, w, garbled);
      FullHandled(face, end.view, w.server);
    case Reconnect(garbled, up) =>
      Reconnected(face, w, garbled, up);
      FullHandled(face, w.client.view, w.server);
    case Deliver =>
  }

  /** An undecodable answer keeps the debt exactly when it will be noticed, by a decoder
      not already waiting behind the frames in flight, or is not the last one owed. */
  lemma GarbledAnswerExactly<L(!new)>(face: Face<L>, w: World<L>)
    requires Lawful(face) && Consistent(face, w) && w.up > 0
    ensures Consistent(face, Next(face, w, Answer(true))) <==> Possible(face, w, Answer(true))
  {
    WholeSent(face, w.(up := w.up - 1), true);
  }

  /** So does an undecodable scene over a new connection. */
  lemma GarbledReconnectExactly<L(!new)>(face: Face<L>, w: World<L>, up: nat)
    requires Lawful(face) && SceneShowable(face, w.server)
    ensures Consistent(face, Next(face, w, Reconnect(true, up))) <==> Possible(face, w, Reconnect(true, up))
  {
    Reconnected(face, w, true, up);
  }

  /** What happens when it is not kept: the first scene is lost, and so is the answer to
      the request that makes. Everything stops, with nothing mounted and nobody asking. */
  lemma GarbledAnswerStalls<L(!new)>(face: Face<L>, s: Scene)
    ensures var w := EmptyPage<L>(s).(down := [Garbled]);
            var asked := Next(face, w, Deliver);
            asked.up == 1 && !Possible(face, asked, Answer(true))
    ensures var w := EmptyPage<L>(s).(down := [Garbled]);
            var z := Next(face, Next(face, Next(face, w, Deliver), Answer(true)), Deliver);
            && z.down == [] && z.up == 0
            && !Possible(face, z, Answer(false)) && !Possible(face, z, Deliver)
            && !Synced(face, z.client, z.server)
  {
    var w := EmptyPage<L>(s).(down := [Garbled]);
    var asked := Next(face, w, Deliver);
    assert asked.down == [] && asked.client.garbling;
    assert Drain(face, asked.client, asked.down) == Received(asked.client, 0);
    assert Next(face, asked, Answer(true)).down == [Garbled];
  }

  /** Self-repair: whatever ticks, undecodable frames, failed patches, requests, answers
      and reconnects interleave, the debt invariant holds; so once both channels are empty
      the client shows the server's tree and neither flag is up. */
  lemma {:induction false} SelfRepair<L(!new)>(face: Face<L>, w: World<L>, steps: seq<Step>)
    requires Lawful(face) && Consistent(face, w) && LegalRun(face, w, steps)
    ensures var z := Run(face, w, steps);
            && Consistent(face, z)
            && (z.down == [] && z.up == 0 ==>
                  Synced(face, z.client, z.server) && !z.client.view.pending && !z.client.garbling)
    decreases |steps|
  {
    if steps != [] {
      StepConsistent(face, w, steps[0]);
      SelfRepair(face, Next(face, w, steps[0]), steps[1..]);
    }
  }

  /** Nothing mounted yet, the first scene on its way. */
  function EmptyPage<L>(first: Scene): World<L> {
    World(first, [Full(first)], 0, Client(View(None, [], false), false))
  }

  /** Both ways of mounting start inside the invariant: from an initial node, or from
      nothing with the first scene on its way, even undecodable. */
  lemma StartsConsistent<L(!new)>(face: Face<L>, s: Scene)
    requires Lawful(face) && SceneShowable(face, s)
    ensures Consistent(face, World(s, [], 0, Client(View(Some(face.build(s.root)), [], false), false)))
    ensures FullyConsistent(face, EmptyPage(s)) && Consistent(face, EmptyPage(s))
    ensures Consistent(face, EmptyPage(s).(down := [Garbled]))
  {
    var c := Client(View<L>.View(None, [], false), false);
    FullHandled(face, c.view, s);
    DrainSnoc(face, c, [], Full(s));
    DrainSnoc(face, c, [], Garbled);
    assert [] + [Full(s)] == [Full(s)] && [] + [Garbled] == [Garbled];
  }

  // ---- It settles ------------------------------------------------------------------------

  function Weight(f: Frame): nat { if f.Full? then 1 else 3 }

  function Backlog(fs: seq<Frame>): nat {
    if fs == [] then 0 else Weight(fs[0]) + Backlog(fs[1..])
  }

  lemma {:induction false} BacklogSnoc(fs: seq<Frame>, f: Frame)
    ensures Backlog(fs + [f]) == Backlog(fs) + Weight(f)
  {
    if fs == [] {
      assert fs + [f] == [f];
    } else {
      assert (fs + [f])[1..] == fs[1..] + [f];
      BacklogSnoc(fs[1..], f);
    }
  }

  /** Work left before the channels run dry: a frame may cost a request, a request
      costs a scene, a scene costs nothing more. */
  function Load<L>(w: World<L>): nat {
    2 * w.up + Backlog(w.down)
  }

  predicate Draining(steps: seq<Step>) {
    forall i :: 0 <= i < |steps| ==> steps[i] == Answer(false) || steps[i] == Deliver
  }

  /** Repair is inevitable: once the server falls silent and its answers decode, at most
      `Load` deliveries and answers remain in any order, and when none is possible the two
      agree. */
  lemma {:induction false} Settles<L(!new)>(face: Face<L>, w: World<L>, steps: seq<Step>)
    requires Lawful(face) && Consistent(face, w) && LegalRun(face, w, steps) && Draining(steps)
    ensures var z := Run(face, w, steps);
            && |steps| + Load(z) <= Load(w)
            && z.server == w.server
            && (!Legal(face, z, Answer(false)) && !Legal(face, z, Deliver) <==> Load(z) == 0)
            && (Load(z) == 0 ==> Synced(face, z.client, w.server))
    decreases |steps|
  {
    if steps == [] {
      assert w.down != [] ==> Weight(w.down[0]) > 0;
    } else {
      StepConsistent(face, w, steps[0]);
      assert steps[0] == Answer(false) || steps[0] == Deliver;
      if steps[0].Answer? {
        BacklogSnoc(w.down, Full(w.server));
      } else if w.down[0].Full? {
        FullHandled(face, w.client.view, w.down[0].scene);
      }
      Settles(face, Next(face, w, steps[0]), steps[1..]);
    }
  }

  // ---- Requests never flood -------------------------------------------------------------

  /** Whether the mount asks at each batch it is handed. */
  function MountAsks<L>(face: Face<L>, v: View<L>, batches: seq<PatchBatch>): (r: seq<bool>)
    ensures |r| == |batches|
    decreases |batches|
  {
    if batches == [] then []
    else
      var h := Handle(face, v, true, batches[0]);
      [h.asked] + MountAsks(face, h.view, batches[1..])
  }

  lemma FlagStays<L>(face: Face<L>, v: View<L>, ps: PatchBatch)
    requires v.pending && !HasRoot(ps)
    ensures Handle(face, v, true, ps).view.pending
  {
  }

  lemma AskRaises<L>(face: Face<L>, v: View<L>, batches: seq<PatchBatch>)
    requires batches != [] && MountAsks(face, v, batches)[0]
    ensures Handle(face, v, true, batches[0]).view.pending
    ensures v.pending ==> HasRoot(batches[0])
  {
    FlagAsks(face, v, batches[0]);
  }

  lemma LaterAsks<L>(face: Face<L>, v: View<L>, batches: seq<PatchBatch>, j: nat)
    requires 0 < j < |batches|
    ensures MountAsks(face, v, batches)[j]
            == MountAsks(face, Handle(face, v, true, batches[0]).view, batches[1..])[j - 1]
  {
  }

  /** While the flag is up, the next request comes with or after a root replacement. */
  lemma {:induction false} PendingHolds<L>(face: Face<L>, v: View<L>, batches: seq<PatchBatch>, j: nat)
    returns (k: nat)
    requires v.pending && j < |batches| && MountAsks(face, v, batches)[j]
    ensures k <= j && HasRoot(batches[k])
    decreases |batches|
  {
    if HasRoot(batches[0]) {
      k := 0;
    } else {
      if j == 0 {
        AskRaises(face, v, batches);
      }
      FlagStays(face, v, batches[0]);
      LaterAsks(face, v, batches, j);
      k := PendingHolds(face, Handle(face, v, true, batches[0]).view, batches[1..], j - 1);
      k := k + 1;
    }
  }

  lemma {:induction false} Skip<L>(face: Face<L>, v: View<L>, batches: seq<PatchBatch>, i: nat) returns (u: View<L>)
    requires i <= |batches|
    ensures MountAsks(face, u, batches[i..]) == MountAsks(face, v, batches)[i..]
    decreases i
  {
    u := v;
    if i > 0 {
      u := Skip(face, Handle(face, v, true, batches[0]).view, batches[1..], i - 1);
      assert batches[1..][i - 1..] == batches[i..];
    }
  }

  lemma AskedThenHeld<L>(face: Face<L>, v: View<L>, batches: seq<PatchBatch>, j: nat) returns (k: nat)
    requires 0 < j < |batches| && MountAsks(face, v, batches)[0] && MountAsks(face, v, batches)[j]
    ensures 0 < k <= j && HasRoot(batches[k])
  {
    AskRaises(face, v, batches);
    LaterAsks(face, v, batches, j);
    k := PendingHolds(face, Handle(face, v, true, batches[0]).view, batches[1..], j - 1);
    k := k + 1;
  }

  lemma RootBetween<L>(face: Face<L>, v: View<L>, batches: seq<PatchBatch>, i: nat, j: nat) returns (k: nat)
    requires i < j < |batches|
    requires MountAsks(face, v, batches)[i] && MountAsks(face, v, batches)[j]
    ensures i < k <= j && HasRoot(batches[k])
  {
    var u := Skip(face, v, batches, i);
    var after := batches[i..];
    assert MountAsks(face, u, after) == MountAsks(face, v, batches)[i..];
    k := AskedThenHeld(face, u, after, j - i);
    k := k + i;
  }

  /** Any two requests of the mount are separated by a root replacement. */
  lemma NoFlood<L>(face: Face<L>, v: View<L>, batches: seq<PatchBatch>, i: nat, j: nat)
    requires i < j < |batches|
    ensures MountAsks(face, v, batches)[i] && MountAsks(face, v, batches)[j] ==>
              exists k :: i < k <= j && HasRoot(batches[k])
  {
    if MountAsks(face, v, batches)[i] && MountAsks(face, v, batches)[j] {
      var k := RootBetween(face, v, batches, i, j);
    }
  }

  /** The frames a run delivers. */
  ghost function Delivered<L(!new)>(face: Face<L>, w: World<L>, steps: seq<Step>): seq<Frame>
    requires LegalRun(face, w, steps)
    decreases |steps|
  {
    if steps == [] then []
    else (if steps[0].Deliver? then [w.down[0]] else []) + Delivered(face, Next(face, w, steps[0]), steps[1..])
  }

  /** The requests its undecodable frames provoke. */
  ghost function DecoderAsks<L(!new)>(face: Face<L>, w: World<L>, steps: seq<Step>): nat
    requires LegalRun(face, w, steps)
    decreases |steps|
  {
    if steps == [] then 0
    else
      (if steps[0].Deliver? && w.down[0].Garbled? then Receive(face, w.client, w.down[0]).asks else 0)
      + DecoderAsks(face, Next(face, w, steps[0]), steps[1..])
  }

  /** Where a maximal run of undecodable frames begins, after one that was or was not. */
  predicate StartsRun(frames: seq<Frame>, after: bool, k: int) {
    0 <= k < |frames| && frames[k].Garbled? && !(if k == 0 then after else frames[k - 1].Garbled?)
  }

  function RunStarts(frames: seq<Frame>, after: bool): set<int> {
    set k | 0 <= k < |frames| && StartsRun(frames, after, k)
  }

  /** What the decoder's flag makes of a stream. */
  function FlagAsksOver(pending: bool, frames: seq<Frame>): nat
    decreases |frames|
  {
    if frames == [] then 0
    else (if frames[0].Garbled? && !pending then 1 else 0) + FlagAsksOver(frames[0].Garbled?, frames[1..])
  }

  lemma {:induction false} FlagAsksSnoc(pending: bool, frames: seq<Frame>)
    ensures frames != [] ==>
              var last := |frames| - 1;
              FlagAsksOver(pending, frames)
                == FlagAsksOver(pending, frames[..last]) + if StartsRun(frames, pending, last) then 1 else 0
    decreases |frames|
  {
    if |frames| > 1 {
      FlagAsksSnoc(frames[0].Garbled?, frames[1..]);
      assert frames[..|frames| - 1][1..] == frames[1..][..|frames| - 2];
    }
  }

  lemma {:induction false} AsksPerRun(pending: bool, frames: seq<Frame>)
    ensures FlagAsksOver(pending, frames) == |RunStarts(frames, pending)|
    decreases |frames|
  {
    FlagAsksSnoc(pending, frames);
    if frames != [] {
      var last := |frames| - 1;
      var init := frames[..last];
      AsksPerRun(pending, init);
      assert forall k :: 0 <= k < last ==> (StartsRun(frames, pending, k) <==> StartsRun(init, pending, k));
      if StartsRun(frames, pending, last) {
        assert RunStarts(frames, pending) == RunStarts(init, pending) + {last};
      } else {
        assert RunStarts(frames, pending) == RunStarts(init, pending);
      }
    }
  }

  lemma {:induction false} AsksOfRun<L(!new)>(face: Face<L>, w: World<L>, steps: seq<Step>)
    requires LegalRun(face, w, steps)
    ensures DecoderAsks(face, w, steps) == FlagAsksOver(w.client.garbling, Delivered(face, w, steps))
    decreases |steps|
  {
    if steps != [] {
      var z := Next(face, w, steps[0]);
      AsksOfRun(face, z, steps[1..]);
      var rest := Delivered(face, z, steps[1..]);
      if steps[0].Deliver? {
        assert ([w.down[0]] + rest)[1..] == rest;
      } else {
        assert Delivered(face, w, steps) == rest;
      }
    }
  }

  /** In every run the decoder asks exactly once per maximal run of undecodable frames
      among those delivered. */
  lemma OneAskPerRun<L(!new)>(face: Face<L>, w: World<L>, steps: seq<Step>)
    requires LegalRun(face, w, steps)
    ensures DecoderAsks(face, w, steps) == |RunStarts(Delivered(face, w, steps), w.client.garbling)|
  {
    AsksOfRun(face, w, steps);
    AsksPerRun(w.client.garbling, Delivered(face, w, steps));
  }

  // ---- Overlays ------------------------------------------------------------------------------

  predicate SceneSynced<L>(face: Face<L>, c: Client<L>, s: Scene) {
    Synced(face, c, s) && LayerShows(face, c.view.layer, s.overlays)
  }

  /** The debt invariant for the whole picture, overlays included. */
  predicate FullyConsistent<L>(face: Face<L>, w: World<L>) {
    var end := End(face, w);
    && SceneShowable(face, w.server)
    && (Owed(face, w) == 0 ==> SceneSynced(face, end, w.server) && !end.view.pending && !end.garbling)
  }

  predicate Bare<L>(v: View<L>) {
    v.pending || v.layer == []
  }

  /** A full scene goes out only to a client that will be waiting for it when it
      arrives, or that will have nothing in its layer. */
  predicate Clears<L>(face: Face<L>, w: World<L>, s: Step) {
    && (s == Answer(false) || s == Resend(false) ==> Bare(End(face, w).view))
    && (s.Reconnect? && !s.garbled ==> Bare(w.client.view))
  }

  ghost predicate ClearingRun<L(!new)>(face: Face<L>, w: World<L>, steps: seq<Step>)
    requires LegalRun(face, w, steps)
    decreases |steps|
  {
    steps == [] || (Clears(face, w, steps[0]) && ClearingRun(face, Next(face, w, steps[0]), steps[1..]))
  }

  lemma StepFullyConsistent<L(!new)>(face: Face<L>, w: World<L>, s: Step)
    requires Lawful(face) && FullyConsistent(face, w) && Legal(face, w, s) && Clears(face, w, s)
    ensures FullyConsistent(face, Next(face, w, s))
  {
    var end := End(face, w);
    match s
    case Tick(next, ps, garbled) =>
      DrainSnoc(face, w.client, w.down, if garbled then Garbled else Diff(ps));
      FlagAsks(face, end.view, ps);
      if SceneSynced(face, end, w.server) {
        DiffHandled(face, end.view, w.server, next, ps);
      }
    case Say =>
      DrainSnoc(face, w.client, w.down, Chatter);
    case Answer(garbled) =>
      WholeSent(face, w.(up := w.up - 1), garbled);
      FullHandled(face, end.view, w.server);
    case Resend(garbled) =>
      WholeSent(face, w, garbled);
      FullHandled(face, end.view, w.server);
    case Reconnect(garbled, up) =>
      Reconnected(face, w, garbled, up);
      FullHandled(face, w.client.view, w.server);
    case Deliver =>
  }

  /** Overlays never stack: when every full scene finds a waiting mount or a bare
      layer, a quiet client shows the server's tree and exactly its overlays, however
      many repairs there were. */
  lemma {:induction false} OverlaysNeverStack<L(!new)>(face: Face<L>, w: World<L>, steps: seq<Step>)
    requires Lawful(face) && FullyConsistent(face, w)
    requires LegalRun(face, w, steps) && ClearingRun(face, w, steps)
    ensures var z := Run(face, w, steps);
            && FullyConsistent(face, z)
            && (z.down == [] && z.up == 0 ==> SceneSynced(face, z.client, z.server))
    decreases |steps|
  {
    if steps != [] {
      StepFullyConsistent(face, w, steps[0]);
      OverlaysNeverStack(face, Next(face, w, steps[0]), steps[1..]);
    }
  }

  /** Steps under which only the mount ever asks: every frame parses, nothing resends
      a scene unasked, and no diff replaces the root behind a failed batch. */
  predicate MountOnly<L>(face: Face<L>, w: World<L>, s: Step) {
    match s
    case Tick(_, ps, garbled) => !garbled && (HasRoot(ps) ==> !End(face, w).view.pending)
    case Answer(garbled) => !garbled
    case Resend(_) => false
    case Reconnect(_, _) => false
    case _ => true
  }

  ghost predicate MountOnlyRun<L(!new)>(face: Face<L>, w: World<L>, steps: seq<Step>)
    requires LegalRun(face, w, steps)
    decreases |steps|
  {
    steps == [] || (MountOnly(face, w, steps[0]) && MountOnlyRun(face, Next(face, w, steps[0]), steps[1..]))
  }

  /** One request at most, and it is the one the mount's flag remembers. */
  predicate OneRequest<L>(face: Face<L>, w: World<L>) {
    Owed(face, w) == if End(face, w).view.pending then 1 else 0
  }

  lemma StepOneRequest<L(!new)>(face: Face<L>, w: World<L>, s: Step)
    requires Lawful(face) && OneRequest(face, w) && Legal(face, w, s) && MountOnly(face, w, s)
    ensures OneRequest(face, Next(face, w, s)) && Clears(face, w, s)
  {
    var end := End(face, w);
    if s.Tick? {
      DrainSnoc(face, w.client, w.down, Diff(s.patches));
      FlagAsks(face, end.view, s.patches);
      if end.view.pending {
        FlagStays(face, end.view, s.patches);
      }
    } else if s.Say? {
      DrainSnoc(face, w.client, w.down, Chatter);
    } else if s.Answer? {
      WholeSent(face, w.(up := w.up - 1), false);
      FullHandled(face, end.view, w.server);
    }
  }

  /** In runs where only the mount asks there is never a second request in flight,
      every scene that goes out answers it, and so overlays never stack. */
  lemma {:induction false} MountOnlyRepairs<L(!new)>(face: Face<L>, w: World<L>, steps: seq<Step>)
    requires Lawful(face) && FullyConsistent(face, w) && OneRequest(face, w)
    requires LegalRun(face, w, steps) && MountOnlyRun(face, w, steps)
    ensures var z := Run(face, w, steps);
            && Owed(face, z) <= 1
            && ClearingRun(face, w, steps)
            && (z.down == [] && z.up == 0 ==> SceneSynced(face, z.client, z.server))
    decreases |steps|
  {
    if steps != [] {
      StepOneRequest(face, w, steps[0]);
      StepFullyConsistent(face, w, steps[0]);
      MountOnlyRepairs(face, Next(face, w, steps[0]), steps[1..]);
    }
  }
}
