/**
 The live elements refine the abstract tree, patch by patch and batch by batch,
 and exactly where they would not: a path that walks into a renderer-owned part,
 and text written over a container's children.
 */
module Refinement {
  import opened Common
  import opened Tree
  import opened Patches
  import opened Parts
  import opened Render

  /** The walk leaves a drawn widget and still finds an element. */
  predicate ReachesPart(e: Elem, path: seq<int>)
    requires e.tag.Widget?
    decreases |path|
  {
    && path != []
    && HasKid(e, path[0])
    && var kid := e.kids[path[0]];
       if Drawn(e.tag.shape.kind) then At(kid, path[1..]).Some?
       else kid.tag.Widget? && ReachesPart(kid, path[1..])
  }

  /** The walk takes a step out of a widget the renderer draws. */
  predicate PastDrawn(n: Node, path: seq<int>)
    decreases |path|
  {
    && path != []
    && (Drawn(n.tag.kind) || (HasKid(n, path[0]) && PastDrawn(n.kids[path[0]], path[1..])))
  }

  /** A text update aimed at a node that has children. */
  predicate Wipes(n: Node, w: Wire) {
    var op, target := Classify(w), At(n, w.path);
    && op.Some?
    && target.Some?
    && target.value.kids != []
    && BlankingUpdate(target.value.tag.kind, op.value)
  }

  lemma EraseKid(e: Elem, i: int)
    requires WellDrawn(e)
    ensures Drawn(e.tag.shape.kind) ==> !HasKid(Erase(e), i)
    ensures !Drawn(e.tag.shape.kind) ==>
              && (HasKid(e, i) <==> HasKid(Erase(e), i))
              && (HasKid(e, i) ==> WellDrawn(e.kids[i]) && Erase(e).kids[i] == Erase(e.kids[i]))
  {
    WellDrawnKids(e);
  }

  /** Walks agree exactly when the path does not end inside a part. */
  lemma {:induction false} WalksAgree(e: Elem, path: seq<int>)
    requires WellDrawn(e)
    ensures (At(e, path).Some? <==> At(Erase(e), path).Some?) <==> !ReachesPart(e, path)
    ensures At(Erase(e), path).Some? ==> At(e, path).Some? && WellDrawn(At(e, path).value)
                                         && At(Erase(e), path).value == Erase(At(e, path).value)
    ensures ReachesPart(e, path) ==> PastDrawn(Erase(e), path)
    decreases |path|
  {
    if path != [] {
      EraseKid(e, path[0]);
      if !Drawn(e.tag.shape.kind) && HasKid(e, path[0]) {
        WalksAgree(e.kids[path[0]], path[1..]);
      }
    }
  }

  /** What a patch leaves: the patched node's erasure everywhere, but for the
      children a text update wiped. */
  lemma {:induction false} RewriteRefines(e: Elem, path: seq<int>, op: Op)
    requires WellDrawn(e) && At(Erase(e), path).Some?
    ensures var d, t := Rewrite(e, path, Renderer(op)), Rewrite(Erase(e), path, Editor(op));
            var target := At(Erase(e), path).value;
            && d.Some? && t.Some? && d.value.tag.Widget?
            && (Erase(d.value) == t.value
                <==> !(BlankingUpdate(target.tag.kind, op) && target.kids != []))
            && (Leafy(t.value) ==> WellDrawn(d.value))
    decreases |path|
  {
    if path == [] {
      ReactRefines(e, op);
      if Leafy(Edit(Erase(e), op)) {
        ReactKeepsDrawn(e, op);
      }
    } else {
      EraseKid(e, path[0]);
      RewriteRefines(e.kids[path[0]], path[1..], op);
      RewriteKidRefines(e, path[0],
                        Rewrite(e.kids[path[0]], path[1..], Renderer(op)).value,
                        Rewrite(Erase(e.kids[path[0]]), path[1..], Editor(op)).value);
    }
  }

  lemma RewriteKidRefines(e: Elem, i: int, d: Elem, t: Node)
    requires WellDrawn(e) && !Drawn(e.tag.shape.kind) && HasKid(e, i) && d.tag.Widget?
    ensures HasKid(Erase(e), i)
    ensures var e', n' := e.(kids := e.kids[i := d]), Erase(e).(kids := Erase(e).kids[i := t]);
            && (Erase(e') == n' <==> Erase(d) == t)
            && (Leafy(n') && (Leafy(t) ==> WellDrawn(d)) ==> WellDrawn(e'))
  {
    WellDrawnKids(e);
    EraseKid(e, i);
    var e' := e.(kids := e.kids[i := d]);
    EraseWidgets(e'.kids);
    assert forall j :: 0 <= j < |e.kids| ==> EraseAll(e'.kids)[j] == if j == i then Erase(d) else Erase(e.kids[j]);
    var n' := Erase(e).(kids := Erase(e).kids[i := t]);
    assert n'.kids[i] == t && Erase(e').kids[i] == Erase(d);
    if Erase(d) == t {
      assert Erase(e').kids == n'.kids;
    }
  }

  /** One patch of any kind on well-drawn elements: it succeeds with the patch on
      nodes unless its path ends inside a part, it erases to what that patch
      leaves unless it wiped a container, and drawn widgets stay leaves if they do
      in the abstract tree. */
  lemma PatchRefines(e: Elem, w: Wire)
    requires WellDrawn(e)
    ensures var d, t := Apply(Renderer, e, w), Apply(Editor, Erase(e), w);
            && (Classify(w).Some? ==> ((d.Some? <==> t.Some?) <==> !ReachesPart(e, w.path)))
            && (Classify(w).None? ==> d.None? && t.None?)
            && (t.Some? ==> d.Some? && d.value.tag.Widget?
                            && (Erase(d.value) == t.value <==> !Wipes(Erase(e), w))
                            && (Leafy(t.value) ==> WellDrawn(d.value)))
  {
    var op := Classify(w);
    if op.Some? {
      RewriteHits(e, w.path, Renderer(op.value));
      RewriteHits(Erase(e), w.path, Editor(op.value));
      WalksAgree(e, w.path);
      if At(Erase(e), w.path).Some? {
        RewriteRefines(e, w.path, op.value);
      }
    }
  }

  /** Batches the renderer can follow, judged on the abstract tree alone: no walk
      leaves a drawn widget, no text lands on a container, and drawn widgets stay
      leaves. */
  predicate Followable(n: Node, ws: seq<Wire>)
    decreases |ws|
  {
    if ws == [] then true
    else
      && !PastDrawn(n, ws[0].path)
      && !Wipes(n, ws[0])
      && match Apply(Editor, n, ws[0])
         case None => true
         case Some(m) => Leafy(m) && Followable(m, ws[1..])
  }

  /** A batch on elements is the batch on nodes: it stops at the same patch and
      erases to the same tree, whether or not it ran to the end. */
  lemma {:induction false} BatchRefines(e: Elem, ws: seq<Wire>)
    requires WellDrawn(e) && Followable(Erase(e), ws)
    ensures var d, t := Batch(Renderer, e, ws), Batch(Editor, Erase(e), ws);
            && d.applied == t.applied
            && WellDrawn(d.tree)
            && Erase(d.tree) == t.tree
    decreases |ws|
  {
    if ws != [] {
      PatchRefines(e, ws[0]);
      WalksAgree(e, ws[0].path);
      var d := Apply(Renderer, e, ws[0]);
      if d.Some? {
        BatchRefines(d.value, ws[1..]);
      }
    }
  }

  /** From the first build on: mounting a scene and applying any followable batch
      shows what the abstract tree holds. */
  lemma MountRefines(n: Node, ws: seq<Wire>)
    requires Leafy(n) && Followable(Scrub(n), ws)
    ensures var d := Batch(Renderer, Build(n), ws);
            && WellDrawn(d.tree)
            && Erase(d.tree) == Batch(Editor, Scrub(n), ws).tree
  {
    EraseBuild(n);
    BatchRefines(Build(n), ws);
  }

  /** Parts may come and go outside any patch, as a camera's preview does when its stream
      opens or is refused: wherever that happens the elements still show the same tree. */
  lemma {:induction false} PartsMayChange(e: Elem, path: seq<int>, parts: seq<Elem>)
    requires WellDrawn(e) && At(Erase(e), path).Some? && At(e, path).Some?
    requires var x := At(e, path).value; x.tag.Widget? && Drawn(x.tag.shape.kind) && AllParts(parts)
    ensures var d := Rewrite(e, path, Put(At(e, path).value.(kids := parts)));
            d.Some? && WellDrawn(d.value) && Erase(d.value) == Erase(e)
    decreases |path|
  {
    if path == [] {
      EraseParts(e.kids);
      EraseParts(parts);
    } else {
      var i := path[0];
      EraseKid(e, i);
      PartsMayChange(e.kids[i], path[1..], parts);
      var d := Rewrite(e.kids[i], path[1..], Put(At(e, path).value.(kids := parts))).value;
      RewriteKidRefines(e, i, d, Erase(e.kids[i]));
      assert Erase(e).(kids := Erase(e).kids[i := Erase(e.kids[i])]) == Erase(e);
    }
  }

  // ---- Both exceptions, on patches no builder makes ---------------------------------------

  /** Text sent to a container removes its children, and the abstract tree keeps them. */
  lemma ContentWipesAContainer()
    ensures var text := Tree(Shape(Text, None, map[]), []);
            var n := Tree(Shape(OtherKind("Column"), None, map[]), [text]);
            var w := Wire([], Some(map[Content := Str("hi")]), None, None, None, None);
            Erase(Apply(Renderer, Build(n), w).value) != Apply(Editor, Scrub(n), w).value
  {
    var text := Tree(Shape(Text, None, map[]), []);
    var n := Tree(Shape(OtherKind("Column"), None, map[]), [text]);
    var w := Wire([], Some(map[Content := Str("hi")]), None, None, None, None);
    assert Leafy(text) && Leafy(n);
    EraseBuild(n);
    assert Scrub(n).kids == [Scrub(text)];
    PatchRefines(Build(n), w);
  }

  /** A path into an Input's control resolves on elements only. */
  lemma PathIntoAControl()
    ensures var n := Tree(Shape(Input, None, map[]), []);
            At(Build(n), [0]).Some? && At(Scrub(n), [0]).None?
  {
    var n := Tree(Shape(Input, None, map[]), []);
    FreshLaw(Input, map[]);
    assert |Build(n).kids| == 1;
    assert [0][1..] == [];
  }
}
