/**
 Ordered labelled trees addressed by paths of child indices.

 Both sides of the wire are such trees: the abstract tree Python diffs and the
 element tree the renderer holds. What a path reaches, what rewriting at a path
 leaves alone and when two rewrites commute does not depend on the labels, so it
 is proved once here.
 */
module Tree {
  import opened Common

  datatype Tree<L> = Tree(tag: L, kids: seq<Tree<L>>)

  /** A child lookup: an index with no child behind it finds nothing. */
  predicate HasKid<L>(t: Tree<L>, i: int) {
    0 <= i < |t.kids|
  }

  /** The node a path of child indices reaches, if every step resolves. */
  function At<L>(t: Tree<L>, path: seq<int>): Option<Tree<L>>
    decreases |path|
  {
    if path == [] then Some(t)
    else if HasKid(t, path[0]) then At(t.kids[path[0]], path[1..])
    else None
  }

  /** Replace the node at `path` by `f` of it; fails exactly when the walk does. */
  function Rewrite<L>(t: Tree<L>, path: seq<int>, f: Tree<L> -> Tree<L>): Option<Tree<L>>
    decreases |path|
  {
    if path == [] then Some(f(t))
    else if !HasKid(t, path[0]) then None
    else
      match Rewrite(t.kids[path[0]], path[1..], f)
      case None => None
      case Some(kid) => Some(t.(kids := t.kids[path[0] := kid]))
  }

  /** A walk takes its steps one by one: the empty path stays, and one more index goes to
      that child of where the path led, if there is one. */
  lemma {:induction false} WalkSteps<L>(t: Tree<L>, path: seq<int>, i: int)
    ensures At(t, []) == Some(t)
    ensures At(t, path + [i])
            == match At(t, path)
               case None => None
               case Some(u) => if 0 <= i < |u.kids| then Some(u.kids[i]) else None
    decreases |path|
  {
    if path == [] {
      assert path + [i] == [i] && [i][1..] == [];
    } else {
      assert (path + [i])[1..] == path[1..] + [i];
      if HasKid(t, path[0]) {
        WalkSteps(t.kids[path[0]], path[1..], i);
      }
    }
  }

  predicate Prefix(p: seq<int>, q: seq<int>) {
    |p| <= |q| && q[..|p|] == p
  }

  /** Neither path runs through the other. */
  predicate Incomparable(p: seq<int>, q: seq<int>) {
    !Prefix(p, q) && !Prefix(q, p)
  }

  lemma PrefixStep(p: seq<int>, q: seq<int>)
    requires p != [] && q != [] && p[0] == q[0]
    ensures Prefix(p, q) <==> Prefix(p[1..], q[1..])
  {
    if |p| <= |q| {
      assert q[..|p|] == [q[0]] + q[1..][..|p| - 1];
      assert p == [p[0]] + p[1..];
    }
  }

  lemma IncomparableStep(p: seq<int>, q: seq<int>)
    requires Incomparable(p, q)
    ensures p != [] && q != []
    ensures p[0] == q[0] ==> Incomparable(p[1..], q[1..])
  {
    if p != [] && q != [] && p[0] == q[0] {
      PrefixStep(p, q);
      PrefixStep(q, p);
    }
  }

  /** A rewrite succeeds exactly where the walk does, and lands on that node. */
  lemma {:induction false} RewriteHits<L>(t: Tree<L>, path: seq<int>, f: Tree<L> -> Tree<L>)
    ensures Rewrite(t, path, f).Some? <==> At(t, path).Some?
    ensures At(t, path).Some? ==> At(Rewrite(t, path, f).value, path) == Some(f(At(t, path).value))
    decreases |path|
  {
    if path != [] && HasKid(t, path[0]) {
      RewriteHits(t.kids[path[0]], path[1..], f);
    }
  }

  /** Every subtree off the rewritten path is the one that was there. */
  lemma {:induction false} RewriteMisses<L>(t: Tree<L>, p: seq<int>, f: Tree<L> -> Tree<L>, q: seq<int>)
    requires Incomparable(p, q)
    requires Rewrite(t, p, f).Some?
    ensures At(Rewrite(t, p, f).value, q) == At(t, q)
    decreases |p|
  {
    IncomparableStep(p, q);
    if p[0] == q[0] {
      RewriteMisses(t.kids[p[0]], p[1..], f, q[1..]);
    }
  }

  /** Rewriting at `p` and then at `q`; `None` when either walk fails. */
  function Then<L>(t: Option<Tree<L>>, path: seq<int>, f: Tree<L> -> Tree<L>): Option<Tree<L>> {
    match t
    case None => None
    case Some(u) => Rewrite(u, path, f)
  }

  /** Rewrites at incomparable paths commute, in result and in success. */
  lemma {:induction false} RewritesCommute<L>(t: Tree<L>,
                                              p: seq<int>, f: Tree<L> -> Tree<L>,
                                              q: seq<int>, g: Tree<L> -> Tree<L>)
    requires Incomparable(p, q)
    ensures Then(Rewrite(t, p, f), q, g) == Then(Rewrite(t, q, g), p, f)
    ensures Rewrite(t, p, f).Some? ==> (Then(Rewrite(t, p, f), q, g).Some? <==> Rewrite(t, q, g).Some?)
    decreases |p|
  {
    IncomparableStep(p, q);
    var i, j := p[0], q[0];
    if !HasKid(t, i) || !HasKid(t, j) {
    } else if i == j {
      RewritesCommute(t.kids[i], p[1..], f, q[1..], g);
      var a, b := Rewrite(t.kids[i], p[1..], f), Rewrite(t.kids[i], q[1..], g);
      if a.Some? && b.Some? {
        assert t.kids[i := a.value][i] == a.value && t.kids[i := b.value][i] == b.value;
        var ab := Rewrite(a.value, q[1..], g);
        if ab.Some? {
          assert t.kids[i := a.value][i := ab.value] == t.kids[i := b.value][i := ab.value];
        }
      }
    } else {
      var a, b := Rewrite(t.kids[i], p[1..], f), Rewrite(t.kids[j], q[1..], g);
      if a.Some? && b.Some? {
        assert t.kids[i := a.value][j := b.value] == t.kids[j := b.value][i := a.value];
      }
    }
  }

  /** Only what `f` makes of the node it lands on matters. */
  lemma {:induction false} RewriteDepends<L>(t: Tree<L>, path: seq<int>, f: Tree<L> -> Tree<L>, g: Tree<L> -> Tree<L>)
    requires At(t, path).Some? ==> f(At(t, path).value) == g(At(t, path).value)
    ensures Rewrite(t, path, f) == Rewrite(t, path, g)
    decreases |path|
  {
    if path != [] && HasKid(t, path[0]) {
      RewriteDepends(t.kids[path[0]], path[1..], f, g);
    }
  }

  /** Put a given subtree at a path. */
  function Put<L>(sub: Tree<L>): Tree<L> -> Tree<L> {
    (_: Tree<L>) => sub
  }

  /** Rewriting below a node is putting the rewritten node in its place. */
  lemma {:induction false} RewriteBelow<L>(t: Tree<L>, base: seq<int>, path: seq<int>, f: Tree<L> -> Tree<L>)
    requires At(t, base).Some?
    ensures At(t, base + path) == At(At(t, base).value, path)
    ensures var below := Rewrite(At(t, base).value, path, f);
            Rewrite(t, base + path, f) == if below.None? then None else Rewrite(t, base, Put(below.value))
    decreases |base|
  {
    if base == [] {
      assert base + path == path;
    } else {
      assert (base + path)[1..] == base[1..] + path;
      RewriteBelow(t.kids[base[0]], base[1..], path, f);
      var below := Rewrite(At(t, base).value, path, f);
      if below.Some? {
        RewriteHits(t.kids[base[0]], base[1..], Put(below.value));
      }
    }
  }

  /** The last of two subtrees put at a path is the one that stays. */
  lemma {:induction false} PutTwice<L>(t: Tree<L>, path: seq<int>, a: Tree<L>, b: Tree<L>)
    requires At(t, path).Some?
    ensures Rewrite(t, path, Put(a)).Some?
    ensures Rewrite(Rewrite(t, path, Put(a)).value, path, Put(b)) == Rewrite(t, path, Put(b))
    decreases |path|
  {
    if path != [] {
      PutTwice(t.kids[path[0]], path[1..], a, b);
      RewriteHits(t.kids[path[0]], path[1..], Put(a));
      RewriteHits(t.kids[path[0]], path[1..], Put(b));
      var x := Rewrite(t.kids[path[0]], path[1..], Put(a)).value;
      var y := Rewrite(t.kids[path[0]], path[1..], Put(b)).value;
      assert t.kids[path[0] := x][path[0] := y] == t.kids[path[0] := y];
    }
  }

  lemma {:induction false} PutSame<L>(t: Tree<L>, path: seq<int>)
    requires At(t, path).Some?
    ensures Rewrite(t, path, Put(At(t, path).value)) == Some(t)
    decreases |path|
  {
    if path != [] {
      PutSame(t.kids[path[0]], path[1..]);
      assert t.kids[path[0] := t.kids[path[0]]] == t.kids;
    }
  }

  /** A rewrite strictly below a node keeps the node's tag. */
  lemma KeepsAbove<L>(t: Tree<L>, base: seq<int>, path: seq<int>, sub: Tree<L>)
    requires Rewrite(t, base + path, Put(sub)).Some?
    requires path == [] ==> At(t, base).Some? && sub.tag == At(t, base).value.tag
    ensures At(t, base).Some?
    ensures var u := Rewrite(t, base + path, Put(sub)).value;
            At(u, base).Some? && At(u, base).value.tag == At(t, base).value.tag
  {
    RewriteHits(t, base + path, Put(sub));
    AtPrefix(t, base, path);
    RewriteBelow(t, base, path, Put(sub));
    RewriteHits(t, base, Put(Rewrite(At(t, base).value, path, Put(sub)).value));
  }

  lemma {:induction false} AtPrefix<L>(t: Tree<L>, base: seq<int>, path: seq<int>)
    requires At(t, base + path).Some?
    ensures At(t, base).Some?
    decreases |base|
  {
    if base != [] {
      assert (base + path)[1..] == base[1..] + path;
      AtPrefix(t.kids[base[0]], base[1..], path);
    }
  }
}
