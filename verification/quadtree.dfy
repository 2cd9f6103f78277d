/** The point quadtree: add, cover, addAll, remove and find, changing the linked nodes in place. */
module Quadtree {
  import opened Options
  import opened QuadGeometry
  import opened QuadShape
  import opened QuadSearch
  import opened QuadRemove

  // ---------------------------------------------------------------- where a descent stands

  /** `t` is the subtree `s`, whose cell is `b`, seen inside the context `c`. */
  ghost predicate Focus(t: Tree, c: Ctx, s: Tree, root: Box, b: Box)
    reads CtxNodes(c)`child, CtxNodes(c)`data, CtxNodes(c)`next,
          NodesOf(s)`child, NodesOf(s)`data, NodesOf(s)`next
  {
    && WfCtx(c) && Plug(c, s) == t
    && CtxDistinct(c) && Distinct(s) && CtxNodes(c) !! NodesOf(s)
    && CtxLinked(c, Root(s)) && Linked(s)
    && CtxCelled(c, root) && b == HoleBox(c, root) && Celled(s, b)
    && CtxFull(c) && Full(s) && Sustains(c, s)
  }

  /** The array node `s` taken apart at slot `q`. */
  lemma Apart(s: Tree, q: Slot)
    requires s.Quad?
    ensures var quad := WithKid(s, q, Nil);
            quad.Quad? && quad.node == s.node && Kid(quad, q) == Nil && WithKid(quad, q, Kid(s, q)) == s
    ensures var quad := WithKid(s, q, Nil);
            forall r: Slot :: r != q ==> Kid(quad, r) == Kid(s, r)
  {
  }

  lemma DownDistinct(c: Ctx, s: Tree, q: Slot, b: Box)
    requires WfCtx(c) && s.Quad?
    requires CtxDistinct(c) && Distinct(s) && CtxNodes(c) !! NodesOf(s)
    ensures var d, k := Down(c, s, q, b), Kid(s, q);
            CtxDistinct(d) && Distinct(k) && CtxNodes(d) !! NodesOf(k)
  {
    Apart(s, q);
    FillDistinct(WithKid(s, q, Nil), q, Kid(s, q));
    FillNodes(WithKid(s, q, Nil), q, Kid(s, q));
  }

  lemma DownLinked(c: Ctx, s: Tree, q: Slot, b: Box)
    requires WfCtx(c) && s.Quad? && CtxLinked(c, Root(s)) && Linked(s)
    ensures Root(Kid(s, q)) == s.node.child[q]
    ensures CtxLinked(Down(c, s, q, b), Root(Kid(s, q))) && Linked(Kid(s, q))
  {
    Apart(s, q);
    FillLinked(WithKid(s, q, Nil), q, Kid(s, q));
  }

  lemma DownCelled(c: Ctx, s: Tree, q: Slot, root: Box, b: Box)
    requires WfCtx(c) && s.Quad? && CtxCelled(c, root) && b == HoleBox(c, root) && Celled(s, b)
    ensures CtxCelled(Down(c, s, q, b), root) && Celled(Kid(s, q), b.Quadrant(q))
  {
    Apart(s, q);
    FillCelled(WithKid(s, q, Nil), q, Kid(s, q), b);
  }

  lemma DownFull(c: Ctx, s: Tree, q: Slot, b: Box)
    requires WfCtx(c) && s.Quad? && CtxFull(c) && Full(s)
    ensures CtxFull(Down(c, s, q, b)) && Full(Kid(s, q)) && Sustains(Down(c, s, q, b), Kid(s, q))
  {
    Apart(s, q);
    FillLeaves(WithKid(s, q, Nil), q, Kid(s, q));
  }

  lemma FocusDown(t: Tree, c: Ctx, s: Tree, root: Box, b: Box, q: Slot)
    requires Focus(t, c, s, root, b) && s.Quad?
    ensures Focus(t, Down(c, s, q, b), Kid(s, q), root, b.Quadrant(q)) && Linked(Kid(s, q))
    ensures WfCtx(c)
    ensures Root(Kid(s, q)) == s.node.child[q]
  {
    DownDistinct(c, s, q, b);
    DownLinked(c, s, q, b);
    DownCelled(c, s, q, root, b);
    DownFull(c, s, q, b);
  }

  /** How the loops tell the three kinds of subtree apart: by the pointer in the slot. */
  lemma KindOf(s: Tree)
    requires Linked(s)
    ensures Root(s) == null <==> s.Nil?
    ensures s.Nil? ==> NodesOf(s) == {} && Points(s) == multiset{} && Leaves(s) == 0 && Full(s)
    ensures s.Quad? ==> Root(s) == s.node && |s.node.child| == 4
    ensures s.Leaf? ==> |s.chain| == |s.pts| > 0 && Root(s) == s.chain[0] && Leaves(s) == 1
    ensures s.Leaf? ==> s.chain[0].child == [] && s.chain[0].data == Some(s.pts[0])
  {
  }

  /** A leaf node that is in no tree yet. */
  ghost predicate Lone(l: Node, p: Point)
    reads l`child, l`data, l`next
  {
    l.child == [] && l.data == Some(p) && l.next == null
  }

  lemma Fresh(l: Node, p: Point)
    requires l.child == [] && l.data == Some(p) && l.next == null
    ensures Lone(l, p)
  {
  }

  lemma LoneFields(l: Node, p: Point)
    requires Lone(l, p)
    ensures l.child == [] && l.data == Some(p)
  {
  }

  lemma SingleLeaf(l: Node, p: Point, b: Box)
    requires Lone(l, p)
    ensures var s := Leaf([l], [p]);
            && NodesOf(s) == {l} && Root(s) == l && Leaves(s) == 1 && Points(s) == multiset{p}
            && Distinct(s) && Linked(s) && Full(s)
            && (b.Contains(p.x, p.y) ==> Celled(s, b))
  {
    assert [l][0] == l;
  }

  /** Putting a sound subtree into the open slot makes the whole tree sound. */
  lemma Replant(c: Ctx, s: Tree, root: Box, b: Box)
    requires WfCtx(c)
    requires CtxDistinct(c) && Distinct(s) && CtxNodes(c) !! NodesOf(s)
    requires CtxLinked(c, Root(s)) && Linked(s)
    requires CtxCelled(c, root) && b == HoleBox(c, root) && Celled(s, b)
    requires CtxFull(c) && Full(s) && Sustains(c, s)
    ensures Distinct(Plug(c, s)) && Linked(Plug(c, s)) && Celled(Plug(c, s), root) && Full(Plug(c, s))
    ensures Root(Plug(c, s)) == CtxRoot(c, Root(s))
    ensures NodesOf(Plug(c, s)) == CtxNodes(c) + NodesOf(s)
    ensures Points(Plug(c, s)) == CtxPoints(c) + Points(s)
  {
    PlugDistinct(c, s);
    PlugLinked(c, s);
    PlugCelled(c, s, root);
    PlugFull(c, s);
    PlugRoot(c, s);
    PlugNodes(c, s);
    PlugPoints(c, s);
  }

  /** A new leaf at the head of a chain of coincident leaves. */
  lemma ConsLeaf(l: Node, p: Point, t: Tree, b: Box)
    requires t.Leaf? && Linked(t) && Distinct(t) && Celled(t, b) && l !in NodesOf(t)
    requires b.Contains(p.x, p.y) && Coincident(p, t.pts[0])
    ensures var g := Leaf([l] + t.chain, [p] + t.pts);
            && Distinct(g) && Celled(g, b) && Root(g) == l && Leaves(g) == Leaves(t) == 1 && Full(g)
            && NodesOf(g) == NodesOf(t) + {l} && Points(g) == Points(t) + multiset{p}
  {
    var g := Leaf([l] + t.chain, [p] + t.pts);
    forall n | n in NodesOf(t) + {l}
      ensures n in NodesOf(g)
    {
      if n == l {
        assert g.chain[0] == l;
      } else {
        var i :| 0 <= i < |t.chain| && t.chain[i] == n;
        assert g.chain[i + 1] == n;
      }
    }
    assert multiset([p] + t.pts) == multiset([p]) + multiset(t.pts);
  }

  lemma ConsLinked(l: Node, p: Point, t: Tree)
    requires t.Leaf? && Linked(t)
    requires l.child == [] && l.data == Some(p) && l.next == Root(t)
    ensures Linked(Leaf([l] + t.chain, [p] + t.pts))
  {
    LinkedLonger(l, p, t.chain, t.pts);
  }

  lemma LinkedLonger(l: Node, p: Point, chain: seq<Node>, pts: seq<Point>)
    requires LinkedChain(chain, pts)
    requires l.child == [] && l.data == Some(p) && l.next == chain[0]
    ensures LinkedChain([l] + chain, [p] + pts)
  {
    var ch := [l] + chain;
    forall i | 0 <= i < |ch|
      ensures ch[i].next == After(ch, i)
    {
      if i > 0 {
        assert ch[i] == chain[i - 1];
        assert chain[i - 1].next == After(chain, i - 1);
      }
    }
  }

  lemma HeadInCell(t: Tree, b: Box)
    requires t.Leaf? && |t.pts| > 0 && Celled(t, b)
    ensures b.Contains(t.pts[0].x, t.pts[0].y)
  {
  }

  lemma CelledNarrow(t: Tree, b: Box, q: Slot)
    requires t.Leaf? && Celled(t, b) && q == b.QuadrantOf(t.pts[0].x, t.pts[0].y)
    ensures Celled(t, b.Quadrant(q))
  {
    forall i | 0 <= i < |t.pts|
      ensures b.Quadrant(q).Contains(t.pts[i].x, t.pts[i].y)
    {
      QuadrantsPartition(b, t.pts[i].x, t.pts[i].y, q);
    }
  }

  ghost predicate Bare(t: Tree) {
    t.Quad? && t.k0 == Nil && t.k1 == Nil && t.k2 == Nil && t.k3 == Nil
  }

  /** The array node `bare` with the leaf chain `cur` in slot `g` and `fresh` in slot `c`. */
  ghost function Pair(bare: Tree, g: Slot, cur: Tree, c: Slot, fresh': Tree): Tree
    requires Bare(bare) && c != g
  {
    WithKid(WithKid(bare, g, cur), c, fresh')
  }

  lemma BareFacts(bare: Tree, b: Box)
    requires Bare(bare)
    ensures bare.Quad? && NodesOf(bare) == {bare.node} && Points(bare) == multiset{} && Leaves(bare) == 0
    ensures Distinct(bare) && Celled(bare, b)
    ensures forall q: Slot :: Kid(bare, q) == Nil
  {
  }

  lemma BareOf(a: Node)
    ensures Bare(Quad(a, Nil, Nil, Nil, Nil))
  {
  }

  lemma PairShape(bare: Tree, g: Slot, cur: Tree, c: Slot, new': Tree)
    requires Bare(bare) && c != g
    ensures WithKid(bare, g, cur).Quad? && Kid(WithKid(bare, g, cur), c) == Nil
    ensures Pair(bare, g, cur, c, new') == WithKid(WithKid(bare, g, cur), c, new')
    ensures Root(Pair(bare, g, cur, c, new')) == bare.node
  {
  }

  lemma PairPoints(bare: Tree, g: Slot, cur: Tree, c: Slot, new': Tree)
    requires Bare(bare) && c != g
    ensures Points(Pair(bare, g, cur, c, new')) == Points(cur) + Points(new')
    ensures Leaves(Pair(bare, g, cur, c, new')) == Leaves(cur) + Leaves(new')
  {
    hide *;
    BareFacts(bare, Box(0.0, 0.0, 1.0, 1.0));
    PairShape(bare, g, cur, c, new');
    var half := WithKid(bare, g, cur);
    FillLeaves(bare, g, cur);
    FillLeaves(half, c, new');
    FillPoints(bare, g, cur);
    FillPoints(half, c, new');
  }

  lemma PairDistinct(bare: Tree, g: Slot, cur: Tree, c: Slot, new': Tree)
    requires Bare(bare) && c != g
    requires Distinct(cur) && Distinct(new') && NodesOf(cur) !! NodesOf(new')
    requires bare.node !in NodesOf(cur) && bare.node !in NodesOf(new')
    ensures Distinct(Pair(bare, g, cur, c, new'))
    ensures NodesOf(Pair(bare, g, cur, c, new')) == {bare.node} + NodesOf(cur) + NodesOf(new')
  {
    hide *;
    BareFacts(bare, Box(0.0, 0.0, 1.0, 1.0));
    PairShape(bare, g, cur, c, new');
    var half := WithKid(bare, g, cur);
    FillNodes(bare, g, cur);
    FillDistinct(bare, g, cur);
    FillNodes(half, c, new');
    FillDistinct(half, c, new');
  }

  lemma PairCelled(bare: Tree, g: Slot, cur: Tree, c: Slot, new': Tree, b: Box)
    requires Bare(bare) && c != g
    requires Celled(cur, b.Quadrant(g)) && Celled(new', b.Quadrant(c))
    ensures Celled(Pair(bare, g, cur, c, new'), b)
  {
    hide *;
    BareFacts(bare, b);
    PairShape(bare, g, cur, c, new');
    FillCelled(bare, g, cur, b);
    FillCelled(WithKid(bare, g, cur), c, new', b);
  }

  lemma PairLinked(bare: Tree, g: Slot, cur: Tree, c: Slot, new': Tree)
    requires Bare(bare) && c != g
    requires Linked(cur) && Linked(new')
    requires bare.node.data == None && bare.node.child == [null, null, null, null][g := Root(cur)][c := Root(new')]
    ensures Linked(Pair(bare, g, cur, c, new'))
  {
    KidWithKid(bare, g, cur);
    KidWithKid(WithKid(bare, g, cur), c, new');
  }

  lemma PairFull(bare: Tree, g: Slot, cur: Tree, c: Slot, new': Tree)
    requires Bare(bare) && c != g && cur.Leaf? && new'.Leaf?
    ensures Full(Pair(bare, g, cur, c, new')) && Leaves(Pair(bare, g, cur, c, new')) == 2
  {
    KidWithKid(bare, g, cur);
    KidWithKid(WithKid(bare, g, cur), c, new');
    PairPoints(bare, g, cur, c, new');
  }

  lemma SustainsTwo(c: Ctx, s: Tree)
    requires Leaves(s) >= 2
    ensures Sustains(c, s)
  {
  }

  /** One step of growing: the tree `w` becomes quadrant `a` of a new array node. */
  lemma Wrap(w: Tree, p: Node, a: Slot, b: Box, grown: Box)
    requires Linked(w) && Distinct(w) && Celled(w, b) && p !in NodesOf(w) && grown.Quadrant(a) == b
    requires p.data == None && p.child == [null, null, null, null][a := Root(w)]
    ensures var t := WithKid(Quad(p, Nil, Nil, Nil, Nil), a, w);
            && Linked(t) && Distinct(t) && Celled(t, grown) && Root(t) == p
            && NodesOf(t) == NodesOf(w) + {p} && Points(t) == Points(w) && Leaves(t) == Leaves(w)
            && (Full(w) && Leaves(w) >= 2 ==> Full(t))
  {
    hide *;
    var bare := Quad(p, Nil, Nil, Nil, Nil);
    BareOf(p);
    BareFacts(bare, grown);
    FillDistinct(bare, a, w);
    FillNodes(bare, a, w);
    FillPoints(bare, a, w);
    FillLeaves(bare, a, w);
    FillCelled(bare, a, w, grown);
    WrapLinked(p, a, w);
    if Full(w) && Leaves(w) >= 2 {
      KindOf(Nil);
      FillFull(bare, a, w);
    }
  }

  lemma WrapLinked(p: Node, a: Slot, w: Tree)
    requires Linked(w) && p.data == None && p.child == [null, null, null, null][a := Root(w)]
    ensures var t := WithKid(Quad(p, Nil, Nil, Nil, Nil), a, w); Linked(t) && Root(t) == p
  {
    var t := WithKid(Quad(p, Nil, Nil, Nil, Nil), a, w);
    KidWithKid(Quad(p, Nil, Nil, Nil, Nil), a, w);
    forall q: Slot
      ensures Linked(Kid(t, q)) && p.child[q] == Root(Kid(t, q))
    {
      assert Kid(t, q) == if q == a then w else Nil;
    }
  }

  lemma SquareWidth(b: Box)
    requires b.Square()
    ensures b.x1 - b.x0 >= 1.0 && b.Within(b)
  {
  }

  lemma CelledNil(b: Box)
    ensures Celled(Nil, b)
  {
  }

  lemma CelledWider(t: Tree, b: Box, wide: Box)
    requires !t.Quad? && Celled(t, b) && b.Within(wide)
    ensures Celled(t, wide)
  {
  }

  lemma QuadHasTwo(t: Tree)
    requires t.Quad? && Full(t)
    ensures Leaves(t) >= 2
  {
  }

  lemma SustainsMore(c: Ctx, s: Tree, s': Tree)
    requires Sustains(c, s) && Leaves(s') >= Leaves(s)
    ensures Sustains(c, s')
  {
  }

  method Bounds(ps: seq<Point>) returns (x0: real, y0: real, x1: real, y1: real)
    requires |ps| > 0
    ensures Corners(ps, x0, y0, x1, y1)
  {
    x0, y0, x1, y1 := ps[0].x, ps[0].y, ps[0].x, ps[0].y;
    for e := 1 to |ps|
      invariant forall k :: 0 <= k < e ==> x0 <= ps[k].x <= x1 && y0 <= ps[k].y <= y1
      invariant exists k :: 0 <= k < |ps| && x0 == ps[k].x
      invariant exists k :: 0 <= k < |ps| && y0 == ps[k].y
      invariant exists k :: 0 <= k < |ps| && x1 == ps[k].x
      invariant exists k :: 0 <= k < |ps| && y1 == ps[k].y
    {
      if ps[e].x < x0 { x0 := ps[e].x; }
      if ps[e].x > x1 { x1 := ps[e].x; }
      if ps[e].y < y0 { y0 := ps[e].y; }
      if ps[e].y > y1 { y1 := ps[e].y; }
    }
  }

  lemma DownIs(c: Ctx, s: Tree, q: Slot, b: Box)
    requires WfCtx(c) && s.Quad?
    ensures Down(c, s, q, b) == Hole(WithKid(s, q, Nil), q, b, c)
  {
  }

  /** What Focus says of the subtree, for proofs that hide it. */
  lemma FocusParts(t: Tree, c: Ctx, s: Tree, root: Box, b: Box)
    requires Focus(t, c, s, root, b)
    ensures WfCtx(c) && Celled(s, b) && Full(s) && Linked(s) && Distinct(s)
    ensures s.Quad? ==> Full'(s)
  {
  }

  lemma ChainAt(t: Tree, k: nat)
    requires t.Leaf? && Linked(t) && k < |t.chain|
    ensures |t.chain| == |t.pts| && t.chain[k].data == Some(t.pts[k])
    ensures t.chain[k].next == null <==> k + 1 == |t.chain|
    ensures k + 1 < |t.chain| ==> t.chain[k].next == t.chain[k + 1]
  {
  }

  lemma InChain(t: Tree, k: nat)
    requires t.Leaf? && k < |t.chain|
    ensures t.chain[k] in NodesOf(t)
  {
  }

  lemma NotInLeaf(t: Tree, p: Point)
    requires t.Leaf? && p !in t.pts
    ensures p !in Points(t)
  {
  }

  lemma WithoutRoot(t: Tree, k: nat)
    requires t.Leaf? && k < |t.chain| == |t.pts| && |t.chain| > 1
    ensures Root(Without(t, k)) == if k == 0 then t.chain[1] else t.chain[0]
  {
  }

  lemma LastOfChain(t: Tree)
    requires t.Leaf? && |t.chain| == |t.pts| == 1
    ensures NodesOf(t) == {t.chain[0]} && Points(t) == multiset{t.pts[0]}
  {
    assert t.pts == [t.pts[0]];
  }

  lemma TakeOne(c: Ctx, t: Tree, p: Point)
    requires t.Leaf? && p in t.pts
    ensures CtxPoints(c) + Points(t) - multiset{p} == CtxPoints(c) + (Points(t) - multiset{p})
  {
  }

  lemma SustainsTop(c: Ctx, s: Tree)
    requires c.Top?
    ensures Sustains(c, s)
  {
  }

  /** What is left of a chain without its first leaf. */
  lemma RestOfChain(t: Tree, b: Box)
    requires t.Leaf? && Linked(t) && Distinct(t) && Celled(t, b)
    ensures var rest := if |t.chain| > 1 then Without(t, 0) else Nil;
            && |t.chain| == |t.pts| > 0
            && NodesOf(rest) == NodesOf(t) - {t.chain[0]} && Distinct(rest) && Celled(rest, b) && Full(rest)
            && Points(rest) == Points(t) - multiset{t.pts[0]} && Leaves(rest) <= 1
  {
    WithoutValues(t, 0, b);
    if |t.chain| == 1 {
      LastOfChain(t);
    }
  }

  lemma RestRoot(t: Tree)
    requires t.Leaf? && |t.chain| == |t.pts| > 0
    requires |t.chain| > 1 ==> Linked(Without(t, 0))
    ensures var rest := if |t.chain| > 1 then Without(t, 0) else Nil;
            Linked(rest) && (|t.chain| > 1 ==> Root(rest) == t.chain[1]) && (|t.chain| == 1 ==> Root(rest) == null)
  {
  }

  lemma SustainsLeaf(c: Ctx, s: Tree)
    requires c.Hole? ==> Leaves(c.quad) >= 1
    requires Leaves(s) >= 1
    ensures Sustains(c, s)
  {
  }

  lemma SustainsOne(c: Ctx, s: Tree)
    requires c.Hole? && Sustains(c, s) && Leaves(s) == 1
    ensures Leaves(c.quad) >= 1
  {
  }

  lemma SustainsIs(c: Ctx, s: Tree)
    requires c.Hole? && c.quad.Quad? && Kid(c.quad, c.q) == Nil && Leaves(WithKid(c.quad, c.q, s)) >= 2
    ensures Sustains(c, s)
  {
    FillLeaves(c.quad, c.q, s);
  }

  // ---------------------------------------------------------------- where a removal may collapse

  /** `a` is the deepest context above `c` whose array node has another kid: nothing but single-kid
      array nodes lies between, so a leaf below `c` may be hung into the slot of `a` instead. */
  ghost predicate Above(t: Tree, a: Ctx, sub: Tree, root: Box, ab: Box, c: Ctx, b: Box)
    reads CtxNodes(a)`child, CtxNodes(a)`data, CtxNodes(a)`next,
          NodesOf(sub)`child, NodesOf(sub)`data, NodesOf(sub)`next
  {
    && Focus(t, a, sub, root, ab)
    && (forall x, y :: b.Contains(x, y) ==> ab.Contains(x, y))
    && CtxPoints(a) == CtxPoints(c) && CtxNodes(a) <= CtxNodes(c)
    && (a.Hole? ==> Leaves(a.quad) >= 1)
  }

  lemma AboveTop(t: Tree, root: Box)
    requires Focus(t, Top, t, root, root)
    ensures Above(t, Top, t, root, root, Top, root)
  {
  }

  /** Some slot other than `u` is in use. */
  predicate HasSibling(ch: seq<Node?>, u: Slot)
    requires |ch| == 4
  {
    ch[(u + 1) % 4] != null || ch[(u + 2) % 4] != null || ch[(u + 3) % 4] != null
  }

  lemma SiblingKinds(s: Tree, u: Slot)
    requires s.Quad? && Linked(s) && Full'(s)
    ensures |s.node.child| == 4
    ensures !HasSibling(s.node.child, u) ==> OnlyKid(s, u)
    ensures HasSibling(s.node.child, u) ==> Leaves(WithKid(s, u, Nil)) >= 1
  {
    hide *;
    KidPointer(s, u);
    if HasSibling(s.node.child, u) {
      var q := SomeSibling(s.node.child, u);
      KidPointer(s, q);
      NonNilHasLeaf(s, q);
      LeavesBeside(s, u, q);
    } else {
      forall q: Slot | q != u
        ensures Kid(s, q) == Nil
      {
        NoSibling(s.node.child, u, q);
        KidPointer(s, q);
      }
      OnlyKidIs(s, u);
    }
  }

  lemma OnlyKidIs(t: Tree, w: Slot)
    requires t.Quad? && forall q: Slot :: q != w ==> Kid(t, q) == Nil
    ensures OnlyKid(t, w)
  {
  }

  lemma SomeSibling(ch: seq<Node?>, u: Slot) returns (q: Slot)
    requires |ch| == 4 && HasSibling(ch, u)
    ensures q != u && ch[q] != null
  {
    q := if ch[(u + 1) % 4] != null then (u + 1) % 4 else if ch[(u + 2) % 4] != null then (u + 2) % 4 else (u + 3) % 4;
  }

  lemma NoSibling(ch: seq<Node?>, u: Slot, q: Slot)
    requires |ch| == 4 && !HasSibling(ch, u) && q != u
    ensures ch[q] == null
  {
    assert q == (u + 1) % 4 || q == (u + 2) % 4 || q == (u + 3) % 4;
  }

  lemma KidPointer(t: Tree, x: Slot)
    requires t.Quad? && Linked(t)
    ensures |t.node.child| == 4 && t.node.child[x] == Root(Kid(t, x)) && (t.node.child[x] == null <==> Kid(t, x) == Nil)
  {
    KindOf(Kid(t, x));
  }

  lemma NonNilHasLeaf(s: Tree, q: Slot)
    requires s.Quad? && Linked(s) && Full'(s) && Root(Kid(s, q)) != null
    ensures Leaves(Kid(s, q)) >= 1
  {
    KidKinds(s);
  }

  lemma LeavesBeside(s: Tree, u: Slot, q: Slot)
    requires s.Quad? && q != u
    ensures Leaves(WithKid(s, u, Nil)) >= Leaves(Kid(s, q))
  {
    var quad := WithKid(s, u, Nil);
    assert Kid(quad, q) == Kid(s, q);
    assert q == 0 || q == 1 || q == 2 || q == 3;
  }

  lemma AbovePast(t: Tree, a: Ctx, sub: Tree, root: Box, ab: Box, c: Ctx, s: Tree, b: Box, u: Slot)
    requires Above(t, a, sub, root, ab, c, b) && WfCtx(c) && s.Quad? && OnlyKid(s, u)
    ensures Above(t, a, sub, root, ab, Down(c, s, u, b), b.Quadrant(u))
  {
    Apart(s, u);
    OnlyKidValues(WithKid(s, u, Nil), u);
    forall x, y | b.Quadrant(u).Contains(x, y)
      ensures ab.Contains(x, y)
    {
      QuadrantInside(b, u, x, y);
    }
  }

  lemma AboveHere(t: Tree, c: Ctx, s: Tree, root: Box, b: Box)
    requires Focus(t, c, s, root, b) && (c.Hole? ==> Leaves(c.quad) >= 1)
    ensures Above(t, c, s, root, b, c, b)
  {
  }

  /** A datum of `s` can only be in the kid whose quadrant holds its position. */
  lemma PointInKid(s: Tree, b: Box, p: Point)
    requires s.Quad? && Celled(s, b) && p in Points(s)
    ensures p in Points(Kid(s, b.QuadrantOf(p.x, p.y)))
  {
    var r := SlotWith(s, p);
    PointsInCell(Kid(s, r), b.Quadrant(r), p);
    QuadrantInside(b, r, p.x, p.y);
    QuadrantsPartition(b, p.x, p.y, r);
  }

  // ---------------------------------------------------------------- the tree

  class Quadtree {
    var root: Node?
    var extent: Option<Box>
    ghost var tree: Tree
    ghost var Repr: set<Node>

    ghost predicate Valid()
      reads this, NodesOf(tree)`child, NodesOf(tree)`data, NodesOf(tree)`next
    {
      && Repr == NodesOf(tree)
      && root == Root(tree)
      && Linked(tree) && Distinct(tree) && Full(tree)
      && (extent.None? ==> tree == Nil)
      && (extent.Some? ==> extent.value.Square() && Celled(tree, extent.value))
    }

    /** The multiset of data the tree holds. */
    ghost function Contents(): multiset<Point>
      reads this
    {
      Points(tree)
    }

    constructor ()
      ensures Valid() && Contents() == multiset{} && extent == None && tree == Nil && Repr == {}
    {
      root, extent, tree, Repr := null, None, Nil, {};
    }

    /** The context's open slot is slot `c` of `i`, or the root pointer when there is no `i`. */
    ghost predicate Names(ctx: Ctx, i: Node?, c: Slot) {
      if ctx.Top? then i == null else ctx.quad.Quad? && i == ctx.quad.node && c == ctx.q && i in CtxNodes(ctx)
    }

    /** A sound context around a slot of cell `b` that holds the pointer `was`. */
    ghost predicate Open(ctx: Ctx, was: Node?, b: Box)
      reads this`root, this`extent, CtxNodes(ctx)`child, CtxNodes(ctx)`data, CtxNodes(ctx)`next
    {
      && extent.Some? && extent.value.Square()
      && WfCtx(ctx) && CtxDistinct(ctx) && CtxFull(ctx)
      && CtxCelled(ctx, extent.value) && b == HoleBox(ctx, extent.value)
      && CtxLinked(ctx, was) && root == CtxRoot(ctx, was)
    }

    /** A descent starts with the whole tree in the root slot. */
    lemma StartsAtRoot()
      requires Valid() && extent.Some?
      ensures Focus(tree, Top, tree, extent.value, extent.value) && Linked(tree)
      ensures root == Root(tree) && Repr == NodesOf(tree) && Names(Top, null, 0)
    {
    }

    lemma NamesTop(ctx: Ctx)
      requires ctx.Top?
      ensures Names(ctx, null, 0)
    {
    }

    lemma NamesNull(ctx: Ctx, i: Node?, c: Slot)
      requires Names(ctx, i, c)
      ensures i == null <==> ctx.Top?
      ensures i != null ==> ctx.quad.Quad? && i == ctx.quad.node && c == ctx.q
    {
    }

    lemma NamesDown(ctx: Ctx, s: Tree, q: Slot, b: Box)
      requires WfCtx(ctx) && s.Quad?
      ensures Names(Down(ctx, s, q, b), s.node, q)
    {
      Apart(s, q);
    }

    /** The slot's owner is a node of the tree, so only the tree's own nodes are written. */
    lemma Holds(ctx: Ctx, i: Node?, c: Slot, s: Tree)
      requires Valid() && WfCtx(ctx) && Plug(ctx, s) == tree && Names(ctx, i, c)
      ensures i != null ==> i in CtxNodes(ctx) && i in Repr
    {
      PlugNodes(ctx, s);
    }

    /** What a descent knows about the slot it stands at. */
    lemma Opened(ctx: Ctx, s: Tree, b: Box)
      requires Valid() && extent.Some? && Focus(tree, ctx, s, extent.value, b)
      ensures Open(ctx, Root(s), b) && Sustains(ctx, s) && CtxNodes(ctx) !! NodesOf(s)
      ensures WfCtx(ctx) && Plug(ctx, s) == tree
      ensures Distinct(s) && Linked(s) && Celled(s, b) && Full(s)
      ensures Repr == CtxNodes(ctx) + NodesOf(s) && Contents() == CtxPoints(ctx) + Points(s)
    {
      PlugNodes(ctx, s);
      PlugRoot(ctx, s);
      PlugPoints(ctx, s);
    }

    /** A sound subtree in the open slot makes a valid tree. */
    lemma Replanted(ctx: Ctx, s: Tree, b: Box)
      requires Open(ctx, Root(s), b) && Sustains(ctx, s) && CtxNodes(ctx) !! NodesOf(s)
      requires Distinct(s) && Linked(s) && Celled(s, b) && Full(s)
      requires tree == Plug(ctx, s) && Repr == CtxNodes(ctx) + NodesOf(s)
      ensures Valid() && Contents() == CtxPoints(ctx) + Points(s)
    {
      Replant(ctx, s, extent.value, b);
    }

    lemma OpenedAbove(a: Ctx, sub: Tree, ab: Box, ctx: Ctx, r: Node?, c: Slot)
      requires Valid() && extent.Some? && ctx.Hole? && WfCtx(ctx) && CtxDistinct(ctx)
      requires Above(tree, a, sub, extent.value, ab, ctx.up, ctx.box) && Names(a, r, c)
      ensures Open(a, Root(sub), ab) && WfCtx(a) && (r != null ==> r in CtxNodes(a))
      ensures CtxNodes(a) <= CtxNodes(ctx.up) && NodesOf(ctx.quad) !! CtxNodes(a)
      ensures CtxNodes(ctx) == NodesOf(ctx.quad) + CtxNodes(ctx.up) && ctx.quad.Quad? &&
        ctx.quad.node in NodesOf(ctx.quad)
      ensures CtxPoints(ctx) == Points(ctx.quad) + CtxPoints(a)
      ensures a.Hole? ==> Leaves(a.quad) >= 1
      ensures forall x, y :: ctx.box.Contains(x, y) ==> ab.Contains(x, y)
    {
      Opened(a, sub, ab);
    }

    /** The array node that owns the open slot, with `s` in the slot. */
    lemma OpenSlot(ctx: Ctx, s: Tree, b: Box)
      requires ctx.Hole? && Open(ctx, Root(s), b) && Linked(s) && Distinct(s) && Celled(s, b) && Full(s)
      requires CtxNodes(ctx) !! NodesOf(s)
      ensures ctx.quad.Quad? && Kid(ctx.quad, ctx.q) == Nil
      ensures var all := WithKid(ctx.quad, ctx.q, s);
              && all.Quad? && all.node == ctx.quad.node && Linked(all) && Distinct(all) && Full'(all)
              && Celled(all, ctx.box) && NodesOf(all) == NodesOf(ctx.quad) + NodesOf(s)
              && Points(all) == Points(ctx.quad) + Points(s) && Leaves(all) == Leaves(ctx.quad) + Leaves(s)
    {
      var quad, q := ctx.quad, ctx.q;
      KidWithKid(quad, q, s);
      FillLinked(quad, q, s);
      FillDistinct(quad, q, s);
      FillNodes(quad, q, s);
      FillPoints(quad, q, s);
      FillLeaves(quad, q, s);
      FillCelled(quad, q, s, ctx.box);
    }

    /** The lone leaf of a collapsing array node also fits the cell further up. */
    lemma LeafMovesUp(all: Tree, w: Slot, b: Box, ab: Box)
      requires all.Quad? && Kid(all, w).Leaf? && Linked(all) && Distinct(all) && Full'(all) && Celled(all, b)
      requires forall x, y :: b.Contains(x, y) ==> ab.Contains(x, y)
      ensures var leaf := Kid(all, w);
              && Celled(leaf, ab) && Linked(leaf) && Distinct(leaf) && Full(leaf) && Leaves(leaf) == 1
              && NodesOf(leaf) <= NodesOf(all) - {all.node}
    {
      var leaf := Kid(all, w);
      KidNodes(all);
      forall i | 0 <= i < |leaf.pts|
        ensures ab.Contains(leaf.pts[i].x, leaf.pts[i].y)
      {
        QuadrantInside(b, w, leaf.pts[i].x, leaf.pts[i].y);
      }
    }

    lemma OpenWf(ctx: Ctx, was: Node?, b: Box)
      requires Open(ctx, was, b)
      ensures WfCtx(ctx) && CtxDistinct(ctx)
    {
    }

    /** Store `n` in slot `c` of the array node `i`, or as the root when there is no `i`. */
    method Attach(ghost ctx: Ctx, ghost was: Node?, ghost b: Box, i: Node?, c: Slot, n: Node?)
      requires Open(ctx, was, b) && Names(ctx, i, c)
      modifies this`root, (if i == null then {} else {i})`child
      ensures Open(ctx, n, b) && (i != null ==> root == old(root))
    {
      if i != null {
        i.child := i.child[c := n];
      } else {
        root := n;
      }
    }

    /** What Valid says, for proofs that hide it. */
    lemma ValidParts()
      requires Valid()
      ensures root == Root(tree) && Repr == NodesOf(tree) && Contents() == Points(tree)
      ensures Linked(tree) && Distinct(tree) && Full(tree)
      ensures extent.None? ==> tree == Nil
      ensures extent.Some? ==> extent.value.Square() && Celled(tree, extent.value)
    {
    }

    lemma ValidWhole(b: Box)
      requires root == Root(tree) && Repr == NodesOf(tree) && Linked(tree) && Distinct(tree) && Full(tree)
      requires extent == Some(b) && b.Square() && Celled(tree, b)
      ensures Valid() && Contents() == Points(tree)
    {
    }

    lemma Absent(p: Point)
      requires p !in Contents()
      ensures Contents() == Contents() - multiset{p}
    {
    }

    /** Double the extent towards (x, y) until it covers that position. */
    method Cover(x: real, y: real)
      requires Valid()
      modifies this`root, this`extent, this`tree, this`Repr
      ensures Valid() && Contents() == old(Contents()) && fresh(Repr - old(Repr))
      ensures extent == Some(Covered(old(extent), x, y))
    {
      hide *;
      ValidParts();
      if extent.None? {
        CelledNil(UnitCell(x, y));
        CoveredIs(extent, x, y);
        extent := Some(UnitCell(x, y));
        ValidWhole(extent.value);
        return;
      }
      var b := extent.value;
      var l := if b.x1 - b.x0 != 0.0 then b.x1 - b.x0 else 1.0;
      SquareWidth(b);
      CoveredIs(extent, x, y);
      var f := root;
      ghost var w, made := tree, {};
      if tree.Quad? {
        QuadHasTwo(tree);
      }
      while !b.Contains(x, y)
        invariant b.Square() && l == b.x1 - b.x0 && extent.value.Within(b)
        invariant Grown(b, x, y) == Covered(extent, x, y)
        invariant Linked(w) && Distinct(w) && Celled(w, b) && f == Root(w)
        invariant NodesOf(w) == Repr + made && fresh(made) && Points(w) == Points(tree)
        invariant tree.Quad? ==> Full(w) && Leaves(w) >= 2
        modifies {}
        decreases GrowMeasure(b, x, y)
      {
        var p := new Node.Array();
        var a := GrowSlot(b, x, y);
        p.child := p.child[a := f];
        f, l := p, 2.0 * l;
        var grown := Stretch(b, a, l);
        GrownStep(b, x, y, l);
        Wrap(w, p, a, b, grown);
        WithinTransitive(extent.value, b, grown);
        w, made, b := WithKid(Quad(p, Nil, Nil, Nil, Nil), a, w), made + {p}, grown;
      }
      CoveredIs(Some(b), x, y);
      KindOf(tree);
      KindOf(w);
      if root != null && |root.child| != 0 {
        root, tree, Repr := f, w, Repr + made;
      } else {
        CelledWider(tree, extent.value, b);
      }
      extent := Some(b);
      ValidWhole(b);
    }

    /** Put `p` into a tree whose extent already covers it. */
    method Insert(p: Point)
      requires Valid() && extent.Some? && extent.value.Contains(p.x, p.y)
      modifies this`root, this`tree, this`Repr, Repr`child, Repr`next
      ensures Valid() && Contents() == old(Contents()) + multiset{p}
      ensures fresh(Repr - old(Repr)) && extent == old(extent)
    {
      hide *;
      StartsAtRoot();
      var l := new Node.LeafOf(p);
      Fresh(l, p);
      StartsAtRoot();
      var o, b := root, extent.value;
      var i: Node?, c: Slot := null, 0;
      ghost var ctx, cur := Top, tree;
      while o != null && |o.child| != 0
        invariant Focus(tree, ctx, cur, extent.value, b) && Linked(cur) && o == Root(cur)
        invariant Names(ctx, i, c) && b.Contains(p.x, p.y)
        modifies {}
        decreases cur
      {
        KindOf(cur);
        c := b.QuadrantOf(p.x, p.y);
        FocusDown(tree, ctx, cur, extent.value, b, c);
        QuadrantsPartition(b, p.x, p.y, c);
        NamesDown(ctx, cur, c, b);
        i, o := o, o.child[c];
        ctx, cur, b := Down(ctx, cur, c, b), Kid(cur, c), b.Quadrant(c);
      }
      KindOf(cur);
      if o == null {
        Settle(l, p, i, c, b, ctx);
      } else if Coincident(p, o.data.value) {
        Chain(l, p, o, i, c, b, ctx, cur);
      } else {
        Split(l, p, o, i, c, b, ctx, cur);
      }
    }

    /** The slot is free: the new leaf takes it. */
    method Settle(l: Node, p: Point, i: Node?, c: Slot, ghost b: Box, ghost ctx: Ctx)
      requires Valid() && extent.Some? && Focus(tree, ctx, Nil, extent.value, b) && Names(ctx, i, c)
      requires b.Contains(p.x, p.y) && l !in Repr && Lone(l, p)
      modifies this`root, this`tree, this`Repr, Repr`child
      ensures Valid() && Contents() == old(Contents()) + multiset{p} && Repr == old(Repr) + {l}
    {
      hide *;
      ghost var leaf := Leaf([l], [p]);
      KindOf(Nil);
      Opened(ctx, Nil, b);
      Holds(ctx, i, c, Nil);
      Attach(ctx, null, b, i, c, l);
      SingleLeaf(l, p, b);
      SustainsMore(ctx, Nil, leaf);
      tree, Repr := Plug(ctx, leaf), Repr + {l};
      Replanted(ctx, leaf, b);
    }

    /** The leaf in the slot is at the same position: the new leaf goes in front of it. */
    method Chain(l: Node, p: Point, o: Node, i: Node?, c: Slot, ghost b: Box, ghost ctx: Ctx, ghost cur: Tree)
      requires Valid() && extent.Some? && Focus(tree, ctx, cur, extent.value, b) && Names(ctx, i, c)
      requires cur.Leaf? && Linked(cur) && o == Root(cur) && Coincident(p, cur.pts[0])
      requires b.Contains(p.x, p.y) && l !in Repr && Lone(l, p)
      modifies this`root, this`tree, this`Repr, Repr`child, l`next
      ensures Valid() && Contents() == old(Contents()) + multiset{p} && Repr == old(Repr) + {l}
    {
      hide *;
      ghost var grown := Leaf([l] + cur.chain, [p] + cur.pts);
      KindOf(cur);
      Opened(ctx, cur, b);
      Holds(ctx, i, c, cur);
      LoneFields(l, p);
      ConsLeaf(l, p, cur, b);
      l.next := o;
      Attach(ctx, o, b, i, c, l);
      ConsLinked(l, p, cur);
      SustainsMore(ctx, cur, grown);
      tree, Repr := Plug(ctx, grown), Repr + {l};
      Replanted(ctx, grown, b);
    }

    /** The leaf in the slot is at another position: nest array nodes there until the two
        positions fall into different quadrants. */
    method Split(l: Node, p: Point, o: Node, i0: Node?, c0: Slot, b0: Box, ghost ctx0: Ctx, ghost cur: Tree)
      requires Valid() && extent.Some? && Focus(tree, ctx0, cur, extent.value, b0) && Names(ctx0, i0, c0)
      requires cur.Leaf? && Linked(cur) && o == Root(cur) && !Coincident(p, cur.pts[0])
      requires b0.Contains(p.x, p.y) && l !in Repr && Lone(l, p)
      modifies this`root, this`tree, this`Repr, Repr`child
      ensures Valid() && Contents() == old(Contents()) + multiset{p}
      ensures fresh(Repr - old(Repr) - {l})
    {
      hide *;
      KindOf(cur);
      Opened(ctx0, cur, b0);
      Holds(ctx0, i0, c0, cur);
      var h := o.data.value;
      var i, c, b := i0, c0, b0;
      ghost var ctx, was, nodes: set<Node> := ctx0, o as Node?, Repr;
      while true
        invariant Open(ctx, was, b) && Names(ctx, i, c)
        invariant Linked(cur) && Distinct(cur) && Celled(cur, b) && b.Contains(p.x, p.y) && Lone(l, p)
        invariant nodes == CtxNodes(ctx) + NodesOf(cur) && CtxNodes(ctx) !! NodesOf(cur) && l !in nodes
        invariant (i != null ==> i in CtxNodes(ctx)) && fresh(nodes - old(Repr))
        invariant CtxPoints(ctx) + Points(cur) == old(Contents())
        decreases SplitMeasure(b, p, h)
      {
        HeadInCell(cur, b);
        var a := new Node.Array();
        Attach(ctx, was, b, i, c, a);
        i, was := a, null;
        c := b.QuadrantOf(p.x, p.y);
        var g := b.QuadrantOf(h.x, h.y);
        nodes := nodes + {a};
        if c != g {
          Part(l, p, o, a, g, c, b, ctx, cur, nodes);
          return;
        }
        SplitMeasureDecreases(b, p, h);
        CelledNarrow(cur, b, c);
        QuadrantsPartition(b, p.x, p.y, c);
        Nested(ctx, a, c, b);
        ctx, b := Hole(Quad(a, Nil, Nil, Nil, Nil), c, b, ctx), b.Quadrant(c);
      }
    }

    /** The first array node of a split: an empty one, whose slot `c` is the new open slot. */
    lemma Nested(ctx: Ctx, a: Node, c: Slot, b: Box)
      requires Open(ctx, a, b) && a !in CtxNodes(ctx)
      requires a.child == [null, null, null, null] && a.data == None
      ensures var d := Hole(Quad(a, Nil, Nil, Nil, Nil), c, b, ctx);
              && Open(d, null, b.Quadrant(c)) && Names(d, a, c)
              && CtxNodes(d) == CtxNodes(ctx) + {a} && CtxPoints(d) == CtxPoints(ctx) && a in CtxNodes(d)
    {
      var bare := Quad(a, Nil, Nil, Nil, Nil);
      BareFacts(bare, b);
      assert a.child[c := null] == a.child;
    }

    /** Two positions in different quadrants of the new array node `a`: one slot each. */
    method Part(l: Node, p: Point, o: Node, a: Node, g: Slot, c: Slot, ghost b: Box, ghost ctx: Ctx, ghost cur: Tree,
                ghost nodes: set<Node>)
      requires Open(ctx, a, b)
      requires cur.Leaf? && Linked(cur) && Distinct(cur) && Celled(cur, b) && o == Root(cur)
      requires b.Contains(p.x, p.y) && Lone(l, p)
      requires g == b.QuadrantOf(cur.pts[0].x, cur.pts[0].y) && c == b.QuadrantOf(p.x, p.y) && c != g
      requires nodes == CtxNodes(ctx) + NodesOf(cur) + {a}
      requires CtxNodes(ctx) !! NodesOf(cur) && a !in CtxNodes(ctx) + NodesOf(cur) && l !in nodes
      requires a.child == [null, null, null, null] && a.data == None
      modifies this`tree, this`Repr, a`child
      ensures Valid() && Contents() == CtxPoints(ctx) + Points(cur) + multiset{p} && Repr == nodes + {l}
    {
      hide *;
      ghost var bare, leaf := Quad(a, Nil, Nil, Nil, Nil), Leaf([l], [p]);
      KindOf(cur);
      BareOf(a);
      OpenWf(ctx, a, b);
      a.child := a.child[g := o];
      a.child := a.child[c := l];
      SingleLeaf(l, p, b.Quadrant(c));
      CelledNarrow(cur, b, g);
      QuadrantsPartition(b, p.x, p.y, c);
      PairShape(bare, g, cur, c, leaf);
      PairPoints(bare, g, cur, c, leaf);
      PairDistinct(bare, g, cur, c, leaf);
      PairCelled(bare, g, cur, c, leaf, b);
      PairLinked(bare, g, cur, c, leaf);
      PairFull(bare, g, cur, c, leaf);
      ghost var pair := Pair(bare, g, cur, c, leaf);
      SustainsTwo(ctx, pair);
      tree, Repr := Plug(ctx, pair), nodes + {l};
      Replanted(ctx, pair, b);
    }

    /** Put one datum in, growing the extent first. */
    method Add(p: Point)
      requires Valid()
      modifies this`root, this`extent, this`tree, this`Repr, Repr`child, Repr`next
      ensures Valid() && Contents() == old(Contents()) + multiset{p} && fresh(Repr - old(Repr))
      ensures extent == Some(Covered(old(extent), p.x, p.y))
    {
      Cover(p.x, p.y);
      Insert(p);
    }

    /** Put many in: the extent grows once, over their bounding box, before any is inserted. */
    method AddAll(ps: seq<Point>)
      requires Valid()
      modifies this`root, this`extent, this`tree, this`Repr, Repr`child, Repr`next
      ensures Valid() && Contents() == old(Contents()) + multiset(ps) && fresh(Repr - old(Repr))
      ensures |ps| == 0 ==> extent == old(extent)
      ensures |ps| > 0 ==> exists x0, y0, x1, y1 ::
                Corners(ps, x0, y0, x1, y1) && extent == Some(Covered(Some(Covered(old(extent), x0, y0)), x1, y1))
    {
      hide *;
      ValidParts();
      assert multiset(ps[..0]) == multiset{} && ps[..|ps|] == ps;
      if |ps| == 0 {
        return;
      }
      var x0, y0, x1, y1 := Bounds(ps);
      CornersSpan(ps, x0, y0, x1, y1);
      Cover(x0, y0);
      ghost var low := extent.value;
      Cover(x1, y1);
      ghost var b := extent.value;
      Spanned(b, low, x0, y0, x1, y1, ps);
      for e := 0 to |ps|
        invariant Valid() && extent == Some(b) && fresh(Repr - old(Repr))
        invariant Contents() == old(Contents()) + multiset(ps[..e])
      {
        assert ps[..e + 1] == ps[..e] + [ps[e]];
        Insert(ps[e]);
      }
    }

    /** The nearest datum to (x, y) strictly within `radius`, or any distance without one.
        `root'` stands for the square root: any upper approximation prunes soundly. */
    method Find(x: real, y: real, radius: Option<real>, root': real -> real) returns (r: Option<Point>)
      requires Valid()
      requires forall v: real :: v >= 0.0 ==> root'(v) >= 0.0 && root'(v) * root'(v) >= v
      ensures r.Some? ==> r.value in Contents() && Inside(x, y, r.value, Squared(radius))
      ensures Reaches(radius) && r.Some? ==>
                forall q :: q in Contents() ==> Dist2(x, y, r.value) <= Dist2(x, y, q)
      ensures Reaches(radius) && r.None? ==> forall q :: q in Contents() ==> !Inside(x, y, q, Squared(radius))
      ensures extent.None? ==> r.None?
      ensures extent.Some? ==>
                var w := FirstWindow(extent.value, x, y, radius);
                (r.Some? <==> Sighted(tree, extent.value, w, x, y, Squared(radius)))
    {
      hide *;
      r := None;
      ValidParts();
      if extent.None? {
        KindOf(Nil);
        return;
      }
      var e := Squared(radius);
      var win := FirstWindow(extent.value, x, y, radius);
      var stack: seq<Frame> := if root == null then [] else [Frame(root, extent.value)];
      ghost var held := if root == null then [] else [tree];
      KindOf(tree);
      SearchStarts(tree, extent.value, x, y, e);
      ghost var ok := Reaches(radius);
      ghost var w0, e0 := win, e;
      ghost var seen := Sighted(tree, extent.value, w0, x, y, e0);
      SightedStart(tree, root, extent.value, w0, x, y, e0);
      if ok {
        FirstWindowSound(tree, extent.value, x, y, radius);
      }
      while |stack| > 0
        invariant |held| == |stack| && Aligned(stack, held) && PartsOf(tree, held)
        invariant ok ==> Windowed(tree, win, x, y, e) && Pending(tree, held, x, y, e)
        invariant r.None? ==> win == w0 && e == e0 && (seen <==> SightedHeld(stack, held, w0, x, y, e0))
        invariant r.Some? ==> e == Some(Dist2(x, y, r.value)) && r.value in Points(tree)
        invariant r.Some? ==> Inside(x, y, r.value, e0) && seen
        modifies {}
        decreases Weight(held)
      {
        var top := stack[|stack| - 1];
        ghost var t, below := held[|held| - 1], held[..|held| - 1];
        AlignedPop(stack, held);
        PartsPop(tree, held);
        WeightPop(held);
        KindOf(t);
        SightedPop(stack, held, w0, x, y, e0);
        SightedCases(t, top.box, w0, x, y, e0);
        var h, b := top.node, top.box;
        if h == null || Misses(b, win) {
          if ok {
            if h != null {
              Pruned(tree, t, b, win, x, y, e);
            }
            PendingPop(tree, held, x, y, e, e);
          }
          stack, held := stack[..|stack| - 1], below;
        } else if |h.child| != 0 {
          var s := b.QuadrantOf(x, y);
          AlignedPush(stack[..|stack| - 1], below, t, b, s);
          FramesLength(t, b, s);
          PartsPush(tree, held, s);
          WeightPush(held, s);
          if r.None? {
            SightedPush(stack[..|stack| - 1], below, t, b, s, w0, x, y, e0);
          }
          if ok {
            PendingPush(tree, held, x, y, e, s);
          }
          stack, held := stack[..|stack| - 1] + FramesFrom(h.child, b, s), below + KidsFrom(t, s);
        } else {
          var p := h.data.value;
          var v := Dist2(x, y, p);
          HeadIsPoint(t);
          Closer(x, y, p, e, v);
          ghost var before := e;
          if e.None? || v < e.value {
            DistNonNegative(x, y, p);
            if r.Some? {
              CloserStill(x, y, p, r.value, Squared(radius));
            }
            e := Some(v);
            var d := root'(v);
            win := Box(x - d, y - d, x + d, y + d);
            r := Some(p);
            WindowAround(tree, x, y, v, d);
          }
          LeafDone(t, b, x, y, e);
          if ok {
            PendingPop(tree, held, x, y, before, e);
          }
          stack, held := stack[..|stack| - 1], below;
        }
      }
      assert held == [] && stack == [];
      SightedNothing(w0, x, y, e0);
      if ok {
        SearchEnds(tree, x, y, e);
        forall q | q in Contents() && r.Some?
          ensures Dist2(x, y, r.value) <= Dist2(x, y, q)
        {
          NearestSoFar(x, y, q, r.value);
        }
      }
    }

    /** One step of a removal's descent. */
    lemma RemoveStep(p: Point, ctx: Ctx, cur: Tree, b: Box, u: Slot)
      requires extent.Some? && Focus(tree, ctx, cur, extent.value, b) && cur.Quad? && u == b.QuadrantOf(p.x, p.y)
      ensures var d, kid := Down(ctx, cur, u, b), Kid(cur, u);
              && Focus(tree, d, kid, extent.value, b.Quadrant(u)) && Linked(kid) && Full(kid) && Names(d, cur.node, u)
              && d.Hole? && d.up == ctx && d.box == b && Root(kid) == cur.node.child[u]
              && (kid.Nil? <==> Root(kid) == null) && (kid.Quad? ==> |kid.node.child| == 4 && Root(kid) == kid.node)
              && (kid.Leaf? ==> Root(kid) == kid.chain[0] && kid.chain[0].child == [])
      ensures p in Points(cur) ==> p in Points(Kid(cur, u))
      ensures WfCtx(ctx) && Points(Nil) == multiset{}
    {
      hide *;
      FocusDown(tree, ctx, cur, extent.value, b, u);
      FocusParts(tree, ctx, cur, extent.value, b);
      FocusParts(tree, Down(ctx, cur, u, b), Kid(cur, u), extent.value, b.Quadrant(u));
      NamesDown(ctx, cur, u, b);
      DownIs(ctx, cur, u, b);
      if p in Points(cur) {
        PointInKid(cur, b, p);
      }
      KindOf(Kid(cur, u));
      KindOf(Nil);
    }

    /** How the ancestor a removal may collapse onto moves down with the descent. */
    lemma RemoveAncestor(a: Ctx, sub: Tree, ab: Box, ctx: Ctx, cur: Tree, b: Box, u: Slot)
      requires extent.Some? && Focus(tree, ctx, cur, extent.value, b) && cur.Quad?
      requires Above(tree, a, sub, extent.value, ab, ctx, b)
      ensures |cur.node.child| == 4 && WfCtx(ctx)
      ensures var d, kid, kb := Down(ctx, cur, u, b), Kid(cur, u), b.Quadrant(u);
              if HasSibling(cur.node.child, u) then Above(tree, d, kid, extent.value, kb, d, kb)
              else Above(tree, a, sub, extent.value, ab, d, kb)
    {
      hide *;
      FocusParts(tree, ctx, cur, extent.value, b);
      SiblingKinds(cur, u);
      if HasSibling(cur.node.child, u) {
        FocusDown(tree, ctx, cur, extent.value, b, u);
        DownIs(ctx, cur, u, b);
        AboveHere(tree, Down(ctx, cur, u, b), Kid(cur, u), extent.value, b.Quadrant(u));
      } else {
        AbovePast(tree, a, sub, extent.value, ab, ctx, cur, b, u);
      }
    }

    /** Take one occurrence of `p` out, if there is one. */
    method Remove(p: Point)
      requires Valid()
      modifies this`root, this`tree, this`Repr, Repr`child, Repr`next
      ensures Valid() && Contents() == old(Contents()) - multiset{p}
      ensures extent == old(extent) && Repr <= old(Repr)
    {
      hide *;
      ValidParts();
      KindOf(tree);
      if root == null {
        return;
      }
      StartsAtRoot();
      var e, b := root, extent.value;
      var n: Node?, u: Slot, r: Node?, c: Slot := null, 0, null, 0;
      ghost var all, ctx, cur, a, sub, ab := b, Top, tree, Top, tree, b;
      AboveTop(tree, all);
      while |e.child| != 0
        invariant e != null && e == Root(cur)
        invariant Focus(tree, ctx, cur, all, b) && Linked(cur) && Full(cur)
        invariant Names(ctx, n, u) && (p in Contents() ==> p in Points(cur))
        invariant e.child == [] && ctx.Hole? ==> Above(tree, a, sub, all, ab, ctx.up, ctx.box)
        invariant e.child != [] ==> Above(tree, a, sub, all, ab, ctx, b)
        invariant Names(a, r, c)
        modifies {}
        decreases cur
      {
        KindOf(cur);
        u := b.QuadrantOf(p.x, p.y);
        RemoveStep(p, ctx, cur, b, u);
        n, e := e, e.child[u];
        if e == null {
          Absent(p);
          return;
        }
        if |e.child| != 0 {
          RemoveAncestor(a, sub, ab, ctx, cur, b, u);
          if HasSibling(n.child, u) {
            r, c := n, u;
            a, sub, ab := Down(ctx, cur, u, b), Kid(cur, u), b.Quadrant(u);
          }
        }
        ctx, cur, b := Down(ctx, cur, u, b), Kid(cur, u), b.Quadrant(u);
      }
      KindOf(cur);
      Drop(p, e, n, u, r, c, b, ctx, cur, a, sub, ab);
    }

    /** Walk the chain of the one leaf that may hold `p`. */
    method Drop(p: Point, e0: Node, n: Node?, u: Slot, r: Node?, c: Slot, ghost b: Box, ghost ctx: Ctx, ghost cur: Tree,
                ghost a: Ctx, ghost sub: Tree, ghost ab: Box)
      requires Valid() && extent.Some? && Focus(tree, ctx, cur, extent.value, b) && Names(ctx, n, u)
      requires ctx.Hole? ==> Above(tree, a, sub, extent.value, ab, ctx.up, ctx.box) && Names(a, r, c)
      requires cur.Leaf? && Linked(cur) && e0 == Root(cur) && (p in Contents() ==> p in Points(cur))
      modifies this`root, this`tree, this`Repr, Repr`child, Repr`next
      ensures Valid() && Contents() == old(Contents()) - multiset{p} && Repr <= old(Repr)
    {
      hide *;
      KindOf(cur);
      NamesNull(ctx, n, u);
      var e := e0;
      var i: Node? := null;
      ghost var k := 0;
      while e.data != Some(p)
        invariant 0 <= k < |cur.chain| && e == cur.chain[k]
        invariant if k == 0 then i == null else i == cur.chain[k - 1]
        invariant p !in cur.pts[..k]
        invariant Valid() && Focus(tree, ctx, cur, extent.value, b) && Linked(cur)
        invariant ctx.Hole? ==> Above(tree, a, sub, extent.value, ab, ctx.up, ctx.box)
        modifies {}
        decreases |cur.chain| - k
      {
        ChainAt(cur, k);
        i := e;
        if e.next == null {
          NotInLeaf(cur, p);
          Absent(p);
          return;
        }
        e, k := e.next, k + 1;
      }
      ChainAt(cur, k);
      if i != null {
        DropLater(p, e, i, k, b, ctx, cur);
      } else if n == null {
        DropRoot(p, e, b, ctx, cur);
      } else {
        DropHead(p, e, n, u, r, c, b, ctx, cur, a, sub, ab);
      }
    }

    /** Not the first of its chain: the leaf before it is linked past it. */
    method DropLater(p: Point, e: Node, i: Node, ghost k: nat, ghost b: Box, ghost ctx: Ctx, ghost cur: Tree)
      requires Valid() && extent.Some? && Focus(tree, ctx, cur, extent.value, b)
      requires cur.Leaf? && Linked(cur) && 0 < k < |cur.chain| && e == cur.chain[k] && i == cur.chain[k - 1]
      requires cur.pts[k] == p
      modifies this`tree, this`Repr, Repr`next
      ensures Valid() && Contents() == old(Contents()) - multiset{p} && Repr <= old(Repr)
    {
      hide *;
      KindOf(cur);
      Opened(ctx, cur, b);
      InChain(cur, k);
      InChain(cur, k - 1);
      WithoutValues(cur, k, b);
      WithoutRoot(cur, k);
      TakeOne(ctx, cur, p);
      Unlink(cur, k, i, e);
      SustainsMore(ctx, cur, Without(cur, k));
      tree, Repr := Plug(ctx, Without(cur, k)), Repr - {e};
      Replanted(ctx, Without(cur, k), b);
    }

    /** The first of a chain that is the whole tree. */
    method DropRoot(p: Point, e: Node, ghost b: Box, ghost ctx: Ctx, ghost cur: Tree)
      requires Valid() && extent.Some? && Focus(tree, ctx, cur, extent.value, b) && ctx.Top?
      requires cur.Leaf? && Linked(cur) && |cur.chain| > 0 && e == cur.chain[0] && cur.pts[0] == p
      modifies this`root, this`tree, this`Repr, Repr`next
      ensures Valid() && Contents() == old(Contents()) - multiset{p} && Repr <= old(Repr)
    {
      hide *;
      KindOf(cur);
      Opened(ctx, cur, b);
      InChain(cur, 0);
      WithoutValues(cur, 0, b);
      TakeOne(ctx, cur, p);
      var o := e.next;
      ChainAt(cur, 0);
      NamesTop(ctx);
      Unlink(cur, 0, null, e);
      Attach(ctx, e, b, null, 0, o);
      if o != null {
        WithoutRoot(cur, 0);
        SustainsMore(ctx, cur, Without(cur, 0));
        tree, Repr := Plug(ctx, Without(cur, 0)), Repr - {e};
        Replanted(ctx, Without(cur, 0), b);
      } else {
        KindOf(Nil);
        CelledNil(b);
        SustainsTop(ctx, Nil);
        LastOfChain(cur);
        tree, Repr := Plug(ctx, Nil), Repr - {e};
        Replanted(ctx, Nil, b);
      }
    }

    /** What is known of a chain in a slot before its first leaf is taken out. */
    lemma BeforeDrop(p: Point, e: Node, n: Node, u: Slot, b: Box, ctx: Ctx, cur: Tree) returns (rest: Tree)
      requires Valid() && extent.Some? && Focus(tree, ctx, cur, extent.value, b) && Names(ctx, n, u)
      requires cur.Leaf? && Linked(cur) && |cur.chain| > 0 && e == cur.chain[0] && cur.pts[0] == p
      ensures |cur.chain| == |cur.pts| && Distinct(cur) && Root(cur) == e && Leaves(cur) == 1
      ensures rest == if |cur.chain| > 1 then Without(cur, 0) else Nil
      ensures NodesOf(rest) == NodesOf(cur) - {e} && Distinct(rest) && Celled(rest, b) && Full(rest) &&
        Leaves(rest) <= 1
      ensures if |cur.chain| > 1 then e.next == cur.chain[1] else e.next == null
      ensures Open(ctx, e, b) && WfCtx(ctx) && CtxDistinct(ctx) && CtxNodes(ctx) !! NodesOf(cur) && Sustains(ctx, cur)
      ensures ctx.Hole? && ctx.quad.Quad? && n == ctx.quad.node && u == ctx.q && n in CtxNodes(ctx)
      ensures Leaves(ctx.quad) >= 1 && e in NodesOf(cur) && Repr == CtxNodes(ctx) + NodesOf(cur)
      ensures Contents() - multiset{p} == CtxPoints(ctx) + Points(rest)
    {
      hide *;
      KindOf(cur);
      Opened(ctx, cur, b);
      rest := if |cur.chain| > 1 then Without(cur, 0) else Nil;
      RestOfChain(cur, b);
      Holds(ctx, n, u, cur);
      NamesNull(ctx, n, u);
      InChain(cur, 0);
      TakeOne(ctx, cur, p);
      ChainAt(cur, 0);
      OpenWf(ctx, e, b);
      SustainsOne(ctx, cur);
    }

    /** The first of a chain in slot `u` of `n`: the slot gets the rest of the chain, and when that
        leaves `n` with one leaf only, the leaf moves up to slot `c` of `r`. */
    method DropHead(p: Point, e: Node, n: Node, u: Slot, r: Node?, c: Slot, ghost b: Box, ghost ctx: Ctx,
      ghost cur: Tree,
                    ghost a: Ctx, ghost sub: Tree, ghost ab: Box)
      requires Valid() && extent.Some? && Focus(tree, ctx, cur, extent.value, b) && Names(ctx, n, u)
      requires ctx.Hole? && Above(tree, a, sub, extent.value, ab, ctx.up, ctx.box) && Names(a, r, c)
      requires cur.Leaf? && Linked(cur) && |cur.chain| > 0 && e == cur.chain[0] && cur.pts[0] == p
      modifies this`root, this`tree, this`Repr, Repr`child, Repr`next
      ensures Valid() && Contents() == old(Contents()) - multiset{p} && Repr <= old(Repr)
    {
      hide *;
      ghost var rest := BeforeDrop(p, e, n, u, b, ctx, cur);
      OpenedAbove(a, sub, ab, ctx, r, c);
      var o := e.next;
      Unlink(cur, 0, null, e);
      RestRoot(cur);
      Attach(ctx, e, b, n, u, o);
      ghost var all := WithKid(ctx.quad, u, rest);
      OpenSlot(ctx, rest, b);
      ghost var w := CollapsesIffLoneLeaf(all);
      if Collapses(n.child) {
        ghost var leaf := Kid(all, w);
        OnlyKidValues(all, w);
        LeafMovesUp(all, w, ctx.box, ab);
        HangUp(FirstOf(n.child), r, c, leaf, a, Root(sub), ab);
      } else {
        SustainsIs(ctx, rest);
        tree, Repr := Plug(ctx, rest), Repr - {e};
        Replanted(ctx, rest, b);
      }
    }

    /** The leaf `lone` takes the slot of the nearest ancestor that has another kid. */
    method HangUp(lone: Node?, r: Node?, c: Slot, ghost leaf: Tree, ghost a: Ctx, ghost was: Node?, ghost ab: Box)
      requires Open(a, was, ab) && WfCtx(a) && Names(a, r, c) && (r != null ==> r in CtxNodes(a))
      requires a.Hole? ==> Leaves(a.quad) >= 1
      requires Celled(leaf, ab) && Linked(leaf) && Distinct(leaf) && Full(leaf) && Leaves(leaf) == 1
      requires lone == Root(leaf) && CtxNodes(a) !! NodesOf(leaf) && NodesOf(leaf) <= Repr
      modifies this`root, this`tree, this`Repr, (if r == null then {} else {r})`child
      ensures Valid() && Contents() == CtxPoints(a) + Points(leaf) && Repr == CtxNodes(a) + NodesOf(leaf)
    {
      hide *;
      SustainsLeaf(a, leaf);
      Attach(a, was, ab, r, c, lone);
      tree, Repr := Plug(a, leaf), CtxNodes(a) + NodesOf(leaf);
      Replanted(a, leaf, ab);
    }
  }
}
