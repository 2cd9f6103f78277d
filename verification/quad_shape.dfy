/** The quadtree's nodes, and the mathematical tree each linked structure stands for.

    A node of the source is either an array of four slots or a leaf {data, next}; both are
    `Node` here, told apart as the source does by the length of `child`. `Tree` is the ghost
    value a node graph represents: it records which nodes are used and which points they hold,
    so footprints and disjointness are facts about values rather than about the heap. */
module QuadShape {
  import opened Options
  import opened QuadGeometry

  datatype Spot = Spot(x: real, y: real)

  class Node {
    var child: seq<Node?>      // four slots, or none for a leaf
    var data: Option<Point>    // what a leaf holds
    var next: Node?            // the next leaf at exactly the same position
    var radius: real           // written by the collision pass
    var value: real            // written by the many-body pass
    var centre: Option<Spot>   // written with it; None is the NaN of dividing 0 by 0

    constructor Array()
      ensures child == [null, null, null, null] && data == None && next == null
    {
      child, data, next := [null, null, null, null], None, null;
    }

    constructor LeafOf(p: Point)
      ensures child == [] && data == Some(p) && next == null
    {
      child, data, next := [], Some(p), null;
    }
  }

  datatype Tree =
    | Nil
    | Leaf(chain: seq<Node>, pts: seq<Point>)
    | Quad(node: Node, k0: Tree, k1: Tree, k2: Tree, k3: Tree)

  ghost function Root(t: Tree): Node? {
    match t
    case Nil => null
    case Leaf(chain, _) => if chain == [] then null else chain[0]
    case Quad(n, _, _, _, _) => n
  }

  ghost function Kid(t: Tree, q: Slot): (k: Tree)
    requires t.Quad?
    ensures k < t
  {
    if q == 0 then t.k0 else if q == 1 then t.k1 else if q == 2 then t.k2 else t.k3
  }

  ghost function WithKid(t: Tree, q: Slot, k: Tree): Tree
    requires t.Quad?
  {
    if q == 0 then t.(k0 := k) else if q == 1 then t.(k1 := k)
    else if q == 2 then t.(k2 := k) else t.(k3 := k)
  }

  ghost function NodesOf(t: Tree): set<Node> {
    match t
    case Nil => {}
    case Leaf(chain, _) => set i | 0 <= i < |chain| :: chain[i]
    case Quad(n, k0, k1, k2, k3) => {n} + NodesOf(k0) + NodesOf(k1) + NodesOf(k2) + NodesOf(k3)
  }

  ghost function Points(t: Tree): multiset<Point> {
    match t
    case Nil => multiset{}
    case Leaf(_, pts) => multiset(pts)
    case Quad(_, k0, k1, k2, k3) => Points(k0) + Points(k1) + Points(k2) + Points(k3)
  }

  /** The number of leaf chains, that is of distinct positions. */
  ghost function Leaves(t: Tree): nat {
    match t
    case Nil => 0
    case Leaf(_, _) => 1
    case Quad(_, k0, k1, k2, k3) => Leaves(k0) + Leaves(k1) + Leaves(k2) + Leaves(k3)
  }

  // ---------------------------------------------------------------- invariants

  /** No node is used twice. */
  ghost predicate Distinct(t: Tree) {
    match t
    case Nil => true
    case Leaf(chain, _) => forall i, j :: 0 <= i < j < |chain| ==> chain[i] != chain[j]
    case Quad(n, _, _, _, _) =>
      && (forall q: Slot :: Distinct(Kid(t, q)) && n !in NodesOf(Kid(t, q)))
      && (forall q: Slot, r: Slot :: q != r ==> NodesOf(Kid(t, q)) !! NodesOf(Kid(t, r)))
  }

  ghost function After(chain: seq<Node>, i: nat): Node? {
    if i + 1 < |chain| then chain[i + 1] else null
  }

  /** A leaf chain: every node holds its point and links to the one after it. */
  ghost predicate LinkedChain(chain: seq<Node>, pts: seq<Point>)
    reads set i | 0 <= i < |chain| :: chain[i]`child,
          set i | 0 <= i < |chain| :: chain[i]`data,
          set i | 0 <= i < |chain| :: chain[i]`next
  {
    && |chain| == |pts| > 0
    && forall i :: 0 <= i < |chain| ==>
         && chain[i].child == []
         && chain[i].data == Some(pts[i])
         && chain[i].next == After(chain, i)
  }

  /** The heap links the nodes exactly as `t` says. */
  ghost predicate Linked(t: Tree)
    reads NodesOf(t)`child, NodesOf(t)`data, NodesOf(t)`next
  {
    match t
    case Nil => true
    case Leaf(chain, pts) =>
      LinkedChain(chain, pts)
    case Quad(n, _, _, _, _) =>
      && n.data == None && |n.child| == 4
      && (forall q: Slot :: Linked(Kid(t, q)) && n.child[q] == Root(Kid(t, q)))
  }

  /** Every leaf lies in its own half-open cell, and a leaf chain holds coincident points only. */
  ghost predicate Celled(t: Tree, b: Box) {
    match t
    case Nil => true
    case Leaf(_, pts) =>
      && |pts| > 0
      && forall i :: 0 <= i < |pts| ==> b.Contains(pts[i].x, pts[i].y) && Coincident(pts[i], pts[0])
    case Quad(_, _, _, _, _) =>
      forall q: Slot :: Celled(Kid(t, q), b.Quadrant(q))
  }

  /** Every array node separates at least two positions. */
  ghost predicate Full(t: Tree) {
    match t
    case Nil => true
    case Leaf(_, _) => true
    case Quad(_, _, _, _, _) =>
      Leaves(t) >= 2 && forall q: Slot :: Full(Kid(t, q))
  }

  // ---------------------------------------------------------------- contexts

  /** The part of a tree around one slot, read from the slot outwards: `quad` is the array node
      that owns the slot (its kid `q` left out), `box` its cell. The descent loops of add and
      remove keep the tree as Plug(context, subtree at hand). */
  datatype Ctx = Top | Hole(quad: Tree, q: Slot, box: Box, up: Ctx)

  ghost predicate WfCtx(c: Ctx) {
    c.Hole? ==> c.quad.Quad? && Kid(c.quad, c.q) == Nil && WfCtx(c.up)
  }

  ghost function Plug(c: Ctx, t: Tree): Tree
    requires WfCtx(c)
  {
    if c.Top? then t else Plug(c.up, WithKid(c.quad, c.q, t))
  }

  /** Step from the array node `t` at `c` into its slot `q`. */
  ghost function Down(c: Ctx, t: Tree, q: Slot, b: Box): (d: Ctx)
    requires WfCtx(c) && t.Quad?
    ensures WfCtx(d) && Plug(d, Kid(t, q)) == Plug(c, t)
  {
    assert WithKid(WithKid(t, q, Nil), q, Kid(t, q)) == t;
    Hole(WithKid(t, q, Nil), q, b, c)
  }

  ghost function CtxNodes(c: Ctx): set<Node> {
    if c.Top? then {} else NodesOf(c.quad) + CtxNodes(c.up)
  }

  ghost function CtxPoints(c: Ctx): multiset<Point> {
    if c.Top? then multiset{} else Points(c.quad) + CtxPoints(c.up)
  }

  ghost predicate CtxDistinct(c: Ctx) {
    c.Hole? ==> Distinct(c.quad) && NodesOf(c.quad) !! CtxNodes(c.up) && CtxDistinct(c.up)
  }

  /** The context is linked, its open slot holding the pointer `r`. */
  ghost predicate CtxLinked(c: Ctx, r: Node?)
    reads CtxNodes(c)`child, CtxNodes(c)`data, CtxNodes(c)`next
  {
    c.Hole? ==>
      && c.quad.Quad? && c.quad.node.data == None && |c.quad.node.child| == 4
      && (forall q: Slot :: Linked(Kid(c.quad, q)))
      && (forall q: Slot :: c.quad.node.child[q] == if q == c.q then r else Root(Kid(c.quad, q)))
      && CtxLinked(c.up, c.quad.node)
  }

  /** The tree's root pointer when the open slot holds `r`. */
  ghost function CtxRoot(c: Ctx, r: Node?): Node? {
    if c.Top? then r else CtxRoot(c.up, Root(c.quad))
  }

  ghost function HoleBox(c: Ctx, root: Box): Box {
    if c.Top? then root else c.box.Quadrant(c.q)
  }

  ghost predicate CtxCelled(c: Ctx, root: Box) {
    c.Hole? ==> c.box == HoleBox(c.up, root) && Celled(c.quad, c.box) && CtxCelled(c.up, root)
  }

  /** Everything beside the open slot separates positions; the nodes above it may not yet. */
  ghost predicate CtxFull(c: Ctx) {
    c.Hole? ==>
      && c.quad.Quad?
      && (forall q: Slot :: Full(Kid(c.quad, q)))
      && CtxFull(c.up)
  }

  /** The subtree `t` makes the array node above the slot separate two positions. */
  ghost predicate Sustains(c: Ctx, t: Tree) {
    c.Hole? ==> Leaves(c.quad) + Leaves(t) >= 2
  }

  // ---------------------------------------------------------------- filling one slot

  lemma KidWithKid(quad: Tree, q: Slot, t: Tree)
    requires quad.Quad?
    ensures WithKid(quad, q, t).Quad? && WithKid(quad, q, t).node == quad.node
    ensures forall r: Slot :: Kid(WithKid(quad, q, t), r) == if r == q then t else Kid(quad, r)
  {
  }

  lemma KidNodes(t: Tree)
    requires t.Quad?
    ensures forall q: Slot :: NodesOf(Kid(t, q)) <= NodesOf(t)
    ensures forall n :: n in NodesOf(t) ==> n == t.node || exists q: Slot :: n in NodesOf(Kid(t, q))
  {
    assert NodesOf(t) == {t.node} + NodesOf(t.k0) + NodesOf(t.k1) + NodesOf(t.k2) + NodesOf(t.k3);
    assert Kid(t, 0) == t.k0 && Kid(t, 1) == t.k1 && Kid(t, 2) == t.k2 && Kid(t, 3) == t.k3;
    hide NodesOf;
    forall n | n in NodesOf(t) && n != t.node
      ensures exists q: Slot :: n in NodesOf(Kid(t, q))
    {
      assert n in NodesOf(Kid(t, 0)) || n in NodesOf(Kid(t, 1)) || n in NodesOf(Kid(t, 2)) || n in NodesOf(Kid(t, 3));
    }
  }

  lemma FillNodes(quad: Tree, q: Slot, t: Tree)
    requires quad.Quad? && Kid(quad, q) == Nil
    ensures NodesOf(WithKid(quad, q, t)) == NodesOf(quad) + NodesOf(t)
  {
    assert q == 0 || q == 1 || q == 2 || q == 3;
  }

  lemma FillPoints(quad: Tree, q: Slot, t: Tree)
    requires quad.Quad? && Kid(quad, q) == Nil
    ensures Points(WithKid(quad, q, t)) == Points(quad) + Points(t)
  {
    var p0, p1, p2, p3, p := Points(quad.k0), Points(quad.k1), Points(quad.k2), Points(quad.k3), Points(t);
    if q == 0 {
      assert p + p1 + p2 + p3 == (p0 + p1 + p2 + p3) + p;
    } else if q == 1 {
      assert p0 + p + p2 + p3 == (p0 + p1 + p2 + p3) + p;
    } else if q == 2 {
      assert p0 + p1 + p + p3 == (p0 + p1 + p2 + p3) + p;
    } else {
      assert p0 + p1 + p2 + p == (p0 + p1 + p2 + p3) + p;
    }
  }

  lemma FillLeaves(quad: Tree, q: Slot, t: Tree)
    requires quad.Quad? && Kid(quad, q) == Nil
    ensures Leaves(WithKid(quad, q, t)) == Leaves(quad) + Leaves(t)
  {
    if q == 0 {
    } else if q == 1 {
    } else if q == 2 {
    } else {
    }
  }

  lemma FillDistinct(quad: Tree, q: Slot, t: Tree)
    requires quad.Quad? && Kid(quad, q) == Nil
    ensures Distinct(WithKid(quad, q, t)) <==> Distinct(quad) && Distinct(t) && NodesOf(quad) !! NodesOf(t)
  {
    var f := WithKid(quad, q, t);
    KidWithKid(quad, q, t);
    KidNodes(quad);
    KidNodes(f);
    assert Kid(f, q) == t;
    if Distinct(f) {
      forall r: Slot
        ensures Distinct(Kid(quad, r)) && quad.node !in NodesOf(Kid(quad, r))
        ensures NodesOf(Kid(quad, r)) !! NodesOf(t)
      {
        assert r != q ==> Kid(f, r) == Kid(quad, r);
      }
      forall r: Slot, u: Slot | r != u
        ensures NodesOf(Kid(quad, r)) !! NodesOf(Kid(quad, u))
      {
        assert r != q ==> Kid(f, r) == Kid(quad, r);
        assert u != q ==> Kid(f, u) == Kid(quad, u);
      }
    }
  }

  lemma FillCelled(quad: Tree, q: Slot, t: Tree, b: Box)
    requires quad.Quad? && Kid(quad, q) == Nil
    ensures Celled(WithKid(quad, q, t), b) <==> Celled(quad, b) && Celled(t, b.Quadrant(q))
  {
    var f := WithKid(quad, q, t);
    KidWithKid(quad, q, t);
    assert Kid(f, q) == t;
    if Celled(f, b) {
      forall r: Slot
        ensures Celled(Kid(quad, r), b.Quadrant(r))
      {
        assert r != q ==> Kid(f, r) == Kid(quad, r);
      }
    }
  }

  lemma FillFull(quad: Tree, q: Slot, t: Tree)
    requires quad.Quad? && Kid(quad, q) == Nil
    requires (forall r: Slot :: Full(Kid(quad, r))) && Full(t) && Leaves(quad) + Leaves(t) >= 2
    ensures Full(WithKid(quad, q, t))
  {
    KidWithKid(quad, q, t);
    FillLeaves(quad, q, t);
  }

  lemma FillLinked(quad: Tree, q: Slot, t: Tree)
    requires quad.Quad? && Kid(quad, q) == Nil
    ensures Linked(WithKid(quad, q, t))
       <==> CtxLinked(Hole(quad, q, Box(0.0, 0.0, 1.0, 1.0), Top), Root(t)) && Linked(t)
  {
    var f := WithKid(quad, q, t);
    KidWithKid(quad, q, t);
    assert Kid(f, q) == t;
    if Linked(f) {
      forall r: Slot
        ensures Linked(Kid(quad, r))
        ensures quad.node.child[r] == if r == q then Root(t) else Root(Kid(quad, r))
      {
        assert r != q ==> Kid(f, r) == Kid(quad, r);
      }
    }
  }

  // ---------------------------------------------------------------- plugging

  lemma {:induction false} PlugNodes(c: Ctx, t: Tree)
    requires WfCtx(c)
    ensures NodesOf(Plug(c, t)) == CtxNodes(c) + NodesOf(t)
  {
    if c.Hole? {
      FillNodes(c.quad, c.q, t);
      PlugNodes(c.up, WithKid(c.quad, c.q, t));
    }
  }

  lemma {:induction false} PlugPoints(c: Ctx, t: Tree)
    requires WfCtx(c)
    ensures Points(Plug(c, t)) == CtxPoints(c) + Points(t)
  {
    if c.Hole? {
      FillPoints(c.quad, c.q, t);
      PlugPoints(c.up, WithKid(c.quad, c.q, t));
    }
  }

  lemma {:induction false} PlugRoot(c: Ctx, t: Tree)
    requires WfCtx(c)
    ensures Root(Plug(c, t)) == CtxRoot(c, Root(t))
  {
    if c.Hole? {
      PlugRoot(c.up, WithKid(c.quad, c.q, t));
    }
  }

  lemma {:induction false} PlugDistinct(c: Ctx, t: Tree)
    requires WfCtx(c)
    ensures Distinct(Plug(c, t)) <==> CtxDistinct(c) && Distinct(t) && CtxNodes(c) !! NodesOf(t)
  {
    if c.Hole? {
      FillDistinct(c.quad, c.q, t);
      FillNodes(c.quad, c.q, t);
      PlugDistinct(c.up, WithKid(c.quad, c.q, t));
    }
  }

  lemma {:induction false} PlugLinked(c: Ctx, t: Tree)
    requires WfCtx(c)
    ensures Linked(Plug(c, t)) <==> CtxLinked(c, Root(t)) && Linked(t)
  {
    if c.Hole? {
      FillLinked(c.quad, c.q, t);
      PlugLinked(c.up, WithKid(c.quad, c.q, t));
    }
  }

  lemma {:induction false} PlugCelled(c: Ctx, t: Tree, root: Box)
    requires WfCtx(c) && CtxCelled(c, root)
    ensures Celled(Plug(c, t), root) <==> Celled(t, HoleBox(c, root))
  {
    if c.Hole? {
      PlugCelled(c.up, WithKid(c.quad, c.q, t), root);
    }
  }

  lemma {:induction false} PlugFull(c: Ctx, t: Tree)
    requires WfCtx(c) && CtxFull(c) && Full(t) && Sustains(c, t)
    ensures Full(Plug(c, t))
  {
    if c.Hole? {
      FillFull(c.quad, c.q, t);
      FillLeaves(c.quad, c.q, t);
      PlugFull(c.up, WithKid(c.quad, c.q, t));
    }
  }
}
