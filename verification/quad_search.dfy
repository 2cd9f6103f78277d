/** The explicit stack of the quadtree's visits, and what it means for a search to have nothing
    left to look at. */
module QuadSearch {
  import opened Options
  import opened QuadGeometry
  import opened QuadShape

  /** A stack entry: a slot's pointer and its cell. */
  datatype Frame = Frame(node: Node?, box: Box)

  ghost function Size(t: Tree): nat {
    match t
    case Nil => 1
    case Leaf(_, _) => 1
    case Quad(_, k0, k1, k2, k3) => 1 + Size(k0) + Size(k1) + Size(k2) + Size(k3)
  }

  /** Termination measure of a stack loop: what is still below the entries. */
  ghost function Weight(held: seq<Tree>): nat {
    if held == [] then 0 else Weight(held[..|held| - 1]) + Size(held[|held| - 1])
  }

  /** Each stack entry is the root pointer and the cell of the subtree held with it. */
  ghost predicate Aligned(stack: seq<Frame>, held: seq<Tree>)
    reads set k, n | 0 <= k < |held| && n in NodesOf(held[k]) :: n
  {
    && |stack| == |held|
    && forall k :: 0 <= k < |held| ==>
         stack[k].node == Root(held[k]) && Linked(held[k]) && Celled(held[k], stack[k].box)
  }

  ghost predicate Somewhere(q: Point, held: seq<Tree>) {
    exists k :: 0 <= k < |held| && q in Points(held[k])
  }

  /** Every point of `t` inside the current disc is still below some stack entry. */
  ghost predicate Pending(t: Tree, held: seq<Tree>, x: real, y: real, e: Option<real>) {
    forall q :: q in Points(t) && Inside(x, y, q, e) ==> Somewhere(q, held)
  }

  /** The kids of `t` in stack order, the one in slot `s` moved to the top. */
  ghost function KidsFrom(t: Tree, s: Slot): seq<Tree>
    requires t.Quad?
  {
    var k := [Kid(t, 3), Kid(t, 2), Kid(t, 1), Kid(t, 0)];
    k[3 := k[3 - s]][3 - s := k[3]]
  }

  function FramesFrom(child: seq<Node?>, b: Box, s: Slot): seq<Frame>
    requires |child| == 4
  {
    var k := [Frame(child[3], b.Quadrant(3)), Frame(child[2], b.Quadrant(2)),
              Frame(child[1], b.Quadrant(1)), Frame(child[0], b.Quadrant(0))];
    k[3 := k[3 - s]][3 - s := k[3]]
  }

  // ---------------------------------------------------------------- measures

  lemma {:induction false} WeightConcat(a: seq<Tree>, b: seq<Tree>)
    ensures Weight(a + b) == Weight(a) + Weight(b)
  {
    if b == [] {
      assert a + b == a;
    } else {
      WeightConcat(a, b[..|b| - 1]);
      assert (a + b)[..|a + b| - 1] == a + b[..|b| - 1];
    }
  }

  lemma WeightFour(a: Tree, b: Tree, c: Tree, d: Tree)
    ensures Weight([a, b, c, d]) == Size(a) + Size(b) + Size(c) + Size(d)
  {
    assert [a, b, c, d][..3] == [a, b, c] && [a, b, c][..2] == [a, b] && [a, b][..1] == [a];
    assert Weight([a]) == Size(a);
    assert Weight([a, b]) == Size(a) + Size(b);
    assert Weight([a, b, c]) == Weight([a, b]) + Size(c);
  }

  lemma WeightKids(t: Tree, s: Slot)
    requires t.Quad?
    ensures Weight(KidsFrom(t, s)) == Size(t) - 1
  {
    var k := KidsFrom(t, s);
    assert k == [k[0], k[1], k[2], k[3]];
    WeightFour(k[0], k[1], k[2], k[3]);
  }

  // ---------------------------------------------------------------- points and cells

  lemma {:induction false} PointsInCell(t: Tree, b: Box, q: Point)
    requires Celled(t, b) && q in Points(t)
    ensures b.Contains(q.x, q.y)
  {
    if t.Quad? {
      assert q in Points(Kid(t, 0)) || q in Points(Kid(t, 1)) || q in Points(Kid(t, 2)) || q in Points(Kid(t, 3));
      var s: Slot :| q in Points(Kid(t, s));
      PointsInCell(Kid(t, s), b.Quadrant(s), q);
      QuadrantInside(b, s, q.x, q.y);
    }
  }

  lemma LeafCoincides(t: Tree, b: Box, x: real, y: real, q: Point)
    requires t.Leaf? && |t.pts| > 0 && Celled(t, b) && q in Points(t)
    ensures Coincident(q, t.pts[0]) && Dist2(x, y, q) == Dist2(x, y, t.pts[0])
  {
  }

  // ---------------------------------------------------------------- popping and pushing

  lemma AlignedPop(stack: seq<Frame>, held: seq<Tree>)
    requires Aligned(stack, held) && |stack| > 0
    ensures |held| == |stack| && Aligned(stack[..|stack| - 1], held[..|held| - 1])
    ensures var f, t := stack[|stack| - 1], held[|held| - 1];
            f.node == Root(t) && Linked(t) && Celled(t, f.box)
  {
  }

  lemma AlignedPush(stack: seq<Frame>, held: seq<Tree>, t: Tree, b: Box, s: Slot)
    requires Aligned(stack, held) && t.Quad? && Linked(t) && Celled(t, b)
    ensures |t.node.child| == 4
    ensures Aligned(stack + FramesFrom(t.node.child, b, s), held + KidsFrom(t, s))
  {
    FramesLength(t, b, s);
    var fs, ks := FramesFrom(t.node.child, b, s), KidsFrom(t, s);
    forall k | 0 <= k < 4
      ensures fs[k].node == Root(ks[k]) && Linked(ks[k]) && Celled(ks[k], fs[k].box)
    {
      var q := FrameAt(t, b, s, k);
    }
    hide Linked, Celled, FramesFrom, KidsFrom;
  }

  /** A popped subtree with nothing inside the new, smaller disc can be forgotten. */
  lemma PendingPop(t: Tree, held: seq<Tree>, x: real, y: real, e: Option<real>, e': Option<real>)
    requires |held| > 0 && Pending(t, held, x, y, e)
    requires forall q :: Inside(x, y, q, e') ==> Inside(x, y, q, e)
    requires forall q :: q in Points(held[|held| - 1]) ==> !Inside(x, y, q, e')
    ensures Pending(t, held[..|held| - 1], x, y, e')
  {
    forall q | q in Points(t) && Inside(x, y, q, e')
      ensures Somewhere(q, held[..|held| - 1])
    {
      var k :| 0 <= k < |held| && q in Points(held[k]);
      assert k < |held| - 1;
      assert held[..|held| - 1][k] == held[k];
    }
  }

  /** A popped array node may be replaced by its kids, in any stack order. */
  lemma PendingPush(t: Tree, held: seq<Tree>, x: real, y: real, e: Option<real>, s: Slot)
    requires |held| > 0 && held[|held| - 1].Quad? && Pending(t, held, x, y, e)
    ensures Pending(t, held[..|held| - 1] + KidsFrom(held[|held| - 1], s), x, y, e)
  {
    hide KidsFrom, Points, Inside;
    var n, top := |held| - 1, held[|held| - 1];
    var ks := KidsFrom(top, s);
    var after := held[..n] + ks;
    forall q | q in Points(t) && Inside(x, y, q, e)
      ensures Somewhere(q, after)
    {
      var k :| 0 <= k < |held| && q in Points(held[k]);
      if k < n {
        assert after[k] == held[k];
      } else {
        var r: Slot := SlotWith(top, q);
        var j := KidsFromHas(top, s, r);
        assert after[n + j] == ks[j];
      }
    }
  }

  lemma KidsFromHas(t: Tree, s: Slot, r: Slot) returns (j: nat)
    requires t.Quad?
    ensures j < |KidsFrom(t, s)| == 4 && KidsFrom(t, s)[j] == Kid(t, r)
  {
    j := if r == s then 3 else if r == 0 then 3 - s else 3 - r;
  }

  lemma SlotWith(t: Tree, q: Point) returns (r: Slot)
    requires t.Quad? && q in Points(t)
    ensures q in Points(Kid(t, r))
  {
    assert q in Points(Kid(t, 0)) || q in Points(Kid(t, 1)) || q in Points(Kid(t, 2)) || q in Points(Kid(t, 3));
    r :| q in Points(Kid(t, r));
  }

  lemma WeightPop(held: seq<Tree>)
    requires |held| > 0
    ensures Weight(held[..|held| - 1]) < Weight(held)
  {
    assert Size(held[|held| - 1]) >= 1;
  }

  lemma WeightTop(held: seq<Tree>)
    requires |held| > 0
    ensures Weight(held) == Weight(held[..|held| - 1]) + Size(held[|held| - 1])
  {
  }

  lemma WeightPush(held: seq<Tree>, s: Slot)
    requires |held| > 0 && held[|held| - 1].Quad?
    ensures Weight(held[..|held| - 1] + KidsFrom(held[|held| - 1], s)) < Weight(held)
  {
    WeightConcat(held[..|held| - 1], KidsFrom(held[|held| - 1], s));
    WeightKids(held[|held| - 1], s);
  }

  // ---------------------------------------------------------------- the search window

  /** Every point inside the disc is inside the closed window `w`. */
  ghost predicate Windowed(t: Tree, w: Box, x: real, y: real, e: Option<real>) {
    forall q :: q in Points(t) && Inside(x, y, q, e) ==> w.x0 <= q.x <= w.x1 && w.y0 <= q.y <= w.y1
  }

  predicate Misses(b: Box, w: Box) {
    b.x0 > w.x1 || b.y0 > w.y1 || b.x1 < w.x0 || b.y1 < w.y0
  }

  lemma WindowAround(t: Tree, x: real, y: real, v: real, d: real)
    requires d >= 0.0 && v <= d * d
    ensures Windowed(t, Box(x - d, y - d, x + d, y + d), x, y, Some(v))
  {
    forall q | q in Points(t) && Inside(x, y, q, Some(v))
      ensures x - d <= q.x <= x + d && y - d <= q.y <= y + d
    {
      NearIsInWindow(x, y, q, v, d);
    }
  }

  lemma WindowAll(t: Tree, b: Box, x: real, y: real)
    requires Celled(t, b)
    ensures Windowed(t, b, x, y, None)
  {
    forall q | q in Points(t)
      ensures b.Contains(q.x, q.y)
    {
      PointsInCell(t, b, q);
    }
  }

  /** Pruning is sound: a cell that misses the window holds no point inside the disc. */
  lemma Pruned(t: Tree, s: Tree, b: Box, w: Box, x: real, y: real, e: Option<real>)
    requires Windowed(t, w, x, y, e) && Celled(s, b) && Misses(b, w)
    requires forall q :: q in Points(s) ==> q in Points(t)
    ensures forall q :: q in Points(s) ==> !Inside(x, y, q, e)
  {
    forall q | q in Points(s)
      ensures !Inside(x, y, q, e)
    {
      PointsInCell(s, b, q);
    }
  }

  /** The stack holds parts of `t` only. */
  ghost predicate PartsOf(t: Tree, held: seq<Tree>) {
    forall k, q :: 0 <= k < |held| && q in Points(held[k]) ==> q in Points(t)
  }

  lemma PartsPop(t: Tree, held: seq<Tree>)
    requires PartsOf(t, held) && |held| > 0
    ensures PartsOf(t, held[..|held| - 1])
    ensures forall q :: q in Points(held[|held| - 1]) ==> q in Points(t)
  {
  }

  lemma PartsConcat(t: Tree, a: seq<Tree>, b: seq<Tree>)
    requires PartsOf(t, a) && PartsOf(t, b)
    ensures PartsOf(t, a + b)
  {
    hide Points;
  }

  lemma KidFrom(t: Tree, s: Slot, j: nat) returns (r: Slot)
    requires t.Quad? && j < 4
    ensures |KidsFrom(t, s)| == 4 && KidsFrom(t, s)[j] == Kid(t, r)
  {
    r := if j == 3 then s else if j == 3 - s then 0 else 3 - j;
  }

  lemma PartsPush(t: Tree, held: seq<Tree>, s: Slot)
    requires PartsOf(t, held) && |held| > 0 && held[|held| - 1].Quad?
    ensures PartsOf(t, held[..|held| - 1] + KidsFrom(held[|held| - 1], s))
  {
    var n, top := |held| - 1, held[|held| - 1];
    PartsPop(t, held);
    hide Points, KidsFrom, Kid;
    var r0 := KidFrom(top, s, 0);
    forall j, q | 0 <= j < |KidsFrom(top, s)| && q in Points(KidsFrom(top, s)[j])
      ensures q in Points(t)
    {
      var r := KidFrom(top, s, j);
      KidPoint(top, r, q);
    }
    PartsConcat(t, held[..n], KidsFrom(top, s));
  }

  lemma KidPoint(t: Tree, q: Slot, p: Point)
    requires t.Quad? && p in Points(Kid(t, q))
    ensures p in Points(t)
  {
  }

  /** Where every search starts: the whole tree on the stack. */
  lemma SearchStarts(t: Tree, b: Box, x: real, y: real, e: Option<real>)
    requires Linked(t) && Celled(t, b)
    ensures Aligned([Frame(Root(t), b)], [t]) && PartsOf(t, [t]) && Pending(t, [t], x, y, e)
    ensures Aligned([], []) && PartsOf(t, []) && (t.Nil? ==> Pending(t, [], x, y, e))
  {
    forall q | q in Points(t)
      ensures Somewhere(q, [t])
    {
      assert [t][0] == t;
    }
  }

  /** A search that has run dry has seen every point inside the disc. */
  lemma SearchEnds(t: Tree, x: real, y: real, e: Option<real>)
    requires Pending(t, [], x, y, e)
    ensures forall q :: q in Points(t) ==> !Inside(x, y, q, e)
  {
  }

  lemma HeadIsPoint(t: Tree)
    requires t.Leaf? && |t.pts| > 0
    ensures t.pts[0] in Points(t)
  {
  }

  /** After a leaf has been compared with the best so far, none of its points is nearer. */
  lemma LeafDone(t: Tree, b: Box, x: real, y: real, e: Option<real>)
    requires t.Leaf? && |t.pts| > 0 && Celled(t, b)
    requires !Inside(x, y, t.pts[0], e)
    ensures forall q :: q in Points(t) ==> !Inside(x, y, q, e)
  {
    forall q | q in Points(t)
      ensures !Inside(x, y, q, e)
    {
      LeafCoincides(t, b, x, y, q);
    }
  }

  lemma Closer(x: real, y: real, p: Point, e: Option<real>, v: real)
    requires v == Dist2(x, y, p)
    ensures Inside(x, y, p, e) <==> e.None? || v < e.value
    ensures !Inside(x, y, p, Some(v))
    ensures Inside(x, y, p, e) ==> forall q :: Inside(x, y, q, Some(v)) ==> Inside(x, y, q, e)
  {
  }

  // ---------------------------------------------------------------- the radius argument

  function Squared(radius: Option<real>): Option<real> {
    if radius.None? then None else Some(radius.value * radius.value)
  }

  /** A radius the search treats as a distance. (A negative one turns the first window inside out.) */
  predicate Reaches(radius: Option<real>) {
    radius.None? || radius.value >= 0.0
  }

  /** The first window: around (x, y) when there is a radius, else the whole extent. */
  function FirstWindow(b: Box, x: real, y: real, radius: Option<real>): Box {
    if radius.None? then b
    else Box(x - radius.value, y - radius.value, x + radius.value, y + radius.value)
  }

  lemma FirstWindowSound(t: Tree, b: Box, x: real, y: real, radius: Option<real>)
    requires Celled(t, b) && Reaches(radius)
    ensures Windowed(t, FirstWindow(b, x, y, radius), x, y, Squared(radius))
  {
    hide Windowed, Celled, Inside, Dist2;
    if radius.None? {
      WindowAll(t, b, x, y);
    } else {
      WindowAround(t, x, y, radius.value * radius.value, radius.value);
    }
  }

  lemma NearestSoFar(x: real, y: real, p: Point, best: Point)
    requires !Inside(x, y, p, Some(Dist2(x, y, best)))
    ensures Dist2(x, y, best) <= Dist2(x, y, p)
  {
  }

  lemma DistNonNegative(x: real, y: real, p: Point)
    ensures Dist2(x, y, p) >= 0.0
  {
    var dx, dy := x - p.x, y - p.y;
    assert dx * dx >= 0.0 && dy * dy >= 0.0;
  }

  lemma CloserStill(x: real, y: real, p: Point, best: Point, limit: Option<real>)
    requires Inside(x, y, best, limit) && Inside(x, y, p, Some(Dist2(x, y, best)))
    ensures Inside(x, y, p, limit)
  {
  }

  // ---------------------------------------------------------------- what the first window shows

  /** Some leaf whose cell, and every cell above it, meets the window has its head in the disc. */
  ghost predicate Sighted(t: Tree, b: Box, w: Box, x: real, y: real, e: Option<real>) {
    match t
    case Nil => false
    case Leaf(_, pts) => !Misses(b, w) && |pts| > 0 && Inside(x, y, pts[0], e)
    case Quad(_, _, _, _, _) => !Misses(b, w) && exists q: Slot :: Sighted(Kid(t, q), b.Quadrant(q), w, x, y, e)
  }

  ghost predicate SightedHeld(stack: seq<Frame>, held: seq<Tree>, w: Box, x: real, y: real, e: Option<real>)
    requires |stack| == |held|
  {
    exists k :: 0 <= k < |held| && Sighted(held[k], stack[k].box, w, x, y, e)
  }

  lemma SightedCases(t: Tree, b: Box, w: Box, x: real, y: real, e: Option<real>)
    ensures t == Nil || Misses(b, w) ==> !Sighted(t, b, w, x, y, e)
    ensures t.Leaf? && |t.pts| > 0 && !Misses(b, w) ==>
              (Sighted(t, b, w, x, y, e) <==> Inside(x, y, t.pts[0], e))
  {
    hide Misses, Inside;
  }

  lemma SightedStart(t: Tree, n: Node?, b: Box, w: Box, x: real, y: real, e: Option<real>)
    requires n == Root(t) && (n == null <==> t == Nil)
    ensures t == Nil ==> (Sighted(t, b, w, x, y, e) <==> SightedHeld([], [], w, x, y, e))
    ensures Sighted(t, b, w, x, y, e) <==> SightedHeld([Frame(n, b)], [t], w, x, y, e)
  {
    hide Misses, Inside;
    if Sighted(t, b, w, x, y, e) {
      assert Sighted([t][0], [Frame(n, b)][0].box, w, x, y, e);
    }
  }

  lemma SightedNothing(w: Box, x: real, y: real, e: Option<real>)
    ensures !SightedHeld([], [], w, x, y, e)
  {
    hide Sighted;
  }

  lemma SightedPop(stack: seq<Frame>, held: seq<Tree>, w: Box, x: real, y: real, e: Option<real>)
    requires |stack| == |held| > 0
    ensures var n := |held| - 1;
            SightedHeld(stack, held, w, x, y, e)
            <==> SightedHeld(stack[..n], held[..n], w, x, y, e) || Sighted(held[n], stack[n].box, w, x, y, e)
  {
    hide Sighted;
    var n := |held| - 1;
    if SightedHeld(stack[..n], held[..n], w, x, y, e) {
      var k :| 0 <= k < n && Sighted(held[..n][k], stack[..n][k].box, w, x, y, e);
      assert Sighted(held[k], stack[k].box, w, x, y, e);
    }
    if SightedHeld(stack, held, w, x, y, e) {
      var k :| 0 <= k <= n && Sighted(held[k], stack[k].box, w, x, y, e);
      if k < n {
        assert Sighted(held[..n][k], stack[..n][k].box, w, x, y, e);
      }
    }
  }

  lemma FramesLength(t: Tree, b: Box, s: Slot)
    requires t.Quad? && |t.node.child| == 4
    ensures |FramesFrom(t.node.child, b, s)| == |KidsFrom(t, s)| == 4
  {
  }

  lemma FrameAt(t: Tree, b: Box, s: Slot, j: nat) returns (r: Slot)
    requires t.Quad? && |t.node.child| == 4 && j < 4
    ensures |FramesFrom(t.node.child, b, s)| == |KidsFrom(t, s)| == 4
    ensures KidsFrom(t, s)[j] == Kid(t, r)
    ensures FramesFrom(t.node.child, b, s)[j] == Frame(t.node.child[r], b.Quadrant(r))
  {
    r := if j == 3 then s else if j == 3 - s then 0 else 3 - j;
  }

  lemma FrameOf(t: Tree, b: Box, s: Slot, r: Slot) returns (j: nat)
    requires t.Quad? && |t.node.child| == 4
    ensures j < |FramesFrom(t.node.child, b, s)| == |KidsFrom(t, s)| == 4
    ensures KidsFrom(t, s)[j] == Kid(t, r) && FramesFrom(t.node.child, b, s)[j].box == b.Quadrant(r)
  {
    j := if r == s then 3 else if r == 0 then 3 - s else 3 - r;
  }

  lemma SightedConcat(f: seq<Frame>, h: seq<Tree>, f': seq<Frame>, h': seq<Tree>, w: Box, x: real, y: real,
                      e: Option<real>)
    requires |f| == |h| && |f'| == |h'|
    ensures SightedHeld(f + f', h + h', w, x, y, e)
       <==> SightedHeld(f, h, w, x, y, e) || SightedHeld(f', h', w, x, y, e)
  {
    hide Sighted;
    if SightedHeld(f, h, w, x, y, e) {
      var k :| 0 <= k < |h| && Sighted(h[k], f[k].box, w, x, y, e);
      assert Sighted((h + h')[k], (f + f')[k].box, w, x, y, e);
    }
    if SightedHeld(f', h', w, x, y, e) {
      var k :| 0 <= k < |h'| && Sighted(h'[k], f'[k].box, w, x, y, e);
      assert Sighted((h + h')[|h| + k], (f + f')[|h| + k].box, w, x, y, e);
    }
  }

  lemma SightedKids(t: Tree, b: Box, s: Slot, w: Box, x: real, y: real, e: Option<real>)
    requires t.Quad? && |t.node.child| == 4 && !Misses(b, w)
    ensures |FramesFrom(t.node.child, b, s)| == |KidsFrom(t, s)| == 4
    ensures SightedHeld(FramesFrom(t.node.child, b, s), KidsFrom(t, s), w, x, y, e) <==> Sighted(t, b, w, x, y, e)
  {
    hide Misses, Inside, FramesFrom, KidsFrom;
    FramesLength(t, b, s);
    var fs, ks := FramesFrom(t.node.child, b, s), KidsFrom(t, s);
    if Sighted(t, b, w, x, y, e) {
      var r: Slot :| Sighted(Kid(t, r), b.Quadrant(r), w, x, y, e);
      var j := FrameOf(t, b, s, r);
      assert Sighted(ks[j], fs[j].box, w, x, y, e);
    }
    if SightedHeld(fs, ks, w, x, y, e) {
      var j :| 0 <= j < 4 && Sighted(ks[j], fs[j].box, w, x, y, e);
      var r := FrameAt(t, b, s, j);
      assert Sighted(Kid(t, r), b.Quadrant(r), w, x, y, e);
    }
  }

  /** An array node that meets the window shows what its kids show, in any stack order. */
  lemma SightedPush(stack: seq<Frame>, held: seq<Tree>, t: Tree, b: Box, s: Slot, w: Box, x: real, y: real,
                    e: Option<real>)
    requires |stack| == |held| && t.Quad? && |t.node.child| == 4 && !Misses(b, w)
    ensures |FramesFrom(t.node.child, b, s)| == |KidsFrom(t, s)|
    ensures SightedHeld(stack + FramesFrom(t.node.child, b, s), held + KidsFrom(t, s), w, x, y, e)
       <==> SightedHeld(stack, held, w, x, y, e) || Sighted(t, b, w, x, y, e)
  {
    hide *;
    SightedKids(t, b, s, w, x, y, e);
    SightedConcat(stack, held, FramesFrom(t.node.child, b, s), KidsFrom(t, s), w, x, y, e);
  }
}
