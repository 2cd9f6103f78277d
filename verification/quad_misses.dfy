/** Radii for which the collision visit misses a colliding head. */
module QuadMisses {
  import opened Options
  import opened QuadGeometry
  import opened QuadShape
  import opened QuadSearch
  import opened Quadtree
  import opened QuadForces

  // ---------------------------------------------------------------- where a cell ends up

  /** The cell reached from `b` along a path of quadrants. */
  ghost function At(b: Box, path: seq<Slot>): Box
    decreases |path|
  {
    if path == [] then b else At(b.Quadrant(path[0]), path[1..])
  }

  lemma {:induction false} AtPush(b: Box, path: seq<Slot>, q: Slot)
    ensures At(b, path + [q]) == At(b, path).Quadrant(q)
    decreases |path|
  {
    if path == [] {
      assert [q][1..] == [];
    } else {
      AtPush(b.Quadrant(path[0]), path[1..], q);
      assert (path + [q])[1..] == path[1..] + [q];
    }
  }

  /** An extent that grows keeps the old one as a cell. */
  lemma {:induction false} GrownPath(b: Box, x: real, y: real) returns (path: seq<Slot>)
    requires b.Square()
    ensures At(Grown(b, x, y), path) == b
    decreases GrowMeasure(b, x, y)
  {
    if b.Contains(x, y) {
      path := [];
    } else {
      DoubledSound(b, x, y);
      var up := GrownPath(Doubled(b, x, y), x, y);
      path := up + [GrowSlot(b, x, y)];
      AtPush(Grown(b, x, y), up, GrowSlot(b, x, y));
    }
  }

  // ---------------------------------------------------------------- a cell that hides its heads

  lemma LeafTogether(t: Tree, b: Box, p: Point, q: Point)
    requires Celled(t, b) && p in Points(t) && q in Points(t) && !Coincident(p, q)
    ensures t.Quad?
  {
  }

  /** The annotation is bounded when every radius is. */
  lemma RadiusAtMost(t: Tree, b: Box, rad: nat -> real, r: real)
    requires t.Quad? && Celled(t, b) && forall p :: p in Points(t) ==> rad(p.id) <= r
    ensures MaxRadius(t, rad) <= Max(0.0, r)
  {
    hide Celled, Points, Heads, MaxRadius;
    HeadsWithin(t, b);
    var m := MaxRadiusAttained(t, rad);
  }

  lemma OutStays(x: real, y: real, m: real, m': real, b: Box)
    requires OutOfReach(x, y, m, b) && m' <= m
    ensures OutOfReach(x, y, m', b)
  {
  }

  lemma PrunedAtOnce(t: Tree, b: Box, x: real, y: real, s: real, rad: nat -> real)
    requires t.Quad? && OutOfReach(x, y, s + MaxRadius(t, rad), b)
    ensures Visited(t, b, x, y, s, rad) == multiset{}
  {
    hide OutOfReach, MaxRadius;
  }

  lemma VisitedBelow(t: Tree, b: Box, x: real, y: real, s: real, rad: nat -> real, p: Point) returns (q: Slot)
    requires t.Quad? && p in Visited(t, b, x, y, s, rad)
    ensures p in Visited(Kid(t, q), b.Quadrant(q), x, y, s, rad)
  {
    hide OutOfReach, MaxRadius;
    q := if p in Visited(t.k0, b.Quadrant(0), x, y, s, rad) then 0
         else if p in Visited(t.k1, b.Quadrant(1), x, y, s, rad) then 1
         else if p in Visited(t.k2, b.Quadrant(2), x, y, s, rad) then 2 else 3;
  }

  lemma {:induction false} AtInside(b: Box, path: seq<Slot>, x: real, y: real)
    requires At(b, path).Contains(x, y)
    ensures b.Contains(x, y)
    decreases |path|
  {
    if path != [] {
      AtInside(b.Quadrant(path[0]), path[1..], x, y);
      QuadrantInside(b, path[0], x, y);
    }
  }

  /** A datum of a cell lies below the kid whose quadrant leads to the cell, and nowhere else. */
  lemma BelowPath(t: Tree, b: Box, path: seq<Slot>, p: Point)
    requires t.Quad? && Celled(t, b) && path != [] && At(b, path).Contains(p.x, p.y)
    ensures p in Points(t) ==> p in Points(Kid(t, path[0]))
    ensures forall q: Slot :: p in Points(Kid(t, q)) ==> q == path[0]
  {
    AtInside(b.Quadrant(path[0]), path[1..], p.x, p.y);
    QuadrantInside(b, path[0], p.x, p.y);
    QuadrantsPartition(b, p.x, p.y, path[0]);
    forall q: Slot | p in Points(Kid(t, q)) ensures q == path[0] {
      PointsInCell(Kid(t, q), b.Quadrant(q), p);
      QuadrantsPartition(b, p.x, p.y, q);
    }
    if p in Points(t) {
      var q := SlotWith(t, p);
    }
  }

  /** Two data of a cell that is out of reach of its own radii: the visit hands on neither. */
  lemma {:induction false} Hidden(t: Tree, b: Box, path: seq<Slot>, x: real, y: real, s: real, rad: nat -> real,
                                  r: real, p: Point, o: Point)
    requires Celled(t, b) && p in Points(t) && o in Points(t) && !Coincident(p, o)
    requires At(b, path).Contains(p.x, p.y) && At(b, path).Contains(o.x, o.y)
    requires forall z :: z in Points(t) && At(b, path).Contains(z.x, z.y) ==> rad(z.id) <= r
    requires OutOfReach(x, y, s + Max(0.0, r), At(b, path))
    ensures p !in Visited(t, b, x, y, s, rad)
    decreases |path|
  {
    hide *;
    LeafTogether(t, b, p, o);
    AtIs(b, path);
    if path == [] {
      forall z | z in Points(t) ensures rad(z.id) <= r {
        PointsInCell(t, b, z);
      }
      RadiusAtMost(t, b, rad, r);
      OutStays(x, y, s + Max(0.0, r), s + MaxRadius(t, rad), b);
      PrunedAtOnce(t, b, x, y, s, rad);
    } else {
      var q := path[0];
      BelowPath(t, b, path, p);
      BelowPath(t, b, path, o);
      KidCell(t, b, q);
      forall z | z in Points(Kid(t, q)) && At(b.Quadrant(q), path[1..]).Contains(z.x, z.y) ensures rad(z.id) <= r {
        KidPoint(t, q, z);
      }
      Hidden(Kid(t, q), b.Quadrant(q), path[1..], x, y, s, rad, r, p, o);
      if p in Visited(t, b, x, y, s, rad) {
        var k := VisitedBelow(t, b, x, y, s, rad, p);
        VisitedPoint(Kid(t, k), b.Quadrant(k), x, y, s, rad, p, t, b, k);
      }
    }
  }

  lemma AtIs(b: Box, path: seq<Slot>)
    ensures At(b, path) == if path == [] then b else At(b.Quadrant(path[0]), path[1..])
  {
  }

  lemma VisitedPoint(k: Tree, c: Box, x: real, y: real, s: real, rad: nat -> real, p: Point, t: Tree, b: Box, q: Slot)
    requires t.Quad? && Celled(t, b) && k == Kid(t, q) && c == b.Quadrant(q) && p in Visited(k, c, x, y, s, rad)
    ensures p in Points(k)
  {
    hide *;
    KidCell(t, b, q);
    VisitedOnce(k, c, x, y, s, rad);
    HeadsWithin(k, c);
  }

  // ---------------------------------------------------------------- the scene

  /** A distance out of the visit's reach and within the test's. */
  function Between(s: real, r: real): (d: real)
    requires !SafeRadii(s, r)
    ensures d > 0.0 && s + Max(0.0, r) < d < Abs(s + r)
  {
    var m, a := s + Max(0.0, r), Abs(s + r);
    if m > 0.0 then (m + a) / 2.0 else a / 2.0
  }

  function Nudge(a: real): (e: real)
    requires a > 0.0
    ensures 0.0 < e <= 0.5 && e < a
  {
    if a >= 1.0 then 0.5 else a / 2.0
  }

  /** Three data of different positions: 0 is the circle that looks around, 1 collides with it
      although its cell ends out of reach, and 2 shares that cell. */
  function Scene(s: real, r: real): (ps: seq<Point>)
    requires !SafeRadii(s, r)
    ensures |ps| == 3 && ps[0].id == 0 && ps[1].id == 1 && ps[2].id == 2
  {
    var d := Between(s, r);
    [Point(0, 1.0 + d, 0.0), Point(1, 1.0 - Nudge(Abs(s + r) - d), 0.0), Point(2, 0.5, 0.5)]
  }

  lemma SceneFacts(s: real, r: real, rad: nat -> real)
    requires !SafeRadii(s, r) && rad(1) == r
    ensures var ps, c := Scene(s, r), UnitCell(0.0, 0.0);
            && Collides(ps[0].x, ps[0].y, s, ps[1], rad) && OutOfReach(ps[0].x, ps[0].y, s + Max(0.0, r), c)
            && c.Contains(ps[1].x, ps[1].y) && c.Contains(ps[2].x, ps[2].y) && !c.Contains(ps[0].x, ps[0].y)
            && !Coincident(ps[1], ps[2]) && ps[0].x > ps[1].x
  {
    var ps, d := Scene(s, r), Between(s, r);
    var e := Nudge(Abs(s + r) - d);
    SquareMonotone(s + r, d + e);
    assert ps[0].x - ps[1].x == d + e;
    assert Dist2(ps[0].x, ps[0].y, ps[1]) == (d + e) * (d + e);
  }

  /** The library covers the corner (1/2, 0) first, so the unit cell is where the extent starts. */
  lemma SceneCorner(s: real, r: real, x0: real, y0: real, x1: real, y1: real)
    requires !SafeRadii(s, r) && Corners(Scene(s, r), x0, y0, x1, y1)
    ensures UnitCell(x0, y0) == UnitCell(0.0, 0.0) && UnitCell(0.0, 0.0).Square()
  {
    var ps := Scene(s, r);
    assert ps[0].x >= 0.0 && ps[1].x >= 0.5 && ps[2].x == 0.5;
    assert x0 <= ps[2].x && y0 <= ps[1].y;
    assert 0.0 <= x0 <= 0.5 && y0 == 0.0;
  }

  /** Every pair of radii that is not safe fails on a tree of the library's own making: three data
      of different ids and positions are added at once, the circle of the first, radius `s`, visits
      the tree, and the second, of radius `r`, collides with it and is not handed on. */
  method UnsafeRadiiMiss(s: real, r: real)
    returns (q: Quadtree, rad: nat -> real, c: Point, p: Point, o: Point, hits: seq<Point>)
    requires !SafeRadii(s, r)
    ensures q.Valid() && q.Contents() == multiset{c, p, o} && c.id < p.id < o.id
    ensures RadiiSet(q.tree, rad) && rad(c.id) == s && rad(p.id) == r
    ensures q.extent.Some? && multiset(hits) == Visited(q.tree, q.extent.value, c.x, c.y, s, rad)
    ensures p in Heads(q.tree) && Collides(c.x, c.y, s, p, rad) && p !in hits
  {
    hide *;
    var ps := Scene(s, r);
    c, p, o := ps[0], ps[1], ps[2];
    rad := (n: nat) => if n == 0 then s else r;
    SceneFacts(s, r, rad);
    q := new Quadtree();
    q.AddAll(ps);
    ghost var x0, y0, x1, y1 :| Corners(ps, x0, y0, x1, y1)
                                && q.extent == Some(Covered(Some(Covered(None, x0, y0)), x1, y1));
    ghost var unit := UnitCell(0.0, 0.0);
    SceneCorner(s, r, x0, y0, x1, y1);
    CoveredIs(None, x0, y0);
    CoveredIs(Some(unit), x1, y1);
    ghost var path := GrownPath(unit, x1, y1);
    assert ps == [c, p, o];
    AnnotateRadii(q, rad);
    q.ValidParts();
    hits := Reach(q, c.x, c.y, s, rad);
    assert p in multiset{c, p, o} && o in multiset{c, p, o};
    forall z | z in Points(q.tree) && unit.Contains(z.x, z.y) ensures rad(z.id) <= r {
      assert z in multiset{c, p, o};
    }
    Hidden(q.tree, q.extent.value, path, c.x, c.y, s, rad, r, p, o);
    assert p !in multiset(hits);
    OnlyHead(q.tree, q.extent.value, c, p, o);
  }

  lemma OnlyHead(t: Tree, b: Box, c: Point, p: Point, o: Point)
    requires Celled(t, b) && Points(t) == multiset{c, p, o} && !Coincident(p, o) && c.x != p.x
    ensures p in Heads(t)
  {
    hide *;
    assert p in Points(t);
    HeadsWithin(t, b);
    var h := OneHeadPerPosition(t, b, p);
    CoincidentIs(h, p);
    CoincidentIs(p, o);
    CoincidentIs(o, p);
    assert h in multiset{c, p, o};
  }
}
