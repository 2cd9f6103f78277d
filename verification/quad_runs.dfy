/** Whole runs of quadtree operations, and the linear search a tree search must agree with. */
module QuadRuns {
  import opened Options
  import opened QuadGeometry
  import opened QuadShape
  import opened QuadSearch
  import opened Quadtree

  datatype Op = AddOne(point: Point) | AddMany(points: seq<Point>) | Grow(x: real, y: real) | TakeAway(point: Point)

  function After(c: multiset<Point>, op: Op): multiset<Point> {
    match op
    case AddOne(p) => c + multiset{p}
    case AddMany(ps) => c + multiset(ps)
    case Grow(_, _) => c
    case TakeAway(p) => c - multiset{p}
  }

  function Final(c: multiset<Point>, ops: seq<Op>): multiset<Point> {
    if ops == [] then c else After(Final(c, ops[..|ops| - 1]), ops[|ops| - 1])
  }

  lemma AfterIs(c: multiset<Point>, op: Op)
    ensures op.AddOne? ==> After(c, op) == c + multiset{op.point}
    ensures op.AddMany? ==> After(c, op) == c + multiset(op.points)
    ensures op.Grow? ==> After(c, op) == c
    ensures op.TakeAway? ==> After(c, op) == c - multiset{op.point}
  {
  }

  lemma FinalPush(c: multiset<Point>, ops: seq<Op>, op: Op)
    ensures Final(c, []) == c && Final(c, ops + [op]) == After(Final(c, ops), op)
  {
    hide After;
    assert (ops + [op])[..|ops|] == ops;
  }

  method Apply(t: Quadtree, op: Op)
    requires t.Valid()
    modifies t`root, t`extent, t`tree, t`Repr, t.Repr`child, t.Repr`next
    ensures t.Valid() && t.Contents() == After(old(t.Contents()), op) && fresh(t.Repr - old(t.Repr))
  {
    hide *;
    AfterIs(t.Contents(), op);
    match op
    case AddOne(p) => t.Add(p);
    case AddMany(ps) => t.AddAll(ps);
    case Grow(x, y) => t.Cover(x, y);
    case TakeAway(p) => t.Remove(p);
  }

  /** Any run of operations keeps every cell in order and holds what was added and not removed. */
  method Play(t: Quadtree, ops: seq<Op>)
    requires t.Valid()
    modifies t`root, t`extent, t`tree, t`Repr, t.Repr`child, t.Repr`next
    ensures t.Valid() && t.Contents() == Final(old(t.Contents()), ops)
    ensures fresh(t.Repr - old(t.Repr))
  {
    hide *;
    FinalPush(t.Contents(), [], Grow(0.0, 0.0));
    for k := 0 to |ops|
      invariant t.Valid() && t.Contents() == Final(old(t.Contents()), ops[..k])
      invariant fresh(t.Repr - old(t.Repr))
    {
      FinalPush(old(t.Contents()), ops[..k], ops[k]);
      assert ops[..k + 1] == ops[..k] + [ops[k]];
      Apply(t, ops[k]);
    }
    assert ops[..|ops|] == ops;
  }

  /** What a search over `c` promises: a nearest datum strictly inside the disc, or nothing when
      none is inside. */
  ghost predicate Nearest(c: multiset<Point>, x: real, y: real, e: Option<real>, r: Option<Point>) {
    && (r.Some? ==> r.value in c && Inside(x, y, r.value, e) && forall q :: q in c ==>
      Dist2(x, y, r.value) <= Dist2(x, y, q))
    && (r.None? ==> forall q :: q in c ==> !Inside(x, y, q, e))
  }

  /** `simulation.find`: one pass over the nodes, the radius squared whatever its sign. */
  method LinearFind(nodes: seq<Point>, x: real, y: real, radius: Option<real>) returns (r: Option<Point>)
    ensures Nearest(multiset(nodes), x, y, Squared(radius), r)
  {
    hide Dist2;
    r := None;
    var e := Squared(radius);
    for i := 0 to |nodes|
      invariant r.None? ==> e == Squared(radius) && forall j :: 0 <= j < i ==> !Inside(x, y, nodes[j], e)
      invariant r.Some? ==>
                  r.value in nodes && e == Some(Dist2(x, y, r.value)) && Inside(x, y, r.value, Squared(radius))
      invariant r.Some? ==> forall j :: 0 <= j < i ==> Dist2(x, y, r.value) <= Dist2(x, y, nodes[j])
    {
      var d := Dist2(x, y, nodes[i]);
      if e.None? || d < e.value {
        r, e := Some(nodes[i]), Some(d);
      }
    }
  }

  /** Searching the tree: the same promise, for every radius that is a distance. */
  method TreeFind(t: Quadtree, x: real, y: real, radius: Option<real>, root': real -> real) returns (r: Option<Point>)
    requires t.Valid() && Reaches(radius)
    requires forall v: real :: v >= 0.0 ==> root'(v) >= 0.0 && root'(v) * root'(v) >= v
    ensures Nearest(t.Contents(), x, y, Squared(radius), r)
  {
    hide *;
    r := t.Find(x, y, radius, root');
    NearestFrom(t.Contents(), x, y, Squared(radius), r);
  }

  lemma NearestFrom(c: multiset<Point>, x: real, y: real, e: Option<real>, r: Option<Point>)
    requires r.Some? ==> r.value in c && Inside(x, y, r.value, e) && forall q :: q in c ==>
      Dist2(x, y, r.value) <= Dist2(x, y, q)
    requires r.None? ==> forall q :: q in c ==> !Inside(x, y, q, e)
    ensures Nearest(c, x, y, e, r)
  {
  }

  /** So the pruned search and the linear scan find or miss together, and find equally near. */
  lemma SearchesAgree(c: multiset<Point>, x: real, y: real, e: Option<real>, r: Option<Point>, r': Option<Point>)
    requires Nearest(c, x, y, e, r) && Nearest(c, x, y, e, r')
    ensures r.Some? <==> r'.Some?
    ensures r.Some? ==> Dist2(x, y, r.value) == Dist2(x, y, r'.value)
  {
    hide Dist2, Inside;
  }

  // ---------------------------------------------------------------- negative radii

  /** The square of half-width `d` around a point. */
  function Around(x: real, y: real, d: real): Box {
    Box(x - d, y - d, x + d, y + d)
  }

  /** Some leaf's cell holds the whole square. */
  ghost predicate LeafCovers(t: Tree, b: Box, square: Box) {
    match t
    case Nil => false
    case Leaf(_, _) => square.Within(b)
    case Quad(_, _, _, _, _) => square.Within(b) && exists q: Slot :: LeafCovers(Kid(t, q), b.Quadrant(q), square)
  }

  lemma InvertedMisses(b: Box, c: Box, x: real, y: real, radius: real)
    ensures Misses(c, FirstWindow(b, x, y, Some(radius))) <==> !Around(x, y, -radius).Within(c)
  {
  }

  lemma SquareAtLeast(a: real, d: real)
    requires d >= 0.0 && Abs(a) >= d
    ensures a * a >= d * d
  {
    if Abs(a) > d {
      SquareMonotone(a, d);
    }
  }

  lemma StrictlyAround(x: real, y: real, p: Point, d: real)
    requires d >= 0.0 && Dist2(x, y, p) < d * d
    ensures x - d < p.x < x + d && y - d < p.y < y + d
  {
    var dx, dy := x - p.x, y - p.y;
    assert dx * dx >= 0.0 && dy * dy >= 0.0;
    if Abs(dx) >= d {
      SquareAtLeast(dx, d);
    } else if Abs(dy) >= d {
      SquareAtLeast(dy, d);
    }
  }

  /** A datum inside the disc lies below the one kid whose cell covers the square. */
  lemma BelowCover(t: Tree, b: Box, q: Slot, x: real, y: real, d: real, p: Point)
    requires t.Quad? && Celled(t, b) && p in Points(t) && d >= 0.0 && Dist2(x, y, p) < d * d
    requires Around(x, y, d).Within(b.Quadrant(q))
    ensures p in Points(Kid(t, q))
  {
    StrictlyAround(x, y, p, d);
    var r := SlotWith(t, p);
    PointsInCell(Kid(t, r), b.Quadrant(r), p);
    QuadrantInside(b, r, p.x, p.y);
    QuadrantsPartition(b, p.x, p.y, r);
    QuadrantsPartition(b, p.x, p.y, q);
  }

  lemma CoverTop(t: Tree, b: Box, square: Box)
    requires LeafCovers(t, b, square)
    ensures square.Within(b) && t != Nil
  {
  }

  /** What the inverted window shows: the datum of a covering leaf, and with it all data inside. */
  lemma {:induction false} SightedOne(t: Tree, b: Box, w: Box, x: real, y: real, d: real) returns (h: Point)
    requires Celled(t, b) && d >= 0.0 && Sighted(t, b, w, x, y, Some(d * d))
    requires forall c :: Misses(c, w) <==> !Around(x, y, d).Within(c)
    ensures h in Points(t) && LeafCovers(t, b, Around(x, y, d))
    ensures forall p :: p in Points(t) && Inside(x, y, p, Some(d * d)) ==> Coincident(p, h)
  {
    if t.Leaf? {
      h := t.pts[0];
    } else {
      var q: Slot :| Sighted(Kid(t, q), b.Quadrant(q), w, x, y, Some(d * d));
      h := SightedOne(Kid(t, q), b.Quadrant(q), w, x, y, d);
      CoverTop(Kid(t, q), b.Quadrant(q), Around(x, y, d));
      KidPoint(t, q, h);
      forall p | p in Points(t) && Inside(x, y, p, Some(d * d)) ensures Coincident(p, h) {
        BelowCover(t, b, q, x, y, d, p);
      }
    }
  }

  /** A covering leaf shows its datum when some datum is inside. */
  lemma {:induction false} CoverShows(t: Tree, b: Box, w: Box, x: real, y: real, d: real, p: Point)
    requires Celled(t, b) && d >= 0.0 && LeafCovers(t, b, Around(x, y, d))
    requires forall c :: Misses(c, w) <==> !Around(x, y, d).Within(c)
    requires p in Points(t) && Inside(x, y, p, Some(d * d))
    ensures Sighted(t, b, w, x, y, Some(d * d))
  {
    if t.Leaf? {
      LeafCoincides(t, b, x, y, p);
    } else {
      var q: Slot :| LeafCovers(Kid(t, q), b.Quadrant(q), Around(x, y, d));
      CoverTop(Kid(t, q), b.Quadrant(q), Around(x, y, d));
      BelowCover(t, b, q, x, y, d, p);
      CoverShows(Kid(t, q), b.Quadrant(q), w, x, y, d, p);
    }
  }

  /** For a negative radius the pruned search keeps the scan's promise exactly when nothing is
      within the radius' size, or one leaf's cell covers the square around it. */
  method NegativeFind(t: Quadtree, x: real, y: real, radius: real, root': real -> real) returns (r: Option<Point>)
    requires t.Valid() && radius < 0.0
    requires forall v: real :: v >= 0.0 ==> root'(v) >= 0.0 && root'(v) * root'(v) >= v
    ensures Nearest(t.Contents(), x, y, Squared(Some(radius)), r)
       <==> (forall p :: p in t.Contents() ==> !Inside(x, y, p, Squared(Some(radius))))
            || (t.extent.Some? && LeafCovers(t.tree, t.extent.value, Around(x, y, -radius)))
  {
    hide *;
    t.ValidParts();
    r := t.Find(x, y, Some(radius), root');
    if t.extent.Some? {
      NegativeCases(t.tree, t.extent.value, x, y, radius, r);
    } else {
      NothingNearest(t.Contents(), x, y, Squared(Some(radius)));
    }
  }

  lemma NothingNearest(c: multiset<Point>, x: real, y: real, e: Option<real>)
    ensures Nearest(c, x, y, e, None) <==> forall p :: p in c ==> !Inside(x, y, p, e)
  {
    hide Inside;
  }

  lemma NegativeCases(t: Tree, b: Box, x: real, y: real, radius: real, r: Option<Point>)
    requires Celled(t, b) && radius < 0.0
    requires r.Some? ==> r.value in Points(t) && Inside(x, y, r.value, Squared(Some(radius)))
    requires r.Some? <==> Sighted(t, b, FirstWindow(b, x, y, Some(radius)), x, y, Squared(Some(radius)))
    ensures Nearest(Points(t), x, y, Squared(Some(radius)), r)
       <==> (forall p :: p in Points(t) ==> !Inside(x, y, p, Squared(Some(radius))))
            || LeafCovers(t, b, Around(x, y, -radius))
  {
    hide *;
    var d, w := -radius, FirstWindow(b, x, y, Some(radius));
    SquaredIs(radius, d);
    var e := Some(d * d);
    forall c ensures Misses(c, w) <==> !Around(x, y, d).Within(c) {
      InvertedMisses(b, c, x, y, radius);
    }
    if r.Some? {
      var h := SightedOne(t, b, w, x, y, d);
      SameDistance(Points(t), x, y, d * d, r.value, h);
    } else {
      NothingNearest(Points(t), x, y, e);
      if LeafCovers(t, b, Around(x, y, d)) {
        forall p | p in Points(t) ensures !Inside(x, y, p, e) {
          if Inside(x, y, p, e) {
            CoverShows(t, b, w, x, y, d, p);
            assert false;
          }
        }
      }
    }
  }

  lemma SquaredIs(radius: real, d: real)
    requires d == -radius
    ensures Squared(Some(radius)) == Some(d * d)
  {
    var zero := radius + d;
    assert radius * radius - d * d == (radius - d) * zero;
    assert (radius - d) * zero == 0.0;
    assert Squared(Some(radius)).value == d * d;
  }

  lemma SameDistance(c: multiset<Point>, x: real, y: real, v: real, r: Point, h: Point)
    requires r in c && Inside(x, y, r, Some(v))
    requires forall p :: p in c && Inside(x, y, p, Some(v)) ==> Coincident(p, h)
    ensures Nearest(c, x, y, Some(v), Some(r))
  {
    forall q | q in c ensures Dist2(x, y, r) <= Dist2(x, y, q) {
      if Inside(x, y, q, Some(v)) {
        assert q.x == r.x && q.y == r.y;
      }
    }
  }

  lemma InvertedWindow(radius: real)
    requires radius < 0.0
    ensures var b := UnitCell(0.0, 0.0); Misses(b, FirstWindow(b, 0.0, 0.0, Some(radius)))
  {
  }

  lemma OnlyDatum(p: Point, x: real, y: real, e: Option<real>, r: Option<Point>)
    requires Nearest(multiset([p]), x, y, e, r) && Inside(x, y, p, e)
    ensures r == Some(p)
  {
    hide Inside, Dist2;
    assert p in multiset([p]);
  }

  lemma ProductOfNegatives(e: real, v: real, w: real)
    requires e == v * w && v < 0.0 && w < 0.0
    ensures e > 0.0
  {
  }

  lemma SquaredPositive(radius: Option<real>)
    requires radius.Some? && radius.value < 0.0
    ensures Squared(radius).Some? && Squared(radius).value > 0.0
  {
    ProductOfNegatives(Squared(radius).value, radius.value, radius.value);
  }

  lemma AtOrigin(p: Point, radius: Option<real>)
    requires p.x == 0.0 && p.y == 0.0 && radius.Some? && radius.value < 0.0
    ensures Inside(0.0, 0.0, p, Squared(radius))
  {
    hide Squared;
    SquaredPositive(radius);
    assert Dist2(0.0, 0.0, p) == 0.0;
  }

  /** Every negative radius turns the window inside out: there is a tree in which a datum at
      distance 0 is missed although the linear scan finds it. */
  method NegativeRadiusMisses(radius: real, root': real -> real) returns (tree: Option<Point>, scan: Option<Point>)
    requires radius < 0.0
    requires forall v: real :: v >= 0.0 ==> root'(v) >= 0.0 && root'(v) * root'(v) >= v
    ensures tree == None && scan == Some(Point(1, 0.0, 0.0))
  {
    hide *;
    var p := Point(1, 0.0, 0.0);
    var t := new Quadtree();
    t.Add(p);
    CoveredIs(None, 0.0, 0.0);
    InvertedWindow(radius);
    t.ValidParts();
    SightedCases(t.tree, UnitCell(0.0, 0.0), FirstWindow(UnitCell(0.0, 0.0), 0.0, 0.0, Some(radius)), 0.0, 0.0,
                 Squared(Some(radius)));
    tree := t.Find(0.0, 0.0, Some(radius), root');
    scan := LinearFind([p], 0.0, 0.0, Some(radius));
    AtOrigin(p, Some(radius));
    OnlyDatum(p, 0.0, 0.0, Squared(Some(radius)), scan);
  }
}
