/** Points, half-open cells and their four quadrants: the plane the quadtree divides. */
module QuadGeometry {
  import opened Options

  /** One datum. `id` is the identity the source compares with `===`; x and y are what its
      accessors return, which do not change while the datum is stored. */
  datatype Point = Point(id: nat, x: real, y: real)

  predicate Coincident(p: Point, q: Point) {
    p.x == q.x && p.y == q.y
  }

  /** The index of a child slot: bit 0 is "right of the middle", bit 1 is "below the middle". */
  type Slot = q: nat | q < 4 witness 0

  datatype Box = Box(x0: real, y0: real, x1: real, y1: real) {
    function MidX(): real { (x0 + x1) / 2.0 }

    function MidY(): real { (y0 + y1) / 2.0 }

    /** Cells are half-open: the low edges belong to them, the high edges do not. */
    predicate Contains(x: real, y: real) {
      x0 <= x < x1 && y0 <= y < y1
    }

    predicate Within(outer: Box) {
      outer.x0 <= x0 && outer.y0 <= y0 && x1 <= outer.x1 && y1 <= outer.y1
    }

    function Width(): real { x1 - x0 }

    /** The cells the tree starts from: square, and at least one unit wide. */
    predicate Square() {
      x1 - x0 == y1 - y0 && x1 - x0 >= 1.0
    }

    /** The quadrant whose cell would hold (x, y). */
    function QuadrantOf(x: real, y: real): Slot {
      (if y >= MidY() then 2 else 0) + (if x >= MidX() then 1 else 0)
    }

    function Quadrant(q: Slot): Box {
      Box(if q % 2 == 1 then MidX() else x0, if q >= 2 then MidY() else y0,
          if q % 2 == 1 then x1 else MidX(), if q >= 2 then y1 else MidY())
    }
  }

  /** Four quadrants partition a cell: a point of the cell lies in exactly the one
      QuadrantOf names. */
  lemma QuadrantsPartition(b: Box, x: real, y: real, q: Slot)
    requires b.Contains(x, y)
    ensures b.Quadrant(q).Contains(x, y) <==> q == b.QuadrantOf(x, y)
  {
    assert q == 0 || q == 1 || q == 2 || q == 3;
  }

  lemma QuadrantInside(b: Box, q: Slot, x: real, y: real)
    requires b.Quadrant(q).Contains(x, y)
    ensures b.Contains(x, y)
  {
  }

  lemma WithinTransitive(a: Box, b: Box, c: Box)
    requires a.Within(b) && b.Within(c)
    ensures a.Within(c)
  {
  }

  /** The extent a first point starts from: the unit cell with integer corners around it. */
  function UnitCell(x: real, y: real): (b: Box)
    ensures b.Square() && b.Contains(x, y)
  {
    var fx, fy := x.Floor as real, y.Floor as real;
    Box(fx, fy, fx + 1.0, fy + 1.0)
  }

  /** (x0, y0) and (x1, y1) are the corners of the bounding box of `ps`. */
  ghost predicate Corners(ps: seq<Point>, x0: real, y0: real, x1: real, y1: real) {
    && (forall k :: 0 <= k < |ps| ==> x0 <= ps[k].x <= x1 && y0 <= ps[k].y <= y1)
    && (exists k :: 0 <= k < |ps| && x0 == ps[k].x)
    && (exists k :: 0 <= k < |ps| && y0 == ps[k].y)
    && (exists k :: 0 <= k < |ps| && x1 == ps[k].x)
    && (exists k :: 0 <= k < |ps| && y1 == ps[k].y)
  }

  lemma CornersSpan(ps: seq<Point>, x0: real, y0: real, x1: real, y1: real)
    requires Corners(ps, x0, y0, x1, y1)
    ensures forall k :: 0 <= k < |ps| ==> x0 <= ps[k].x <= x1 && y0 <= ps[k].y <= y1
  {
  }

  /** A cell that holds two corners of a bounding box holds all of it. */
  lemma Spanned(b: Box, low: Box, x0: real, y0: real, x1: real, y1: real, ps: seq<Point>)
    requires low.Contains(x0, y0) && low.Within(b) && b.Contains(x1, y1)
    requires forall k :: 0 <= k < |ps| ==> x0 <= ps[k].x <= x1 && y0 <= ps[k].y <= y1
    ensures forall k :: 0 <= k < |ps| ==> b.Contains(ps[k].x, ps[k].y)
  {
  }

  // ---------------------------------------------------------------- splitting terminates

  /** How often a span of width `w` can be halved before it is narrower than `gap`. */
  function Halvings(w: real, gap: real): (n: int)
    requires gap > 0.0
  {
    (w / gap).Floor
  }

  lemma HalvingsDecrease(w: real, gap: real)
    requires 0.0 < gap <= w
    ensures 0 <= Halvings(w / 2.0, gap) < Halvings(w, gap)
  {
    var r := w / gap;
    assert r >= 1.0;
    assert (w / 2.0) / gap == r / 2.0;
  }

  function Abs(r: real): real { if r < 0.0 then -r else r }

  /** Termination measure of the split loop: distinct points leave a common quadrant after
      finitely many halvings, however close they are. */
  ghost function SplitMeasure(b: Box, p: Point, q: Point): int
    requires !Coincident(p, q)
  {
    if p.x != q.x then Halvings(b.x1 - b.x0, Abs(p.x - q.x)) else Halvings(b.y1 - b.y0, Abs(p.y - q.y))
  }

  lemma SplitMeasureDecreases(b: Box, p: Point, q: Point)
    requires !Coincident(p, q)
    requires b.Contains(p.x, p.y) && b.Contains(q.x, q.y)
    ensures var s := b.QuadrantOf(p.x, p.y);
            0 <= SplitMeasure(b.Quadrant(s), p, q) < SplitMeasure(b, p, q)
  {
    var s := b.QuadrantOf(p.x, p.y);
    var c := b.Quadrant(s);
    if p.x != q.x {
      assert c.x1 - c.x0 == (b.x1 - b.x0) / 2.0;
      HalvingsDecrease(b.x1 - b.x0, Abs(p.x - q.x));
    } else {
      assert c.y1 - c.y0 == (b.y1 - b.y0) / 2.0;
      HalvingsDecrease(b.y1 - b.y0, Abs(p.y - q.y));
    }
  }

  // ---------------------------------------------------------------- growing terminates

  /** Steps of at least one unit needed to bring `v` into [lo, hi). */
  ghost function Shortfall(lo: real, hi: real, v: real): nat {
    if v < lo then (lo - v).Floor + 1 else if v >= hi then (v - hi).Floor + 1 else 0
  }

  ghost function GrowMeasure(b: Box, x: real, y: real): nat {
    Shortfall(b.x0, b.x1, x) + Shortfall(b.y0, b.y1, y)
  }

  /** The box after one doubling towards (x, y); the old box is its quadrant `GrowSlot`. */
  function GrowSlot(b: Box, x: real, y: real): Slot {
    (if y < b.y0 then 2 else 0) + (if x < b.x0 then 1 else 0)
  }

  /** The four ways to widen a box to width `l`, keeping the corner that `a` names. */
  function Stretch(b: Box, a: Slot, l: real): Box {
    Box(if a % 2 == 1 then b.x1 - l else b.x0, if a >= 2 then b.y1 - l else b.y0,
        if a % 2 == 1 then b.x1 else b.x0 + l, if a >= 2 then b.y1 else b.y0 + l)
  }

  function Doubled(b: Box, x: real, y: real): Box {
    Stretch(b, GrowSlot(b, x, y), 2.0 * b.Width())
  }

  lemma DoubledSound(b: Box, x: real, y: real)
    requires b.Square() && !b.Contains(x, y)
    ensures var grown := Doubled(b, x, y);
            && grown.Square() && b.Within(grown) && grown.Width() == 2.0 * b.Width()
            && grown.Quadrant(GrowSlot(b, x, y)) == b
            && GrowMeasure(grown, x, y) < GrowMeasure(b, x, y)
  {
    var grown, w := Doubled(b, x, y), b.x1 - b.x0;
    if x < b.x0 {
      assert grown.x0 == b.x0 - w;
    } else {
      assert grown.x1 == b.x1 + w;
    }
    ShortfallStep(b.x0, b.x1, grown.x0, grown.x1, x, w);
    ShortfallStep(b.y0, b.y1, grown.y0, grown.y1, y, w);
  }

  /** The extent after covering (x, y): doubled towards it until it is inside, and no further. */
  ghost function Grown(b: Box, x: real, y: real): (g: Box)
    requires b.Square()
    ensures g.Square() && g.Contains(x, y) && b.Within(g)
    decreases GrowMeasure(b, x, y)
  {
    if b.Contains(x, y) then b
    else
      DoubledSound(b, x, y);
      Grown(Doubled(b, x, y), x, y)
  }

  /** The extent after covering (x, y), whether or not there was one before. */
  ghost function Covered(e: Option<Box>, x: real, y: real): (g: Box)
    requires e.Some? ==> e.value.Square()
    ensures g.Square() && g.Contains(x, y) && (e.Some? ==> e.value.Within(g))
  {
    if e.None? then UnitCell(x, y) else Grown(e.value, x, y)
  }

  /** The same facts for proofs that hide the definitions. */
  lemma CoveredIs(e: Option<Box>, x: real, y: real)
    requires e.Some? ==> e.value.Square()
    ensures e.None? ==> Covered(e, x, y) == UnitCell(x, y)
    ensures e.Some? ==> Covered(e, x, y) == Grown(e.value, x, y)
    ensures e.Some? && e.value.Contains(x, y) ==> Covered(e, x, y) == e.value
  {
  }

  lemma GrownStep(b: Box, x: real, y: real, l: real)
    requires b.Square() && !b.Contains(x, y) && l == 2.0 * (b.x1 - b.x0)
    ensures var grown := Stretch(b, GrowSlot(b, x, y), l);
            && grown.Square() && b.Within(grown) && grown.x1 - grown.x0 == l
            && grown.Quadrant(GrowSlot(b, x, y)) == b
            && Grown(b, x, y) == Grown(grown, x, y)
            && GrowMeasure(grown, x, y) < GrowMeasure(b, x, y)
  {
    DoubledSound(b, x, y);
    assert Stretch(b, GrowSlot(b, x, y), l) == Doubled(b, x, y);
  }

  lemma ShortfallStep(lo: real, hi: real, lo': real, hi': real, v: real, w: real)
    requires w >= 1.0 && hi == lo + w
    requires if v < lo then lo' == lo - w && hi' == hi else lo' == lo && hi' == hi + w
    ensures Shortfall(lo', hi', v) <= Shortfall(lo, hi, v)
    ensures !(lo <= v < hi) ==> Shortfall(lo', hi', v) < Shortfall(lo, hi, v)
  {
    if v < lo' {
      assert (lo' - v) <= (lo - v) - 1.0;
    }
    if v >= hi' {
      assert (v - hi') <= (v - hi) - 1.0;
    }
  }

  // ---------------------------------------------------------------- distances

  function Dist2(x: real, y: real, p: Point): (d: real) {
    (x - p.x) * (x - p.x) + (y - p.y) * (y - p.y)
  }

  /** Inside the (open) disc of squared radius `e`; no radius means the whole plane. */
  predicate Inside(x: real, y: real, p: Point, e: Option<real>) {
    e.None? || Dist2(x, y, p) < e.value
  }

  lemma PositiveProduct(a: real, b: real)
    requires a > 0.0 && b > 0.0
    ensures a * b > 0.0
  {
  }

  lemma SquareMonotone(a: real, d: real)
    requires d >= 0.0 && Abs(a) > d
    ensures a * a > d * d
  {
    var b := Abs(a);
    PositiveProduct(b - d, b + d);
    assert (b - d) * (b + d) == b * b - d * d;
    assert a * a == b * b;
  }

  /** A point nearer than `d` is inside the axis-aligned window of half-width `d`. */
  lemma NearIsInWindow(x: real, y: real, p: Point, v: real, d: real)
    requires d >= 0.0 && v <= d * d && Dist2(x, y, p) < v
    ensures x - d <= p.x <= x + d && y - d <= p.y <= y + d
  {
    var dx, dy := x - p.x, y - p.y;
    assert dx * dx >= 0.0 && dy * dy >= 0.0;
    if Abs(dx) > d {
      SquareMonotone(dx, d);
    } else if Abs(dy) > d {
      SquareMonotone(dy, d);
    }
  }
}
