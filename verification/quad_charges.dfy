/** The many-body charges: what the post-order pass leaves in each node, and what its centre of
    charge means. */
module QuadCharges {
  import opened Options
  import opened QuadGeometry
  import opened QuadShape
  import opened QuadSearch
  import opened Quadtree
  import opened QuadForces

  ghost function SumOver(pts: seq<Point>, str: Point -> real): real {
    if pts == [] then 0.0 else SumOver(pts[..|pts| - 1], str) + str(pts[|pts| - 1])
  }

  /** What the many-body pass leaves in a node: the charges of all the data below it. */
  ghost function Charge(t: Tree, str: Point -> real): real {
    match t
    case Nil => 0.0
    case Leaf(_, pts) => SumOver(pts, str)
    case Quad(_, k0, k1, k2, k3) => Charge(k0, str) + Charge(k1, str) + Charge(k2, str) + Charge(k3, str)
  }

  /** The data of a tree in the order of its leaves. */
  ghost function Data(t: Tree): (s: seq<Point>)
    ensures multiset(s) == Points(t)
  {
    match t
    case Nil => []
    case Leaf(_, pts) => pts
    case Quad(_, k0, k1, k2, k3) => Data(k0) + Data(k1) + Data(k2) + Data(k3)
  }

  lemma {:induction false} SumConcat(a: seq<Point>, b: seq<Point>, str: Point -> real)
    ensures SumOver(a + b, str) == SumOver(a, str) + SumOver(b, str)
  {
    if b == [] {
      assert a + b == a;
    } else {
      SumConcat(a, b[..|b| - 1], str);
      assert (a + b)[..|a + b| - 1] == a + b[..|b| - 1];
    }
  }

  lemma SumTakeOut(a: seq<Point>, i: nat, str: Point -> real)
    requires i < |a|
    ensures SumOver(a, str) == SumOver(a[..i] + a[i + 1..], str) + str(a[i])
  {
    assert a == a[..i] + [a[i]] + a[i + 1..];
    SumConcat(a[..i] + [a[i]], a[i + 1..], str);
    assert (a[..i] + [a[i]])[..i] == a[..i];
    SumConcat(a[..i], a[i + 1..], str);
  }

  lemma TakenOut(a: seq<Point>, i: nat)
    requires i < |a|
    ensures multiset(a[..i] + a[i + 1..]) == multiset(a) - multiset{a[i]}
  {
    assert a == a[..i] + [a[i]] + a[i + 1..];
  }

  /** A sum of charges does not depend on the order of the data. */
  lemma {:induction false} SumPermutes(a: seq<Point>, b: seq<Point>, str: Point -> real)
    requires multiset(a) == multiset(b)
    ensures SumOver(a, str) == SumOver(b, str)
    decreases |a|
  {
    assert |a| == |multiset(a)| == |multiset(b)| == |b|;
    if a != [] {
      var n := |a| - 1;
      TakenOut(a, n);
      assert a[n] in multiset(b);
      var i :| 0 <= i < |b| && b[i] == a[n];
      TakenOut(b, i);
      assert a[..n] + a[n + 1..] == a[..n];
      SumPermutes(a[..n], b[..i] + b[i + 1..], str);
      SumTakeOut(b, i, str);
    }
  }

  lemma {:induction false} ChargeIsSum(t: Tree, str: Point -> real)
    ensures Charge(t, str) == SumOver(Data(t), str)
  {
    if t.Quad? {
      ChargeIsSum(t.k0, str);
      ChargeIsSum(t.k1, str);
      ChargeIsSum(t.k2, str);
      ChargeIsSum(t.k3, str);
      SumConcat(Data(t.k0) + Data(t.k1) + Data(t.k2), Data(t.k3), str);
      SumConcat(Data(t.k0) + Data(t.k1), Data(t.k2), str);
      SumConcat(Data(t.k0), Data(t.k1), str);
    }
  }

  /** Whatever way the tree was built, a node's charge is the sum over the data below it. */
  lemma ChargeOfContents(t: Tree, ps: seq<Point>, str: Point -> real)
    requires multiset(ps) == Points(t)
    ensures Charge(t, str) == SumOver(ps, str)
  {
    ChargeIsSum(t, str);
    SumPermutes(Data(t), ps, str);
  }

  /** The centre the pass leaves in a node: a leaf's position; at an array node the mean of its
      kids' centres, each weighted by the size of its charge. */
  ghost function Centre(t: Tree, str: Point -> real): Option<Spot>
    decreases t, 0
  {
    match t
    case Nil => None
    case Leaf(_, pts) => if |pts| > 0 then Some(Spot(pts[0].x, pts[0].y)) else None
    case Quad(_, _, _, _, _) =>
      if Mass(t, str) == 0.0 then None
      else Some(Spot((Pull(t.k0, str, true) + Pull(t.k1, str, true) + Pull(t.k2, str, true) + Pull(t.k3, str, true))
                     / Mass(t, str),
                     (Pull(t.k0, str, false) + Pull(t.k1, str, false) + Pull(t.k2, str, false) + Pull(t.k3, str, false))
                     / Mass(t, str)))
  }

  ghost function Mass(t: Tree, str: Point -> real): real
    requires t.Quad?
    decreases t, 0
  {
    Abs(Charge(t.k0, str)) + Abs(Charge(t.k1, str)) + Abs(Charge(t.k2, str)) + Abs(Charge(t.k3, str))
  }

  /** What a kid adds to the weighted sum of x or of y; a kid without charge is passed over. */
  ghost function Pull(k: Tree, str: Point -> real, alongX: bool): real
    decreases k, 1
  {
    var c := Centre(k, str);
    if Charge(k, str) == 0.0 || c.None? then 0.0 else Abs(Charge(k, str)) * (if alongX then c.value.x else c.value.y)
  }

  ghost function KidPulls(t: Tree, str: Point -> real, alongX: bool): real
    requires t.Quad?
  {
    Pull(Kid(t, 0), str, alongX) + Pull(Kid(t, 1), str, alongX) + Pull(Kid(t, 2), str, alongX)
    + Pull(Kid(t, 3), str, alongX)
  }

  ghost function ChargeOfFirst(t: Tree, x: nat, str: Point -> real): real
    requires t.Quad? && x <= 4
  {
    if x == 0 then 0.0 else ChargeOfFirst(t, x - 1, str) + Charge(Kid(t, x - 1), str)
  }

  ghost function MassOfFirst(t: Tree, x: nat, str: Point -> real): real
    requires t.Quad? && x <= 4
  {
    if x == 0 then 0.0 else MassOfFirst(t, x - 1, str) + Abs(Charge(Kid(t, x - 1), str))
  }

  ghost function PullOfFirst(t: Tree, x: nat, str: Point -> real, alongX: bool): real
    requires t.Quad? && x <= 4
  {
    if x == 0 then 0.0 else PullOfFirst(t, x - 1, str, alongX) + Pull(Kid(t, x - 1), str, alongX)
  }

  lemma FirstOfNone(t: Tree, str: Point -> real)
    requires t.Quad?
    ensures ChargeOfFirst(t, 0, str) == 0.0 && MassOfFirst(t, 0, str) == 0.0
    ensures PullOfFirst(t, 0, str, true) == 0.0 && PullOfFirst(t, 0, str, false) == 0.0
  {
  }

  lemma FirstOfMore(t: Tree, x: nat, str: Point -> real)
    requires t.Quad? && x < 4
    ensures ChargeOfFirst(t, x + 1, str) == ChargeOfFirst(t, x, str) + Charge(Kid(t, x), str)
    ensures MassOfFirst(t, x + 1, str) == MassOfFirst(t, x, str) + Abs(Charge(Kid(t, x), str))
    ensures forall b :: PullOfFirst(t, x + 1, str, b) == PullOfFirst(t, x, str, b) + Pull(Kid(t, x), str, b)
  {
    hide Charge, Pull, Kid;
  }

  lemma FirstOfAll(t: Tree, str: Point -> real)
    requires t.Quad?
    ensures ChargeOfFirst(t, 4, str) == Charge(t, str)
    ensures MassOfFirst(t, 4, str) == 0.0 ==> Centre(t, str) == None
    ensures var mass := MassOfFirst(t, 4, str);
            mass != 0.0 ==>
              Centre(t, str) == Some(Spot(PullOfFirst(t, 4, str, true) / mass, PullOfFirst(t, 4, str, false) / mass))
  {
    FirstOfNone(t, str);
    FirstOfMore(t, 0, str);
    FirstOfMore(t, 1, str);
    FirstOfMore(t, 2, str);
    FirstOfMore(t, 3, str);
    QuadSums(t, str);
    CentreIs(t, str);
    hide Charge, Mass, Pull, Centre, ChargeOfFirst, MassOfFirst, PullOfFirst, Abs;
  }

  lemma QuadSums(t: Tree, str: Point -> real)
    requires t.Quad?
    ensures Charge(t, str)
         == Charge(Kid(t, 0), str) + Charge(Kid(t, 1), str) + Charge(Kid(t, 2), str) + Charge(Kid(t, 3), str)
    ensures Mass(t, str) == Abs(Charge(Kid(t, 0), str)) + Abs(Charge(Kid(t, 1), str)) + Abs(Charge(Kid(t, 2), str))
                            + Abs(Charge(Kid(t, 3), str))
  {
    hide Abs;
    assert Kid(t, 0) == t.k0 && Kid(t, 1) == t.k1 && Kid(t, 2) == t.k2 && Kid(t, 3) == t.k3;
  }

  lemma CentreIs(t: Tree, str: Point -> real)
    requires t.Quad?
    ensures Mass(t, str) == 0.0 ==> Centre(t, str) == None
    ensures var mass := Mass(t, str);
            mass != 0.0 ==> Centre(t, str) == Some(Spot(KidPulls(t, str, true) / mass, KidPulls(t, str, false) / mass))
  {
    hide Mass, Pull;
    assert Kid(t, 0) == t.k0 && Kid(t, 1) == t.k1 && Kid(t, 2) == t.k2 && Kid(t, 3) == t.k3;
  }

  /** A charged node has a centre. */
  lemma CentreThere(t: Tree, str: Point -> real)
    requires Linked(t) && Charge(t, str) != 0.0
    ensures Centre(t, str).Some?
  {
    if t.Quad? {
      QuadSums(t, str);
      CentreIs(t, str);
      hide Charge, Mass, Centre;
    }
  }

  lemma KidShare(t: Tree, x: Slot, str: Point -> real)
    requires t.Quad? && Linked(t)
    ensures var k := Kid(t, x);
            if Charge(k, str) == 0.0 then Abs(Charge(k, str)) == 0.0 && forall b :: Pull(k, str, b) == 0.0
            else k != Nil && Abs(Charge(k, str)) != 0.0 && Centre(k, str).Some?
                 && Pull(k, str, true) == Abs(Charge(k, str)) * Centre(k, str).value.x
                 && Pull(k, str, false) == Abs(Charge(k, str)) * Centre(k, str).value.y
  {
    hide *;
    var k := Kid(t, x);
    LinkedKid(t, x);
    PullIs(k, str, true);
    PullIs(k, str, false);
    AbsZero(Charge(k, str));
    if Charge(k, str) != 0.0 {
      CentreThere(k, str);
    }
  }

  lemma AbsZero(r: real)
    ensures Abs(r) == 0.0 <==> r == 0.0
  {
  }

  lemma PullIs(k: Tree, str: Point -> real, b: bool)
    ensures Charge(k, str) == 0.0 ==> Pull(k, str, b) == 0.0
    ensures Charge(k, str) != 0.0 && Centre(k, str).Some? ==>
              var c := Centre(k, str).value;
              k != Nil && Pull(k, str, b) == Abs(Charge(k, str)) * (if b then c.x else c.y)
  {
    NoCentre(str);
    hide Charge, Centre, Abs;
  }

  lemma NoCentre(str: Point -> real)
    ensures Centre(Nil, str) == None && Charge(Nil, str) == 0.0
  {
  }

  lemma LeafCentre(t: Tree, str: Point -> real)
    requires t.Leaf? && |t.pts| > 0
    ensures Centre(t, str) == Some(Spot(t.pts[0].x, t.pts[0].y))
  {
  }

  // ---- What the centre means when all charges have one sign

  /** All strengths are at least 0, or all are at most 0. (The default is -30 for every datum.) */
  ghost predicate Signed(ps: multiset<Point>, str: Point -> real, up: bool) {
    forall p :: p in ps ==> if up then str(p) >= 0.0 else str(p) <= 0.0
  }

  ghost function Along(str: Point -> real, alongX: bool): Point -> real {
    (p: Point) => str(p) * (if alongX then p.x else p.y)
  }

  ghost function Coord(c: Spot, alongX: bool): real {
    if alongX then c.x else c.y
  }

  lemma {:induction false} SumSign(pts: seq<Point>, str: Point -> real, up: bool)
    requires Signed(multiset(pts), str, up)
    ensures if up then SumOver(pts, str) >= 0.0 else SumOver(pts, str) <= 0.0
  {
    if pts != [] {
      var n := |pts| - 1;
      assert pts == pts[..n] + [pts[n]];
      assert pts[n] in multiset(pts);
      SumSign(pts[..n], str, up);
    }
  }

  lemma ChargeSign(t: Tree, str: Point -> real, up: bool)
    requires Signed(Points(t), str, up)
    ensures if up then Charge(t, str) >= 0.0 else Charge(t, str) <= 0.0
  {
    ChargeIsSum(t, str);
    SumSign(Data(t), str, up);
  }

  lemma {:induction false} SumCoincident(pts: seq<Point>, str: Point -> real, alongX: bool, c: real)
    requires forall i :: 0 <= i < |pts| ==> (if alongX then pts[i].x else pts[i].y) == c
    ensures SumOver(pts, Along(str, alongX)) == c * SumOver(pts, str)
  {
    if pts != [] {
      var n := |pts| - 1;
      SumCoincident(pts[..n], str, alongX, c);
      Distribute(c, SumOver(pts[..n], str), str(pts[n]));
    }
  }

  lemma Distribute(c: real, a: real, b: real)
    ensures c * (a + b) == c * a + b * c
  {
  }

  lemma Quotient(a: real, b: real)
    requires b != 0.0
    ensures (a / b) * b == a
  {
  }

  lemma Opposite(a: real, b: real, c: real)
    requires c == -b
    ensures a * c == -(a * b)
  {
  }

  lemma KidSigned(t: Tree, q: Slot, str: Point -> real, up: bool)
    requires t.Quad? && Signed(Points(t), str, up)
    ensures Signed(Points(Kid(t, q)), str, up)
  {
    assert forall p :: p in Points(Kid(t, q)) ==> p in Points(t);
  }

  /** The sum that the centre divides, and what it divides by. */
  lemma CentreTimesMass(t: Tree, str: Point -> real, alongX: bool)
    requires t.Quad? && Mass(t, str) != 0.0
    ensures Centre(t, str).Some? && Coord(Centre(t, str).value, alongX) * Mass(t, str) == KidPulls(t, str, alongX)
  {
    hide *;
    CentreIs(t, str);
    CoordOf(Centre(t, str).value, alongX);
    Quotient(KidPulls(t, str, alongX), Mass(t, str));
  }

  lemma CoordOf(c: Spot, alongX: bool)
    ensures Coord(c, alongX) == if alongX then c.x else c.y
  {
  }

  /** With charges of one sign, the centre of a charged node is the charge-weighted mean position of
      all the data below it; without charge the weighted positions add up to nothing too. */
  lemma {:induction false} CentreIsMean(t: Tree, b: Box, str: Point -> real, up: bool, alongX: bool)
    requires Celled(t, b) && Signed(Points(t), str, up)
    ensures Charge(t, str) == 0.0 ==> Charge(t, Along(str, alongX)) == 0.0
    ensures Charge(t, str) != 0.0 ==>
              Centre(t, str).Some?
              && Coord(Centre(t, str).value, alongX) * Charge(t, str) == Charge(t, Along(str, alongX))
  {
    hide *;
    match t
    case Nil => NilCentre(str, alongX);
    case Leaf(_, _) => LeafMean(t, b, str, alongX);
    case Quad(_, _, _, _, _) =>
      forall q: Slot
        ensures SignedPull(Kid(t, q), str, up, alongX)
      {
        KidCell(t, b, q);
        KidSigned(t, q, str, up);
        CentreIsMean(Kid(t, q), b.Quadrant(q), str, up, alongX);
        ChargeSign(Kid(t, q), str, up);
        PullSigned(Kid(t, q), str, up, alongX);
      }
      QuadMean(t, str, up, alongX);
  }

  /** So the centre, too, depends on the stored data only. */
  lemma CentreOfContents(t: Tree, b: Box, ps: seq<Point>, str: Point -> real, up: bool, alongX: bool)
    requires Celled(t, b) && multiset(ps) == Points(t) && Signed(multiset(ps), str, up) && Charge(t, str) != 0.0
    ensures Centre(t, str).Some?
    ensures Coord(Centre(t, str).value, alongX) * SumOver(ps, str) == SumOver(ps, Along(str, alongX))
  {
    hide *;
    CentreIsMean(t, b, str, up, alongX);
    ChargeOfContents(t, ps, str);
    ChargeOfContents(t, ps, Along(str, alongX));
  }

  lemma NilCentre(str: Point -> real, alongX: bool)
    ensures Charge(Nil, str) == 0.0 && Charge(Nil, Along(str, alongX)) == 0.0
  {
  }

  lemma LeafMean(t: Tree, b: Box, str: Point -> real, alongX: bool)
    requires t.Leaf? && Celled(t, b)
    ensures Centre(t, str).Some?
    ensures Coord(Centre(t, str).value, alongX) * Charge(t, str) == Charge(t, Along(str, alongX))
    ensures Charge(t, str) == 0.0 ==> Charge(t, Along(str, alongX)) == 0.0
  {
    SumCoincident(t.pts, str, alongX, Coord(Centre(t, str).value, alongX));
  }

  /** A kid pulls with its weighted positions, and weighs its charge, up to the common sign. */
  ghost predicate SignedPull(k: Tree, str: Point -> real, up: bool, alongX: bool) {
    var c, w := Charge(k, str), Charge(k, Along(str, alongX));
    && (if up then c >= 0.0 && Abs(c) == c && Pull(k, str, alongX) == w
        else c <= 0.0 && Abs(c) == -c && Pull(k, str, alongX) == -w)
    && (c == 0.0 ==> w == 0.0)
  }

  lemma PullSigned(k: Tree, str: Point -> real, up: bool, alongX: bool)
    requires if up then Charge(k, str) >= 0.0 else Charge(k, str) <= 0.0
    requires Charge(k, str) == 0.0 ==> Charge(k, Along(str, alongX)) == 0.0
    requires Charge(k, str) != 0.0 ==>
               Centre(k, str).Some?
               && Coord(Centre(k, str).value, alongX) * Charge(k, str) == Charge(k, Along(str, alongX))
    ensures SignedPull(k, str, up, alongX)
  {
    PullIs(k, str, alongX);
    hide Charge, Centre, Pull, Along;
    if Charge(k, str) != 0.0 {
      Opposite(Coord(Centre(k, str).value, alongX), Charge(k, str), -Charge(k, str));
    }
  }

  lemma SignedKids(t: Tree, str: Point -> real, up: bool, alongX: bool)
    requires t.Quad? && forall q: Slot :: SignedPull(Kid(t, q), str, up, alongX)
    ensures Charge(t, str) == 0.0 ==> Charge(t, Along(str, alongX)) == 0.0
    ensures Mass(t, str) == if up then Charge(t, str) else -Charge(t, str)
    ensures KidPulls(t, str, alongX) == if up then Charge(t, Along(str, alongX)) else -Charge(t, Along(str, alongX))
  {
    hide *;
    SignedParts(Kid(t, 0), str, up, alongX);
    SignedParts(Kid(t, 1), str, up, alongX);
    SignedParts(Kid(t, 2), str, up, alongX);
    SignedParts(Kid(t, 3), str, up, alongX);
    QuadSums(t, str);
    QuadSums(t, Along(str, alongX));
    KidPullsIs(t, str, alongX);
  }

  lemma SignedParts(k: Tree, str: Point -> real, up: bool, alongX: bool)
    requires SignedPull(k, str, up, alongX)
    ensures var c, w := Charge(k, str), Charge(k, Along(str, alongX));
            && (up ==> c >= 0.0 && Abs(c) == c && Pull(k, str, alongX) == w)
            && (!up ==> c <= 0.0 && Abs(c) == -c && Pull(k, str, alongX) == -w)
            && (c == 0.0 ==> w == 0.0)
  {
    hide Charge, Pull, Along, Abs;
  }

  lemma KidPullsIs(t: Tree, str: Point -> real, b: bool)
    requires t.Quad?
    ensures KidPulls(t, str, b)
         == Pull(Kid(t, 0), str, b) + Pull(Kid(t, 1), str, b) + Pull(Kid(t, 2), str, b) + Pull(Kid(t, 3), str, b)
  {
    hide Pull, Kid;
  }

  lemma QuadMean(t: Tree, str: Point -> real, up: bool, alongX: bool)
    requires t.Quad? && forall q: Slot :: SignedPull(Kid(t, q), str, up, alongX)
    ensures Charge(t, str) == 0.0 ==> Charge(t, Along(str, alongX)) == 0.0
    ensures Charge(t, str) != 0.0 ==>
              Centre(t, str).Some?
              && Coord(Centre(t, str).value, alongX) * Charge(t, str) == Charge(t, Along(str, alongX))
  {
    hide *;
    SignedKids(t, str, up, alongX);
    if Charge(t, str) != 0.0 {
      CentreTimesMass(t, str, alongX);
      Opposite(Coord(Centre(t, str).value, alongX), Charge(t, str), -Charge(t, str));
    }
  }

  lemma ChargeChain(t: Tree, k: nat, str: Point -> real)
    requires t.Leaf? && k < |t.pts|
    ensures SumOver(t.pts[..k + 1], str) == SumOver(t.pts[..k], str) + str(t.pts[k])
    ensures SumOver(t.pts[..0], str) == 0.0 && Charge(t, str) == SumOver(t.pts[..|t.pts|], str)
  {
    assert t.pts[..k + 1][..k] == t.pts[..k];
    assert t.pts[..|t.pts|] == t.pts;
  }

  /** forceManyBody's callback on one node, its kids being annotated already. */
  method AnnotateCharge(a: Node, ghost t: Tree, str: Point -> real)
    requires Linked(t) && t != Nil && a == Root(t)
    requires t.Quad? ==> forall x: Slot :: Kid(t, x) != Nil ==>
               Root(Kid(t, x)) != null && Root(Kid(t, x)).value == Charge(Kid(t, x), str)
               && Root(Kid(t, x)).centre == Centre(Kid(t, x), str)
    modifies a`value, a`centre
    ensures a.value == Charge(t, str) && a.centre == Centre(t, str)
  {
    hide *;
    KindOf(t);
    DataIsLeaf(t);
    var y := 0.0;
    if |a.child| != 0 {
      FirstOfNone(t, str);
      var c, g, h := 0.0, 0.0, 0.0;
      for v := 0 to 4
        invariant y == ChargeOfFirst(t, v, str) && c == MassOfFirst(t, v, str)
        invariant g == PullOfFirst(t, v, str, true) && h == PullOfFirst(t, v, str, false) && Linked(t)
        invariant forall x: Slot :: Kid(t, x) != Nil ==>
                    Root(Kid(t, x)) != null && Root(Kid(t, x)).value == Charge(Kid(t, x), str)
                    && Root(Kid(t, x)).centre == Centre(Kid(t, x), str)
        modifies {}
      {
        FirstOfMore(t, v, str);
        KidPointer(t, v);
        KidShare(t, v, str);
        if a.child[v] != null {
          var s := a.child[v];
          var u := Abs(s.value);
          if u != 0.0 {
            var spot := s.centre.value;
            y, c, g, h := y + s.value, c + u, g + u * spot.x, h + u * spot.y;
          }
        }
      }
      FirstOfAll(t, str);
      a.centre := if c == 0.0 then None else Some(Spot(g / c, h / c));
    } else {
      ChargeChain(t, 0, str);
      LeafCentre(t, str);
      var s := a;
      ghost var k := 0;
      ChainAt(t, 0);
      a.centre := Some(Spot(s.data.value.x, s.data.value.y));
      while true
        invariant 0 <= k < |t.chain| == |t.pts| && s == t.chain[k]
        invariant y == SumOver(t.pts[..k], str) && Linked(t)
        modifies {}
        decreases |t.chain| - k
      {
        ChainAt(t, k);
        ChargeChain(t, k, str);
        y := y + str(s.data.value);
        if s.next == null {
          break;
        }
        s, k := s.next, k + 1;
      }
    }
    a.value := y;
  }

  /** Every node below carries the charge and the centre of its data. */
  ghost predicate ChargesSet(t: Tree, str: Point -> real)
    reads NodesOf(t)
  {
    match t
    case Nil => true
    case Leaf(chain, _) => |chain| > 0 ==> chain[0].value == Charge(t, str) && chain[0].centre == Centre(t, str)
    case Quad(n, k0, k1, k2, k3) =>
      && n.value == Charge(t, str) && n.centre == Centre(t, str)
      && ChargesSet(k0, str) && ChargesSet(k1, str) && ChargesSet(k2, str) && ChargesSet(k3, str)
  }

  lemma {:induction false} AllCharges(t: Tree, order: seq<Node>, trees: seq<Tree>, k: nat, str: Point -> real)
    requires Listed(t, order, trees) && k < |trees|
    requires forall j :: 0 <= j < |trees| ==>
               order[j].value == Charge(trees[j], str) && order[j].centre == Centre(trees[j], str)
    ensures ChargesSet(trees[k], str)
    decreases |trees| - k
  {
    var s := trees[k];
    if s.Quad? {
      forall q: Slot
        ensures ChargesSet(Kid(s, q), str)
      {
        if Kid(s, q) != Nil {
          var j :| k < j < |trees| && trees[j] == Kid(s, q);
          AllCharges(t, order, trees, j, str);
        }
      }
      assert Kid(s, 0) == s.k0 && Kid(s, 1) == s.k1 && Kid(s, 2) == s.k2 && Kid(s, 3) == s.k3;
    }
  }

  lemma AllChargesSet(t: Tree, order: seq<Node>, trees: seq<Tree>, str: Point -> real)
    requires Listed(t, order, trees)
    requires forall j :: 0 <= j < |trees| ==>
               order[j].value == Charge(trees[j], str) && order[j].centre == Centre(trees[j], str)
    ensures ChargesSet(t, str)
  {
    if t != Nil {
      AllCharges(t, order, trees, 0, str);
    }
  }

  /** forceManyBody's post-order pass over the whole tree. */
  method AnnotateCharges(q: Quadtree, str: Point -> real)
    requires q.Valid()
    modifies q.Repr`value, q.Repr`centre
    ensures q.Valid() && ChargesSet(q.tree, str)
  {
    hide *;
    q.ValidParts();
    var order, trees := PostOrder(q);
    var i := |order|;
    ListedLength(q.tree, order, trees);
    while i > 0
      invariant 0 <= i <= |order| == |trees|
      invariant forall j :: i <= j < |trees| ==>
                  order[j].value == Charge(trees[j], str) && order[j].centre == Centre(trees[j], str)
      invariant q.Valid()
    {
      i := i - 1;
      ListedAt(q.tree, order, trees, i);
      NotNil(trees[i]);
      AnnotateCharge(order[i], trees[i], str);
    }
    AllChargesSet(q.tree, order, trees, str);
  }
}
