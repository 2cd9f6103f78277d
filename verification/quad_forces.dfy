/** The post-order pass over a quadtree, the collision radii it annotates, and the pruned visit of
    the collision force. */
module QuadForces {
  import opened Options
  import opened QuadGeometry
  import opened QuadShape
  import opened QuadSearch
  import opened Quadtree

  // ---------------------------------------------------------------- subtrees

  ghost predicate Sub(t: Tree, s: Tree) {
    s == t || (t.Quad? && exists q: Slot :: Sub(Kid(t, q), s))
  }

  lemma {:induction false} SubParts(t: Tree, s: Tree)
    requires Sub(t, s) && Linked(t) && Distinct(t)
    ensures Linked(s) && Distinct(s) && NodesOf(s) <= NodesOf(t)
  {
    if s != t {
      var q: Slot :| Sub(Kid(t, q), s);
      KidNodes(t);
      SubParts(Kid(t, q), s);
    }
  }

  lemma {:induction false} SubKid(t: Tree, s: Tree, q: Slot)
    requires Sub(t, s) && s.Quad?
    ensures Sub(t, Kid(s, q))
  {
    if s == t {
      assert Sub(Kid(t, q), Kid(s, q));
    } else {
      var r: Slot :| Sub(Kid(t, r), s);
      SubKid(Kid(t, r), s, q);
    }
  }

  lemma RootInNodes(t: Tree)
    requires Linked(t) && Root(t) != null
    ensures Root(t) in NodesOf(t)
  {
  }

  /** In a tree that uses no node twice a root pointer names one subtree only. */
  lemma {:induction false} SameRoot(t: Tree, s: Tree, s': Tree)
    requires Linked(t) && Distinct(t) && Sub(t, s) && Sub(t, s') && Root(s) != null && Root(s) == Root(s')
    ensures s == s'
  {
    SubParts(t, s);
    SubParts(t, s');
    RootInNodes(s);
    if s == t || s' == t {
      if s != s' {
        var inner := if s == t then s' else s;
        var q: Slot :| Sub(Kid(t, q), inner);
        SubParts(Kid(t, q), inner);
        RootInNodes(inner);
      }
    } else {
      var q: Slot :| Sub(Kid(t, q), s);
      var r: Slot :| Sub(Kid(t, r), s');
      SubParts(Kid(t, q), s);
      SubParts(Kid(t, r), s');
      if q == r {
        SameRoot(Kid(t, q), s, s');
      }
    }
  }

  // ---------------------------------------------------------------- the post-order list

  /** `order` lists the nodes of `t`, each before the nodes below it. */
  ghost predicate Listed(t: Tree, order: seq<Node>, trees: seq<Tree>) {
    && |order| == |trees|
    && (t != Nil ==> |trees| > 0 && trees[0] == t)
    && (forall k :: 0 <= k < |trees| ==> Sub(t, trees[k]) && Root(trees[k]) == order[k])
    && (forall k, q: Slot :: 0 <= k < |trees| && trees[k].Quad? && Kid(trees[k], q) != Nil ==>
          exists j :: k < j < |trees| && trees[j] == Kid(trees[k], q))
  }

  /** The same while subtrees are still waiting on the stack. */
  ghost predicate Listing(t: Tree, held: seq<Tree>, order: seq<Node>, trees: seq<Tree>) {
    && |order| == |trees|
    && (t != Nil ==> if trees == [] then held == [t] else trees[0] == t)
    && (forall k :: 0 <= k < |held| ==> Sub(t, held[k]) && held[k] != Nil)
    && (forall k :: 0 <= k < |trees| ==> Sub(t, trees[k]) && Root(trees[k]) == order[k])
    && (forall k, q: Slot :: 0 <= k < |trees| && trees[k].Quad? && Kid(trees[k], q) != Nil ==>
          (exists j :: k < j < |trees| && trees[j] == Kid(trees[k], q)) || Kid(trees[k], q) in held)
  }

  ghost function Present(t: Tree): seq<Tree> {
    if t == Nil then [] else [t]
  }

  ghost function PresentKids(t: Tree): seq<Tree> {
    if t.Quad? then Present(t.k0) + Present(t.k1) + Present(t.k2) + Present(t.k3) else []
  }

  function PresentNode(n: Node?): seq<Node> {
    if n == null then [] else [n]
  }

  function PresentNodes(ch: seq<Node?>): seq<Node>
    requires |ch| == 4
  {
    PresentNode(ch[0]) + PresentNode(ch[1]) + PresentNode(ch[2]) + PresentNode(ch[3])
  }

  lemma PresentMember(t: Tree, k: Tree)
    requires t.Quad?
    ensures k in PresentKids(t) <==> k != Nil && exists q: Slot :: k == Kid(t, q)
  {
    if k in PresentKids(t) {
      assert k == Kid(t, 0) || k == Kid(t, 1) || k == Kid(t, 2) || k == Kid(t, 3);
    }
    if k != Nil && exists q: Slot :: k == Kid(t, q) {
      var q: Slot :| k == Kid(t, q);
      assert Present(k) == [k];
      assert q == 0 || q == 1 || q == 2 || q == 3;
    }
  }

  lemma PresentRoots(t: Tree)
    requires t.Quad? && Linked(t)
    ensures |t.node.child| == 4 && |PresentNodes(t.node.child)| == |PresentKids(t)|
    ensures forall k :: 0 <= k < |PresentKids(t)| ==> PresentNodes(t.node.child)[k] == Root(PresentKids(t)[k])
  {
    hide *;
    KidPointer(t, 0);
    KidPointer(t, 1);
    KidPointer(t, 2);
    KidPointer(t, 3);
    PresentPieces(t, t.node.child);
    PresentOne(Kid(t, 0));
    PresentOne(Kid(t, 1));
    PresentOne(Kid(t, 2));
    PresentOne(Kid(t, 3));
  }

  lemma PresentPieces(t: Tree, ch: seq<Node?>)
    requires t.Quad? && |ch| == 4
    ensures PresentNodes(ch) == PresentNode(ch[0]) + PresentNode(ch[1]) + PresentNode(ch[2]) + PresentNode(ch[3])
    ensures PresentKids(t) == Present(Kid(t, 0)) + Present(Kid(t, 1)) + Present(Kid(t, 2)) + Present(Kid(t, 3))
  {
    assert Kid(t, 0) == t.k0 && Kid(t, 1) == t.k1 && Kid(t, 2) == t.k2 && Kid(t, 3) == t.k3;
  }

  lemma PresentOne(t: Tree)
    ensures if t == Nil then Present(t) == [] else Present(t) == [t]
    ensures if Root(t) == null then PresentNode(Root(t)) == [] else PresentNode(Root(t)) == [Root(t)]
  {
  }

  lemma PresentWeight(t: Tree)
    requires t.Quad?
    ensures Weight(PresentKids(t)) < Size(t)
  {
    WeightPresent(t.k0);
    WeightPresent(t.k1);
    WeightPresent(t.k2);
    WeightPresent(t.k3);
    WeightConcat(Present(t.k0), Present(t.k1));
    WeightConcat(Present(t.k0) + Present(t.k1), Present(t.k2));
    WeightConcat(Present(t.k0) + Present(t.k1) + Present(t.k2), Present(t.k3));
  }

  lemma WeightPresent(t: Tree)
    ensures Weight(Present(t)) <= Size(t)
  {
    assert [t][..0] == [];
  }

  lemma ListingStep(t: Tree, held: seq<Tree>, order: seq<Node>, trees: seq<Tree>)
    requires Listing(t, held, order, trees) && |held| > 0
    requires Root(held[|held| - 1]) != null
    ensures var n, top := |held| - 1, held[|held| - 1];
            Listing(t, held[..n] + PresentKids(top), order + [Root(top)], trees + [top])
  {
    var n, top := |held| - 1, held[|held| - 1];
    var held', trees' := held[..n] + PresentKids(top), trees + [top];
    forall k | 0 <= k < |held'|
      ensures Sub(t, held'[k]) && held'[k] != Nil
    {
      if k >= n {
        assert held'[k] in PresentKids(top);
        PresentMember(top, held'[k]);
        var q: Slot :| held'[k] == Kid(top, q);
        SubKid(t, top, q);
      }
    }
    forall k, q: Slot | 0 <= k < |trees'| && trees'[k].Quad? && Kid(trees'[k], q) != Nil
      ensures (exists j :: k < j < |trees'| && trees'[j] == Kid(trees'[k], q)) || Kid(trees'[k], q) in held'
    {
      var kid := Kid(trees'[k], q);
      if k == |trees| {
        PresentMember(top, kid);
      } else if exists j :: k < j < |trees| && trees[j] == kid {
        var j :| k < j < |trees| && trees[j] == kid;
        assert trees'[j] == kid;
      } else {
        var i :| 0 <= i < |held| && held[i] == kid;
        if i == n {
          assert trees'[|trees|] == kid;
        } else {
          assert held'[i] == kid;
        }
      }
    }
  }

  /** Waiting subtrees share no node with each other or with what is listed, and no node is listed
      twice. */
  ghost predicate Apart(held: seq<Tree>, order: seq<Node>) {
    && (forall i, j :: 0 <= i < j < |held| ==> NodesOf(held[i]) !! NodesOf(held[j]))
    && (forall i, k :: 0 <= i < |held| && 0 <= k < |order| ==> order[k] !in NodesOf(held[i]))
    && NoneTwice(order)
  }

  ghost predicate NoneTwice(order: seq<Node>) {
    forall k, l :: 0 <= k < l < |order| ==> order[k] != order[l]
  }

  /** The kids `ks` sit in the slots `at`, which increase and stay below `hi`. */
  ghost predicate Slotted(t: Tree, at: seq<Slot>, ks: seq<Tree>, hi: nat)
    requires t.Quad?
  {
    && |at| == |ks| && (forall k :: 0 <= k < |at| ==> ks[k] == Kid(t, at[k]) && at[k] < hi)
    && (forall k, l :: 0 <= k < l < |at| ==> at[k] < at[l])
  }

  lemma SlotsPush(t: Tree, at: seq<Slot>, ks: seq<Tree>, q: Slot) returns (at': seq<Slot>)
    requires t.Quad? && Slotted(t, at, ks, q)
    ensures Slotted(t, at', ks + Present(Kid(t, q)), q + 1)
  {
    hide Kid;
    at' := at + if Kid(t, q) == Nil then [] else [q];
  }

  lemma PresentSlots(t: Tree) returns (at: seq<Slot>)
    requires t.Quad?
    ensures Slotted(t, at, PresentKids(t), 4)
  {
    PresentPieces(t, [null, null, null, null]);
    hide PresentKids, Present;
    var none: seq<Tree> := [];
    assert none + Present(Kid(t, 0)) == Present(Kid(t, 0));
    at := SlotsPush(t, [], none, 0);
    at := SlotsPush(t, at, Present(Kid(t, 0)), 1);
    at := SlotsPush(t, at, Present(Kid(t, 0)) + Present(Kid(t, 1)), 2);
    at := SlotsPush(t, at, Present(Kid(t, 0)) + Present(Kid(t, 1)) + Present(Kid(t, 2)), 3);
  }

  lemma KidsApart(t: Tree)
    requires t.Quad? && Distinct(t)
    ensures forall k, l :: 0 <= k < l < |PresentKids(t)| ==> NodesOf(PresentKids(t)[k]) !! NodesOf(PresentKids(t)[l])
    ensures forall k :: 0 <= k < |PresentKids(t)| ==>
              NodesOf(PresentKids(t)[k]) <= NodesOf(t) && t.node !in NodesOf(PresentKids(t)[k])
  {
    var at := PresentSlots(t);
    KidNodes(t);
    DistinctKids(t);
    hide NodesOf, PresentKids, Distinct, Kid;
  }

  lemma DistinctKids(t: Tree)
    requires t.Quad? && Distinct(t)
    ensures forall q: Slot, r: Slot :: q != r ==> NodesOf(Kid(t, q)) !! NodesOf(Kid(t, r))
    ensures forall q: Slot :: t.node !in NodesOf(Kid(t, q))
  {
  }

  lemma ApartStep(held: seq<Tree>, order: seq<Node>)
    requires Apart(held, order) && |held| > 0
    requires var top := held[|held| - 1]; Distinct(top) && Linked(top) && Root(top) != null
    ensures var n, top := |held| - 1, held[|held| - 1];
            Apart(held[..n] + PresentKids(top), order + [Root(top)])
  {
    var top := held[|held| - 1];
    RootInNodes(top);
    PresentLeaf(top);
    if top.Quad? {
      KidsApart(top);
      QuadRoot(top);
    }
    hide NodesOf, PresentKids, Root, Distinct, Linked;
  }

  lemma QuadRoot(t: Tree)
    requires t.Quad?
    ensures Root(t) == t.node
  {
  }

  lemma ApartStart(t: Tree)
    ensures Apart(Present(t), [])
  {
  }

  lemma ApartEnds(held: seq<Tree>, order: seq<Node>)
    requires Apart(held, order)
    ensures NoneTwice(order)
  {
  }

  /** Every subtree is listed: its array node, or the head of its chain. */
  lemma {:induction false} ListedBelow(t: Tree, order: seq<Node>, trees: seq<Tree>, k: nat, s: Tree)
    requires Listed(t, order, trees) && k < |trees| && Sub(trees[k], s) && s != Nil
    ensures s in trees
    decreases trees[k]
  {
    var u := trees[k];
    if s != u {
      var q: Slot :| Sub(Kid(u, q), s);
      var j :| k < j < |trees| && trees[j] == Kid(u, q);
      ListedBelow(t, order, trees, j, s);
    }
  }

  lemma ListedAll(t: Tree, order: seq<Node>, trees: seq<Tree>, s: Tree)
    requires Listed(t, order, trees)
    ensures s in trees <==> Sub(t, s) && s != Nil
  {
    if Sub(t, s) && s != Nil {
      SubNil(t, s);
      ListedBelow(t, order, trees, 0, s);
    }
  }

  lemma SubNil(t: Tree, s: Tree)
    requires Sub(t, s) && s != Nil
    ensures t != Nil
  {
  }

  lemma ListingEnds(t: Tree, order: seq<Node>, trees: seq<Tree>)
    requires Listing(t, [], order, trees)
    ensures Listed(t, order, trees)
  {
  }

  lemma PresentStart(t: Tree, n: Node?)
    requires n == Root(t) && (n == null <==> t == Nil)
    ensures |PresentNode(n)| == |Present(t)|
    ensures forall k :: 0 <= k < |Present(t)| ==> PresentNode(n)[k] == Root(Present(t)[k])
    ensures Listing(t, Present(t), [], [])
  {
  }

  lemma ListingTop(t: Tree, held: seq<Tree>, order: seq<Node>, trees: seq<Tree>)
    requires Listing(t, held, order, trees) && |held| > 0
    ensures Sub(t, held[|held| - 1]) && held[|held| - 1] != Nil
  {
  }

  /** A leaf brings no kids, and weighs at least itself. */
  lemma PresentLeaf(t: Tree)
    ensures !t.Quad? ==> PresentKids(t) == [] && Weight(PresentKids(t)) == 0
    ensures Size(t) >= 1
  {
  }

  /** visitAfter's first loop: list the nodes so that popping the list visits kids before parents.
      Every array node and every chain head is listed, and none twice. */
  method PostOrder(q: Quadtree) returns (order: seq<Node>, ghost trees: seq<Tree>)
    requires q.Valid()
    ensures Listed(q.tree, order, trees) && NoneTwice(order)
    ensures forall s :: s in trees <==> Sub(q.tree, s) && s != Nil
  {
    hide *;
    q.ValidParts();
    KindOf(q.tree);
    order, trees := [], [];
    var stack: seq<Node> := PresentNode(q.root);
    ghost var held := Present(q.tree);
    PresentStart(q.tree, q.root);
    ApartStart(q.tree);
    while |stack| > 0
      invariant |held| == |stack| && forall k :: 0 <= k < |held| ==> stack[k] == Root(held[k])
      invariant Listing(q.tree, held, order, trees) && Apart(held, order)
      modifies {}
      decreases Weight(held)
    {
      var n := |stack| - 1;
      var h := stack[n];
      ghost var top := held[n];
      ListingTop(q.tree, held, order, trees);
      SubParts(q.tree, top);
      KindOf(top);
      ListingStep(q.tree, held, order, trees);
      ApartStep(held, order);
      PresentLeaf(top);
      WeightTop(held);
      WeightConcat(held[..n], PresentKids(top));
      if |h.child| != 0 {
        PresentRoots(top);
        PresentWeight(top);
        stack := stack[..n] + PresentNodes(h.child);
      } else {
        stack := stack[..n];
      }
      order := order + [h];
      held, trees := held[..n] + PresentKids(top), trees + [top];
    }
    assert held == [];
    ListingEnds(q.tree, order, trees);
    ApartEnds(held, order);
    forall s ensures s in trees <==> Sub(q.tree, s) && s != Nil {
      ListedAll(q.tree, order, trees, s);
    }
  }

  // ---------------------------------------------------------------- the collision radii

  function Max(a: real, b: real): real {
    if b > a then b else a
  }

  /** What the collision pass leaves in a node: the largest radius of the chain heads below it,
      counted from zero at array nodes. */
  ghost function MaxRadius(t: Tree, rad: nat -> real): real {
    match t
    case Nil => 0.0
    case Leaf(_, pts) => if |pts| > 0 then rad(pts[0].id) else 0.0
    case Quad(_, k0, k1, k2, k3) =>
      Max(Max(Max(Max(0.0, MaxRadius(k0, rad)), MaxRadius(k1, rad)), MaxRadius(k2, rad)), MaxRadius(k3, rad))
  }

  /** The running maximum after the first `x` kids. */
  ghost function MaxOfFirst(t: Tree, x: nat, rad: nat -> real): real
    requires t.Quad? && x <= 4
  {
    if x == 0 then 0.0 else Max(MaxOfFirst(t, x - 1, rad), MaxRadius(Kid(t, x - 1), rad))
  }

  lemma MaxOfAll(t: Tree, rad: nat -> real)
    requires t.Quad?
    ensures MaxOfFirst(t, 4, rad) == MaxRadius(t, rad)
  {
    assert MaxOfFirst(t, 1, rad) == Max(0.0, MaxRadius(t.k0, rad));
    assert MaxOfFirst(t, 2, rad) == Max(MaxOfFirst(t, 1, rad), MaxRadius(t.k1, rad));
    assert MaxOfFirst(t, 3, rad) == Max(MaxOfFirst(t, 2, rad), MaxRadius(t.k2, rad));
  }

  /** Each chain's head: the only datum of a chain the collision force looks at. */
  ghost function Heads(t: Tree): multiset<Point> {
    match t
    case Nil => multiset{}
    case Leaf(_, pts) => if |pts| > 0 then multiset{pts[0]} else multiset{}
    case Quad(_, k0, k1, k2, k3) => Heads(k0) + Heads(k1) + Heads(k2) + Heads(k3)
  }

  lemma HeadsOfKids(t: Tree, p: Point)
    requires t.Quad?
    ensures p in Heads(t) <==> p in Heads(t.k0) || p in Heads(t.k1) || p in Heads(t.k2) || p in Heads(t.k3)
  {
  }

  /** The annotation bounds every chain head below, ... */
  lemma {:induction false} MaxRadiusBounds(t: Tree, rad: nat -> real, p: Point)
    requires p in Heads(t)
    ensures rad(p.id) <= MaxRadius(t, rad)
  {
    if t.Quad? {
      HeadsOfKids(t, p);
      if p in Heads(t.k0) {
        MaxRadiusBounds(t.k0, rad, p);
      } else if p in Heads(t.k1) {
        MaxRadiusBounds(t.k1, rad, p);
      } else if p in Heads(t.k2) {
        MaxRadiusBounds(t.k2, rad, p);
      } else {
        MaxRadiusBounds(t.k3, rad, p);
      }
    }
  }

  /** ... and is zero or the radius of one of them. */
  lemma {:induction false} MaxRadiusAttained(t: Tree, rad: nat -> real) returns (p: Point)
    ensures MaxRadius(t, rad) != 0.0 ==> p in Heads(t) && rad(p.id) == MaxRadius(t, rad)
  {
    p := Point(0, 0.0, 0.0);
    if t.Leaf? && |t.pts| > 0 {
      p := t.pts[0];
    } else if t.Quad? {
      var m := MaxRadius(t, rad);
      var k := if m == MaxRadius(t.k0, rad) then t.k0 else if m == MaxRadius(t.k1, rad) then t.k1
               else if m == MaxRadius(t.k2, rad) then t.k2 else t.k3;
      p := MaxRadiusAttained(k, rad);
      HeadsOfKids(t, p);
    }
  }

  /** Every node below carries its annotation. */
  ghost predicate RadiiSet(t: Tree, rad: nat -> real)
    reads NodesOf(t)
  {
    match t
    case Nil => true
    case Leaf(chain, _) => |chain| > 0 ==> chain[0].radius == MaxRadius(t, rad)
    case Quad(n, k0, k1, k2, k3) =>
      n.radius == MaxRadius(t, rad) && RadiiSet(k0, rad) && RadiiSet(k1, rad) && RadiiSet(k2, rad) && RadiiSet(k3, rad)
  }

  lemma {:induction false} AllRadii(t: Tree, order: seq<Node>, trees: seq<Tree>, k: nat, rad: nat -> real)
    requires Listed(t, order, trees) && k < |trees|
    requires forall j :: 0 <= j < |trees| ==> order[j].radius == MaxRadius(trees[j], rad)
    ensures RadiiSet(trees[k], rad)
    decreases |trees| - k
  {
    var s := trees[k];
    if s.Quad? {
      forall q: Slot
        ensures RadiiSet(Kid(s, q), rad)
      {
        if Kid(s, q) != Nil {
          var j :| k < j < |trees| && trees[j] == Kid(s, q);
          AllRadii(t, order, trees, j, rad);
        }
      }
      assert Kid(s, 0) == s.k0 && Kid(s, 1) == s.k1 && Kid(s, 2) == s.k2 && Kid(s, 3) == s.k3;
    }
  }

  lemma ListedAt(t: Tree, order: seq<Node>, trees: seq<Tree>, i: nat)
    requires Listed(t, order, trees) && Linked(t) && Distinct(t) && i < |trees|
    ensures |order| == |trees| && Root(trees[i]) == order[i]
    ensures Linked(trees[i]) && order[i] in NodesOf(t)
    ensures trees[i].Quad? ==> forall q: Slot :: Root(Kid(trees[i], q)) != order[i]
    ensures forall j :: 0 <= j < |trees| && order[j] == order[i] ==> trees[j] == trees[i]
    ensures forall q: Slot :: trees[i].Quad? && Kid(trees[i], q) != Nil ==>
              exists j :: i < j < |trees| && trees[j] == Kid(trees[i], q) && order[j] == Root(Kid(trees[i], q))
  {
    SubParts(t, trees[i]);
    RootInNodes(trees[i]);
    if trees[i].Quad? {
      forall q: Slot | Root(Kid(trees[i], q)) != null
        ensures Root(Kid(trees[i], q)) != order[i]
      {
        assert Linked(Kid(trees[i], q));
        RootInNodes(Kid(trees[i], q));
      }
    }
    forall j | 0 <= j < |trees| && order[j] == order[i]
      ensures trees[j] == trees[i]
    {
      SameRoot(t, trees[i], trees[j]);
    }
  }

  lemma MaxStep(t: Tree, x: nat, rad: nat -> real)
    requires t.Quad? && x < 4
    ensures MaxOfFirst(t, x + 1, rad) == Max(MaxOfFirst(t, x, rad), MaxRadius(Kid(t, x), rad))
    ensures MaxOfFirst(t, 0, rad) == 0.0 && MaxOfFirst(t, x, rad) >= 0.0
    ensures Kid(t, x) == Nil ==> MaxRadius(Kid(t, x), rad) == 0.0
  {
    MaxNonNegative(t, x, rad);
  }

  lemma {:induction false} MaxNonNegative(t: Tree, x: nat, rad: nat -> real)
    requires t.Quad? && x <= 4
    ensures MaxOfFirst(t, x, rad) >= 0.0
  {
    if x > 0 {
      MaxNonNegative(t, x - 1, rad);
    }
  }

  lemma MaxLeaf(t: Tree, rad: nat -> real)
    requires t.Leaf? && |t.pts| > 0
    ensures MaxRadius(t, rad) == rad(t.pts[0].id)
  {
  }

  /** forceCollide's callback on one node, its kids being annotated already. */
  method AnnotateRadius(a: Node, ghost t: Tree, rad: nat -> real)
    requires Linked(t) && t != Nil && a == Root(t)
    requires t.Quad? ==> forall x: Slot :: Kid(t, x) != Nil ==>
               Root(Kid(t, x)) != null && Root(Kid(t, x)) != a && Root(Kid(t, x)).radius == MaxRadius(Kid(t, x), rad)
    modifies a`radius
    ensures a.radius == MaxRadius(t, rad)
  {
    hide *;
    KindOf(t);
    if a.data.Some? {
      DataIsLeaf(t);
      MaxLeaf(t, rad);
      a.radius := rad(a.data.value.id);
    } else {
      DataIsLeaf(t);
      a.radius := 0.0;
      MaxStep(t, 0, rad);
      for x := 0 to 4
        invariant a.radius == MaxOfFirst(t, x, rad) && Linked(t)
        invariant forall z: Slot :: Kid(t, z) != Nil ==>
                    Root(Kid(t, z)) != null && Root(Kid(t, z)) != a &&
                      Root(Kid(t, z)).radius == MaxRadius(Kid(t, z), rad)
      {
        MaxStep(t, x, rad);
        KidPointer(t, x);
        if a.child[x] != null && a.child[x].radius > a.radius {
          a.radius := a.child[x].radius;
        }
        MaxIs(MaxOfFirst(t, x, rad), MaxRadius(Kid(t, x), rad));
      }
      MaxOfAll(t, rad);
    }
  }

  lemma MaxIs(a: real, b: real)
    ensures Max(a, b) == if b > a then b else a
  {
  }

  lemma DataIsLeaf(t: Tree)
    requires Linked(t) && t != Nil
    ensures Root(t) != null && (Root(t).data.Some? <==> t.Leaf?) && (Root(t).data == None <==> t.Quad?)
  {
  }

  /** forceCollide's post-order pass over the whole tree. */
  method AnnotateRadii(q: Quadtree, rad: nat -> real)
    requires q.Valid()
    modifies q.Repr`radius
    ensures q.Valid() && RadiiSet(q.tree, rad)
  {
    hide *;
    q.ValidParts();
    var order, trees := PostOrder(q);
    var i := |order|;
    ListedLength(q.tree, order, trees);
    while i > 0
      invariant 0 <= i <= |order| == |trees|
      invariant forall j :: i <= j < |trees| ==> order[j].radius == MaxRadius(trees[j], rad)
      invariant q.Valid()
    {
      i := i - 1;
      ListedAt(q.tree, order, trees, i);
      NotNil(trees[i]);
      AnnotateRadius(order[i], trees[i], rad);
    }
    AllRadiiSet(q.tree, order, trees, rad);
  }

  lemma ListedLength(t: Tree, order: seq<Node>, trees: seq<Tree>)
    requires Listed(t, order, trees)
    ensures |order| == |trees|
  {
  }

  lemma NotNil(t: Tree)
    requires Root(t) != null
    ensures t != Nil
  {
  }

  lemma AllRadiiSet(t: Tree, order: seq<Node>, trees: seq<Tree>, rad: nat -> real)
    requires Listed(t, order, trees)
    requires forall j :: 0 <= j < |trees| ==> order[j].radius == MaxRadius(trees[j], rad)
    ensures RadiiSet(t, rad)
  {
    if t != Nil {
      AllRadii(t, order, trees, 0, rad);
    }
  }

  // ---------------------------------------------------------------- the collision visit

  /** The pair test on a chain head: the distance is below the sum of the radii. The test squares
      both, so it also holds within the size of a negative sum. */
  ghost predicate Collides(x: real, y: real, s: real, p: Point, rad: nat -> real) {
    Dist2(x, y, p) < (s + rad(p.id)) * (s + rad(p.id))
  }

  /** The reach of the pair test stays within the reach the visit allows an array node. It does
      whenever the sum of the radii is not negative. */
  predicate SafeRadii(s: real, r: real) {
    Abs(s + r) <= s + Max(0.0, r)
  }

  lemma SumSafe(s: real, r: real)
    requires s + r >= 0.0
    ensures SafeRadii(s, r)
  {
  }

  predicate OutOfReach(x: real, y: real, m: real, b: Box) {
    b.x0 > x + m || b.x1 < x - m || b.y0 > y + m || b.y1 < y - m
  }

  lemma {:induction false} HeadsInCell(t: Tree, b: Box, p: Point)
    requires Celled(t, b) && p in Heads(t)
    ensures b.Contains(p.x, p.y)
  {
    if t.Quad? {
      HeadsOfKids(t, p);
      var q: Slot := if p in Heads(t.k0) then 0 else if p in Heads(t.k1) then 1 else if p in Heads(t.k2) then 2 else 3;
      HeadsInCell(Kid(t, q), b.Quadrant(q), p);
      QuadrantInside(b, q, p.x, p.y);
    }
  }

  lemma {:induction false} QuadRadius(t: Tree, rad: nat -> real)
    requires t.Quad?
    ensures MaxRadius(t, rad) >= 0.0
  {
    MaxOfAll(t, rad);
    MaxNonNegative(t, 4, rad);
  }

  /** Within `w` of (x, y) along both axes. */
  ghost predicate Near(x: real, y: real, w: real, p: Point) {
    x - w <= p.x <= x + w && y - w <= p.y <= y + w
  }

  /** An array node out of reach of its own annotation hides no head that is nearer than the visit
      allows for the head's own radius. */
  lemma ReachPrunes(t: Tree, b: Box, x: real, y: real, s: real, rad: nat -> real, w: real, p: Point)
    requires t.Quad? && Celled(t, b) && OutOfReach(x, y, s + MaxRadius(t, rad), b)
    requires p in Heads(t) && w <= s + Max(0.0, rad(p.id))
    ensures !Near(x, y, w, p)
  {
    hide Celled, Heads, MaxRadius;
    HeadsInCell(t, b, p);
    MaxRadiusBounds(t, rad, p);
    QuadRadius(t, rad);
  }

  /** The heads a visit hands on: those below no array node that it finds out of reach. */
  ghost function Visited(t: Tree, b: Box, x: real, y: real, s: real, rad: nat -> real): multiset<Point> {
    match t
    case Nil => multiset{}
    case Leaf(_, _) => Heads(t)
    case Quad(_, k0, k1, k2, k3) =>
      if OutOfReach(x, y, s + MaxRadius(t, rad), b) then multiset{}
      else Visited(k3, b.Quadrant(3), x, y, s, rad) + Visited(k2, b.Quadrant(2), x, y, s, rad)
           + Visited(k1, b.Quadrant(1), x, y, s, rad) + Visited(k0, b.Quadrant(0), x, y, s, rad)
  }

  /** No head is handed on twice, ... */
  lemma {:induction false} VisitedOnce(t: Tree, b: Box, x: real, y: real, s: real, rad: nat -> real)
    ensures Visited(t, b, x, y, s, rad) <= Heads(t)
  {
    hide OutOfReach, MaxRadius;
    if t.Quad? {
      VisitedOnce(t.k0, b.Quadrant(0), x, y, s, rad);
      VisitedOnce(t.k1, b.Quadrant(1), x, y, s, rad);
      VisitedOnce(t.k2, b.Quadrant(2), x, y, s, rad);
      VisitedOnce(t.k3, b.Quadrant(3), x, y, s, rad);
    }
  }

  lemma VisitedKid(t: Tree, q: Slot, b: Box, x: real, y: real, s: real, rad: nat -> real, p: Point)
    requires t.Quad? && !OutOfReach(x, y, s + MaxRadius(t, rad), b)
    requires p in Visited(Kid(t, q), b.Quadrant(q), x, y, s, rad)
    ensures p in Visited(t, b, x, y, s, rad)
  {
    hide OutOfReach, MaxRadius;
    assert q == 0 || q == 1 || q == 2 || q == 3;
  }

  lemma VisitedLeaf(t: Tree, b: Box, x: real, y: real, s: real, rad: nat -> real)
    requires !t.Quad?
    ensures Visited(t, b, x, y, s, rad) == Heads(t)
  {
  }

  lemma KidCell(t: Tree, b: Box, q: Slot)
    requires t.Quad? && Celled(t, b)
    ensures Celled(Kid(t, q), b.Quadrant(q))
  {
  }

  /** ... and every head as near as the visit allows is. */
  lemma {:induction false} VisitedNear(t: Tree, b: Box, x: real, y: real, s: real, rad: nat -> real, w: real, p: Point)
    requires Celled(t, b) && p in Heads(t) && Near(x, y, w, p) && w <= s + Max(0.0, rad(p.id))
    ensures p in Visited(t, b, x, y, s, rad)
  {
    hide *;
    if !t.Quad? {
      VisitedLeaf(t, b, x, y, s, rad);
    } else if OutOfReach(x, y, s + MaxRadius(t, rad), b) {
      ReachPrunes(t, b, x, y, s, rad, w, p);
      assert false;
    } else {
      var q := HeadIn(t, p);
      KidCell(t, b, q);
      VisitedNear(Kid(t, q), b.Quadrant(q), x, y, s, rad, w, p);
      VisitedKid(t, q, b, x, y, s, rad, p);
    }
  }

  /** So a head of a safe radius is handed on when it collides, ... */
  lemma VisitedFinds(t: Tree, b: Box, x: real, y: real, s: real, rad: nat -> real, p: Point)
    requires Celled(t, b) && p in Heads(t) && Collides(x, y, s, p, rad) && SafeRadii(s, rad(p.id))
    ensures p in Visited(t, b, x, y, s, rad)
  {
    hide Celled, Heads, Visited, Dist2;
    var w := Abs(s + rad(p.id));
    NearIsInWindow(x, y, p, (s + rad(p.id)) * (s + rad(p.id)), w);
    VisitedNear(t, b, x, y, s, rad, w, p);
  }

  /** ... and one that the pass has moved to `now`, by at most `d` along each axis, when `now` is
      nearer by `d` than the visit allows. */
  lemma VisitedMoved(t: Tree, b: Box, x: real, y: real, s: real, rad: nat -> real, p: Point, now: Point, d: real,
                     w: real)
    requires Celled(t, b) && p in Heads(t) && Near(p.x, p.y, d, now)
    requires w >= 0.0 && Dist2(x, y, now) < w * w && w + d <= s + Max(0.0, rad(p.id))
    ensures p in Visited(t, b, x, y, s, rad)
  {
    hide Celled, Heads, Visited, Dist2;
    NearIsInWindow(x, y, now, w * w, w);
    VisitedNear(t, b, x, y, s, rad, w + d, p);
  }

  /** What the stack still brings. */
  ghost function VisitedHeld(stack: seq<Frame>, held: seq<Tree>, x: real, y: real, s: real, rad: nat -> real)
    : multiset<Point>
    requires |stack| == |held|
  {
    if held == [] then multiset{}
    else VisitedHeld(stack[..|held| - 1], held[..|held| - 1], x, y, s, rad)
         + Visited(held[|held| - 1], stack[|held| - 1].box, x, y, s, rad)
  }

  ghost predicate RadiiHeld(held: seq<Tree>, rad: nat -> real)
    reads set k, n | 0 <= k < |held| && n in NodesOf(held[k]) :: n
  {
    forall k :: 0 <= k < |held| ==> RadiiSet(held[k], rad)
  }

  ghost function VisitKids(t: Tree): seq<Tree>
    requires t.Quad?
  {
    Present(t.k3) + Present(t.k2) + Present(t.k1) + Present(t.k0)
  }

  function PresentFrame(n: Node?, b: Box): seq<Frame> {
    if n == null then [] else [Frame(n, b)]
  }

  /** The kids a visit pushes, so that slot 0 is popped first. */
  function VisitFrames(ch: seq<Node?>, b: Box): seq<Frame>
    requires |ch| == 4
  {
    PresentFrame(ch[3], b.Quadrant(3)) + PresentFrame(ch[2], b.Quadrant(2))
    + PresentFrame(ch[1], b.Quadrant(1)) + PresentFrame(ch[0], b.Quadrant(0))
  }

  lemma VisitedUnfold(f: seq<Frame>, h: seq<Tree>, x: real, y: real, s: real, rad: nat -> real)
    requires |f| == |h|
    ensures h == [] ==> VisitedHeld(f, h, x, y, s, rad) == multiset{}
    ensures h != [] ==> var n := |h| - 1;
              VisitedHeld(f, h, x, y, s, rad)
              == VisitedHeld(f[..n], h[..n], x, y, s, rad) + Visited(h[n], f[n].box, x, y, s, rad)
  {
    hide Visited;
  }

  lemma {:induction false} VisitedConcat(f: seq<Frame>, h: seq<Tree>, f': seq<Frame>, h': seq<Tree>, x: real, y: real,
                                         s: real, rad: nat -> real)
    requires |f| == |h| && |f'| == |h'|
    ensures VisitedHeld(f + f', h + h', x, y, s, rad)
         == VisitedHeld(f, h, x, y, s, rad) + VisitedHeld(f', h', x, y, s, rad)
  {
    hide *;
    VisitedUnfold(f', h', x, y, s, rad);
    if h' == [] {
      assert h + h' == h && f + f' == f;
    } else {
      var n := |h'| - 1;
      VisitedConcat(f, h, f'[..n], h'[..n], x, y, s, rad);
      VisitedUnfold(f + f', h + h', x, y, s, rad);
      assert (h + h')[..|h| + n] == h + h'[..n] && (f + f')[..|h| + n] == f + f'[..n];
    }
  }

  lemma VisitedPresent(t: Tree, n: Node?, b: Box, x: real, y: real, s: real, rad: nat -> real)
    requires n == Root(t) && (n == null <==> t == Nil)
    ensures |PresentFrame(n, b)| == |Present(t)|
    ensures VisitedHeld(PresentFrame(n, b), Present(t), x, y, s, rad) == Visited(t, b, x, y, s, rad)
  {
    assert [t][..0] == [] && [Frame(n, b)][..0] == [];
  }

  lemma VisitedPieces(t: Tree, b: Box, x: real, y: real, s: real, rad: nat -> real)
    requires t.Quad? && !OutOfReach(x, y, s + MaxRadius(t, rad), b)
    ensures Visited(t, b, x, y, s, rad) ==
      Visited(Kid(t, 3), b.Quadrant(3), x, y, s, rad) + Visited(Kid(t, 2), b.Quadrant(2), x, y, s, rad)
      + Visited(Kid(t, 1), b.Quadrant(1), x, y, s, rad) + Visited(Kid(t, 0), b.Quadrant(0), x, y, s, rad)
    ensures VisitKids(t) == Present(Kid(t, 3)) + Present(Kid(t, 2)) + Present(Kid(t, 1)) + Present(Kid(t, 0))
  {
    hide OutOfReach, MaxRadius, Present;
  }

  lemma VisitFramesIs(t: Tree, b: Box)
    requires t.Quad? && Linked(t)
    ensures |t.node.child| == 4
    ensures var ch := t.node.child;
            VisitFrames(ch, b) == PresentFrame(ch[3], b.Quadrant(3)) + PresentFrame(ch[2], b.Quadrant(2))
                                  + PresentFrame(ch[1], b.Quadrant(1)) + PresentFrame(ch[0], b.Quadrant(0))
  {
    hide PresentFrame;
  }

  lemma LinkedKid(t: Tree, x: Slot)
    requires t.Quad? && Linked(t)
    ensures Linked(Kid(t, x))
  {
  }

  lemma KidPresent(t: Tree, q: Slot, b: Box, x: real, y: real, s: real, rad: nat -> real)
    requires t.Quad? && Linked(t)
    ensures |t.node.child| == 4
    ensures var f, k := PresentFrame(t.node.child[q], b.Quadrant(q)), Present(Kid(t, q));
            |f| == |k| && VisitedHeld(f, k, x, y, s, rad) == Visited(Kid(t, q), b.Quadrant(q), x, y, s, rad)
  {
    hide *;
    KidPointer(t, q);
    LinkedKid(t, q);
    KindOf(Kid(t, q));
    VisitedPresent(Kid(t, q), t.node.child[q], b.Quadrant(q), x, y, s, rad);
  }

  /** An array node within reach brings what its kids bring. */
  lemma VisitedOpened(t: Tree, b: Box, x: real, y: real, s: real, rad: nat -> real)
    requires t.Quad? && Linked(t) && !OutOfReach(x, y, s + MaxRadius(t, rad), b)
    ensures |t.node.child| == 4 && |VisitFrames(t.node.child, b)| == |VisitKids(t)|
    ensures VisitedHeld(VisitFrames(t.node.child, b), VisitKids(t), x, y, s, rad) == Visited(t, b, x, y, s, rad)
  {
    hide *;
    VisitFramesIs(t, b);
    VisitedPieces(t, b, x, y, s, rad);
    KidPresent(t, 0, b, x, y, s, rad);
    KidPresent(t, 1, b, x, y, s, rad);
    KidPresent(t, 2, b, x, y, s, rad);
    KidPresent(t, 3, b, x, y, s, rad);
    var ch := t.node.child;
    var f0, f1, f2, f3 := PresentFrame(ch[0], b.Quadrant(0)), PresentFrame(ch[1], b.Quadrant(1)),
      PresentFrame(ch[2], b.Quadrant(2)), PresentFrame(ch[3], b.Quadrant(3));
    var k0, k1, k2, k3 := Present(Kid(t, 0)), Present(Kid(t, 1)), Present(Kid(t, 2)), Present(Kid(t, 3));
    VisitedConcat(f3, k3, f2, k2, x, y, s, rad);
    VisitedConcat(f3 + f2, k3 + k2, f1, k1, x, y, s, rad);
    VisitedConcat(f3 + f2 + f1, k3 + k2 + k1, f0, k0, x, y, s, rad);
  }

  lemma VisitWeight(t: Tree)
    requires t.Quad?
    ensures Weight(VisitKids(t)) < Size(t)
  {
    WeightPresent(t.k0);
    WeightPresent(t.k1);
    WeightPresent(t.k2);
    WeightPresent(t.k3);
    WeightConcat(Present(t.k3), Present(t.k2));
    WeightConcat(Present(t.k3) + Present(t.k2), Present(t.k1));
    WeightConcat(Present(t.k3) + Present(t.k2) + Present(t.k1), Present(t.k0));
  }

  lemma {:induction false} AlignedConcat(f: seq<Frame>, h: seq<Tree>, f': seq<Frame>, h': seq<Tree>)
    requires Aligned(f, h) && Aligned(f', h')
    ensures Aligned(f + f', h + h')
  {
  }

  lemma AlignedPresent(t: Tree, q: Slot, b: Box)
    requires t.Quad? && Linked(t) && Celled(t, b)
    ensures |t.node.child| == 4
    ensures Aligned(PresentFrame(t.node.child[q], b.Quadrant(q)), Present(Kid(t, q)))
  {
    KindOf(Kid(t, q));
  }

  lemma AlignedVisit(t: Tree, b: Box)
    requires t.Quad? && Linked(t) && Celled(t, b)
    ensures |t.node.child| == 4 && Aligned(VisitFrames(t.node.child, b), VisitKids(t))
  {
    var ch := t.node.child;
    var f, k := seq(4, i requires 0 <= i < 4 => PresentFrame(ch[i], b.Quadrant(i))),
      seq(4, i requires 0 <= i < 4 => Present(Kid(t, i)));
    AlignedPresent(t, 0, b);
    AlignedPresent(t, 1, b);
    AlignedPresent(t, 2, b);
    AlignedPresent(t, 3, b);
    assert Kid(t, 0) == t.k0 && Kid(t, 1) == t.k1 && Kid(t, 2) == t.k2 && Kid(t, 3) == t.k3;
    hide Aligned, Linked, Celled;
    AlignedConcat(f[3], k[3], f[2], k[2]);
    AlignedConcat(f[3] + f[2], k[3] + k[2], f[1], k[1]);
    AlignedConcat(f[3] + f[2] + f[1], k[3] + k[2] + k[1], f[0], k[0]);
  }

  lemma RadiiPush(held: seq<Tree>, rad: nat -> real)
    requires RadiiHeld(held, rad) && |held| > 0
    ensures RadiiHeld(held[..|held| - 1], rad) && RadiiSet(held[|held| - 1], rad)
    ensures held[|held| - 1].Quad? ==> RadiiHeld(held[..|held| - 1] + VisitKids(held[|held| - 1]), rad)
  {
    var top := held[|held| - 1];
    if top.Quad? {
      var after := held[..|held| - 1] + VisitKids(top);
      forall k | 0 <= k < |after|
        ensures RadiiSet(after[k], rad)
      {
        if k >= |held| - 1 {
          assert after[k] in VisitKids(top);
        }
      }
    }
  }

  lemma RadiusRead(t: Tree, rad: nat -> real)
    requires RadiiSet(t, rad) && Linked(t) && t != Nil
    ensures Root(t) != null && Root(t).radius == MaxRadius(t, rad)
  {
  }

  /** The whole tree is visited: what the stack brings and what was handed on make up the total. */
  ghost predicate Visiting(total: multiset<Point>, stack: seq<Frame>, held: seq<Tree>, hits: seq<Point>, x: real,
                           y: real, s: real, rad: nat -> real)
  {
    |stack| == |held| && VisitedHeld(stack, held, x, y, s, rad) + multiset(hits) == total
  }

  /** The popped subtree is out of reach, a leaf whose head is handed on, or opened up. */
  lemma VisitingStep(total: multiset<Point>, stack: seq<Frame>, held: seq<Tree>, hits: seq<Point>, x: real, y: real,
                     s: real, rad: nat -> real)
    requires Visiting(total, stack, held, hits, x, y, s, rad) && |held| > 0
    ensures var n, top, b := |held| - 1, held[|held| - 1], stack[|held| - 1].box;
            && (top.Quad? && OutOfReach(x, y, s + MaxRadius(top, rad), b) ==>
                  Visiting(total, stack[..n], held[..n], hits, x, y, s, rad))
            && (top.Leaf? && |top.pts| > 0 ==>
                  Visiting(total, stack[..n], held[..n], hits + [top.pts[0]], x, y, s, rad))
  {
    hide OutOfReach, MaxRadius;
    var n, top := |held| - 1, held[|held| - 1];
    if top.Leaf? && |top.pts| > 0 {
      assert multiset(hits + [top.pts[0]]) == multiset(hits) + multiset{top.pts[0]};
    }
  }

  lemma VisitingOpen(total: multiset<Point>, stack: seq<Frame>, held: seq<Tree>, hits: seq<Point>, x: real, y: real,
                     s: real, rad: nat -> real)
    requires Visiting(total, stack, held, hits, x, y, s, rad) && |held| > 0
    requires held[|held| - 1].Quad? && Linked(held[|held| - 1])
    requires !OutOfReach(x, y, s + MaxRadius(held[|held| - 1], rad), stack[|held| - 1].box)
    ensures var n, top, b := |held| - 1, held[|held| - 1], stack[|held| - 1].box;
            && |top.node.child| == 4
            && Visiting(total, stack[..n] + VisitFrames(top.node.child, b), held[..n] + VisitKids(top), hits, x, y, s,
                        rad)
  {
    hide Visited, VisitedHeld, OutOfReach, MaxRadius, Linked, VisitKids, VisitFrames;
    var n, top, b := |held| - 1, held[|held| - 1], stack[|held| - 1].box;
    VisitedOpened(top, b, x, y, s, rad);
    VisitedConcat(stack[..n], held[..n], VisitFrames(top.node.child, b), VisitKids(top), x, y, s, rad);
    VisitedUnfold(stack, held, x, y, s, rad);
  }

  lemma VisitingStart(t: Tree, n: Node?, b: Box, x: real, y: real, s: real, rad: nat -> real)
    requires n == Root(t) && (n == null <==> t == Nil)
    ensures Visiting(Visited(t, b, x, y, s, rad), PresentFrame(n, b), Present(t), [], x, y, s, rad)
  {
    hide *;
    VisitedPresent(t, n, b, x, y, s, rad);
    VisitingWhole(Visited(t, b, x, y, s, rad), PresentFrame(n, b), Present(t), x, y, s, rad);
  }

  lemma VisitingWhole(total: multiset<Point>, stack: seq<Frame>, held: seq<Tree>, x: real, y: real, s: real,
                      rad: nat -> real)
    requires |stack| == |held| && VisitedHeld(stack, held, x, y, s, rad) == total
    ensures Visiting(total, stack, held, [], x, y, s, rad)
  {
    hide VisitedHeld;
  }

  lemma VisitingEnds(total: multiset<Point>, hits: seq<Point>, x: real, y: real, s: real, rad: nat -> real)
    requires Visiting(total, [], [], hits, x, y, s, rad)
    ensures multiset(hits) == total
  {
    hide Visited;
  }

  /** forceCollide's visit for one circle of radius `s` at (x, y): the chain heads it hands to the
      pair test. None is handed on twice; every head of a safe radius that collides is. */
  method Reach(q: Quadtree, x: real, y: real, s: real, ghost rad: nat -> real) returns (hits: seq<Point>)
    requires q.Valid() && RadiiSet(q.tree, rad)
    ensures q.extent.Some? ==> multiset(hits) == Visited(q.tree, q.extent.value, x, y, s, rad)
    ensures multiset(hits) <= Heads(q.tree)
    ensures forall p :: p in Heads(q.tree) && Collides(x, y, s, p, rad) && SafeRadii(s, rad(p.id)) ==> p in hits
  {
    hide *;
    q.ValidParts();
    KindOf(q.tree);
    hits := [];
    if q.extent.None? {
      HeadsNil();
      return;
    }
    var stack := PresentFrame(q.root, q.extent.value);
    ghost var held := Present(q.tree);
    ghost var total := Visited(q.tree, q.extent.value, x, y, s, rad);
    VisitStart(q.tree, q.root, q.extent.value, rad);
    VisitingStart(q.tree, q.root, q.extent.value, x, y, s, rad);
    while |stack| > 0
      invariant |held| == |stack| && Aligned(stack, held) && RadiiHeld(held, rad)
      invariant Visiting(total, stack, held, hits, x, y, s, rad)
      invariant forall k :: 0 <= k < |held| ==> held[k] != Nil
      modifies {}
      decreases Weight(held)
    {
      var n := |stack| - 1;
      ghost var top, below := held[n], held[..n];
      AlignedPop(stack, held);
      RadiiPush(held, rad);
      KindOf(top);
      RadiusRead(top, rad);
      DataIsLeaf(top);
      WeightTop(held);
      PresentLeaf(top);
      VisitingStep(total, stack, held, hits, x, y, s, rad);
      var h, b := stack[n].node, stack[n].box;
      if h.data.Some? {
        hits := hits + [h.data.value];
        stack, held := stack[..n], below;
      } else if OutOfReach(x, y, s + h.radius, b) {
        stack, held := stack[..n], below;
      } else {
        AlignedVisit(top, b);
        AlignedConcat(stack[..n], below, VisitFrames(h.child, b), VisitKids(top));
        VisitWeight(top);
        WeightConcat(below, VisitKids(top));
        VisitNotNil(top);
        AlignedLength(VisitFrames(h.child, b), VisitKids(top));
        VisitingOpen(total, stack, held, hits, x, y, s, rad);
        stack, held := stack[..n] + VisitFrames(h.child, b), below + VisitKids(top);
      }
    }
    assert held == [] && stack == [];
    VisitingEnds(total, hits, x, y, s, rad);
    VisitedOnce(q.tree, q.extent.value, x, y, s, rad);
    forall p | p in Heads(q.tree) && Collides(x, y, s, p, rad) && SafeRadii(s, rad(p.id)) ensures p in hits {
      VisitedFinds(q.tree, q.extent.value, x, y, s, rad, p);
      assert p in multiset(hits);
    }
  }

  lemma AlignedLength(f: seq<Frame>, h: seq<Tree>)
    requires Aligned(f, h)
    ensures |f| == |h|
  {
  }

  lemma VisitNotNil(t: Tree)
    requires t.Quad?
    ensures forall k :: 0 <= k < |VisitKids(t)| ==> VisitKids(t)[k] != Nil
  {
  }

  lemma VisitStart(t: Tree, n: Node?, b: Box, rad: nat -> real)
    requires n == Root(t) && (n == null <==> t == Nil) && Linked(t) && Celled(t, b) && RadiiSet(t, rad)
    ensures Aligned(PresentFrame(n, b), Present(t)) && RadiiHeld(Present(t), rad)
    ensures |PresentFrame(n, b)| == |Present(t)|
    ensures forall k :: 0 <= k < |Present(t)| ==> Present(t)[k] != Nil
  {
  }

  // ---------------------------------------------------------------- heads and positions

  /** Each occupied position has exactly one head: coincident data behind it are invisible to the
      collision force. */
  lemma {:induction false} OneHeadPerPosition(t: Tree, b: Box, p: Point) returns (h: Point)
    requires Celled(t, b) && p in Points(t)
    ensures Heads(t)[h] == 1 && Coincident(h, p)
    ensures forall g :: g in Heads(t) && Coincident(g, p) ==> g == h
  {
    if t.Leaf? {
      h := t.pts[0];
    } else {
      var q := SlotWith(t, p);
      PointsInCell(Kid(t, q), b.Quadrant(q), p);
      h := OneHeadPerPosition(Kid(t, q), b.Quadrant(q), p);
      QuadrantInside(b, q, p.x, p.y);
      QuadrantsPartition(b, p.x, p.y, q);
      forall r: Slot, g | r != q && g in Heads(Kid(t, r))
        ensures !Coincident(g, p)
      {
        HeadsInCell(Kid(t, r), b.Quadrant(r), g);
        QuadrantsPartition(b, p.x, p.y, r);
      }
      HeadsSplit(t, q);
    }
  }

  /** No two stored data share a position, and none is stored twice. */
  ghost predicate Spread(ps: multiset<Point>) {
    forall p, q :: p in ps && q in ps && Coincident(p, q) ==> p == q && ps[p] == 1
  }

  lemma {:induction false} HeadsWithin(t: Tree, b: Box)
    requires Celled(t, b)
    ensures Heads(t) <= Points(t)
  {
    if t.Quad? {
      assert Celled(Kid(t, 0), b.Quadrant(0)) && Celled(Kid(t, 1), b.Quadrant(1));
      assert Celled(Kid(t, 2), b.Quadrant(2)) && Celled(Kid(t, 3), b.Quadrant(3));
      HeadsWithin(t.k0, b.Quadrant(0));
      HeadsWithin(t.k1, b.Quadrant(1));
      HeadsWithin(t.k2, b.Quadrant(2));
      HeadsWithin(t.k3, b.Quadrant(3));
    } else if t.Leaf? {
      assert t.pts[0] in multiset(t.pts);
    }
  }

  /** So the collision force sees every datum exactly when no two share a position. */
  lemma HeadsAreAllIff(t: Tree, b: Box)
    requires Celled(t, b)
    ensures Heads(t) == Points(t) <==> Spread(Points(t))
  {
    hide *;
    if Heads(t) == Points(t) {
      forall p, q | p in Points(t) && q in Points(t) && Coincident(p, q) ensures p == q && Points(t)[p] == 1 {
        var h := OneHeadPerPosition(t, b, p);
        CoincidentIs(p, p);
        CoincidentIs(p, q);
        CoincidentIs(q, p);
      }
      SpreadFrom(Points(t));
    }
    if Spread(Points(t)) {
      HeadsWithin(t, b);
      forall p ensures Heads(t)[p] == Points(t)[p] {
        if p in Points(t) {
          var h := OneHeadPerPosition(t, b, p);
          SpreadAt(Points(t), h, p);
        }
      }
    }
  }

  lemma SpreadAt(ps: multiset<Point>, p: Point, q: Point)
    requires Spread(ps) && p in ps && q in ps && Coincident(p, q)
    ensures p == q && ps[p] == 1
  {
  }

  lemma SpreadFrom(ps: multiset<Point>)
    requires forall p, q :: p in ps && q in ps && Coincident(p, q) ==> p == q && ps[p] == 1
    ensures Spread(ps)
  {
  }

  lemma CoincidentIs(p: Point, q: Point)
    ensures Coincident(p, q) <==> p.x == q.x && p.y == q.y
  {
  }

  lemma HeadsSplit(t: Tree, q: Slot)
    requires t.Quad?
    ensures Heads(t) == Heads(Kid(t, q)) + Heads(WithKid(t, q, Nil))
    ensures forall g :: g in Heads(WithKid(t, q, Nil)) ==> exists r: Slot :: r != q && g in Heads(Kid(t, r))
  {
    hide *;
    var rest := WithKid(t, q, Nil);
    HeadsApart(t, q);
    KidWithKid(t, q, Nil);
    HeadsNil();
    forall g | g in Heads(rest)
      ensures exists r: Slot :: r != q && g in Heads(Kid(t, r))
    {
      var r := HeadIn(rest, g);
      assert Kid(rest, r) == if r == q then Nil else Kid(t, r);
    }
  }

  lemma HeadsNil()
    ensures Heads(Nil) == multiset{}
  {
  }

  lemma HeadIn(t: Tree, p: Point) returns (r: Slot)
    requires t.Quad? && p in Heads(t)
    ensures p in Heads(Kid(t, r))
  {
    HeadsOfKids(t, p);
    r := if p in Heads(t.k0) then 0 else if p in Heads(t.k1) then 1 else if p in Heads(t.k2) then 2 else 3;
  }

  lemma HeadsApart(t: Tree, q: Slot)
    requires t.Quad?
    ensures Heads(t) == Heads(Kid(t, q)) + Heads(WithKid(t, q, Nil))
  {
    var h0, h1, h2, h3 := Heads(t.k0), Heads(t.k1), Heads(t.k2), Heads(t.k3);
    var none: multiset<Point> := multiset{};
    if q == 0 {
      assert h0 + h1 + h2 + h3 == h0 + (none + h1 + h2 + h3);
    } else if q == 1 {
      assert h0 + h1 + h2 + h3 == h1 + (h0 + none + h2 + h3);
    } else if q == 2 {
      assert h0 + h1 + h2 + h3 == h2 + (h0 + h1 + none + h3);
    } else {
      assert h0 + h1 + h2 + h3 == h3 + (h0 + h1 + h2 + none);
    }
  }
}
