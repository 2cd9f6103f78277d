/** Taking one datum out of a leaf chain, and the ancestor a removal may collapse onto. */
module QuadRemove {
  import opened Options
  import opened QuadGeometry
  import opened QuadShape

  /** The chain without its element at `k`. */
  ghost function Without(t: Tree, k: nat): Tree
    requires t.Leaf? && k < |t.chain| == |t.pts|
  {
    Leaf(t.chain[..k] + t.chain[k + 1..], t.pts[..k] + t.pts[k + 1..])
  }

  lemma WithoutPoints(t: Tree, k: nat)
    requires t.Leaf? && k < |t.chain| == |t.pts|
    ensures Points(Without(t, k)) == Points(t) - multiset{t.pts[k]}
  {
    assert t.pts == t.pts[..k] + [t.pts[k]] + t.pts[k + 1..];
    assert multiset(t.pts) == multiset(t.pts[..k]) + multiset{t.pts[k]} + multiset(t.pts[k + 1..]);
  }

  /** Where entry `i` of a sequence stood before entry `k` was cut out of it. */
  function Was(k: nat, i: nat): nat {
    if i < k then i else i + 1
  }

  lemma CutAt<T>(s: seq<T>, k: nat, i: nat)
    requires k < |s| && i < |s| - 1
    ensures (s[..k] + s[k + 1..])[i] == s[Was(k, i)]
  {
  }

  lemma CutHas<T>(s: seq<T>, k: nat, i: nat)
    requires k < |s| && i < |s| && i != k
    ensures s[i] in s[..k] + s[k + 1..]
  {
    CutAt(s, k, if i < k then i else i - 1);
  }

  lemma WithoutNodes(t: Tree, k: nat)
    requires t.Leaf? && k < |t.chain| == |t.pts| && Distinct(t)
    ensures NodesOf(Without(t, k)) == NodesOf(t) - {t.chain[k]}
  {
    var w := t.chain[..k] + t.chain[k + 1..];
    forall n | n in NodesOf(t) - {t.chain[k]}
      ensures n in w
    {
      var i: nat :| i < |t.chain| && t.chain[i] == n;
      CutHas(t.chain, k, i);
    }
    forall n | n in w
      ensures n in NodesOf(t) - {t.chain[k]}
    {
      var i: nat :| i < |w| && w[i] == n;
      CutAt(t.chain, k, i);
    }
  }

  lemma WithoutValues(t: Tree, k: nat, b: Box)
    requires t.Leaf? && k < |t.chain| == |t.pts| && Distinct(t) && Celled(t, b)
    ensures var w := Without(t, k);
            && NodesOf(w) == NodesOf(t) - {t.chain[k]} && Distinct(w)
            && (|t.chain| > 1 ==> Celled(w, b))
            && Points(w) == Points(t) - multiset{t.pts[k]} && Leaves(w) == Leaves(t) && Full(w)
  {
    WithoutNodes(t, k);
    WithoutPoints(t, k);
    hide NodesOf, Points;
  }

  /** Every link of the chain but the one into and the one out of position `k`. */
  ghost predicate LinkedBut(chain: seq<Node>, pts: seq<Point>, k: nat)
    reads set i | 0 <= i < |chain| :: chain[i]
  {
    && k < |chain| == |pts|
    && forall i :: 0 <= i < |chain| && i != k ==>
         && chain[i].child == [] && chain[i].data == Some(pts[i])
         && chain[i].next == After(chain, if i + 1 == k then k else i)
  }

  lemma AfterCut(chain: seq<Node>, k: nat, i: nat)
    requires k < |chain| && i < |chain| - 1
    ensures After(chain[..k] + chain[k + 1..], i) == After(chain, if Was(k, i) + 1 == k then k else Was(k, i))
  {
    if i + 1 < |chain| - 1 {
      CutAt(chain, k, i + 1);
    }
  }

  lemma LinkedWithout(t: Tree, k: nat)
    requires t.Leaf? && |t.chain| > 1 && LinkedBut(t.chain, t.pts, k)
    ensures Linked(Without(t, k))
  {
    var w := Without(t, k);
    hide After;
    forall i | 0 <= i < |w.chain|
      ensures w.chain[i].child == [] && w.chain[i].data == Some(w.pts[i]) && w.chain[i].next == After(w.chain, i)
    {
      CutAt(t.chain, k, i);
      CutAt(t.pts, k, i);
      AfterCut(t.chain, k, i);
    }
  }

  /** Unlink the leaf at `k` from its chain; `before` is the leaf that points at it, if any. */
  method Unlink(ghost t: Tree, ghost k: nat, before: Node?, e: Node)
    requires t.Leaf? && Linked(t) && Distinct(t) && k < |t.chain| && e == t.chain[k]
    requires if k == 0 then before == null else before == t.chain[k - 1]
    modifies e`next, (if before == null then {} else {before})`next
    ensures |t.chain| > 1 ==> Linked(Without(t, k))
  {
    var o := e.next;
    e.next := null;
    if before != null {
      before.next := o;
    }
    if |t.chain| > 1 {
      assert LinkedBut(t.chain, t.pts, k) by {
        forall i | 0 <= i < |t.chain| && i != k
          ensures t.chain[i].child == [] && t.chain[i].data == Some(t.pts[i])
          ensures t.chain[i].next == After(t.chain, if i + 1 == k then k else i)
        {
          assert t.chain[i] != t.chain[k];
        }
      }
      LinkedWithout(t, k);
    }
  }

  // ---------------------------------------------------------------- the only kid left

  function FirstOf(ch: seq<Node?>): Node?
    requires |ch| == 4
  {
    if ch[0] != null then ch[0] else if ch[1] != null then ch[1] else if ch[2] != null then ch[2] else ch[3]
  }

  function LastOf(ch: seq<Node?>): Node?
    requires |ch| == 4
  {
    if ch[3] != null then ch[3] else if ch[2] != null then ch[2] else if ch[1] != null then ch[1] else ch[0]
  }

  /** The source's test for collapsing: one kid, and it is a leaf. */
  predicate Collapses(ch: seq<Node?>)
    requires |ch| == 4
    reads FirstOf(ch)
  {
    var e := FirstOf(ch);
    e != null && e == LastOf(ch) && |e.child| == 0
  }

  ghost predicate OnlyKid(t: Tree, w: Slot) {
    t.Quad? && forall q: Slot :: q != w ==> Kid(t, q) == Nil
  }

  lemma RootsDiffer(t: Tree, q: Slot, r: Slot)
    requires t.Quad? && Linked(t) && Distinct(t) && q != r && Root(Kid(t, q)) != null
    ensures Root(Kid(t, q)) in NodesOf(Kid(t, q)) && Root(Kid(t, q)) != Root(Kid(t, r))
  {
    RootIsNode(Kid(t, q));
    if Root(Kid(t, r)) != null {
      RootIsNode(Kid(t, r));
    }
  }

  lemma RootIsNode(t: Tree)
    requires Linked(t) && Root(t) != null
    ensures Root(t) in NodesOf(t)
  {
  }

  /** The pointer test finds out whether one leaf is all that is left. */
  lemma CollapsesIffLoneLeaf(t: Tree) returns (w: Slot)
    requires t.Quad? && Linked(t) && Distinct(t) && Full'(t)
    ensures |t.node.child| == 4
    ensures Collapses(t.node.child) ==>
              OnlyKid(t, w) && Kid(t, w).Leaf? && Root(Kid(t, w)) == FirstOf(t.node.child)
    ensures !Collapses(t.node.child) && Leaves(t) >= 1 ==> Leaves(t) >= 2
  {
    var ch := t.node.child;
    w := if ch[0] != null then 0 else if ch[1] != null then 1 else if ch[2] != null then 2 else 3;
    var z: Slot := if ch[3] != null then 3 else if ch[2] != null then 2 else if ch[1] != null then 1 else 0;
    KidKinds(t);
    if ch[w] != null && w != z {
      RootsDiffer(t, w, z);
    }
  }

  /** The kids separate positions, whether or not the array node above them does. */
  ghost predicate Full'(t: Tree) {
    t.Quad? && forall q: Slot :: Full(Kid(t, q))
  }

  lemma KidKinds(t: Tree)
    requires t.Quad? && Linked(t) && Full'(t)
    ensures forall q: Slot :: t.node.child[q] == Root(Kid(t, q)) && (Root(Kid(t, q)) == null <==> Kid(t, q).Nil?)
    ensures forall q: Slot :: Kid(t, q).Leaf? ==> Kid(t, q).chain[0].child == [] && Leaves(Kid(t, q)) == 1
    ensures forall q: Slot :: Kid(t, q).Quad? ==> |Kid(t, q).node.child| == 4 && Leaves(Kid(t, q)) >= 2
    ensures Leaves(t) == Leaves(Kid(t, 0)) + Leaves(Kid(t, 1)) + Leaves(Kid(t, 2)) + Leaves(Kid(t, 3))
  {
    LeavesOfKids(t);
    hide *;
    forall q: Slot
      ensures t.node.child[q] == Root(Kid(t, q)) && (Root(Kid(t, q)) == null <==> Kid(t, q).Nil?)
      ensures Kid(t, q).Leaf? ==> Kid(t, q).chain[0].child == [] && Leaves(Kid(t, q)) == 1
      ensures Kid(t, q).Quad? ==> |Kid(t, q).node.child| == 4 && Leaves(Kid(t, q)) >= 2
    {
      KidSound(t, q);
      KindAt(Kid(t, q));
    }
  }

  lemma KidSound(t: Tree, q: Slot)
    requires t.Quad? && Linked(t) && Full'(t)
    ensures |t.node.child| == 4 && t.node.child[q] == Root(Kid(t, q)) && Linked(Kid(t, q)) && Full(Kid(t, q))
  {
  }

  lemma KindAt(t: Tree)
    requires Linked(t) && Full(t)
    ensures Root(t) == null <==> t.Nil?
    ensures t.Leaf? ==> |t.chain| > 0 && t.chain[0].child == [] && Leaves(t) == 1
    ensures t.Quad? ==> |t.node.child| == 4 && Leaves(t) >= 2
  {
  }

  lemma LeavesOfKids(t: Tree)
    requires t.Quad?
    ensures Leaves(t) == Leaves(Kid(t, 0)) + Leaves(Kid(t, 1)) + Leaves(Kid(t, 2)) + Leaves(Kid(t, 3))
  {
  }

  lemma OnlyKidValues(t: Tree, w: Slot)
    requires OnlyKid(t, w)
    ensures Points(t) == Points(Kid(t, w)) && NodesOf(t) == {t.node} + NodesOf(Kid(t, w))
  {
    assert w != 0 ==> Kid(t, 0) == Nil;
    assert w != 1 ==> Kid(t, 1) == Nil;
    assert w != 2 ==> Kid(t, 2) == Nil;
    assert w != 3 ==> Kid(t, 3) == Nil;
  }
}
