/** What the threading pipeline keeps, end to end. */
module ThreadTheorems {
  import opened Options
  import opened ThreadTurns
  import opened ThreadPairs
  import opened ThreadGroups
  import opened ThreadUnits
  import opened ThreadExchanges
  import opened ThreadView

  // ---------------------------------------------------------------- conservation

  predicate MustShow(t: Turn) {
    t.inbound || !IsHolding(t.text)
  }

  function ShowableOf(t: Turn): seq<Turn> {
    if MustShow(t) then [t] else []
  }

  function Showable(turns: seq<Turn>): seq<Turn> {
    if turns == [] then [] else ShowableOf(turns[0]) + Showable(turns[1..])
  }

  /** What a list of items brings, `f` saying what one item does. */
  ghost function Bag<T>(items: seq<Item>, f: Item -> multiset<T>): multiset<T> {
    if items == [] then multiset{} else Bag(items[..|items| - 1], f) + f(items[|items| - 1])
  }

  /** The turns of an item that must be shown. */
  ghost function BagOf(it: Item): multiset<Turn> {
    multiset(Kept(MarksOf(it)))
  }

  ghost function BagsPicked<T>(xs: seq<Item>, of: seq<nat>, n: nat, f: Item -> multiset<T>): multiset<T>
    requires |xs| == |of|
  {
    if n == 0 then multiset{} else BagsPicked(xs, of, n - 1, f) + Bag(Picked(xs, of, n - 1), f)
  }

  lemma BagPush<T>(items: seq<Item>, it: Item, f: Item -> multiset<T>)
    ensures Bag(items + [it], f) == Bag(items, f) + f(it)
  {
    hide IsHolding;
    assert (items + [it])[..|items|] == items;
  }

  lemma {:induction false} BagsPickedPush<T>(xs: seq<Item>, of: seq<nat>, x: Item, o: nat, n: nat,
                                             f: Item -> multiset<T>)
    requires |xs| == |of|
    ensures BagsPicked(xs + [x], of + [o], n, f) == BagsPicked(xs, of, n, f) + (if o < n then f(x) else multiset{})
  {
    hide *;
    BagsPickedZero(xs, of, f);
    BagsPickedZero(xs + [x], of + [o], f);
    if n > 0 {
      BagsPickedPush(xs, of, x, o, n - 1, f);
      PickedPush(xs, of, x, o, n - 1);
      BagPush(Picked(xs, of, n - 1), x, f);
      BagsPickedUnfold(xs, of, n, f);
      BagsPickedUnfold(xs + [x], of + [o], n, f);
      assert Picked(xs, of, n - 1) + [] == Picked(xs, of, n - 1);
      var a, b := BagsPicked(xs, of, n - 1, f), Bag(Picked(xs, of, n - 1), f);
      if o == n - 1 {
        assert a + multiset{} + (b + f(x)) == (a + b) + f(x);
      } else if o < n - 1 {
        assert (a + f(x)) + b == (a + b) + f(x);
      }
    }
  }

  lemma BagsPickedZero<T>(xs: seq<Item>, of: seq<nat>, f: Item -> multiset<T>)
    requires |xs| == |of|
    ensures BagsPicked(xs, of, 0, f) == multiset{}
  {
    hide IsHolding;
  }

  lemma BagsPickedUnfold<T>(xs: seq<Item>, of: seq<nat>, n: nat, f: Item -> multiset<T>)
    requires |xs| == |of| && n > 0
    ensures BagsPicked(xs, of, n, f) == BagsPicked(xs, of, n - 1, f) + Bag(Picked(xs, of, n - 1), f)
  {
    hide IsHolding;
  }

  lemma BagEmpty<T>(f: Item -> multiset<T>)
    ensures Bag([], f) == multiset{}
  {
    hide IsHolding;
  }

  lemma {:induction false} BagsPickedEmpty<T>(n: nat, f: Item -> multiset<T>)
    ensures BagsPicked([], [], n, f) == multiset{}
  {
    hide IsHolding;
    if n > 0 {
      BagsPickedEmpty(n - 1, f);
    }
  }

  /** Sharing items out loses none and doubles none. */
  lemma {:induction false} SharedOut<T>(xs: seq<Item>, of: seq<nat>, n: nat, f: Item -> multiset<T>)
    requires |xs| == |of| && forall i :: 0 <= i < |of| ==> of[i] < n
    ensures BagsPicked(xs, of, n, f) == Bag(xs, f)
  {
    hide *;
    BagEmpty(f);
    if xs == [] {
      assert of == [];
      BagsPickedEmpty(n, f);
    } else {
      var k := |xs| - 1;
      SharedOut(xs[..k], of[..k], n, f);
      BagsPickedPush(xs[..k], of[..k], xs[k], of[k], n, f);
      BagPush(xs[..k], xs[k], f);
      assert xs == xs[..k] + [xs[k]] && of == of[..k] + [of[k]];
    }
  }

  lemma {:induction false} BagConcat<T>(a: seq<Item>, b: seq<Item>, f: Item -> multiset<T>)
    ensures Bag(a + b, f) == Bag(a, f) + Bag(b, f)
  {
    hide *;
    BagEmpty(f);
    if b == [] {
      assert a + b == a;
    } else {
      var k := |b| - 1;
      BagConcat(a, b[..k], f);
      assert a + b == (a + b[..k]) + [b[k]] && b == b[..k] + [b[k]];
      BagPush(a + b[..k], b[k], f);
      BagPush(b[..k], b[k], f);
    }
  }

  /** Laying a unit's turns out in time order keeps them all. */
  lemma {:induction false} ChronologicalBag(items: seq<Item>)
    ensures multiset(Kept(Chronological(items))) == Bag(items, BagOf)
  {
    hide *;
    BagEmpty(BagOf);
    ChronologicalUnfold(items);
    if items != [] {
      ChronologicalBag(items[1..]);
      KeptConcat(Chronological(items[1..]), MarksOf(items[0]));
      BagConcat([items[0]], items[1..], BagOf);
      BagPush([], items[0], BagOf);
      BagOfIs(items[0]);
      assert [] + [items[0]] == [items[0]] && [items[0]] + items[1..] == items;
    }
  }

  lemma ChronologicalUnfold(items: seq<Item>)
    ensures items == [] ==> Kept(Chronological(items)) == []
    ensures items != [] ==> Chronological(items) == Chronological(items[1..]) + MarksOf(items[0])
  {
    hide IsHolding;
  }

  lemma BagOfIs(it: Item)
    ensures BagOf(it) == multiset(Kept(MarksOf(it)))
  {
    hide IsHolding;
  }

  ghost function ShownInUnits(units: seq<Unit>, n: nat): multiset<Turn>
    requires n <= |units|
  {
    if n == 0 then multiset{} else ShownInUnits(units, n - 1) + multiset(AllShown(units[n - 1].exchanges))
  }

  /** Everything the exchanges of all units show. */
  ghost function ShownInView(view: seq<seq<Unit>>, n: nat): multiset<Turn>
    requires n <= |view|
  {
    if n == 0 then multiset{} else ShownInView(view, n - 1) + ShownInUnits(view[n - 1], |view[n - 1]|)
  }

  lemma {:induction false} UnitsShow(items: seq<Item>, raw: seq<RawUnit>, of: seq<nat>, units: seq<Unit>, n: nat)
    requires |of| == |items| && UnitsFrom(units, raw) && n <= |units|
    requires forall u :: 0 <= u < |raw| ==> raw[u].items == Picked(items, of, u)
    ensures ShownInUnits(units, n) == BagsPicked(items, of, n, BagOf)
  {
    hide *;
    UnitsParts(units, raw);
    ShownZero(units);
    BagsPickedZero(items, of, BagOf);
    if n > 0 {
      UnitsShow(items, raw, of, units, n - 1);
      ShownUnitsUnfold(units, n);
      BagsPickedUnfold(items, of, n, BagOf);
      LayoutConserves(units[n - 1].exchanges, Chronological(raw[n - 1].items));
      ChronologicalBag(raw[n - 1].items);
    }
  }

  lemma UnitsParts(units: seq<Unit>, raw: seq<RawUnit>)
    requires UnitsFrom(units, raw)
    ensures |units| == |raw| && forall u :: 0 <= u < |units| ==> Laid(units[u].exchanges, Chronological(raw[u].items))
  {
    hide IsHolding;
    assert forall u :: 0 <= u < |units| ==> UnitFrom(units[u], raw[u]);
  }

  lemma ShownZero(units: seq<Unit>)
    ensures ShownInUnits(units, 0) == multiset{}
  {
    hide IsHolding;
  }

  lemma ShownUnitsUnfold(units: seq<Unit>, n: nat)
    requires 0 < n <= |units|
    ensures ShownInUnits(units, n) == ShownInUnits(units, n - 1) + multiset(AllShown(units[n - 1].exchanges))
  {
    hide IsHolding;
  }

  lemma {:induction false} GroupsShow(steps: seq<Step>, themes: seq<string>, groups: seq<Group>, of: seq<nat>,
                                      raws: seq<seq<RawUnit>>, ofs: seq<seq<nat>>, view: seq<seq<Unit>>, n: nat)
    requires Threaded(steps, themes, groups, of, raws, ofs, view) && n <= |view|
    ensures ShownInView(view, n) == BagsPicked(Items(steps, |steps|), of, n, BagOf)
  {
    hide *;
    ThreadedParts(steps, themes, groups, of, raws, ofs, view);
    BagsPickedZero(Items(steps, |steps|), of, BagOf);
    ShownViewZero(view);
    if n > 0 {
      GroupsShow(steps, themes, groups, of, raws, ofs, view, n - 1);
      var g := n - 1;
      var items := groups[g].items;
      ThreadedAt(steps, themes, groups, of, raws, ofs, view, g);
      MergedParts(items, raws[g], ofs[g]);
      UnitsCount(view[g], raws[g]);
      assert items[..|ofs[g]|] == items;
      UnitsCount(view[g], raws[g]);
      UnitsShow(items, raws[g], ofs[g], view[g], |view[g]|);
      SharedOut(items, ofs[g], |raws[g]|, BagOf);
      ShownPush(view, n);
      BagsPickedUnfold(Items(steps, |steps|), of, n, BagOf);
    }
  }

  lemma ShownViewZero(view: seq<seq<Unit>>)
    ensures ShownInView(view, 0) == multiset{}
  {
    hide IsHolding;
  }

  lemma UnitsCount(units: seq<Unit>, raw: seq<RawUnit>)
    requires UnitsFrom(units, raw)
    ensures |units| == |raw|
  {
    hide IsHolding;
  }

  lemma ShownPush(view: seq<seq<Unit>>, n: nat)
    requires 0 < n <= |view|
    ensures ShownInView(view, n) == ShownInView(view, n - 1) + ShownInUnits(view[n - 1], |view[n - 1]|)
  {
    hide IsHolding;
  }

  lemma ThreadedAt(steps: seq<Step>, themes: seq<string>, groups: seq<Group>, of: seq<nat>,
                   raws: seq<seq<RawUnit>>, ofs: seq<seq<nat>>, view: seq<seq<Unit>>, g: nat)
    requires Threaded(steps, themes, groups, of, raws, ofs, view) && g < |groups|
    ensures |of| == |steps| == |themes| && |raws| == |ofs| == |view| == |groups|
    ensures |ofs[g]| == |groups[g].items| && Merged(groups[g].items, raws[g], ofs[g]) && UnitsFrom(view[g], raws[g])
    ensures groups[g].items == Picked(Items(steps, |steps|), of, g)
  {
    hide IsHolding;
  }

  lemma {:induction false} ShowableConcat(a: seq<Turn>, b: seq<Turn>)
    ensures Showable(a + b) == Showable(a) + Showable(b)
  {
    hide ShowableOf;
    if a == [] {
      assert a + b == b;
    } else {
      ShowableConcat(a[1..], b);
      assert (a + b)[1..] == a[1..] + b && (a + b)[0] == a[0];
    }
  }

  /** A step's item keeps just what its turns must show. */
  lemma ItemKeeps(s: Step, it: Item)
    requires WellFormed(s) && it.step == s
    ensures Kept(MarksOf(it)) == Showable(TurnsOf(s))
  {
    hide IsHolding;
    var ms := MarksOf(it);
    if s.inbound.Some? {
      var m := Mark(s.inbound.value, false);
      KeptOne(m);
      if s.outbound.Some? {
        KeptOne(Mark(s.outbound.value, it.offer));
        KeptConcat([m], [Mark(s.outbound.value, it.offer)]);
        ShowableConcat([s.inbound.value], [s.outbound.value]);
        assert ms == [m] + [Mark(s.outbound.value, it.offer)];
        assert TurnsOf(s) == [s.inbound.value] + [s.outbound.value];
      }
    } else {
      KeptOne(Mark(s.outbound.value, it.offer));
    }
  }

  lemma KeptOne(m: Mark)
    ensures Kept([m]) == Showable([m.turn])
  {
    hide IsHolding;
    assert [m][..0] == [] && [m.turn][1..] == [];
  }

  /** Reversing the steps, as the console does, keeps what they must show. */
  lemma {:induction false} ReversedBag(pairs: seq<Step>, n: nat)
    requires WellPaired(pairs) && n <= |pairs|
    ensures Bag(Items(Reversed(pairs), n), BagOf) == multiset(Showable(Flatten(pairs[|pairs| - n..])))
  {
    hide *;
    var steps := Reversed(pairs);
    FlattenUnfold(pairs[|pairs| - n..]);
    PairsFormed(pairs);
    BagEmpty(BagOf);
    if n == 0 {
      assert pairs[|pairs|..] == [] && Items(steps, 0) == [];
      KeptEmpty();
    } else {
      ReversedBag(pairs, n - 1);
      var k := |pairs| - n;
      assert Items(steps, n) == Items(steps, n - 1) + [ItemAt(steps, n - 1)];
      BagPush(Items(steps, n - 1), ItemAt(steps, n - 1), BagOf);
      assert steps[n - 1] == pairs[k];
      ItemStep(steps, n - 1);
      ItemKeeps(pairs[k], ItemAt(steps, n - 1));
      assert pairs[k..][1..] == pairs[k + 1..] && pairs[k..][0] == pairs[k];
      ShowableConcat(TurnsOf(pairs[k]), Flatten(pairs[k + 1..]));
      BagOfIs(ItemAt(steps, n - 1));
      ItemStep(steps, n - 1);
    }
  }

  lemma ItemStep(steps: seq<Step>, i: nat)
    requires i < |steps|
    ensures ItemAt(steps, i).step == steps[i]
  {
    hide IsHolding;
  }

  lemma FlattenUnfold(pairs: seq<Step>)
    ensures Flatten(pairs) == if pairs == [] then [] else TurnsOf(pairs[0]) + Flatten(pairs[1..])
  {
    hide IsHolding;
  }

  lemma PairsFormed(pairs: seq<Step>)
    requires WellPaired(pairs)
    ensures forall i :: 0 <= i < |pairs| ==> WellFormed(pairs[i])
  {
    hide IsHolding;
  }

  lemma KeptEmpty()
    ensures Showable(Flatten([])) == [] && Kept([]) == []
  {
    hide IsHolding;
  }

  /** Messages are conserved end to end: across all the exchanges of all the units, every visible
      customer message and every visible substantive reply is shown exactly as often as it occurs. */
  lemma MessagesConserved(turns: seq<Turn>, channel: string, pairs: seq<Step>, themes: seq<string>, groups: seq<Group>,
                          of: seq<nat>, raws: seq<seq<RawUnit>>, ofs: seq<seq<nat>>, view: seq<seq<Unit>>)
    requires WellPaired(pairs) && Flatten(pairs) == Visible(turns, channel)
    requires Threaded(Reversed(pairs), themes, groups, of, raws, ofs, view)
    ensures ShownInView(view, |view|) == multiset(Showable(Visible(turns, channel)))
  {
    hide *;
    var steps := Reversed(pairs);
    ThreadedParts(steps, themes, groups, of, raws, ofs, view);
    PlacedBounds(steps, themes, ThemesOf(groups), of);
    GroupsShow(steps, themes, groups, of, raws, ofs, view, |view|);
    SharedOut(Items(steps, |steps|), of, |groups|, BagOf);
    ReversedBag(pairs, |pairs|);
    assert pairs[0..] == pairs;
  }

  lemma ThreadedParts(steps: seq<Step>, themes: seq<string>, groups: seq<Group>, of: seq<nat>,
                      raws: seq<seq<RawUnit>>, ofs: seq<seq<nat>>, view: seq<seq<Unit>>)
    requires Threaded(steps, themes, groups, of, raws, ofs, view)
    ensures |themes| == |of| == |steps| && |raws| == |ofs| == |view| == |groups|
    ensures Placed(steps, themes, ThemesOf(groups), of) && Filled(steps, groups, of)
  {
    hide IsHolding;
  }
}
