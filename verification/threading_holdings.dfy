/** What becomes of the holding acknowledgements of a conversation, over a whole view. */
module ThreadHoldings {
  import opened Options
  import opened ThreadTurns
  import opened ThreadPairs
  import opened ThreadGroups
  import opened ThreadUnits
  import opened ThreadExchanges
  import opened ThreadView
  import opened ThreadTheorems

  function SentOf(t: Turn): seq<string> {
    if !t.inbound && IsHolding(t.text) then [t.text] else []
  }

  /** The holding texts among some turns. */
  function Sent(turns: seq<Turn>): seq<string> {
    if turns == [] then [] else SentOf(turns[0]) + Sent(turns[1..])
  }

  ghost function HeldBag(it: Item): multiset<string> {
    multiset(Holdings(MarksOf(it)))
  }

  ghost function HeldInUnits(units: seq<Unit>, n: nat): multiset<string>
    requires n <= |units|
  {
    if n == 0 then multiset{} else HeldInUnits(units, n - 1) + multiset(HeldTexts(units[n - 1].exchanges))
  }

  /** The holding texts that the exchanges of all units show. */
  ghost function HeldInView(view: seq<seq<Unit>>, n: nat): multiset<string>
    requires n <= |view|
  {
    if n == 0 then multiset{} else HeldInView(view, n - 1) + HeldInUnits(view[n - 1], |view[n - 1]|)
  }

  /** No exchange of the unit received two holding acknowledgements. */
  ghost predicate Single(r: RawUnit) {
    var segs := Segments(Chronological(r.items));
    forall k :: 0 <= k < |segs| ==> |Holdings(segs[k])| <= 1
  }

  // ---- Sums of bags

  lemma SameSize<T>(a: multiset<T>, b: multiset<T>)
    requires a <= b && |a| == |b|
    ensures a == b
  {
    assert b == a + (b - a);
    assert |b - a| == 0;
  }

  lemma SumsEqual<T>(a: multiset<T>, b: multiset<T>, c: multiset<T>, d: multiset<T>)
    requires a <= b && c <= d
    ensures a + c <= b + d
    ensures a + c == b + d <==> a == b && c == d
  {
    if a + c == b + d {
      forall x ensures a[x] == b[x] && c[x] == d[x] {
        assert (a + c)[x] == (b + d)[x];
      }
    }
  }

  // ---- One layout

  lemma {:induction false} HoldingsConcat(a: seq<Mark>, b: seq<Mark>)
    ensures Holdings(a + b) == Holdings(a) + Holdings(b)
  {
    hide *;
    NoHoldings();
    if b == [] {
      assert a + b == a;
    } else {
      var n := |b| - 1;
      HoldingsConcat(a, b[..n]);
      assert a + b == (a + b[..n]) + [b[n]] && b == b[..n] + [b[n]];
      RepliesPush(a + b[..n], b[n]);
      RepliesPush(b[..n], b[n]);
    }
  }

  lemma {:induction false} HeldLast(es: seq<Exchange>, seg: seq<Mark>)
    requires es != [] && seg != [] && es[|es| - 1] == Summary(seg)
    ensures Holdings(seg) == [] ==> HeldTexts(es) == HeldTexts(es[..|es| - 1])
    ensures Holdings(seg) != [] ==> HeldTexts(es) == HeldTexts(es[..|es| - 1]) + [Holdings(seg)[|Holdings(seg)| - 1]]
  {
    hide IsHolding, Holdings, Replies;
  }

  lemma NoneHeld()
    ensures HeldTexts([]) == []
  {
    hide IsHolding;
  }

  lemma {:induction false} HeldWithin(es: seq<Exchange>, segs: seq<seq<Mark>>)
    requires |es| == |segs| && forall k :: 0 <= k < |segs| ==> segs[k] != [] && es[k] == Summary(segs[k])
    ensures multiset(HeldTexts(es)) <= multiset(Holdings(Joined(segs)))
  {
    hide *;
    NoneHeld();
    NothingShown();
    NoHoldings();
    if segs != [] {
      var n := |segs| - 1;
      HeldWithin(es[..n], segs[..n]);
      HeldLast(es, segs[n]);
      assert segs == segs[..n] + [segs[n]];
      JoinedPush(segs[..n], segs[n]);
      HoldingsConcat(Joined(segs[..n]), segs[n]);
      LastWithin(Holdings(segs[n]));
    }
  }

  lemma LastWithin(s: seq<string>)
    ensures s != [] ==> multiset([s[|s| - 1]]) <= multiset(s)
  {
  }

  /** A layout shows part of the holding texts, and all of them exactly when no exchange got two. */
  lemma LayoutHolds(es: seq<Exchange>, r: RawUnit)
    requires Laid(es, Chronological(r.items))
    ensures multiset(HeldTexts(es)) <= multiset(Holdings(Chronological(r.items)))
    ensures multiset(HeldTexts(es)) == multiset(Holdings(Chronological(r.items))) <==> Single(r)
  {
    hide *;
    var ms := Chronological(r.items);
    LaidIs(es, ms);
    HeldWithin(es, Segments(ms));
    SegmentsJoin(ms);
    HoldingsLost(es, ms);
    SingleIs(r);
    var a, b := multiset(HeldTexts(es)), multiset(Holdings(ms));
    assert |a| == |HeldTexts(es)| && |b| == |Holdings(ms)|;
    if |a| == |b| {
      SameSize(a, b);
    }
  }

  lemma SingleIs(r: RawUnit)
    ensures Single(r) <==> forall k :: 0 <= k < |Segments(Chronological(r.items))| ==>
              |Holdings(Segments(Chronological(r.items))[k])| <= 1
  {
    hide IsHolding, Holdings, Segments, Chronological;
  }

  // ---- Items and turns

  lemma HeldBagIs(it: Item)
    ensures HeldBag(it) == multiset(Holdings(MarksOf(it)))
  {
    hide IsHolding;
  }

  lemma ChronologicalParts(items: seq<Item>)
    ensures items == [] ==> Chronological(items) == []
    ensures items != [] ==> Chronological(items) == Chronological(items[1..]) + MarksOf(items[0])
  {
    hide IsHolding;
  }

  lemma {:induction false} ChronologicalHeld(items: seq<Item>)
    ensures multiset(Holdings(Chronological(items))) == Bag(items, HeldBag)
  {
    hide *;
    BagEmpty(HeldBag);
    NoHoldings();
    ChronologicalParts(items);
    if items != [] {
      ChronologicalHeld(items[1..]);
      HoldingsConcat(Chronological(items[1..]), MarksOf(items[0]));
      BagConcat([items[0]], items[1..], HeldBag);
      BagPush([], items[0], HeldBag);
      HeldBagIs(items[0]);
      assert [] + [items[0]] == [items[0]] && [items[0]] + items[1..] == items;
    }
  }

  lemma {:induction false} SentConcat(a: seq<Turn>, b: seq<Turn>)
    ensures Sent(a + b) == Sent(a) + Sent(b)
  {
    hide SentOf;
    if a == [] {
      assert a + b == b;
    } else {
      SentConcat(a[1..], b);
      assert (a + b)[1..] == a[1..] + b && (a + b)[0] == a[0];
    }
  }

  lemma SentOne(m: Mark)
    ensures Holdings([m]) == Sent([m.turn])
  {
    hide IsHolding;
    RepliesPush([], m);
    assert [] + [m] == [m] && [m.turn][1..] == [];
  }

  lemma ItemSends(s: Step, it: Item)
    requires WellFormed(s) && it.step == s
    ensures Holdings(MarksOf(it)) == Sent(TurnsOf(s))
  {
    hide IsHolding, Holdings, Sent;
    if s.inbound.Some? {
      var m := Mark(s.inbound.value, false);
      SentOne(m);
      if s.outbound.Some? {
        var o := Mark(s.outbound.value, it.offer);
        SentOne(o);
        HoldingsConcat([m], [o]);
        SentConcat([m.turn], [o.turn]);
        assert MarksOf(it) == [m] + [o] && TurnsOf(s) == [m.turn] + [o.turn];
      } else {
        assert MarksOf(it) == [m] && TurnsOf(s) == [m.turn];
      }
    } else {
      SentOne(Mark(s.outbound.value, it.offer));
      assert MarksOf(it) == [Mark(s.outbound.value, it.offer)] && TurnsOf(s) == [s.outbound.value];
    }
  }

  lemma NothingSent()
    ensures Sent([]) == []
  {
  }

  lemma {:induction false} ReversedSent(pairs: seq<Step>, n: nat)
    requires WellPaired(pairs) && n <= |pairs|
    ensures Bag(Items(Reversed(pairs), n), HeldBag) == multiset(Sent(Flatten(pairs[|pairs| - n..])))
  {
    hide *;
    var steps := Reversed(pairs);
    FlattenUnfold(pairs[|pairs| - n..]);
    PairsFormed(pairs);
    BagEmpty(HeldBag);
    NothingSent();
    if n == 0 {
      assert pairs[|pairs|..] == [] && Items(steps, 0) == [];
    } else {
      ReversedSent(pairs, n - 1);
      var k := |pairs| - n;
      assert Items(steps, n) == Items(steps, n - 1) + [ItemAt(steps, n - 1)];
      BagPush(Items(steps, n - 1), ItemAt(steps, n - 1), HeldBag);
      assert steps[n - 1] == pairs[k];
      ItemStep(steps, n - 1);
      ItemSends(pairs[k], ItemAt(steps, n - 1));
      assert pairs[k..][1..] == pairs[k + 1..] && pairs[k..][0] == pairs[k];
      SentConcat(TurnsOf(pairs[k]), Flatten(pairs[k + 1..]));
      HeldBagIs(ItemAt(steps, n - 1));
    }
  }

  // ---- Units, groups and the view

  lemma HeldZero(units: seq<Unit>)
    ensures HeldInUnits(units, 0) == multiset{}
  {
    hide IsHolding;
  }

  lemma HeldUnitsUnfold(units: seq<Unit>, n: nat)
    requires 0 < n <= |units|
    ensures HeldInUnits(units, n) == HeldInUnits(units, n - 1) + multiset(HeldTexts(units[n - 1].exchanges))
  {
    hide IsHolding, HeldTexts;
  }

  lemma {:induction false} UnitsHold(items: seq<Item>, raw: seq<RawUnit>, of: seq<nat>, units: seq<Unit>, n: nat)
    requires |of| == |items| && UnitsFrom(units, raw) && n <= |units| == |raw|
    requires forall u :: 0 <= u < |raw| ==> raw[u].items == Picked(items, of, u)
    ensures HeldInUnits(units, n) <= BagsPicked(items, of, n, HeldBag)
    ensures HeldInUnits(units, n) == BagsPicked(items, of, n, HeldBag) <==> forall u :: 0 <= u < n ==> Single(raw[u])
  {
    hide *;
    UnitsParts(units, raw);
    HeldZero(units);
    BagsPickedZero(items, of, HeldBag);
    if n > 0 {
      UnitsHold(items, raw, of, units, n - 1);
      HeldUnitsUnfold(units, n);
      BagsPickedUnfold(items, of, n, HeldBag);
      LayoutHolds(units[n - 1].exchanges, raw[n - 1]);
      ChronologicalHeld(raw[n - 1].items);
      SumsEqual(HeldInUnits(units, n - 1), BagsPicked(items, of, n - 1, HeldBag),
                multiset(HeldTexts(units[n - 1].exchanges)), Bag(Picked(items, of, n - 1), HeldBag));
    }
  }

  lemma HeldViewZero(view: seq<seq<Unit>>)
    ensures HeldInView(view, 0) == multiset{}
  {
    hide IsHolding;
  }

  lemma HeldViewUnfold(view: seq<seq<Unit>>, n: nat)
    requires 0 < n <= |view|
    ensures HeldInView(view, n) == HeldInView(view, n - 1) + HeldInUnits(view[n - 1], |view[n - 1]|)
  {
    hide IsHolding, HeldInUnits;
  }

  lemma {:induction false} GroupsHold(steps: seq<Step>, themes: seq<string>, groups: seq<Group>, of: seq<nat>,
                                      raws: seq<seq<RawUnit>>, ofs: seq<seq<nat>>, view: seq<seq<Unit>>, n: nat)
    requires Threaded(steps, themes, groups, of, raws, ofs, view) && n <= |view|
    ensures |raws| == |view| && |of| == |steps|
    ensures HeldInView(view, n) <= BagsPicked(Items(steps, |steps|), of, n, HeldBag)
    ensures HeldInView(view, n) == BagsPicked(Items(steps, |steps|), of, n, HeldBag)
       <==> forall g, u :: 0 <= g < n && 0 <= u < |raws[g]| ==> Single(raws[g][u])
  {
    hide *;
    ThreadedParts(steps, themes, groups, of, raws, ofs, view);
    BagsPickedZero(Items(steps, |steps|), of, HeldBag);
    HeldViewZero(view);
    if n > 0 {
      var g := n - 1;
      var items := groups[g].items;
      GroupsHold(steps, themes, groups, of, raws, ofs, view, g);
      ThreadedAt(steps, themes, groups, of, raws, ofs, view, g);
      MergedParts(items, raws[g], ofs[g]);
      UnitsCount(view[g], raws[g]);
      assert items[..|ofs[g]|] == items;
      UnitsHold(items, raws[g], ofs[g], view[g], |view[g]|);
      SharedOut(items, ofs[g], |raws[g]|, HeldBag);
      HeldViewUnfold(view, n);
      BagsPickedUnfold(Items(steps, |steps|), of, n, HeldBag);
      SumsEqual(HeldInView(view, g), BagsPicked(Items(steps, |steps|), of, g, HeldBag),
                HeldInUnits(view[g], |view[g]|), Bag(items, HeldBag));
    }
  }

  /** Across all units every holding text that shows was sent, and all that were sent show exactly
      when no exchange received two: a later one in the same exchange replaces the earlier. */
  lemma HoldingsShown(turns: seq<Turn>, channel: string, pairs: seq<Step>, themes: seq<string>, groups: seq<Group>,
                      of: seq<nat>, raws: seq<seq<RawUnit>>, ofs: seq<seq<nat>>, view: seq<seq<Unit>>)
    requires WellPaired(pairs) && Flatten(pairs) == Visible(turns, channel)
    requires Threaded(Reversed(pairs), themes, groups, of, raws, ofs, view)
    ensures |raws| == |view|
    ensures HeldInView(view, |view|) <= multiset(Sent(Visible(turns, channel)))
    ensures HeldInView(view, |view|) == multiset(Sent(Visible(turns, channel)))
       <==> forall g, u :: 0 <= g < |raws| && 0 <= u < |raws[g]| ==> Single(raws[g][u])
  {
    hide *;
    var steps := Reversed(pairs);
    ThreadedParts(steps, themes, groups, of, raws, ofs, view);
    PlacedBounds(steps, themes, ThemesOf(groups), of);
    GroupsHold(steps, themes, groups, of, raws, ofs, view, |view|);
    SharedOut(Items(steps, |steps|), of, |groups|, HeldBag);
    ReversedSent(pairs, |pairs|);
    assert pairs[0..] == pairs;
  }
}
