/** In which order a request shows its turns: that of the conversation. */
module ThreadOrder {
  import opened Options
  import opened ThreadTurns
  import opened ThreadPairs
  import opened ThreadGroups
  import opened ThreadUnits
  import opened ThreadExchanges
  import opened ThreadView
  import opened ThreadTheorems

  /** `part` is `whole` read at the strictly increasing positions `at`. */
  ghost predicate ReadAt<T>(part: seq<T>, whole: seq<T>, at: seq<nat>) {
    && |at| == |part|
    && (forall k :: 0 <= k < |at| ==> at[k] < |whole| && part[k] == whole[at[k]])
    && (forall k, l :: 0 <= k < l < |at| ==> at[k] < at[l])
  }

  /** Reading in what was read is reading. */
  lemma ReadTwice<T>(part: seq<T>, middle: seq<T>, whole: seq<T>, at: seq<nat>, via: seq<nat>) returns (r: seq<nat>)
    requires ReadAt(part, middle, at) && ReadAt(middle, whole, via)
    ensures ReadAt(part, whole, r)
  {
    r := seq(|at|, k requires 0 <= k < |at| => via[at[k]]);
  }

  function TurnsIn(ms: seq<Mark>): (r: seq<Turn>)
    ensures |r| == |ms| && forall i :: 0 <= i < |ms| ==> r[i] == ms[i].turn
  {
    seq(|ms|, i requires 0 <= i < |ms| => ms[i].turn)
  }

  lemma KeptUnfold(ms: seq<Mark>)
    ensures ms == [] ==> Kept(ms) == []
    ensures ms != [] ==> Kept(ms) == Kept(ms[..|ms| - 1]) + KeptOf(ms[|ms| - 1])
    ensures forall m :: KeptOf(m) == [] || KeptOf(m) == [m.turn]
  {
    hide IsHolding;
  }

  lemma {:induction false} KeptRead(ms: seq<Mark>) returns (at: seq<nat>)
    ensures ReadAt(Kept(ms), TurnsIn(ms), at)
  {
    hide Kept, KeptOf;
    KeptUnfold(ms);
    at := [];
    if ms != [] {
      var n := |ms| - 1;
      at := KeptRead(ms[..n]);
      if KeptOf(ms[n]) != [] {
        at := at + [n];
      }
    }
  }

  lemma MarksTurns(it: Item)
    ensures TurnsIn(MarksOf(it)) == TurnsOf(it.step)
  {
  }

  lemma CutAt<T>(s: seq<T>, p: nat, q: nat)
    requires p <= q <= |s|
    ensures s[..q] == s[..p] + s[p..q] && s == s[..q] + s[q..]
    ensures q == p + 1 ==> s[..q] == s[..p] + [s[p]]
  {
  }

  lemma FlattenAt(pairs: seq<Step>, p: nat)
    requires p < |pairs|
    ensures Flatten(pairs) == Flatten(pairs[..p]) + TurnsOf(pairs[p]) + Flatten(pairs[p + 1..])
    ensures Flatten(pairs[..p + 1]) == Flatten(pairs[..p]) + TurnsOf(pairs[p])
  {
    hide *;
    CutAt(pairs, p, p + 1);
    FlattenPush(pairs[..p], pairs[p]);
    FlattenConcat(pairs[..p + 1], pairs[p + 1..]);
  }

  lemma FlattenGrows(pairs: seq<Step>, p: nat, q: nat)
    requires p <= q <= |pairs|
    ensures |Flatten(pairs[..p])| <= |Flatten(pairs[..q])|
  {
    hide *;
    CutAt(pairs, p, q);
    FlattenConcat(pairs[..p], pairs[p..q]);
  }

  /** Items taken from the steps newest first, laid out oldest first, follow the steps' own order.
      `back` says which step each item is. */
  lemma {:induction false} ItemsRead(pairs: seq<Step>, items: seq<Item>, back: seq<nat>, hi: nat) returns (at: seq<nat>)
    requires |back| == |items| && hi <= |pairs| && (forall k :: 0 <= k < |back| ==> back[k] < hi)
    requires forall k :: 0 <= k < |back| ==> items[k].step == pairs[back[k]]
    requires forall k, l :: 0 <= k < l < |back| ==> back[k] > back[l]
    ensures ReadAt(TurnsIn(Chronological(items)), Flatten(pairs), at)
    ensures forall k :: 0 <= k < |at| ==> at[k] < |Flatten(pairs[..hi])|
  {
    hide *;
    ChronologicalIs(items);
    at := [];
    if items == [] {
      NothingRead(Flatten(pairs));
    } else {
      var p := back[0];
      var before := ItemsRead(pairs, items[1..], back[1..], p);
      FlattenAt(pairs, p);
      FlattenGrows(pairs, p + 1, hi);
      MarksTurns(items[0]);
      at := ReadMore(Chronological(items[1..]), MarksOf(items[0]), Flatten(pairs[..p]), Flatten(pairs[p + 1..]),
                     before);
    }
  }

  lemma ChronologicalIs(items: seq<Item>)
    ensures items == [] ==> Chronological(items) == []
    ensures items != [] ==> Chronological(items) == Chronological(items[1..]) + MarksOf(items[0])
  {
    hide IsHolding;
  }

  lemma NothingRead(whole: seq<Turn>)
    ensures ReadAt(TurnsIn([]), whole, [])
  {
  }

  lemma ReadMore(ms: seq<Mark>, more: seq<Mark>, front: seq<Turn>, back: seq<Turn>, before: seq<nat>)
    returns (at: seq<nat>)
    requires ReadAt(TurnsIn(ms), front + TurnsIn(more) + back, before)
    requires forall k :: 0 <= k < |before| ==> before[k] < |front|
    ensures ReadAt(TurnsIn(ms + more), front + TurnsIn(more) + back, at)
    ensures forall k :: 0 <= k < |at| ==> at[k] < |front| + |more|
  {
    at := before + seq(|more|, i requires 0 <= i < |more| => |front| + i);
    var whole := front + TurnsIn(more) + back;
    assert forall i :: 0 <= i < |more| ==> whole[|front| + i] == more[i].turn;
  }

  /** The steps a unit is made of: newest first, each once. */
  lemma UnitSteps(steps: seq<Step>, themes: seq<string>, groups: seq<Group>, of: seq<nat>, raws: seq<seq<RawUnit>>,
                  ofs: seq<seq<nat>>, view: seq<seq<Unit>>, g: nat, u: nat) returns (at: seq<nat>)
    requires Threaded(steps, themes, groups, of, raws, ofs, view) && g < |view| && u < |view[g]|
    ensures |raws| == |view| && |raws[g]| == |view[g]| && |at| == |raws[g][u].items|
    ensures forall k :: 0 <= k < |at| ==> at[k] < |steps| && raws[g][u].items[k] == ItemAt(steps, at[k])
    ensures forall k, l :: 0 <= k < l < |at| ==> at[k] < at[l]
    ensures Laid(view[g][u].exchanges, Chronological(raws[g][u].items))
  {
    hide *;
    ThreadedParts(steps, themes, groups, of, raws, ofs, view);
    ThreadedAt(steps, themes, groups, of, raws, ofs, view, g);
    UnitsParts(view[g], raws[g]);
    var items := groups[g].items;
    MergedParts(items, raws[g], ofs[g]);
    assert items[..|ofs[g]|] == items;
    var inGroup := PickedFrom(items, ofs[g], u);
    var inSteps := GroupHolds(steps, groups, of, g);
    at := seq(|inGroup|, k requires 0 <= k < |inGroup| => inSteps[inGroup[k]]);
  }

  lemma ItemIs(steps: seq<Step>, i: nat)
    requires i < |steps|
    ensures ItemAt(steps, i).step == steps[i] && ItemAt(steps, i).idx == i
  {
    hide IsHolding;
  }

  /** A unit's turns, in the order it lays them out, are the visible turns of the conversation read
      from front to back; so are the messages and replies its exchanges show. The step indices of
      its items strictly increase, newest first. */
  lemma UnitInOrder(turns: seq<Turn>, channel: string, pairs: seq<Step>, themes: seq<string>, groups: seq<Group>,
                    of: seq<nat>, raws: seq<seq<RawUnit>>, ofs: seq<seq<nat>>, view: seq<seq<Unit>>, g: nat, u: nat)
    returns (at: seq<nat>, shown: seq<nat>)
    requires Flatten(pairs) == Visible(turns, channel)
    requires Threaded(Reversed(pairs), themes, groups, of, raws, ofs, view) && g < |view| && u < |view[g]|
    ensures |raws| == |view| && |raws[g]| == |view[g]|
    ensures ReadAt(TurnsIn(Chronological(raws[g][u].items)), Visible(turns, channel), at)
    ensures ReadAt(AllShown(view[g][u].exchanges), Visible(turns, channel), shown)
    ensures forall k, l :: 0 <= k < l < |raws[g][u].items| ==> raws[g][u].items[k].idx < raws[g][u].items[l].idx
  {
    hide *;
    var steps := Reversed(pairs);
    var from := UnitSteps(steps, themes, groups, of, raws, ofs, view, g, u);
    var items := raws[g][u].items;
    var back := seq(|from|, k requires 0 <= k < |from| => |pairs| - 1 - from[k]);
    forall k | 0 <= k < |from| ensures items[k].step == pairs[back[k]] && items[k].idx == from[k] {
      ItemIs(steps, from[k]);
    }
    at := ItemsRead(pairs, items, back, |pairs|);
    var kept := KeptRead(Chronological(items));
    LayoutConserves(view[g][u].exchanges, Chronological(items));
    shown := ReadTwice(Kept(Chronological(items)), TurnsIn(Chronological(items)), Flatten(pairs), kept, at);
  }
}
