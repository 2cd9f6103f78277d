/** Putting themed steps into groups: a returning ticket rejoins its own group. */
module ThreadGroups {
  import opened ThreadTurns
  import opened ThreadThemes

  datatype Item = Item(step: Step, idx: nat, ticket: string, offer: bool)

  datatype Group = Group(theme: string, items: seq<Item>)

  function ItemAt(steps: seq<Step>, i: nat): Item
    requires i < |steps|
  {
    Item(steps[i], i, TicketOf(steps[i]), IsOfferStep(steps[i]))
  }

  function Items(steps: seq<Step>, n: nat): (r: seq<Item>)
    requires n <= |steps|
    ensures |r| == n && forall i :: 0 <= i < n ==> r[i] == ItemAt(steps, i)
  {
    seq(n, i requires 0 <= i < n => ItemAt(steps, i))
  }

  /** The elements that `of` assigns to `g`, in their own order. */
  ghost function Picked<T>(xs: seq<T>, of: seq<nat>, g: nat): seq<T>
    requires |xs| == |of|
  {
    if xs == [] then []
    else Picked(xs[..|xs| - 1], of[..|of| - 1], g) + (if of[|of| - 1] == g then [xs[|xs| - 1]] else [])
  }

  lemma PickedPush<T>(xs: seq<T>, of: seq<nat>, x: T, o: nat, g: nat)
    requires |xs| == |of|
    ensures Picked(xs + [x], of + [o], g) == Picked(xs, of, g) + (if o == g then [x] else [])
  {
    assert (xs + [x])[..|xs|] == xs && (of + [o])[..|of|] == of;
  }

  /** Groups are only ever opened at the end: how many there are when step `i` is looked at. */
  ghost function Opened(of: seq<nat>, i: nat): nat
    requires i <= |of|
  {
    if i == 0 then 0 else if of[i - 1] + 1 > Opened(of, i - 1) then of[i - 1] + 1 else Opened(of, i - 1)
  }

  lemma {:induction false} OpenedPrefix(of: seq<nat>, o: nat, i: nat)
    requires i <= |of|
    ensures Opened(of + [o], i) == Opened(of, i)
  {
    if i > 0 {
      OpenedPrefix(of, o, i - 1);
    }
  }

  /** The ticket of step `i` was seen before. */
  ghost predicate Returning(steps: seq<Step>, i: nat)
    requires i < |steps|
  {
    TicketOf(steps[i]) != "" && exists j :: 0 <= j < i && TicketOf(steps[j]) == TicketOf(steps[i])
  }

  /** Which group step `i` belongs in: its ticket's, else the last opened one when that has its theme,
      else a new one of its theme. */
  ghost predicate PlacedAt(steps: seq<Step>, themes: seq<string>, groupThemes: seq<string>, of: seq<nat>, i: nat)
    requires i < |of| <= |steps| && |of| <= |themes|
  {
    var n := Opened(of, i);
    if Returning(steps, i) then
      forall j :: 0 <= j < i && TicketOf(steps[j]) == TicketOf(steps[i]) ==> of[i] == of[j]
    else if 0 < n <= |groupThemes| && groupThemes[n - 1] == themes[i] then of[i] == n - 1
    else of[i] == n < |groupThemes| && groupThemes[n] == themes[i]
  }

  ghost predicate Placed(steps: seq<Step>, themes: seq<string>, groupThemes: seq<string>, of: seq<nat>)
    requires |of| <= |steps| && |of| <= |themes|
  {
    && Opened(of, |of|) == |groupThemes|
    && (forall i :: 0 <= i < |of| ==> of[i] < |groupThemes| && PlacedAt(steps, themes, groupThemes, of, i))
  }

  ghost function ThemesOf(groups: seq<Group>): (r: seq<string>)
    ensures |r| == |groups| && forall g :: 0 <= g < |groups| ==> r[g] == groups[g].theme
  {
    seq(|groups|, g requires 0 <= g < |groups| => groups[g].theme)
  }

  ghost predicate Filled(steps: seq<Step>, groups: seq<Group>, of: seq<nat>)
    requires |of| <= |steps|
  {
    forall g :: 0 <= g < |groups| ==> groups[g].items == Picked(Items(steps, |of|), of, g)
  }

  /** The remembered group of each ticket seen so far. */
  ghost predicate Remembers(tg: map<string, nat>, steps: seq<Step>, of: seq<nat>)
    requires |of| <= |steps|
  {
    && "" !in tg
    && (forall i :: 0 <= i < |of| && TicketOf(steps[i]) != "" ==>
          TicketOf(steps[i]) in tg && tg[TicketOf(steps[i])] == of[i])
    && (forall tk :: tk in tg ==> exists i :: 0 <= i < |of| && TicketOf(steps[i]) == tk)
  }

  // ---------------------------------------------------------------- one step of the loop

  lemma PlacedPush(steps: seq<Step>, themes: seq<string>, gt: seq<string>, of: seq<nat>, gt': seq<string>, o: nat)
    requires |of| < |steps| == |themes| && Placed(steps, themes, gt, of)
    requires gt <= gt' && (gt' == gt || gt' == gt + [themes[|of|]])
    requires o < |gt'| && PlacedAt(steps, themes, gt', of + [o], |of|)
    requires gt' == gt ==> o < |gt|
    requires gt' != gt ==> o == |gt|
    ensures Placed(steps, themes, gt', of + [o])
  {
    hide *;
    PlacedParts(steps, themes, gt, of);
    OpenedLast(of, o);
    forall i | 0 <= i < |of|
      ensures PlacedAt(steps, themes, gt', of + [o], i)
    {
      OpenedAtMost(of, i);
      PlacedKeeps(steps, themes, gt, of, gt', o, i);
    }
    PlacedWhole(steps, themes, gt', of + [o]);
  }

  lemma PlacedParts(steps: seq<Step>, themes: seq<string>, gt: seq<string>, of: seq<nat>)
    requires |of| <= |steps| == |themes| && Placed(steps, themes, gt, of)
    ensures Opened(of, |of|) == |gt|
    ensures forall i :: 0 <= i < |of| ==> of[i] < |gt| && PlacedAt(steps, themes, gt, of, i)
  {
  }

  lemma PlacedWhole(steps: seq<Step>, themes: seq<string>, gt: seq<string>, of: seq<nat>)
    requires |of| <= |steps| == |themes| && Opened(of, |of|) == |gt|
    requires forall i :: 0 <= i < |of| ==> of[i] < |gt| && PlacedAt(steps, themes, gt, of, i)
    ensures Placed(steps, themes, gt, of)
  {
  }

  lemma OpenedLast(of: seq<nat>, o: nat)
    ensures Opened(of + [o], |of| + 1) == if o + 1 > Opened(of, |of|) then o + 1 else Opened(of, |of|)
  {
    OpenedPrefix(of, o, |of|);
  }

  /** Later steps do not disturb where an earlier one was placed. */
  lemma PlacedKeeps(steps: seq<Step>, themes: seq<string>, gt: seq<string>, of: seq<nat>, gt': seq<string>, o: nat,
    i: nat)
    requires i < |of| < |steps| == |themes| && PlacedAt(steps, themes, gt, of, i)
    requires gt <= gt' && Opened(of, i) <= |gt| && of[i] < |gt|
    ensures PlacedAt(steps, themes, gt', of + [o], i)
  {
    OpenedPrefix(of, o, i);
    hide Opened, TicketOf;
    var n, of' := Opened(of, i), of + [o];
    assert forall j :: 0 <= j < |of| ==> of'[j] == of[j];
    assert forall k :: 0 <= k < |gt| ==> gt'[k] == gt[k];
  }

  lemma {:induction false} OpenedAtMost(of: seq<nat>, i: nat)
    requires i <= |of|
    ensures Opened(of, i) <= Opened(of, |of|)
    decreases |of| - i
  {
    if i < |of| {
      OpenedAtMost(of, i + 1);
    }
  }

  lemma FilledPush(steps: seq<Step>, groups: seq<Group>, of: seq<nat>, o: nat, groups': seq<Group>)
    requires |of| < |steps| && Filled(steps, groups, of)
    requires o < |groups'| && |groups| <= |groups'| <= |groups| + 1
    requires forall g :: 0 <= g < |groups| && g != o ==> groups'[g].items == groups[g].items
    requires o < |groups| ==> groups'[o].items == groups[o].items + [ItemAt(steps, |of|)]
    requires |groups'| > |groups| ==> o == |groups| && groups'[o].items == [ItemAt(steps, |of|)]
    requires forall i :: 0 <= i < |of| ==> of[i] < |groups|
    ensures Filled(steps, groups', of + [o])
  {
    var n := |of|;
    assert Items(steps, n + 1) == Items(steps, n) + [ItemAt(steps, n)];
    forall g | 0 <= g < |groups'|
      ensures groups'[g].items == Picked(Items(steps, n + 1), of + [o], g)
    {
      PickedPush(Items(steps, n), of, ItemAt(steps, n), o, g);
      if g == |groups| {
        PickedNone(Items(steps, n), of, g);
      }
    }
  }

  lemma {:induction false} PickedNone<T>(xs: seq<T>, of: seq<nat>, g: nat)
    requires |xs| == |of| && forall i :: 0 <= i < |of| ==> of[i] != g
    ensures Picked(xs, of, g) == []
  {
    if xs != [] {
      PickedNone(xs[..|xs| - 1], of[..|of| - 1], g);
    }
  }

  lemma RememberPush(tg: map<string, nat>, steps: seq<Step>, of: seq<nat>, o: nat)
    requires |of| < |steps| && Remembers(tg, steps, of)
    requires TicketOf(steps[|of|]) in tg ==> tg[TicketOf(steps[|of|])] == o
    ensures var tk := TicketOf(steps[|of|]);
            Remembers(if tk != "" then tg[tk := o] else tg, steps, of + [o])
  {
    var tk := TicketOf(steps[|of|]);
    var tg' := if tk != "" then tg[tk := o] else tg;
    forall t | t in tg'
      ensures exists i :: 0 <= i < |of + [o]| && TicketOf(steps[i]) == t
    {
      if t == tk {
        assert TicketOf(steps[|of|]) == t;
      } else {
        var i :| 0 <= i < |of| && TicketOf(steps[i]) == t;
      }
    }
  }

  /** A ticket is remembered exactly when the step is a returning one. */
  lemma ReturningIff(tg: map<string, nat>, steps: seq<Step>, of: seq<nat>)
    requires |of| < |steps| && Remembers(tg, steps, of)
    ensures TicketOf(steps[|of|]) in tg <==> Returning(steps, |of|)
    ensures Returning(steps, |of|) ==>
              forall j :: 0 <= j < |of| && TicketOf(steps[j]) == TicketOf(steps[|of|]) ==>
                of[j] == tg[TicketOf(steps[|of|])]
  {
  }

  /** The grouping loop. `same` says whether the test for "same ticket as the previous step" was
      ever true where the source reaches it: it never is. */
  method GroupSteps(steps: seq<Step>, themes: seq<string>)
    returns (groups: seq<Group>, ghost of: seq<nat>, ghost same: bool)
    requires |themes| == |steps|
    ensures |of| == |steps| && Placed(steps, themes, ThemesOf(groups), of) && Filled(steps, groups, of)
    ensures !same
  {
    hide *;
    groups, of, same := [], [], false;
    var tg: map<string, nat> := map[];
    var prev := "";
    GroupStart(steps, themes);
    for idx := 0 to |steps|
      invariant |of| == idx && !same
      invariant Placed(steps, themes, ThemesOf(groups), of) && Filled(steps, groups, of) && Remembers(tg, steps, of)
      invariant prev != "" ==> prev in tg
    {
      var item, th := ItemAt(steps, idx), themes[idx];
      ItemFields(steps, idx);
      var tkt := item.ticket;
      ghost var before := groups;
      PlacedBounds(steps, themes, ThemesOf(groups), of);
      ReturningIff(tg, steps, of);
      RememberedBounds(tg, steps, of);
      var g: nat;
      if tkt != "" && tkt in tg {
        g := tg[tkt];
        groups := groups[g := Group(groups[g].theme, groups[g].items + [item])];
        PlacedReturning(steps, themes, ThemesOf(before), of, g);
      } else {
        var sameTicket := tkt != "" && prev != "" && tkt == prev;
        same := same || sameTicket;
        if |groups| == 0 || (groups[|groups| - 1].theme != th && !sameTicket) {
          groups := groups + [Group(th, [item])];
          g := |groups| - 1;
          PlacedNew(steps, themes, ThemesOf(before), of);
          assert ThemesOf(groups) == ThemesOf(before) + [th];
        } else {
          g := |groups| - 1;
          groups := groups[g := Group(groups[g].theme, groups[g].items + [item])];
          PlacedLast(steps, themes, ThemesOf(before), of);
        }
      }
      assert |groups| == |before| ==> ThemesOf(groups) == ThemesOf(before);
      FilledPush(steps, before, of, g, groups);
      RememberPush(tg, steps, of, g);
      assert tkt in tg ==> tg[tkt := g] == tg;
      if tkt != "" && tkt !in tg {
        tg := tg[tkt := g];
      }
      prev := tkt;
      of := of + [g];
    }
  }

  lemma GroupStart(steps: seq<Step>, themes: seq<string>)
    requires |themes| == |steps|
    ensures Placed(steps, themes, ThemesOf([]), []) && Filled(steps, [], []) && Remembers(map[], steps, [])
  {
  }

  lemma ItemFields(steps: seq<Step>, i: nat)
    requires i < |steps|
    ensures ItemAt(steps, i).ticket == TicketOf(steps[i])
  {
  }

  lemma PlacedBounds(steps: seq<Step>, themes: seq<string>, gt: seq<string>, of: seq<nat>)
    requires |of| <= |steps| == |themes| && Placed(steps, themes, gt, of)
    ensures forall i :: 0 <= i < |of| ==> of[i] < |gt|
  {
  }

  lemma RememberedBounds(tg: map<string, nat>, steps: seq<Step>, of: seq<nat>)
    requires |of| <= |steps| && Remembers(tg, steps, of)
    ensures "" !in tg && forall tk :: tk in tg ==> exists i :: 0 <= i < |of| && tg[tk] == of[i]
  {
    forall tk | tk in tg
      ensures exists i :: 0 <= i < |of| && tg[tk] == of[i]
    {
      var i :| 0 <= i < |of| && TicketOf(steps[i]) == tk;
      assert tg[tk] == of[i];
    }
  }

  lemma PlacedHere(steps: seq<Step>, themes: seq<string>, gt: seq<string>, of: seq<nat>, gt': seq<string>, o: nat)
    requires |of| < |steps| == |themes| && Opened(of, |of|) == |gt| && !Returning(steps, |of|)
    requires if |gt| > 0 && gt[|gt| - 1] == themes[|of|] then gt' == gt && o == |gt| - 1
             else gt' == gt + [themes[|of|]] && o == |gt|
    ensures PlacedAt(steps, themes, gt', of + [o], |of|)
  {
    OpenedPrefix(of, o, |of|);
    hide Opened, TicketOf;
  }

  lemma PlacedReturning(steps: seq<Step>, themes: seq<string>, gt: seq<string>, of: seq<nat>, g: nat)
    requires |of| < |steps| == |themes| && Placed(steps, themes, gt, of) && g < |gt| && Returning(steps, |of|)
    requires forall j :: 0 <= j < |of| && TicketOf(steps[j]) == TicketOf(steps[|of|]) ==> of[j] == g
    ensures Placed(steps, themes, gt, of + [g])
  {
    PlacedPush(steps, themes, gt, of, gt, g);
  }

  lemma PlacedNew(steps: seq<Step>, themes: seq<string>, gt: seq<string>, of: seq<nat>)
    requires |of| < |steps| == |themes| && Placed(steps, themes, gt, of) && !Returning(steps, |of|)
    requires |gt| > 0 ==> gt[|gt| - 1] != themes[|of|]
    ensures Placed(steps, themes, gt + [themes[|of|]], of + [|gt|])
  {
    hide *;
    PlacedParts(steps, themes, gt, of);
    PlacedHere(steps, themes, gt, of, gt + [themes[|of|]], |gt|);
    PlacedPush(steps, themes, gt, of, gt + [themes[|of|]], |gt|);
  }

  lemma PlacedLast(steps: seq<Step>, themes: seq<string>, gt: seq<string>, of: seq<nat>)
    requires |of| < |steps| == |themes| && Placed(steps, themes, gt, of) && !Returning(steps, |of|)
    requires |gt| > 0 && gt[|gt| - 1] == themes[|of|]
    ensures Placed(steps, themes, gt, of + [|gt| - 1])
  {
    hide *;
    PlacedParts(steps, themes, gt, of);
    PlacedHere(steps, themes, gt, of, gt, |gt| - 1);
    PlacedPush(steps, themes, gt, of, gt, |gt| - 1);
  }

  // ---------------------------------------------------------------- what the placement means

  lemma ReturnsTo(steps: seq<Step>, themes: seq<string>, gt: seq<string>, of: seq<nat>, i: nat, j: nat)
    requires i < j < |of| == |steps| == |themes| && PlacedAt(steps, themes, gt, of, j)
    requires TicketOf(steps[i]) == TicketOf(steps[j]) != ""
    ensures of[i] == of[j]
  {
    hide Opened, TicketOf;
    assert Returning(steps, j);
  }

  /** However topics interleave, all the steps of a ticket are in one group. */
  lemma TicketTogether(steps: seq<Step>, themes: seq<string>, gt: seq<string>, of: seq<nat>, i: nat, j: nat)
    requires |of| == |steps| == |themes| && Placed(steps, themes, gt, of)
    requires i < |of| && j < |of| && TicketOf(steps[i]) == TicketOf(steps[j]) != ""
    ensures of[i] == of[j]
  {
    hide *;
    PlacedParts(steps, themes, gt, of);
    if i < j {
      ReturnsTo(steps, themes, gt, of, i, j);
    } else if j < i {
      ReturnsTo(steps, themes, gt, of, j, i);
    }
  }

  /** A step has its group's theme whenever the steps of its ticket agree on one. */
  lemma {:induction false} GroupTheme(steps: seq<Step>, themes: seq<string>, gt: seq<string>, of: seq<nat>, i: nat)
    requires |of| == |steps| == |themes| && Placed(steps, themes, gt, of) && i < |of|
    requires forall j :: 0 <= j < |steps| && TicketOf(steps[j]) == TicketOf(steps[i]) != "" ==> themes[j] == themes[i]
    ensures gt[of[i]] == themes[i]
  {
    hide Opened, TicketOf;
    assert PlacedAt(steps, themes, gt, of, i);
    if Returning(steps, i) {
      var j :| 0 <= j < i && TicketOf(steps[j]) == TicketOf(steps[i]);
      assert of[i] == of[j];
      GroupTheme(steps, themes, gt, of, j);
    }
  }

  /** A ticket with a subject decides the theme of every group member that carries it; an unticketed
      member has the group's theme anyway. So only steps of a ticket with no subject can differ. */
  lemma MemberTheme(steps: seq<Step>, m: map<string, string>, raw: seq<string>, tickets: seq<string>,
                    themes: seq<string>, gt: seq<string>, of: seq<nat>, i: nat)
    requires |of| == |steps| == |themes| == |raw| == |tickets| && i < |of|
    requires forall j :: 0 <= j < |steps| ==> tickets[j] == TicketOf(steps[j])
    requires forall tk :: tk in m ==> m[tk] != ""
    requires forall j :: 0 <= j < |steps| ==> Spread(m, raw, tickets, j, themes[j])
    requires Placed(steps, themes, gt, of)
    requires tickets[i] == "" || tickets[i] in m
    ensures gt[of[i]] == themes[i]
  {
    forall j | 0 <= j < |steps| && TicketOf(steps[j]) == TicketOf(steps[i]) != ""
      ensures themes[j] == themes[i]
    {
      assert NearestBefore(m, raw, tickets, i, i) && NearestBefore(m, raw, tickets, j, j);
    }
    GroupTheme(steps, themes, gt, of, i);
  }

  /** The k-th element picked comes from a position assigned to `g`, and those positions increase. */
  lemma {:induction false} PickedFrom<T>(xs: seq<T>, of: seq<nat>, g: nat) returns (at: seq<nat>)
    requires |xs| == |of|
    ensures |at| == |Picked(xs, of, g)|
    ensures forall k :: 0 <= k < |at| ==> at[k] < |xs| && of[at[k]] == g && Picked(xs, of, g)[k] == xs[at[k]]
    ensures forall k, l :: 0 <= k < l < |at| ==> at[k] < at[l]
    ensures forall i :: 0 <= i < |xs| && of[i] == g ==> i in at
  {
    if xs == [] {
      at := [];
    } else {
      var n := |xs| - 1;
      var before := PickedFrom(xs[..n], of[..n], g);
      at := before + (if of[n] == g then [n] else []);
      forall i | 0 <= i < |xs| && of[i] == g
        ensures i in at
      {
        if i == n {
          assert at[|before|] == n;
        } else {
          assert of[..n][i] == g;
        }
      }
    }
  }

  /** Inside a group the steps keep their order, and a step is in its own group once and in no other. */
  lemma GroupHolds(steps: seq<Step>, groups: seq<Group>, of: seq<nat>, g: nat) returns (at: seq<nat>)
    requires |of| == |steps| && Filled(steps, groups, of) && g < |groups|
    ensures |at| == |groups[g].items|
    ensures forall k :: 0 <= k < |at| ==>
              at[k] < |steps| && of[at[k]] == g && groups[g].items[k] == ItemAt(steps, at[k])
    ensures forall k, l :: 0 <= k < l < |at| ==> at[k] < at[l] && groups[g].items[k].idx < groups[g].items[l].idx
    ensures forall i :: 0 <= i < |steps| && of[i] == g ==> i in at
  {
    at := PickedFrom(Items(steps, |of|), of, g);
  }

  lemma {:induction false} OpenedAbove(of: seq<nat>, i: nat, j: nat)
    requires j < i <= |of|
    ensures of[j] < Opened(of, i)
  {
    if j < i - 1 {
      OpenedAbove(of, i - 1, j);
    }
  }

  lemma PlacedAtMost(steps: seq<Step>, themes: seq<string>, gt: seq<string>, of: seq<nat>, i: nat)
    requires |of| <= |steps| == |themes| && i < |of| && PlacedAt(steps, themes, gt, of, i)
    ensures of[i] <= Opened(of, i)
  {
    if Returning(steps, i) {
      var j :| 0 <= j < i && TicketOf(steps[j]) == TicketOf(steps[i]);
      OpenedAbove(of, i, j);
    }
  }

  /** No group is empty, ... */
  lemma GroupNotEmpty(steps: seq<Step>, themes: seq<string>, groups: seq<Group>, of: seq<nat>, g: nat)
    requires |of| == |steps| == |themes| && Placed(steps, themes, ThemesOf(groups), of) && Filled(steps, groups, of)
    requires g < |groups|
    ensures |groups[g].items| > 0
  {
    hide *;
    PlacedParts(steps, themes, ThemesOf(groups), of);
    forall k | 0 <= k < |of|
      ensures of[k] <= Opened(of, k)
    {
      PlacedAtMost(steps, themes, ThemesOf(groups), of, k);
    }
    var i := OpenedHas(of, |of|, g);
    var at := GroupHolds(steps, groups, of, g);
  }

  /** ... and the first one starts with step 0. */
  lemma FirstGroup(steps: seq<Step>, themes: seq<string>, groups: seq<Group>, of: seq<nat>)
    requires |of| == |steps| == |themes| && Placed(steps, themes, ThemesOf(groups), of) && Filled(steps, groups, of)
    requires |steps| > 0
    ensures |groups| > 0 && of[0] == 0 && |groups[0].items| > 0 && groups[0].items[0] == ItemAt(steps, 0)
  {
    hide *;
    PlacedParts(steps, themes, ThemesOf(groups), of);
    PlacedAtMost(steps, themes, ThemesOf(groups), of, 0);
    OpenedZero(of);
    var at := GroupHolds(steps, groups, of, 0);
    assert 0 in at;
    var k :| 0 <= k < |at| && at[k] == 0;
    assert at[0] <= at[k];
  }

  lemma OpenedZero(of: seq<nat>)
    ensures Opened(of, 0) == 0
  {
  }

  lemma OpenedUnfold(of: seq<nat>, n: nat)
    requires n <= |of|
    ensures Opened(of, n) == if n == 0 then 0 else if of[n - 1] + 1 > Opened(of, n - 1) then of[n - 1] + 1
      else Opened(of, n - 1)
  {
  }

  lemma {:induction false} OpenedHas(of: seq<nat>, n: nat, g: nat) returns (i: nat)
    requires n <= |of| && g < Opened(of, n)
    requires forall k :: 0 <= k < n ==> of[k] <= Opened(of, k)
    ensures i < n && of[i] == g
  {
    hide Opened;
    OpenedUnfold(of, n);
    if of[n - 1] == g {
      i := n - 1;
    } else {
      assert of[n - 1] <= Opened(of, n - 1);
      i := OpenedHas(of, n - 1, g);
    }
  }
}
