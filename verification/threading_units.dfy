/** Merging a group's items into request units, and a unit's turns into exchanges. */
module ThreadUnits {
  import opened Options
  import opened ThreadTurns
  import opened ThreadGroups

  /** A unit before its exchanges are laid out. */
  datatype RawUnit = RawUnit(key: string, ticket: string, items: seq<Item>)

  datatype Exchange = Exchange(inbound: Option<Turn>, holdingText: Option<string>, reply: Option<Turn>,
    ref: Option<Turn>)

  datatype Unit = Unit(ticket: string, idx: nat, exchanges: seq<Exchange>, firstInbound: Option<Turn>,
    ref: Option<Turn>)

  /** What merges items into one unit: an offer's draft, anything else's ticket. */
  function KeyOf(it: Item): string {
    if it.offer then OfferDraftId(it.step) else it.ticket
  }

  function UnitTicket(it: Item): string {
    if it.offer then "" else it.ticket
  }

  ghost predicate KeySeen(items: seq<Item>, i: nat)
    requires i < |items|
  {
    KeyOf(items[i]) != "" && exists j :: 0 <= j < i && KeyOf(items[j]) == KeyOf(items[i])
  }

  /** Which unit item `i` belongs in: that of its key, else a new one. */
  ghost predicate MergedAt(items: seq<Item>, of: seq<nat>, i: nat)
    requires i < |of| <= |items|
  {
    if KeySeen(items, i) then forall j :: 0 <= j < i && KeyOf(items[j]) == KeyOf(items[i]) ==> of[i] == of[j]
    else of[i] == Opened(of, i)
  }

  ghost predicate Merged(items: seq<Item>, units: seq<RawUnit>, of: seq<nat>)
    requires |of| <= |items|
  {
    && Opened(of, |of|) == |units|
    && (forall i :: 0 <= i < |of| ==> of[i] < |units| && MergedAt(items, of, i))
    && (forall u :: 0 <= u < |units| ==> units[u].items == Picked(items[..|of|], of, u))
    && (forall u :: 0 <= u < |units| ==>
          |units[u].items| > 0 && units[u].key == KeyOf(units[u].items[0]) &&
            units[u].ticket == UnitTicket(units[u].items[0]))
  }

  ghost predicate Keyed(byKey: map<string, nat>, items: seq<Item>, of: seq<nat>)
    requires |of| <= |items|
  {
    && "" !in byKey
    && (forall i :: 0 <= i < |of| && KeyOf(items[i]) != "" ==>
          KeyOf(items[i]) in byKey && byKey[KeyOf(items[i])] == of[i])
    && (forall k :: k in byKey ==> exists i :: 0 <= i < |of| && KeyOf(items[i]) == k)
  }

  lemma MergedStart(items: seq<Item>)
    ensures Merged(items, [], []) && Keyed(map[], items, [])
  {
  }

  lemma KeySeenIff(byKey: map<string, nat>, items: seq<Item>, of: seq<nat>)
    requires |of| < |items| && Keyed(byKey, items, of)
    ensures "" !in byKey && (KeyOf(items[|of|]) in byKey <==> KeySeen(items, |of|))
    ensures KeySeen(items, |of|) ==>
              forall j :: 0 <= j < |of| && KeyOf(items[j]) == KeyOf(items[|of|]) ==> of[j] == byKey[KeyOf(items[|of|])]
  {
  }

  lemma KeyedBounds(byKey: map<string, nat>, items: seq<Item>, units: seq<RawUnit>, of: seq<nat>)
    requires |of| <= |items| && Keyed(byKey, items, of) && Merged(items, units, of)
    ensures forall k :: k in byKey ==> byKey[k] < |units|
  {
    forall k | k in byKey
      ensures byKey[k] < |units|
    {
      var i :| 0 <= i < |of| && KeyOf(items[i]) == k;
    }
  }

  lemma KeyedPush(byKey: map<string, nat>, items: seq<Item>, of: seq<nat>, o: nat)
    requires |of| < |items| && Keyed(byKey, items, of)
    requires KeyOf(items[|of|]) in byKey ==> byKey[KeyOf(items[|of|])] == o
    ensures var k := KeyOf(items[|of|]);
            Keyed(if k != "" then byKey[k := o] else byKey, items, of + [o])
  {
    var k := KeyOf(items[|of|]);
    var byKey' := if k != "" then byKey[k := o] else byKey;
    forall t | t in byKey'
      ensures exists i :: 0 <= i < |of + [o]| && KeyOf(items[i]) == t
    {
      if t == k {
        assert KeyOf(items[|of|]) == t;
      } else {
        var i :| 0 <= i < |of| && KeyOf(items[i]) == t;
      }
    }
  }

  lemma MergedAtKeeps(items: seq<Item>, of: seq<nat>, o: nat, i: nat)
    requires i < |of| < |items| && MergedAt(items, of, i)
    ensures MergedAt(items, of + [o], i)
  {
    OpenedPrefix(of, o, i);
    hide Opened, KeyOf;
    assert forall j :: 0 <= j < |of| ==> (of + [o])[j] == of[j];
  }

  lemma MergedNow(items: seq<Item>, of: seq<nat>, o: nat)
    requires |of| < |items|
    requires if KeySeen(items, |of|) then forall j :: 0 <= j < |of| && KeyOf(items[j]) == KeyOf(items[|of|]) ==>
      of[j] == o
             else o == Opened(of, |of|)
    ensures MergedAt(items, of + [o], |of|)
  {
    OpenedPrefix(of, o, |of|);
    hide Opened, KeyOf;
  }

  lemma MergedPush(items: seq<Item>, units: seq<RawUnit>, of: seq<nat>, units': seq<RawUnit>, o: nat)
    requires |of| < |items| && Merged(items, units, of) && MergedAt(items, of + [o], |of|)
    requires o < |units'| && |units| <= |units'| <= |units| + 1
    requires forall u :: 0 <= u < |units| && u != o ==> units'[u] == units[u]
    requires o < |units| ==> units'[o] == units[o].(items := units[o].items + [items[|of|]]) && |units'| == |units|
    requires o >= |units| ==> units'[o] == RawUnit(KeyOf(items[|of|]), UnitTicket(items[|of|]), [items[|of|]])
    ensures Merged(items, units', of + [o])
  {
    hide *;
    MergedParts(items, units, of);
    OpenedLast(of, o);
    forall i | 0 <= i < |of + [o]|
      ensures MergedAt(items, of + [o], i)
    {
      if i < |of| {
        MergedAtKeeps(items, of, o, i);
      }
    }
    MergedItems(items, units, of, units', o);
    MergedOpened(items, of, o);
    MergedWhole(items, units', of + [o]);
  }

  lemma MergedOpened(items: seq<Item>, of: seq<nat>, o: nat)
    requires |of| < |items| && MergedAt(items, of + [o], |of|)
    ensures !KeySeen(items, |of|) ==> o == Opened(of, |of|)
    ensures KeySeen(items, |of|) ==> exists j :: 0 <= j < |of| && of[j] == o
  {
    OpenedPrefix(of, o, |of|);
    hide Opened, KeyOf;
    if KeySeen(items, |of|) {
      var j :| 0 <= j < |of| && KeyOf(items[j]) == KeyOf(items[|of|]);
      assert (of + [o])[j] == of[j] && (of + [o])[|of|] == o;
    }
  }

  lemma PickedMore(items: seq<Item>, of: seq<nat>, o: nat, u: nat, picked: seq<Item>)
    requires |of| < |items| && Picked(items[..|of|], of, u) == picked
    ensures Picked(items[..|of| + 1], of + [o], u) == if o == u then picked + [items[|of|]] else picked
  {
    hide *;
    assert items[..|of| + 1] == items[..|of|] + [items[|of|]];
    PickedPush(items[..|of|], of, items[|of|], o, u);
  }

  lemma MergedItems(items: seq<Item>, units: seq<RawUnit>, of: seq<nat>, units': seq<RawUnit>, o: nat)
    requires |of| < |items|
    requires forall i :: 0 <= i < |of| ==> of[i] < |units|
    requires forall u :: 0 <= u < |units| ==> units[u].items == Picked(items[..|of|], of, u)
    requires o < |units'| && |units| <= |units'| <= |units| + 1
    requires forall u :: 0 <= u < |units| && u != o ==> units'[u] == units[u]
    requires o < |units| ==> units'[o].items == units[o].items + [items[|of|]] && |units'| == |units|
    requires o >= |units| ==> units'[o].items == [items[|of|]]
    ensures forall u :: 0 <= u < |units'| ==> units'[u].items == Picked(items[..|of| + 1], of + [o], u)
  {
    hide *;
    forall u: nat | u < |units'|
      ensures units'[u].items == Picked(items[..|of| + 1], of + [o], u)
    {
      if u == |units| {
        PickedNone(items[..|of|], of, u);
        PickedMore(items, of, o, u, []);
      } else {
        PickedMore(items, of, o, u, units[u].items);
      }
    }
  }

  lemma MergedWhole(items: seq<Item>, units: seq<RawUnit>, of: seq<nat>)
    requires |of| <= |items| && Opened(of, |of|) == |units|
    requires forall i :: 0 <= i < |of| ==> of[i] < |units| && MergedAt(items, of, i)
    requires forall u :: 0 <= u < |units| ==> units[u].items == Picked(items[..|of|], of, u) && |units[u].items| > 0
    requires forall u :: 0 <= u < |units| ==>
               units[u].key == KeyOf(units[u].items[0]) && units[u].ticket == UnitTicket(units[u].items[0])
    ensures Merged(items, units, of)
  {
  }

  lemma MergedParts(items: seq<Item>, units: seq<RawUnit>, of: seq<nat>)
    requires |of| <= |items| && Merged(items, units, of)
    ensures Opened(of, |of|) == |units|
    ensures forall i :: 0 <= i < |of| ==> of[i] < |units| && MergedAt(items, of, i)
    ensures forall u :: 0 <= u < |units| ==> units[u].items == Picked(items[..|of|], of, u) && |units[u].items| > 0
    ensures forall u :: 0 <= u < |units| ==>
              units[u].key == KeyOf(units[u].items[0]) && units[u].ticket == UnitTicket(units[u].items[0])
  {
  }

  /** The merging loop of buildUnits. */
  method Merge(items: seq<Item>) returns (units: seq<RawUnit>, ghost of: seq<nat>)
    ensures |of| == |items| && Merged(items, units, of)
  {
    hide *;
    units, of := [], [];
    var byKey: map<string, nat> := map[];
    MergedStart(items);
    for n := 0 to |items|
      invariant |of| == n && Merged(items, units, of) && Keyed(byKey, items, of)
    {
      var it := items[n];
      var key := KeyOf(it);
      ghost var before := units;
      KeySeenIff(byKey, items, of);
      KeyedBounds(byKey, items, units, of);
      MergedParts(items, units, of);
      var u: nat;
      if key != "" && key in byKey {
        u := byKey[key];
        units := units[u := units[u].(items := units[u].items + [it])];
      } else {
        u := |units|;
        units := units + [RawUnit(key, UnitTicket(it), [it])];
      }
      MergedNow(items, of, u);
      MergedPush(items, before, of, units, u);
      KeyedPush(byKey, items, of, u);
      assert key in byKey ==> byKey[key := u] == byKey;
      if key != "" && key !in byKey {
        byKey := byKey[key := u];
      }
      of := of + [u];
    }
  }
}
