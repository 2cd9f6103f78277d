/** The whole threading pipeline, from the turns to the request units the two views show. */
module ThreadView {
  import opened Options
  import opened ThreadTurns
  import opened ThreadPairs
  import opened ThreadThemes
  import opened ThreadGroups
  import opened ThreadUnits
  import opened ThreadExchanges

  /** A finished unit and the items it was made of. */
  ghost predicate UnitFrom(u: Unit, r: RawUnit) {
    && |r.items| > 0
    && u.ticket == r.ticket && u.idx == r.items[0].idx
    && Laid(u.exchanges, Chronological(r.items))
    && u.firstInbound == (if u.exchanges == [] then None else u.exchanges[0].inbound)
    && u.ref == (if Chronological(r.items) == [] then u.firstInbound else LastTurn(Chronological(r.items)))
  }

  ghost predicate Directed(items: seq<Item>) {
    forall i :: 0 <= i < |items| ==>
      && (items[i].step.inbound.Some? ==> items[i].step.inbound.value.inbound)
      && (items[i].step.outbound.Some? ==> !items[i].step.outbound.value.inbound)
  }

  ghost predicate UnitsFrom(units: seq<Unit>, raw: seq<RawUnit>) {
    |units| == |raw| && forall u :: 0 <= u < |units| ==> UnitFrom(units[u], raw[u])
  }

  lemma DirectedPart(items: seq<Item>, raw: seq<RawUnit>, of: seq<nat>, u: nat)
    requires |of| == |items| && Merged(items, raw, of) && Directed(items) && u < |raw|
    ensures Directed(raw[u].items) && |raw[u].items| > 0
  {
    hide Merged;
    MergedParts(items, raw, of);
    assert items[..|of|] == items;
    var at := PickedFrom(items, of, u);
  }

  /** buildUnits. */
  method BuildUnits(items: seq<Item>) returns (units: seq<Unit>, ghost raw: seq<RawUnit>, ghost of: seq<nat>)
    requires Directed(items)
    ensures |of| == |items| && Merged(items, raw, of) && UnitsFrom(units, raw)
  {
    hide Merged, Laid;
    var rs;
    rs, of := Merge(items);
    raw := rs;
    units := [];
    for u := 0 to |rs|
      invariant UnitsFrom(units, rs[..u])
    {
      DirectedPart(items, raw, of, u);
      var exchanges, lastTurn := LayOut(rs[u].items);
      var firstInbound := if |exchanges| > 0 then exchanges[0].inbound else None;
      var made := Unit(rs[u].ticket, rs[u].items[0].idx, exchanges, firstInbound,
                       if lastTurn.Some? then lastTurn else firstInbound);
      assert UnitFrom(made, rs[u]);
      assert rs[..u + 1] == rs[..u] + [rs[u]];
      units := units + [made];
    }
    assert rs[..|rs|] == rs;
  }

  // ---------------------------------------------------------------- the pipeline

  /** Everything one rendering works out. `steps` is newest first. */
  ghost predicate Threaded(steps: seq<Step>, themes: seq<string>, groups: seq<Group>, of: seq<nat>,
                           raws: seq<seq<RawUnit>>, ofs: seq<seq<nat>>, view: seq<seq<Unit>>) {
    && |themes| == |of| == |steps|
    && Placed(steps, themes, ThemesOf(groups), of) && Filled(steps, groups, of)
    && |raws| == |ofs| == |view| == |groups|
    && forall g :: 0 <= g < |groups| ==>
         |ofs[g]| == |groups[g].items| && Merged(groups[g].items, raws[g], ofs[g]) && UnitsFrom(view[g], raws[g])
  }

  function Reversed<T>(s: seq<T>): (r: seq<T>)
    ensures |r| == |s| && forall i :: 0 <= i < |s| ==> r[i] == s[|s| - 1 - i]
  {
    seq(|s|, i requires 0 <= i < |s| => s[|s| - 1 - i])
  }

  lemma DirectedSteps(pairs: seq<Step>, groups: seq<Group>, of: seq<nat>, g: nat)
    requires WellPaired(pairs) && |of| == |pairs| && Filled(Reversed(pairs), groups, of) && g < |groups|
    ensures Directed(groups[g].items)
  {
    var steps := Reversed(pairs);
    var at := GroupHolds(steps, groups, of, g);
    forall k | 0 <= k < |at|
      ensures WellFormed(groups[g].items[k].step)
    {
      assert steps[at[k]] == pairs[|pairs| - 1 - at[k]];
    }
  }

  /** Pair, theme, group and merge the visible turns of a conversation. */
  method Thread(turns: seq<Turn>, channel: string, records: seq<Record>)
    returns (pairs: seq<Step>, themes: seq<string>, groups: seq<Group>, view: seq<seq<Unit>>,
             ghost m: map<string, string>, ghost of: seq<nat>, ghost raws: seq<seq<RawUnit>>, ghost ofs: seq<seq<nat>>)
    ensures WellPaired(pairs) && Flatten(pairs) == Visible(turns, channel)
    ensures Threaded(Reversed(pairs), themes, groups, of, raws, ofs, view)
    ensures forall tk :: tk in m ==> m[tk] != ""
    ensures var steps := Reversed(pairs);
            forall i :: 0 <= i < |steps| ==> Spread(m, RawIntents(steps), Tickets(steps), i, themes[i])
    ensures var steps := Reversed(pairs);
            forall tk :: tk in m <==> tk != "" && tk in Tickets(steps)
                                      && Subject(records, RawIntents(steps), Tickets(steps), tk, |steps|) != ""
  {
    hide *;
    pairs := Pair(Visible(turns, channel));
    var steps := Reversed(pairs);
    var raw, tickets := RawIntents(steps), Tickets(steps);
    var tm := TicketThemes(records, raw, tickets);
    m := tm;
    forall tk | tk in m
      ensures m[tk] != ""
    {
      ThemeNeverMissing(Subject(records, raw, tickets, tk, |raw|));
    }
    ghost var looked, same;
    themes, looked := SpreadThemes(tm, raw, tickets);
    groups, of, same := GroupSteps(steps, themes);
    view, raws, ofs := [], [], [];
    for g := 0 to |groups|
      invariant |view| == |raws| == |ofs| == g
      invariant forall h :: 0 <= h < g ==>
                  |ofs[h]| == |groups[h].items| && Merged(groups[h].items, raws[h], ofs[h]) &&
                    UnitsFrom(view[h], raws[h])
    {
      DirectedSteps(pairs, groups, of, g);
      var units;
      ghost var r, o;
      units, r, o := BuildUnits(groups[g].items);
      view, raws, ofs := view + [units], raws + [r], ofs + [o];
    }
    ThreadedWhole(steps, themes, groups, of, raws, ofs, view);
  }

  lemma ThreadedWhole(steps: seq<Step>, themes: seq<string>, groups: seq<Group>, of: seq<nat>,
                   raws: seq<seq<RawUnit>>, ofs: seq<seq<nat>>, view: seq<seq<Unit>>)
    requires |themes| == |of| == |steps|
    requires Placed(steps, themes, ThemesOf(groups), of) && Filled(steps, groups, of)
    requires |raws| == |ofs| == |view| == |groups|
    requires forall g :: 0 <= g < |groups| ==>
               |ofs[g]| == |groups[g].items| && Merged(groups[g].items, raws[g], ofs[g]) && UnitsFrom(view[g], raws[g])
    ensures Threaded(steps, themes, groups, of, raws, ofs, view)
  {
  }

  function RawIntents(steps: seq<Step>): (r: seq<string>)
    ensures |r| == |steps|
  {
    seq(|steps|, i requires 0 <= i < |steps| => RawIntent(steps[i]))
  }

  function Tickets(steps: seq<Step>): (r: seq<string>)
    ensures |r| == |steps| && forall i :: 0 <= i < |steps| ==> r[i] == TicketOf(steps[i])
  {
    seq(|steps|, i requires 0 <= i < |steps| => TicketOf(steps[i]))
  }
}
