/** Unit keys, and the one request the Detailed view shows. */
module ThreadFocus {
  import opened Options
  import opened ThreadTurns
  import opened ThreadPairs
  import opened ThreadGroups
  import opened ThreadUnits
  import opened ThreadExchanges
  import opened ThreadView
  import opened ThreadTheorems

  // ---------------------------------------------------------------- keys

  function Digit(d: nat): char
    requires d < 10
  {
    '0' + d as char
  }

  /** The decimal digits of a number, as string concatenation writes them. */
  function Decimal(n: nat): (s: string)
    ensures s != ""
  {
    if n < 10 then [Digit(n)] else Decimal(n / 10) + [Digit(n % 10)]
  }

  lemma {:induction false} DecimalInjective(a: nat, b: nat)
    requires Decimal(a) == Decimal(b)
    ensures a == b
  {
    DecimalLength(a);
    DecimalLength(b);
    if a >= 10 && b >= 10 {
      var x, y := Decimal(a), Decimal(b);
      assert x[..|x| - 1] == Decimal(a / 10) && y[..|y| - 1] == Decimal(b / 10);
      DecimalInjective(a / 10, b / 10);
      assert x[|x| - 1] == Digit(a % 10) && y[|y| - 1] == Digit(b % 10);
    }
  }

  lemma DecimalLength(a: nat)
    ensures |Decimal(a)| == 1 <==> a < 10
  {
  }

  function IndexKey(idx: nat): string {
    "u" + Decimal(idx)
  }

  /** The key of a request: its ticket, else its newest step. */
  function UnitKey(u: Unit): string {
    if u.ticket != "" then u.ticket else IndexKey(u.idx)
  }

  lemma IndexKeyInjective(a: nat, b: nat)
    requires IndexKey(a) == IndexKey(b)
    ensures a == b
  {
    assert IndexKey(a)[1..] == Decimal(a) && IndexKey(b)[1..] == Decimal(b);
    DecimalInjective(a, b);
  }

  /** Ticket ids do not look like index keys. (Theirs start with `tkt_`.) */
  ghost predicate TicketsNamed(steps: seq<Step>) {
    forall i, n: nat :: 0 <= i < |steps| && !IsOfferStep(steps[i]) ==> TicketOf(steps[i]) != IndexKey(n)
  }

  // ---------------------------------------------------------------- where a unit starts

  /** The step a unit starts with: its newest. */
  lemma UnitStart(steps: seq<Step>, themes: seq<string>, groups: seq<Group>, of: seq<nat>, raws: seq<seq<RawUnit>>,
                  ofs: seq<seq<nat>>, view: seq<seq<Unit>>, g: nat, u: nat) returns (p: nat, i: nat)
    requires Threaded(steps, themes, groups, of, raws, ofs, view) && g < |view| && u < |view[g]|
    ensures |of| == |steps| && |ofs| == |groups| == |raws| == |view| && |raws[g]| == |view[g]|
    ensures |ofs[g]| == |groups[g].items| && p < |groups[g].items| && i < |steps|
    ensures of[i] == g && groups[g].items[p] == ItemAt(steps, i) && ofs[g][p] == u
    ensures |raws[g][u].items| > 0 && raws[g][u].items[0] == ItemAt(steps, i)
    ensures view[g][u].ticket == UnitTicket(ItemAt(steps, i)) && view[g][u].idx == i
  {
    hide *;
    ThreadedParts(steps, themes, groups, of, raws, ofs, view);
    ThreadedAt(steps, themes, groups, of, raws, ofs, view, g);
    UnitsCount(view[g], raws[g]);
    MergedParts(groups[g].items, raws[g], ofs[g]);
    assert groups[g].items[..|ofs[g]|] == groups[g].items;
    var at := PickedFrom(groups[g].items, ofs[g], u);
    p := at[0];
    var at' := GroupHolds(steps, groups, of, g);
    i := at'[p];
    UnitFields(view[g], raws[g], u);
    ItemFieldsAll(steps, i);
  }

  lemma UnitFields(units: seq<Unit>, raw: seq<RawUnit>, u: nat)
    requires UnitsFrom(units, raw) && u < |units|
    ensures |units| == |raw| && |raw[u].items| > 0
    ensures units[u].ticket == raw[u].ticket && units[u].idx == raw[u].items[0].idx
  {
    assert UnitFrom(units[u], raw[u]);
  }

  lemma ItemFieldsAll(steps: seq<Step>, i: nat)
    requires i < |steps|
    ensures var it := ItemAt(steps, i);
            it.idx == i && it.ticket == TicketOf(steps[i]) && it.offer == IsOfferStep(steps[i])
  {
  }

  lemma KeyIs(it: Item)
    ensures !it.offer ==> KeyOf(it) == it.ticket && UnitTicket(it) == it.ticket
    ensures it.offer ==> UnitTicket(it) == ""
  {
  }

  /** Items with the same key are merged into one unit. */
  lemma SameKeySameUnit(items: seq<Item>, raw: seq<RawUnit>, of: seq<nat>, p: nat, q: nat)
    requires |of| == |items| && Merged(items, raw, of) && p < |items| && q < |items|
    requires KeyOf(items[p]) == KeyOf(items[q]) != ""
    ensures of[p] == of[q]
  {
    hide *;
    var lo, hi := if p < q then p else q, if p < q then q else p;
    MergedParts(items, raw, of);
    if lo < hi {
      JoinsEarlier(items, of, lo, hi);
    }
  }

  lemma JoinsEarlier(items: seq<Item>, of: seq<nat>, lo: nat, hi: nat)
    requires lo < hi < |of| == |items| && MergedAt(items, of, hi) && KeyOf(items[lo]) == KeyOf(items[hi]) != ""
    ensures of[lo] == of[hi]
  {
    hide KeyOf, Opened;
    assert KeySeen(items, hi);
  }

  /** However topics interleave, all the steps of a ticket (offers aside) are in one group, and in that
      group in one unit. */
  lemma TicketInOneUnit(steps: seq<Step>, themes: seq<string>, groups: seq<Group>, of: seq<nat>,
    raws: seq<seq<RawUnit>>,
                        ofs: seq<seq<nat>>, view: seq<seq<Unit>>, i: nat, j: nat) returns (g: nat, p: nat, q: nat)
    requires Threaded(steps, themes, groups, of, raws, ofs, view) && i < |steps| && j < |steps|
    requires TicketOf(steps[i]) == TicketOf(steps[j]) != "" && !IsOfferStep(steps[i]) && !IsOfferStep(steps[j])
    ensures |of| == |steps| && of[i] == of[j] == g < |groups| == |ofs| && |ofs[g]| == |groups[g].items|
    ensures p < |groups[g].items| && q < |groups[g].items|
    ensures groups[g].items[p] == ItemAt(steps, i) && groups[g].items[q] == ItemAt(steps, j) && ofs[g][p] == ofs[g][q]
  {
    hide *;
    ThreadedParts(steps, themes, groups, of, raws, ofs, view);
    TicketTogether(steps, themes, ThemesOf(groups), of, i, j);
    PlacedBounds(steps, themes, ThemesOf(groups), of);
    g := of[i];
    ThreadedAt(steps, themes, groups, of, raws, ofs, view, g);
    var at := GroupHolds(steps, groups, of, g);
    p :| 0 <= p < |at| && at[p] == i;
    q :| 0 <= q < |at| && at[q] == j;
    ItemFieldsAll(steps, i);
    ItemFieldsAll(steps, j);
    KeyIs(ItemAt(steps, i));
    KeyIs(ItemAt(steps, j));
    SameKeySameUnit(groups[g].items, raws[g], ofs[g], p, q);
  }

  /** No two requests of a view have the same key. */
  lemma KeysDistinct(steps: seq<Step>, themes: seq<string>, groups: seq<Group>, of: seq<nat>, raws: seq<seq<RawUnit>>,
                     ofs: seq<seq<nat>>, view: seq<seq<Unit>>, g: nat, u: nat, h: nat, v: nat)
    requires Threaded(steps, themes, groups, of, raws, ofs, view) && TicketsNamed(steps)
    requires g < |view| && u < |view[g]| && h < |view| && v < |view[h]|
    requires UnitKey(view[g][u]) == UnitKey(view[h][v])
    ensures g == h && u == v
  {
    hide *;
    var p, i := UnitStart(steps, themes, groups, of, raws, ofs, view, g, u);
    var q, j := UnitStart(steps, themes, groups, of, raws, ofs, view, h, v);
    KeyCases(view[g][u]);
    KeyCases(view[h][v]);
    ItemFieldsAll(steps, i);
    ItemFieldsAll(steps, j);
    KeyIs(ItemAt(steps, i));
    KeyIs(ItemAt(steps, j));
    if view[g][u].ticket != "" && view[h][v].ticket != "" {
      ThreadedParts(steps, themes, groups, of, raws, ofs, view);
      TicketTogether(steps, themes, ThemesOf(groups), of, i, j);
      ThreadedAt(steps, themes, groups, of, raws, ofs, view, g);
      SameKeySameUnit(groups[g].items, raws[g], ofs[g], p, q);
    } else if view[g][u].ticket != "" {
      NotIndexKey(steps, i, view[h][v].idx);
    } else if view[h][v].ticket != "" {
      NotIndexKey(steps, j, view[g][u].idx);
    } else {
      IndexKeyInjective(i, j);
      ThreadedParts(steps, themes, groups, of, raws, ofs, view);
      var at := GroupHolds(steps, groups, of, g);
      assert p == q;
    }
  }

  lemma KeyCases(u: Unit)
    ensures UnitKey(u) == if u.ticket != "" then u.ticket else IndexKey(u.idx)
  {
  }

  lemma NotIndexKey(steps: seq<Step>, i: nat, n: nat)
    requires TicketsNamed(steps) && i < |steps| && !IsOfferStep(steps[i])
    ensures TicketOf(steps[i]) != IndexKey(n)
  {
  }

  // ---------------------------------------------------------------- the focused request

  ghost predicate HasKey(view: seq<seq<Unit>>, k: string) {
    exists g, u :: 0 <= g < |view| && 0 <= u < |view[g]| && UnitKey(view[g][u]) == k
  }

  /** (g, u) is the first unit of the view. */
  ghost predicate FirstUnit(view: seq<seq<Unit>>, g: nat, u: nat) {
    g < |view| && u == 0 < |view[g]| && forall h :: 0 <= h < g ==> view[h] == []
  }

  /** What the focus loop works out: the stored key while some unit still has it, else the first
      unit's key; nothing only when there is no unit. */
  ghost predicate Focused(view: seq<seq<Unit>>, stored: string, focus: Option<string>) {
    && (stored != "" && HasKey(view, stored) ==> focus == Some(stored))
    && (!(stored != "" && HasKey(view, stored)) ==>
          forall g: nat, u: nat :: FirstUnit(view, g, u) ==> focus == Some(UnitKey(view[g][u])))
    && (focus.None? <==> forall g :: 0 <= g < |view| ==> view[g] == [])
  }

  method Focus(view: seq<seq<Unit>>, stored: string) returns (focus: Option<string>)
    ensures Focused(view, stored, focus)
  {
    var keys: seq<string> := [];
    var latest: Option<string> := None;
    for g := 0 to |view|
      invariant forall k :: k in keys <==> HasKey(view[..g], k)
      invariant latest.None? <==> forall h :: 0 <= h < g ==> view[h] == []
      invariant forall h: nat, u: nat :: h < g && FirstUnit(view, h, u) ==> latest == Some(UnitKey(view[h][u]))
    {
      var more := UnitKeys(view[g]);
      if latest.None? && |more| > 0 {
        latest := Some(more[0]);
      }
      KeysPush(view, g, keys, more);
      keys := keys + more;
    }
    assert view[..|view|] == view;
    if stored != "" && stored in keys {
      focus := Some(stored);
      var g, u :| 0 <= g < |view| && 0 <= u < |view[g]| && UnitKey(view[g][u]) == stored;
      assert view[g] != [];
    } else {
      focus := latest;
    }
  }

  method UnitKeys(units: seq<Unit>) returns (keys: seq<string>)
    ensures |keys| == |units| && forall u :: 0 <= u < |units| ==> keys[u] == UnitKey(units[u])
  {
    keys := [];
    for u := 0 to |units|
      invariant |keys| == u && forall w :: 0 <= w < u ==> keys[w] == UnitKey(units[w])
    {
      keys := keys + [UnitKey(units[u])];
    }
  }

  lemma KeysPush(view: seq<seq<Unit>>, g: nat, keys: seq<string>, more: seq<string>)
    requires g < |view| && (forall k :: k in keys <==> HasKey(view[..g], k))
    requires |more| == |view[g]| && forall u :: 0 <= u < |more| ==> more[u] == UnitKey(view[g][u])
    ensures forall k :: k in keys + more <==> HasKey(view[..g + 1], k)
  {
    forall k
      ensures k in keys + more <==> HasKey(view[..g + 1], k)
    {
      if k in keys {
        var h, u :| 0 <= h < g && 0 <= u < |view[..g][h]| && UnitKey(view[..g][h][u]) == k;
        assert view[..g + 1][h] == view[h];
      } else if k in more {
        var u :| 0 <= u < |more| && more[u] == k;
        assert view[..g + 1][g] == view[g];
      }
      if HasKey(view[..g + 1], k) {
        var h, u :| 0 <= h < g + 1 && 0 <= u < |view[..g + 1][h]| && UnitKey(view[..g + 1][h][u]) == k;
        if h < g {
          assert view[..g][h] == view[h];
        } else {
          assert more[u] == k;
        }
      }
    }
  }

  /** The Detailed view shows exactly one request; with no valid stored focus it is the one that holds
      step 0, the newest. */
  lemma DetailShowsOne(steps: seq<Step>, themes: seq<string>, groups: seq<Group>, of: seq<nat>, raws: seq<seq<RawUnit>>,
                       ofs: seq<seq<nat>>, view: seq<seq<Unit>>, stored: string, focus: Option<string>)
                         returns (g: nat, u: nat)
    requires Threaded(steps, themes, groups, of, raws, ofs, view) && TicketsNamed(steps) && |steps| > 0
    requires Focused(view, stored, focus)
    ensures g < |view| && u < |view[g]| && focus == Some(UnitKey(view[g][u]))
    ensures forall h, v :: 0 <= h < |view| && 0 <= v < |view[h]| && focus == Some(UnitKey(view[h][v])) ==>
              h == g && v == u
    ensures !(stored != "" && HasKey(view, stored)) ==> g == 0 && u == 0 && view[g][u].idx == 0
  {
    hide *;
    FirstUnitExists(steps, themes, groups, of, raws, ofs, view);
    if stored != "" && HasKey(view, stored) {
      g, u := KeyAt(view, stored);
      FocusedCases(view, stored, focus);
    } else {
      FocusedCases(view, stored, focus);
      g, u := 0, 0;
    }
    forall h, v | 0 <= h < |view| && 0 <= v < |view[h]| && focus == Some(UnitKey(view[h][v]))
      ensures h == g && v == u
    {
      KeysDistinct(steps, themes, groups, of, raws, ofs, view, g, u, h, v);
    }
  }

  lemma FocusedCases(view: seq<seq<Unit>>, stored: string, focus: Option<string>)
    requires Focused(view, stored, focus)
    ensures stored != "" && HasKey(view, stored) ==> focus == Some(stored)
    ensures !(stored != "" && HasKey(view, stored)) ==>
              forall g: nat, u: nat :: FirstUnit(view, g, u) ==> focus == Some(UnitKey(view[g][u]))
  {
  }

  lemma KeyAt(view: seq<seq<Unit>>, k: string) returns (g: nat, u: nat)
    requires HasKey(view, k)
    ensures g < |view| && u < |view[g]| && UnitKey(view[g][u]) == k
  {
    g, u :| 0 <= g < |view| && 0 <= u < |view[g]| && UnitKey(view[g][u]) == k;
  }

  lemma FirstUnitExists(steps: seq<Step>, themes: seq<string>, groups: seq<Group>, of: seq<nat>,
    raws: seq<seq<RawUnit>>,
                        ofs: seq<seq<nat>>, view: seq<seq<Unit>>)
    requires Threaded(steps, themes, groups, of, raws, ofs, view) && |steps| > 0
    ensures |view| > 0 && |view[0]| > 0 && FirstUnit(view, 0, 0) && view[0][0].idx == 0
  {
    hide *;
    ThreadedParts(steps, themes, groups, of, raws, ofs, view);
    FirstGroup(steps, themes, groups, of);
    ThreadedAt(steps, themes, groups, of, raws, ofs, view, 0);
    UnitsCount(view[0], raws[0]);
    FirstOfUnits(groups[0].items, raws[0], ofs[0]);
    UnitFields(view[0], raws[0], 0);
    FirstIs(view);
    ItemFieldsAll(steps, 0);
  }

  lemma FirstIs(view: seq<seq<Unit>>)
    requires |view| > 0 && |view[0]| > 0
    ensures FirstUnit(view, 0, 0)
  {
  }

  lemma FirstOfUnits(items: seq<Item>, raw: seq<RawUnit>, of: seq<nat>)
    requires |of| == |items| > 0 && Merged(items, raw, of)
    ensures |raw| > 0 && |raw[0].items| > 0 && raw[0].items[0] == items[0]
  {
    MergedParts(items, raw, of);
    assert MergedAt(items, of, 0);
    hide *;
    assert items[..|of|] == items;
    var at := PickedFrom(items, of, 0);
    assert 0 in at;
    var k :| 0 <= k < |at| && at[k] == 0;
    assert at[0] <= at[k];
  }
}
