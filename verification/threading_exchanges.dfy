/** Laying out a unit's turns as exchanges: each customer message with the reply that follows it. */
module ThreadExchanges {
  import opened Options
  import opened ThreadTurns
  import opened ThreadGroups
  import opened ThreadUnits

  /** One turn of a unit, in the order it happened; `offer` marks the turn of an offer step. */
  datatype Mark = Mark(turn: Turn, offer: bool)

  function MarksOf(it: Item): seq<Mark> {
    (if it.step.inbound.Some? then [Mark(it.step.inbound.value, false)] else [])
    + (if it.step.outbound.Some? then [Mark(it.step.outbound.value, it.offer)] else [])
  }

  /** Items are newest first, turns oldest first. */
  function Chronological(items: seq<Item>): seq<Mark> {
    if items == [] then [] else Chronological(items[1..]) + MarksOf(items[0])
  }

  predicate IsReply(m: Mark) {
    !m.turn.inbound && !IsHolding(m.turn.text)
  }

  function Replies(ms: seq<Mark>): seq<Turn> {
    if ms == [] then []
    else Replies(ms[..|ms| - 1]) + (if IsReply(ms[|ms| - 1]) then [ms[|ms| - 1].turn] else [])
  }

  function Holdings(ms: seq<Mark>): seq<string> {
    if ms == [] then []
    else Holdings(ms[..|ms| - 1])
         + (if !ms[|ms| - 1].turn.inbound && IsHolding(ms[|ms| - 1].turn.text) then [ms[|ms| - 1].turn.text] else [])
  }

  /** What opens a new exchange after the segment `seg`: a customer message, an offer, or a second
      substantive reply. */
  predicate Opens(seg: seq<Mark>, m: Mark) {
    m.turn.inbound || m.offer || (IsReply(m) && Replies(seg) != [])
  }

  /** The turns cut into the segments that become exchanges. */
  function Segments(ms: seq<Mark>): (segs: seq<seq<Mark>>)
    ensures forall k :: 0 <= k < |segs| ==> segs[k] != []
    ensures ms != [] ==> segs != []
  {
    if ms == [] then []
    else
      var m, before := ms[|ms| - 1], Segments(ms[..|ms| - 1]);
      if before == [] || Opens(before[|before| - 1], m) then before + [[m]]
      else before[|before| - 1 := before[|before| - 1] + [m]]
  }

  function Last<T>(s: seq<T>): Option<T> {
    if s == [] then None else Some(s[|s| - 1])
  }

  /** The exchange a segment becomes: its message, its last holding text, its reply, its last turn. */
  function Summary(seg: seq<Mark>): Exchange
    requires seg != []
  {
    Exchange(if seg[0].turn.inbound then Some(seg[0].turn) else None,
             Last(Holdings(seg)), Last(Replies(seg)), Some(seg[|seg| - 1].turn))
  }

  ghost predicate Laid(exchanges: seq<Exchange>, ms: seq<Mark>) {
    |exchanges| == |Segments(ms)| && forall k :: 0 <= k < |exchanges| ==> exchanges[k] == Summary(Segments(ms)[k])
  }

  // ---------------------------------------------------------------- the loop

  lemma RepliesPush(seg: seq<Mark>, m: Mark)
    ensures Replies(seg + [m]) == Replies(seg) + (if IsReply(m) then [m.turn] else [])
    ensures Holdings(seg + [m]) == Holdings(seg) + (if !m.turn.inbound && IsHolding(m.turn.text) then [m.turn.text]
      else [])
  {
    hide IsHolding;
    assert (seg + [m])[..|seg|] == seg;
  }

  lemma SegmentsPush(ms: seq<Mark>, m: Mark)
    ensures var before := Segments(ms);
            Segments(ms + [m]) == if before == [] || Opens(before[|before| - 1], m) then before + [[m]]
                                  else before[|before| - 1 := before[|before| - 1] + [m]]
  {
    hide IsHolding;
    assert (ms + [m])[..|ms|] == ms;
  }

  lemma SummaryOne(m: Mark)
    ensures Summary([m]) == Exchange(if m.turn.inbound then Some(m.turn) else None,
                                     if !m.turn.inbound && IsHolding(m.turn.text) then Some(m.turn.text) else None,
                                     if IsReply(m) then Some(m.turn) else None, Some(m.turn))
  {
    hide IsHolding;
    RepliesPush([], m);
    assert [] + [m] == [m];
  }

  lemma SummaryMore(seg: seq<Mark>, m: Mark)
    requires seg != []
    ensures Summary(seg + [m]) == Exchange(Summary(seg).inbound,
              if !m.turn.inbound && IsHolding(m.turn.text) then Some(m.turn.text) else Summary(seg).holdingText,
              if IsReply(m) then Some(m.turn) else Summary(seg).reply, Some(m.turn))
    ensures (Summary(seg).reply.Some? <==> Replies(seg) != [])
  {
    hide IsHolding;
    RepliesPush(seg, m);
  }

  lemma LaidStart()
    ensures Laid([], [])
  {
    hide IsHolding;
  }

  /** A new exchange for the turn `m`. */
  lemma LaidOpen(exchanges: seq<Exchange>, ms: seq<Mark>, m: Mark, e: Exchange)
    requires Laid(exchanges, ms) && e == Summary([m])
    requires exchanges == [] || m.turn.inbound || m.offer || (IsReply(m) && exchanges[|exchanges| - 1].reply.Some?)
    ensures Laid(exchanges + [e], ms + [m])
  {
    hide IsHolding;
    SegmentsPush(ms, m);
    var before := Segments(ms);
    if before != [] {
      SummaryMore(before[|before| - 1], m);
    }
  }

  /** The turn `m` joins the current exchange. */
  lemma LaidJoin(exchanges: seq<Exchange>, ms: seq<Mark>, m: Mark, e: Exchange)
    requires Laid(exchanges, ms) && exchanges != []
    requires !m.turn.inbound && !m.offer && !(IsReply(m) && exchanges[|exchanges| - 1].reply.Some?)
    requires var cur := exchanges[|exchanges| - 1];
             e == Exchange(cur.inbound, if IsHolding(m.turn.text) then Some(m.turn.text) else cur.holdingText,
                           if IsReply(m) then Some(m.turn) else cur.reply, Some(m.turn))
    ensures Laid(exchanges[|exchanges| - 1 := e], ms + [m])
  {
    hide *;
    LaidIs(exchanges, ms);
    var before := Segments(ms);
    var last := before[|before| - 1];
    OpensIs(last, m);
    SegmentsPush(ms, m);
    SummaryMore(last, m);
    ReplyOrHolding(m);
    LaidFrom(exchanges[|exchanges| - 1 := e], ms + [m]);
  }

  lemma OpensIs(seg: seq<Mark>, m: Mark)
    ensures Opens(seg, m) <==> m.turn.inbound || m.offer || (IsReply(m) && Replies(seg) != [])
  {
    hide IsHolding, Replies, IsReply;
  }

  lemma ReplyOrHolding(m: Mark)
    ensures !m.turn.inbound ==> (IsReply(m) <==> !IsHolding(m.turn.text))
  {
    hide IsHolding;
  }

  lemma LaidIs(exchanges: seq<Exchange>, ms: seq<Mark>)
    requires Laid(exchanges, ms)
    ensures |exchanges| == |Segments(ms)| && forall k :: 0 <= k < |exchanges| ==>
      exchanges[k] == Summary(Segments(ms)[k])
  {
    hide IsHolding;
  }

  lemma LaidFrom(exchanges: seq<Exchange>, ms: seq<Mark>)
    requires |exchanges| == |Segments(ms)| && forall k :: 0 <= k < |exchanges| ==>
      exchanges[k] == Summary(Segments(ms)[k])
    ensures Laid(exchanges, ms)
  {
    hide IsHolding;
  }

  /** What a step's outbound turn does to the exchanges. */
  method AddOutbound(exchanges: seq<Exchange>, t: Turn, offer: bool, ghost ms: seq<Mark>) returns (r: seq<Exchange>)
    requires Laid(exchanges, ms) && !t.inbound
    ensures Laid(r, ms + [Mark(t, offer)]) && |r| > 0
  {
    hide IsHolding;
    r := exchanges;
    if offer || |r| == 0 || (r[|r| - 1].reply.Some? && !IsHolding(t.text)) {
      r := r + [Exchange(None, None, None, None)];
    }
    var cur := r[|r| - 1];
    if IsHolding(t.text) {
      cur := cur.(holdingText := Some(t.text));
    } else {
      cur := cur.(reply := Some(t));
    }
    cur := cur.(ref := Some(t));
    r := r[|r| - 1 := cur];
    SummaryOne(Mark(t, offer));
    hide Laid, Summary, IsHolding;
    if |r| > |exchanges| {
      assert r == exchanges + [cur];
      LaidOpen(exchanges, ms, Mark(t, offer), cur);
    } else {
      assert r == exchanges[|exchanges| - 1 := cur];
      LaidJoin(exchanges, ms, Mark(t, offer), cur);
    }
  }

  function LastTurn(ms: seq<Mark>): Option<Turn> {
    if ms == [] then None else Some(ms[|ms| - 1].turn)
  }

  lemma NoMarks()
    ensures Chronological([]) == [] && LastTurn([]) == None
  {
    hide IsHolding;
  }

  lemma LastTurnPush(ms: seq<Mark>, m: Mark)
    ensures LastTurn(ms + [m]) == Some(m.turn)
  {
    hide IsHolding;
  }

  lemma InboundMark(t: Turn)
    ensures t.inbound ==> !IsReply(Mark(t, false))
  {
    hide IsHolding;
  }

  lemma ChronologicalFrom(items: seq<Item>, n: nat)
    requires n < |items|
    ensures var it, rest := items[n], Chronological(items[n + 1..]);
            Chronological(items[n..]) == rest + (if it.step.inbound.Some? then [Mark(it.step.inbound.value, false)]
              else [])
              + (if it.step.outbound.Some? then [Mark(it.step.outbound.value, it.offer)] else [])
  {
    hide IsHolding;
    assert items[n..][0] == items[n] && items[n..][1..] == items[n + 1..];
  }

  /** The exchange loop of buildUnits over the chronological items. */
  method LayOut(items: seq<Item>) returns (exchanges: seq<Exchange>, lastTurn: Option<Turn>)
    requires forall i :: 0 <= i < |items| ==>
               && (items[i].step.inbound.Some? ==> items[i].step.inbound.value.inbound)
               && (items[i].step.outbound.Some? ==> !items[i].step.outbound.value.inbound)
    ensures Laid(exchanges, Chronological(items))
    ensures lastTurn == LastTurn(Chronological(items))
  {
    hide *;
    exchanges, lastTurn := [], None;
    LaidStart();
    NoMarks();
    assert items[|items|..] == [];
    var n := |items|;
    while n > 0
      invariant 0 <= n <= |items| && Laid(exchanges, Chronological(items[n..]))
      invariant lastTurn == LastTurn(Chronological(items[n..]))
    {
      n := n - 1;
      var it := items[n];
      ghost var ms := Chronological(items[n + 1..]);
      ChronologicalFrom(items, n);
      if it.step.inbound.Some? {
        var t := it.step.inbound.value;
        SummaryOne(Mark(t, false));
        InboundMark(t);
        LastTurnPush(ms, Mark(t, false));
        LaidOpen(exchanges, ms, Mark(t, false), Exchange(Some(t), None, None, Some(t)));
        exchanges := exchanges + [Exchange(Some(t), None, None, Some(t))];
        ms, lastTurn := ms + [Mark(t, false)], Some(t);
      }
      if it.step.outbound.Some? {
        exchanges := AddOutbound(exchanges, it.step.outbound.value, it.offer, ms);
        LastTurnPush(ms, Mark(it.step.outbound.value, it.offer));
        ms, lastTurn := ms + [Mark(it.step.outbound.value, it.offer)], it.step.outbound;
      }
      assert ms == Chronological(items[n..]);
    }
    assert items[0..] == items;
  }

  // ---------------------------------------------------------------- conservation

  function KeptOf(m: Mark): seq<Turn> {
    if m.turn.inbound || IsReply(m) then [m.turn] else []
  }

  /** The turns that must be shown: every customer message and every substantive reply. */
  function Kept(ms: seq<Mark>): seq<Turn> {
    if ms == [] then [] else Kept(ms[..|ms| - 1]) + KeptOf(ms[|ms| - 1])
  }

  function Shown(e: Exchange): seq<Turn> {
    (if e.inbound.Some? then [e.inbound.value] else []) + (if e.reply.Some? then [e.reply.value] else [])
  }

  function AllShown(es: seq<Exchange>): seq<Turn> {
    if es == [] then [] else AllShown(es[..|es| - 1]) + Shown(es[|es| - 1])
  }

  /** Only the first turn of a segment is a customer message, and it has one reply at most. */
  ghost predicate Shaped(seg: seq<Mark>) {
    seg != [] && (forall k :: 0 < k < |seg| ==> !seg[k].turn.inbound) && |Replies(seg)| <= 1
  }

  lemma ShapedPush(seg: seq<Mark>, m: Mark)
    ensures Shaped([m])
    ensures Shaped(seg) && !Opens(seg, m) ==> Shaped(seg + [m])
  {
    hide IsHolding;
    RepliesPush([], m);
    assert [] + [m] == [m];
    RepliesPush(seg, m);
  }

  lemma {:induction false} SegmentsShaped(ms: seq<Mark>, k: nat)
    requires k < |Segments(ms)|
    ensures Shaped(Segments(ms)[k])
  {
    hide IsHolding;
    var m, before := ms[|ms| - 1], Segments(ms[..|ms| - 1]);
    if k < |before| {
      SegmentsShaped(ms[..|ms| - 1], k);
      ShapedPush(before[k], m);
    } else {
      ShapedPush([], m);
    }
  }

  lemma {:induction false} KeptConcat(a: seq<Mark>, b: seq<Mark>)
    ensures Kept(a + b) == Kept(a) + Kept(b)
  {
    hide KeptOf;
    if b == [] {
      assert a + b == a;
    } else {
      KeptConcat(a, b[..|b| - 1]);
      assert (a + b)[..|a + b| - 1] == a + b[..|b| - 1];
    }
  }

  /** A segment's summary shows exactly the turns of it that must be shown, in order. */
  lemma {:induction false} SummaryShows(seg: seq<Mark>)
    requires Shaped(seg)
    ensures Shown(Summary(seg)) == Kept(seg)
  {
    hide IsHolding;
    KeptIsHeadAndReplies(seg);
  }

  lemma {:induction false} KeptIsHeadAndReplies(seg: seq<Mark>)
    requires seg != [] && forall k :: 0 < k < |seg| ==> !seg[k].turn.inbound
    ensures Kept(seg) == (if seg[0].turn.inbound then [seg[0].turn] else []) + Replies(seg)
  {
    hide IsHolding;
    var n := |seg| - 1;
    if n > 0 {
      KeptIsHeadAndReplies(seg[..n]);
      assert seg[..n][0] == seg[0];
    } else {
      assert seg[..n] == [];
    }
  }

  ghost function Joined(segs: seq<seq<Mark>>): seq<Mark> {
    if segs == [] then [] else Joined(segs[..|segs| - 1]) + segs[|segs| - 1]
  }

  lemma JoinedPush(segs: seq<seq<Mark>>, seg: seq<Mark>)
    ensures Joined(segs + [seg]) == Joined(segs) + seg
  {
    hide IsHolding;
    assert (segs + [seg])[..|segs|] == segs;
  }

  lemma JoinedLonger(segs: seq<seq<Mark>>, m: Mark)
    requires segs != []
    ensures Joined(segs[|segs| - 1 := segs[|segs| - 1] + [m]]) == Joined(segs) + [m]
  {
    hide *;
    var last := |segs| - 1;
    assert segs == segs[..last] + [segs[last]];
    JoinedPush(segs[..last], segs[last]);
    JoinedPush(segs[..last], segs[last] + [m]);
    assert segs[last := segs[last] + [m]] == segs[..last] + [segs[last] + [m]];
  }

  /** The segments are consecutive pieces of the turns: joining them gives the turns back. */
  lemma {:induction false} SegmentsJoin(ms: seq<Mark>)
    ensures Joined(Segments(ms)) == ms
  {
    hide *;
    NothingShown();
    NoHoldings();
    if ms != [] {
      var n, m := |ms| - 1, ms[|ms| - 1];
      var before := Segments(ms[..n]);
      assert ms == ms[..n] + [m];
      SegmentsPush(ms[..n], m);
      SegmentsJoin(ms[..n]);
      if before == [] || Opens(before[|before| - 1], m) {
        JoinedPush(before, [m]);
      } else {
        JoinedLonger(before, m);
      }
    }
  }

  lemma ShownLast(es: seq<Exchange>)
    requires es != []
    ensures AllShown(es) == AllShown(es[..|es| - 1]) + Shown(es[|es| - 1])
  {
    hide IsHolding, Shown;
  }

  lemma NothingShown()
    ensures AllShown([]) == [] && Joined([]) == [] && Kept([]) == []
  {
    hide IsHolding;
  }

  lemma {:induction false} ShownIsKept(es: seq<Exchange>, segs: seq<seq<Mark>>)
    requires |es| == |segs| && forall k :: 0 <= k < |segs| ==> Shaped(segs[k]) && es[k] == Summary(segs[k])
    ensures AllShown(es) == Kept(Joined(segs))
  {
    hide *;
    if segs != [] {
      var n := |segs| - 1;
      ShownIsKept(es[..n], segs[..n]);
      SummaryShows(segs[n]);
      KeptConcat(Joined(segs[..n]), segs[n]);
      ShownLast(es);
      assert segs == segs[..n] + [segs[n]];
      JoinedPush(segs[..n], segs[n]);
    } else {
      NothingShown();
    }
  }

  /** No message and no reply is lost, doubled or moved by the layout: reading the exchanges in order
      gives the unit's messages and substantive replies in the order they happened. */
  lemma LayoutConserves(es: seq<Exchange>, ms: seq<Mark>)
    requires Laid(es, ms)
    ensures AllShown(es) == Kept(ms)
  {
    hide IsHolding;
    forall k | 0 <= k < |Segments(ms)|
      ensures Shaped(Segments(ms)[k])
    {
      SegmentsShaped(ms, k);
    }
    ShownIsKept(es, Segments(ms));
    SegmentsJoin(ms);
  }

  function HeldTexts(es: seq<Exchange>): seq<string> {
    if es == [] then []
    else HeldTexts(es[..|es| - 1]) + (if es[|es| - 1].holdingText.Some? then [es[|es| - 1].holdingText.value] else [])
  }

  function AllHoldings(segs: seq<seq<Mark>>): nat {
    if segs == [] then 0 else AllHoldings(segs[..|segs| - 1]) + |Holdings(segs[|segs| - 1])|
  }

  lemma AllHoldingsPush(segs: seq<seq<Mark>>, seg: seq<Mark>)
    ensures AllHoldings(segs + [seg]) == AllHoldings(segs) + |Holdings(seg)|
  {
    hide IsHolding, Holdings;
    assert (segs + [seg])[..|segs|] == segs;
  }

  lemma AllHoldingsJoin(segs: seq<seq<Mark>>, seg: seq<Mark>)
    requires segs != []
    ensures AllHoldings(segs[|segs| - 1 := seg]) == AllHoldings(segs) - |Holdings(segs[|segs| - 1])| + |Holdings(seg)|
  {
    hide IsHolding, Holdings;
    assert segs[|segs| - 1 := seg][..|segs| - 1] == segs[..|segs| - 1];
  }

  lemma NoHoldings()
    ensures Holdings([]) == [] && AllHoldings([]) == 0 && Segments([]) == []
  {
    hide IsHolding;
  }

  lemma {:induction false} HoldingsCount(ms: seq<Mark>)
    ensures |Holdings(ms)| == AllHoldings(Segments(ms))
  {
    hide *;
    NoHoldings();
    if ms != [] {
      var n, m := |ms| - 1, ms[|ms| - 1];
      var before := Segments(ms[..n]);
      assert ms == ms[..n] + [m];
      SegmentsPush(ms[..n], m);
      HoldingsCount(ms[..n]);
      RepliesPush(ms[..n], m);
      if before == [] || Opens(before[|before| - 1], m) {
        RepliesPush([], m);
        assert [] + [m] == [m];
        AllHoldingsPush(before, [m]);
      } else {
        RepliesPush(before[|before| - 1], m);
        AllHoldingsJoin(before, before[|before| - 1] + [m]);
      }
    }
  }

  /** No segment holds two holding acknowledgements. */
  ghost predicate OneEach(segs: seq<seq<Mark>>) {
    segs == [] || (OneEach(segs[..|segs| - 1]) && |Holdings(segs[|segs| - 1])| <= 1)
  }

  lemma {:induction false} OneEachIff(segs: seq<seq<Mark>>)
    ensures OneEach(segs) <==> forall k :: 0 <= k < |segs| ==> |Holdings(segs[k])| <= 1
  {
    hide IsHolding, Holdings;
    if segs != [] {
      var n := |segs| - 1;
      OneEachIff(segs[..n]);
      assert forall k :: 0 <= k < n ==> segs[..n][k] == segs[k];
    }
  }

  lemma HeldStep(es: seq<Exchange>, segs: seq<seq<Mark>>)
    requires |es| == |segs| > 0 && segs[|segs| - 1] != [] && es[|es| - 1] == Summary(segs[|segs| - 1])
    ensures |HeldTexts(es)| == |HeldTexts(es[..|es| - 1])| + if |Holdings(segs[|segs| - 1])| > 0 then 1 else 0
    ensures AllHoldings(segs) == AllHoldings(segs[..|segs| - 1]) + |Holdings(segs[|segs| - 1])|
    ensures OneEach(segs) <==> OneEach(segs[..|segs| - 1]) && |Holdings(segs[|segs| - 1])| <= 1
  {
    hide IsHolding;
  }

  lemma {:induction false} HeldCount(es: seq<Exchange>, segs: seq<seq<Mark>>)
    requires |es| == |segs| && forall k :: 0 <= k < |segs| ==> segs[k] != [] && es[k] == Summary(segs[k])
    ensures |HeldTexts(es)| <= AllHoldings(segs)
    ensures |HeldTexts(es)| == AllHoldings(segs) <==> OneEach(segs)
  {
    hide IsHolding;
    if segs != [] {
      hide *;
      HeldStep(es, segs);
      HeldCount(es[..|es| - 1], segs[..|segs| - 1]);
    }
  }

  /** The only text that can go missing is a holding acknowledgement with a later one in the same
      exchange: as many are shown as were sent exactly when no exchange received two. */
  lemma HoldingsLost(es: seq<Exchange>, ms: seq<Mark>)
    requires Laid(es, ms)
    ensures |HeldTexts(es)| <= |Holdings(ms)|
    ensures |HeldTexts(es)| == |Holdings(ms)| <==> forall k :: 0 <= k < |Segments(ms)| ==>
      |Holdings(Segments(ms)[k])| <= 1
  {
    hide IsHolding;
    HoldingsCount(ms);
    HeldCount(es, Segments(ms));
    OneEachIff(Segments(ms));
  }
}
