/** The response clock of the Service Desk board, and the breach count of the analytics page
    that it is meant to agree with. Instants are milliseconds. */
module ServiceClock {
  import opened Options

  datatype Status = Logged | Open | InProgress | Closed

  /** `owner` and `team` are empty for nobody and no queue. */
  datatype Ticket = Ticket(id: string, team: string, status: Status, owner: string,
                           due: Option<int>, responded: Option<int>, followUp: Option<int>)

  const MINUTE := 60000

  /** The late side of `Math.round(ms / 60000)`, which rounds halves up. */
  function Minutes(ms: int): int {
    (ms + MINUTE / 2) / MINUTE
  }

  datatype Promise = Promise(overdue: bool, mins: int)

  datatype Badge = Badge(cls: string, breached: bool, replied: bool)

  function PromiseState(t: Ticket, now: int): Option<Promise> {
    if t.followUp.None? || t.status == Closed then None
    else
      var mins := Minutes(t.followUp.value - now);
      Some(Promise(mins < 0, if mins < 0 then -mins else mins))
  }

  function Sla(t: Ticket, now: int): Badge {
    if t.due.None? then Badge("none", false, false)
    else if t.status == Closed || t.status == Logged then Badge("none", false, false)
    else if t.responded.Some? then
      match PromiseState(t, now)
      case Some(p) => Badge(if p.overdue then "breach" else "soon", p.overdue, true)
      case None => Badge(if t.responded.value <= t.due.value then "ok" else "none", false, false)
    else
      var mins := Minutes(t.due.value - now);
      if mins < 0 then Badge("breach", true, false)
      else if mins <= 120 then Badge("soon", false, false)
      else Badge("ok", false, false)
  }

  predicate Serviceable(t: Ticket) {
    t.status == Open || t.status == InProgress
  }

  /** The CASE of the analytics query. */
  predicate Breaching(t: Ticket, now: int) {
    t.due.Some? && t.due.value < now && Serviceable(t) && t.responded.None?
  }

  /** Overdue by so little that rounding to minutes hides it. */
  predicate JustLate(t: Ticket, now: int) {
    Breaching(t, now) && now - t.due.value <= MINUTE / 2
  }

  /** Answered in time or not, but the promise made in the answer has lapsed. */
  predicate PromiseBroken(t: Ticket, now: int) {
    t.due.Some? && Serviceable(t) && t.responded.Some? && t.followUp.Some? && now - t.followUp.value > MINUTE / 2
  }

  lemma LateMinutes(ms: int)
    ensures Minutes(ms) < 0 <==> -ms > MINUTE / 2
  {
  }

  /** The board shows a breach exactly for what analytics counts, less what is at most half a
      minute late, plus the answered cases whose promise is broken. */
  lemma BoardBreach(t: Ticket, now: int)
    ensures Sla(t, now).breached <==> (Breaching(t, now) && !JustLate(t, now)) || PromiseBroken(t, now)
  {
    if t.due.Some? {
      LateMinutes(t.due.value - now);
    }
    if t.followUp.Some? {
      LateMinutes(t.followUp.value - now);
    }
  }

  function OnBoard(ts: seq<Ticket>, now: int): set<int> {
    set i | 0 <= i < |ts| && Sla(ts[i], now).breached
  }

  function InAnalytics(ts: seq<Ticket>, now: int): set<int> {
    set i | 0 <= i < |ts| && Breaching(ts[i], now)
  }

  /** So the two agree on a list exactly when it holds no ticket of either kind. */
  lemma AgreeIff(ts: seq<Ticket>, now: int)
    ensures OnBoard(ts, now) == InAnalytics(ts, now)
       <==> forall i :: 0 <= i < |ts| ==> !JustLate(ts[i], now) && !PromiseBroken(ts[i], now)
  {
    forall i | 0 <= i < |ts|
      ensures i in OnBoard(ts, now)
         <==> (i in InAnalytics(ts, now) && !JustLate(ts[i], now)) || PromiseBroken(ts[i], now)
      ensures PromiseBroken(ts[i], now) ==> i !in InAnalytics(ts, now)
      ensures JustLate(ts[i], now) ==> i in InAnalytics(ts, now) && !PromiseBroken(ts[i], now)
    {
      BoardBreach(ts[i], now);
    }
    if OnBoard(ts, now) == InAnalytics(ts, now) {
      forall i | 0 <= i < |ts| ensures !JustLate(ts[i], now) && !PromiseBroken(ts[i], now) {
        assert i in OnBoard(ts, now) <==> i in InAnalytics(ts, now);
      }
    }
  }

  /** They do disagree: a case one millisecond late is in analytics only, and one answered in time
      but a minute past the promise made in the answer is on the board only. */
  lemma AgreementFails(now: int) returns (ts: seq<Ticket>)
    ensures |ts| == 2 && OnBoard(ts, now) == {1} && InAnalytics(ts, now) == {0}
    ensures ts[1].responded.Some? && ts[1].due.Some? && ts[1].followUp.Some?
    ensures ts[1].responded.value < ts[1].due.value < now && ts[1].responded.value < ts[1].followUp.value < now
  {
    var late := Ticket("tkt_1", "cards", Open, "ana", Some(now - 1), None, None);
    var promised := Ticket("tkt_2", "cards", Open, "ana", Some(now - 2 * MINUTE), Some(now - 3 * MINUTE),
                           Some(now - MINUTE));
    ts := [late, promised];
    BoardBreach(late, now);
    BoardBreach(promised, now);
  }
}
