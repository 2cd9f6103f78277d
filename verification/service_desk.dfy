/** Who gets a case: the least-loaded agent with room on the case's own team. */
module ServiceDesk {
  import opened Options
  import opened Texts
  import opened ServiceClock

  /** An agent without a team is an operator. */
  datatype Agent = Agent(username: string, team: string, capacity: nat, away: bool)

  predicate Operator(a: Agent) {
    a.team == ""
  }

  /** How many open cases an agent holds, counted afresh. */
  function Load(ts: seq<Ticket>, who: string): nat {
    if ts == [] then 0 else (if ts[0].owner == who && Serviceable(ts[0]) then 1 else 0) + Load(ts[1..], who)
  }

  /** How many of them are late, as the roster query counts them. */
  function Late(ts: seq<Ticket>, now: int, who: string): nat {
    if ts == [] then 0 else (if ts[0].owner == who && Breaching(ts[0], now) then 1 else 0) + Late(ts[1..], now, who)
  }

  predicate Eligible(ts: seq<Ticket>, a: Agent, team: string) {
    a.team == team && !Operator(a) && Load(ts, a.username) < a.capacity && !a.away
  }

  /** Agent `i` may take the case, and no eligible agent has less to do, nor as little and an
      earlier place on the roster. */
  predicate IsFirstLeast(roster: seq<Agent>, ts: seq<Ticket>, team: string, i: int) {
    && 0 <= i < |roster| && Eligible(ts, roster[i], team)
    && (forall j :: 0 <= j < |roster| && Eligible(ts, roster[j], team) ==>
      Load(ts, roster[i].username) <= Load(ts, roster[j].username))
    && (forall j :: 0 <= j < i && Eligible(ts, roster[j], team) ==>
      Load(ts, roster[i].username) < Load(ts, roster[j].username))
  }

  lemma FirstLeastIsUnique(roster: seq<Agent>, ts: seq<Ticket>, team: string, i: int, j: int)
    requires IsFirstLeast(roster, ts, team, i) && IsFirstLeast(roster, ts, team, j)
    ensures i == j
  {
    hide Eligible, Load;
  }

  /** The board's suggestion: nobody exactly when nobody has room. */
  method Suggested(roster: seq<Agent>, ts: seq<Ticket>, team: string) returns (best: Option<nat>)
    ensures best.None? <==> forall j :: 0 <= j < |roster| ==> !Eligible(ts, roster[j], team)
    ensures best.Some? ==> IsFirstLeast(roster, ts, team, best.value)
  {
    hide Eligible, Load;
    best := None;
    for k := 0 to |roster|
      invariant best.None? ==> forall j :: 0 <= j < k ==> !Eligible(ts, roster[j], team)
      invariant best.Some? ==> best.value < k && IsFirstLeast(roster[..k], ts, team, best.value)
    {
      if Eligible(ts, roster[k], team) {
        if best.None? || Load(ts, roster[k].username) < Load(ts, roster[best.value].username) {
          best := Some(k);
        }
      }
    }
    assert roster[..|roster|] == roster;
  }

  // ---- What the routing rule at creation would do ----

  /** The order of `candidates.sort`: open cases, then late ones, then the name. */
  predicate PickedBefore(ts: seq<Ticket>, now: int, a: Agent, b: Agent) {
    var x, y := Load(ts, a.username), Load(ts, b.username);
    var u, v := Late(ts, now, a.username), Late(ts, now, b.username);
    x < y || (x == y && (u < v || (u == v && NameLess(a.username, b.username))))
  }

  predicate IsPicked(roster: seq<Agent>, ts: seq<Ticket>, now: int, team: string, i: int) {
    && 0 <= i < |roster| && Eligible(ts, roster[i], team)
    && forall j :: 0 <= j < |roster| && j != i && Eligible(ts, roster[j], team) ==>
      PickedBefore(ts, now, roster[i], roster[j])
  }

  /** The roster lists each team's agents by name. */
  predicate ByName(roster: seq<Agent>) {
    forall i, j :: 0 <= i < j < |roster| && roster[i].team == roster[j].team ==>
      NameLess(roster[i].username, roster[j].username)
  }

  /** The suggestion is the agent the routing rule would pick exactly when no equally loaded
      eligible agent has fewer late cases: the board does not look at those. */
  lemma SuggestionIsPickIff(roster: seq<Agent>, ts: seq<Ticket>, now: int, team: string, i: int)
    requires ByName(roster) && IsFirstLeast(roster, ts, team, i)
    ensures IsPicked(roster, ts, now, team, i)
       <==> forall j :: 0 <= j < |roster| && Eligible(ts, roster[j], team)
                        && Load(ts, roster[j].username) == Load(ts, roster[i].username)
                        ==> Late(ts, now, roster[i].username) <= Late(ts, now, roster[j].username)
  {
    hide Load, Late, NameLess;
    forall j | 0 <= j < |roster| && j != i && Eligible(ts, roster[j], team)
      ensures Load(ts, roster[j].username) == Load(ts, roster[i].username) ==>
                i < j && NameLess(roster[i].username, roster[j].username)
    {
    }
  }

  lemma LoadOfTwo(t: Ticket, u: Ticket, who: string)
    ensures Load([t, u], who) == (if t.owner == who && Serviceable(t) then 1 else 0)
                                 + (if u.owner == who && Serviceable(u) then 1 else 0)
  {
    assert [t, u][1..] == [u] && [u][1..] == [];
    assert Load([u], who) == if u.owner == who && Serviceable(u) then 1 else 0;
  }

  lemma LateOfTwo(t: Ticket, u: Ticket, now: int, who: string)
    ensures Late([t, u], now, who) == (if t.owner == who && Breaching(t, now) then 1 else 0)
                                      + (if u.owner == who && Breaching(u, now) then 1 else 0)
  {
    assert [t, u][1..] == [u] && [u][1..] == [];
    assert Late([u], now, who) == if u.owner == who && Breaching(u, now) then 1 else 0;
  }

  /** They do differ: of two agents with one unanswered case each, the first by name is suggested
      although hers is late and the other's is not. */
  lemma SuggestionDiffers(now: int) returns (roster: seq<Agent>, ts: seq<Ticket>)
    ensures Accounts(roster) && Safe(roster, ts) && Distinct(ts)
    ensures ByName(roster) && IsFirstLeast(roster, ts, "cards", 0) && IsPicked(roster, ts, now, "cards", 1)
  {
    var ana, bo := Agent("ana", "cards", 2, false), Agent("bo", "cards", 2, false);
    roster := [ana, bo];
    ts := [Ticket("tkt_1", "cards", Open, "ana", Some(now - MINUTE), None, None),
           Ticket("tkt_2", "cards", Open, "bo", Some(now + MINUTE), None, None)];
    LoadOfTwo(ts[0], ts[1], "ana");
    LoadOfTwo(ts[0], ts[1], "bo");
    LateOfTwo(ts[0], ts[1], now, "ana");
    LateOfTwo(ts[0], ts[1], now, "bo");
    hide Load, Late;
  }

  // ---- Assigning ----

  /** The write: every field but the owner stays. */
  function Assigned(ts: seq<Ticket>, id: string, who: string): (r: seq<Ticket>)
    ensures |r| == |ts|
    ensures forall i :: 0 <= i < |ts| ==> r[i] == if ts[i].id == id then ts[i].(owner := who) else ts[i]
  {
    if ts == [] then [] else [if ts[0].id == id then ts[0].(owner := who) else ts[0]] + Assigned(ts[1..], id, who)
  }

  predicate Distinct(ts: seq<Ticket>) {
    forall i, j :: 0 <= i < j < |ts| ==> ts[i].id != ts[j].id
  }

  /** Nobody on a team holds more than they have room for. */
  predicate WithinCapacity(roster: seq<Agent>, ts: seq<Ticket>) {
    forall a <- roster :: !Operator(a) ==> Load(ts, a.username) <= a.capacity
  }

  /** No case is with an agent of another team. */
  predicate OwnTeam(roster: seq<Agent>, ts: seq<Ticket>) {
    forall t <- ts, a <- roster :: a.username == t.owner && !Operator(a) ==> a.team == t.team
  }

  predicate Safe(roster: seq<Agent>, ts: seq<Ticket>) {
    WithinCapacity(roster, ts) && OwnTeam(roster, ts)
  }

  /** One account a name, and no account without one. */
  predicate Accounts(roster: seq<Agent>) {
    && (forall i, j :: 0 <= i < j < |roster| ==> roster[i].username != roster[j].username)
    && (forall a <- roster :: a.username != "")
  }

  lemma {:induction false} LoadElsewhere(ts: seq<Ticket>, id: string, who: string, u: string)
    requires u != who
    ensures Load(Assigned(ts, id, who), u) <= Load(ts, u)
  {
    if ts != [] {
      LoadElsewhere(ts[1..], id, who, u);
    }
  }

  lemma {:induction false} LoadMissing(ts: seq<Ticket>, id: string, who: string)
    requires forall t <- ts :: t.id != id
    ensures Assigned(ts, id, who) == ts
  {
  }

  lemma DistinctRest(ts: seq<Ticket>)
    requires ts != [] && Distinct(ts)
    ensures Distinct(ts[1..]) && forall t <- ts[1..] :: t.id != ts[0].id
  {
    forall i | 0 <= i < |ts[1..]| ensures ts[1..][i] == ts[i + 1] && ts[1..][i].id != ts[0].id {
    }
  }

  /** The taker has one open case more, unless the case is closed or hers already. */
  lemma {:induction false} LoadTaken(ts: seq<Ticket>, t: Ticket, who: string)
    requires Distinct(ts) && t in ts
    ensures Load(Assigned(ts, t.id, who), who) == Load(ts, who) + if Serviceable(t) && t.owner != who then 1 else 0
  {
    hide Distinct;
    DistinctRest(ts);
    if ts[0].id == t.id {
      SameTicket(ts, ts[0], t);
      LoadMissing(ts[1..], t.id, who);
    } else {
      LoadTaken(ts[1..], t, who);
    }
  }

  lemma SameTicket(ts: seq<Ticket>, a: Ticket, b: Ticket)
    requires Distinct(ts) && a in ts && b in ts && a.id == b.id
    ensures a == b
  {
    var i :| 0 <= i < |ts| && ts[i] == a;
    var j :| 0 <= j < |ts| && ts[j] == b;
  }

  lemma OneTeamMate(roster: seq<Agent>, a: Agent, b: Agent)
    requires Accounts(roster) && a in roster && b in roster && a.username == b.username
    ensures a == b
  {
    var i :| 0 <= i < |roster| && roster[i] == a;
    var j :| 0 <= j < |roster| && roster[j] == b;
  }

  lemma AssignedOwners(roster: seq<Agent>, ts: seq<Ticket>, id: string, who: string)
    requires OwnTeam(roster, ts)
    requires forall t <- ts, a <- roster :: t.id == id && a.username == who && !Operator(a) ==> a.team == t.team
    ensures OwnTeam(roster, Assigned(ts, id, who))
  {
    forall t <- Assigned(ts, id, who), a <- roster | a.username == t.owner && !Operator(a) ensures a.team == t.team {
      var i :| 0 <= i < |ts| && Assigned(ts, id, who)[i] == t;
      assert ts[i] in ts;
    }
  }

  lemma AssignedDistinct(ts: seq<Ticket>, id: string, who: string)
    requires Distinct(ts)
    ensures Distinct(Assigned(ts, id, who))
  {
  }

  /** Whoever is named may have the case: nobody and operators always, somebody on a team when the
      case is of that team and is hers, closed, or within her room. */
  predicate Fits(roster: seq<Agent>, ts: seq<Ticket>, id: string, who: string) {
    forall a <- roster, t <- ts :: a.username == who && !Operator(a) && t.id == id ==>
      a.team == t.team && (t.owner == who || !Serviceable(t) || Load(ts, who) < a.capacity)
  }

  /** Giving a case away keeps capacities and teams exactly when it fits. */
  lemma AssignedSafeIff(roster: seq<Agent>, ts: seq<Ticket>, id: string, who: string)
    requires Safe(roster, ts) && Distinct(ts)
    ensures Distinct(Assigned(ts, id, who))
    ensures Safe(roster, Assigned(ts, id, who)) <==> Fits(roster, ts, id, who)
  {
    hide Load, Distinct, Assigned;
    AssignedDistinct(ts, id, who);
    if forall t <- ts :: t.id != id {
      LoadMissing(ts, id, who);
    } else {
      var t :| t in ts && t.id == id;
      LoadTaken(ts, t, who);
      forall u <- ts | u.id == id ensures u == t {
        SameTicket(ts, u, t);
      }
      if Fits(roster, ts, id, who) {
        AssignedOwners(roster, ts, id, who);
        forall a <- roster | !Operator(a) ensures Load(Assigned(ts, id, who), a.username) <= a.capacity {
          if a.username != who {
            LoadElsewhere(ts, id, who, a.username);
          }
        }
      }
      if Safe(roster, Assigned(ts, id, who)) {
        var i :| 0 <= i < |ts| && ts[i] == t;
        assert Assigned(ts, id, who)[i] == t.(owner := who);
        assert t.(owner := who) in Assigned(ts, id, who);
      }
    }
  }

  // ---- The board's actions ----

  datatype Action = TakeIt(id: string, actor: string) | HandOver(id: string)

  /** The server takes an assignee from the roster, or nobody. */
  predicate Known(roster: seq<Agent>, who: string) {
    who == "" || exists a <- roster :: a.username == who
  }

  /** Who `sdSuggested` names for a team: the first least-loaded agent with room, or nobody. */
  predicate Suggests(roster: seq<Agent>, ts: seq<Ticket>, team: string, who: string) {
    if exists i :: 0 <= i < |roster| && IsFirstLeast(roster, ts, team, i)
    then exists i :: 0 <= i < |roster| && IsFirstLeast(roster, ts, team, i) && who == roster[i].username
    else who == ""
  }

  /** What one click does to the cases, loads being counted anew before each. */
  ghost predicate Next(roster: seq<Agent>, ts: seq<Ticket>, act: Action, ts': seq<Ticket>) {
    match act
    case TakeIt(id, who) =>
      ts' == if Known(roster, who) then Assigned(ts, id, who) else ts
    case HandOver(id) =>
      if exists t <- ts :: t.id == id
      then exists t <- ts, who :: t.id == id && Suggests(roster, ts, t.team, who) && ts' == Assigned(ts, id, who)
      else ts' == ts
  }

  lemma SuggestedHasRoom(roster: seq<Agent>, ts: seq<Ticket>, team: string, who: string, a: Agent)
    requires Accounts(roster) && Suggests(roster, ts, team, who) && a in roster && a.username == who
    ensures Load(ts, who) < a.capacity && a.team == team
  {
    hide Load, Accounts;
    if exists i :: 0 <= i < |roster| && IsFirstLeast(roster, ts, team, i) {
      var i :| 0 <= i < |roster| && IsFirstLeast(roster, ts, team, i) && who == roster[i].username;
      OneTeamMate(roster, roster[i], a);
    } else {
      NoNameless(roster, a);
    }
  }

  lemma NoNameless(roster: seq<Agent>, a: Agent)
    requires Accounts(roster) && a in roster
    ensures a.username != ""
  {
  }

  /** A click that needs nothing of its actor, or whose actor fits. */
  predicate Allowed(roster: seq<Agent>, ts: seq<Ticket>, act: Action) {
    act.TakeIt? ==> Fits(roster, ts, act.id, act.actor)
  }

  /** An operator fits always, so Take it is always allowed to the accounts that can sign in. */
  lemma OperatorFits(roster: seq<Agent>, ts: seq<Ticket>, id: string, who: string)
    requires forall a <- roster :: a.username == who ==> Operator(a)
    ensures Fits(roster, ts, id, who)
  {
  }

  lemma HandedFits(roster: seq<Agent>, ts: seq<Ticket>, t: Ticket, who: string)
    requires Accounts(roster) && Distinct(ts) && t in ts && Suggests(roster, ts, t.team, who)
    ensures Fits(roster, ts, t.id, who)
  {
    hide Distinct, Suggests, Load, Accounts;
    forall a <- roster, s <- ts | a.username == who && !Operator(a) && s.id == t.id
      ensures a.team == s.team && Load(ts, who) < a.capacity
    {
      SuggestedHasRoom(roster, ts, t.team, who, a);
      SameTicket(ts, s, t);
    }
  }

  lemma UnknownFits(roster: seq<Agent>, ts: seq<Ticket>, id: string, who: string)
    requires !Known(roster, who)
    ensures Fits(roster, ts, id, who)
  {
  }

  lemma NextSafeIff(roster: seq<Agent>, ts: seq<Ticket>, act: Action, ts': seq<Ticket>)
    requires Accounts(roster) && Safe(roster, ts) && Distinct(ts) && Next(roster, ts, act, ts')
    ensures Distinct(ts') && (Safe(roster, ts') <==> Allowed(roster, ts, act))
  {
    hide Safe, Distinct, Suggests, Assigned, Accounts, Fits, Known;
    match act
    case TakeIt(id, who) =>
      AssignedSafeIff(roster, ts, id, who);
      if !Known(roster, who) {
        UnknownFits(roster, ts, id, who);
      }
    case HandOver(id) =>
      if exists t <- ts :: t.id == id {
        var t, who :| t in ts && t.id == id && Suggests(roster, ts, t.team, who) && ts' == Assigned(ts, id, who);
        HandedFits(roster, ts, t, who);
        AssignedSafeIff(roster, ts, id, who);
      }
  }

  ghost predicate IsRun(roster: seq<Agent>, states: seq<seq<Ticket>>, acts: seq<Action>) {
    |states| == |acts| + 1 && forall k :: 0 <= k < |acts| ==> Next(roster, states[k], acts[k], states[k + 1])
  }

  /** However often cases are taken and handed over, nobody on a team holds more than they have
      room for and no case is with another team, up to the first Take it that does not fit. */
  lemma {:induction false} RunSafe(roster: seq<Agent>, states: seq<seq<Ticket>>, acts: seq<Action>, k: nat)
    requires Accounts(roster) && IsRun(roster, states, acts) && k <= |acts|
    requires Safe(roster, states[0]) && Distinct(states[0])
    requires forall j :: 0 <= j < k ==> Allowed(roster, states[j], acts[j])
    ensures Safe(roster, states[k]) && Distinct(states[k])
  {
    hide Safe, Distinct, Next, Accounts, Allowed;
    if k > 0 {
      RunSafe(roster, states, acts, k - 1);
      NextSafeIff(roster, states[k - 1], acts[k - 1], states[k]);
    }
  }

  /** So a run is safe throughout exactly when every Take it fits. */
  lemma RunSafeIff(roster: seq<Agent>, states: seq<seq<Ticket>>, acts: seq<Action>)
    requires Accounts(roster) && IsRun(roster, states, acts)
    requires Safe(roster, states[0]) && Distinct(states[0])
    ensures (forall k :: 0 <= k <= |acts| ==> Safe(roster, states[k]))
       <==> forall k :: 0 <= k < |acts| ==> Allowed(roster, states[k], acts[k])
  {
    hide Safe, Distinct, Next, Accounts, Allowed;
    if forall k :: 0 <= k < |acts| ==> Allowed(roster, states[k], acts[k]) {
      forall k | 0 <= k <= |acts| ensures Safe(roster, states[k]) {
        RunSafe(roster, states, acts, k);
      }
    } else {
      var k := FirstRefused(roster, states, acts, 0);
      RunSafe(roster, states, acts, k);
      NextSafeIff(roster, states[k], acts[k], states[k + 1]);
    }
  }

  lemma FirstRefused(roster: seq<Agent>, states: seq<seq<Ticket>>, acts: seq<Action>, from: nat) returns (k: nat)
    requires |states| == |acts| + 1 && from <= |acts|
    requires forall j :: 0 <= j < from ==> Allowed(roster, states[j], acts[j])
    requires exists j :: from <= j < |acts| && !Allowed(roster, states[j], acts[j])
    ensures k < |acts| && !Allowed(roster, states[k], acts[k])
    ensures forall j :: 0 <= j < k ==> Allowed(roster, states[j], acts[j])
    decreases |acts| - from
  {
    hide Allowed;
    if Allowed(roster, states[from], acts[from]) {
      k := FirstRefused(roster, states, acts, from + 1);
    } else {
      k := from;
    }
  }

  // ---- The batch path ----

  predicate Waiting(t: Ticket) {
    Serviceable(t) && t.owner == ""
  }

  function WaitingFor(ts: seq<Ticket>, team: string): nat {
    if ts == [] then 0 else (if Waiting(ts[0]) && ts[0].team == team then 1 else 0) + WaitingFor(ts[1..], team)
  }

  predicate SomeRoom(roster: seq<Agent>, ts: seq<Ticket>, team: string) {
    exists i :: 0 <= i < |roster| && IsFirstLeast(roster, ts, team, i)
  }

  /** What the batch makes of one case: a waiting one of a team with room goes to the one agent
      suggested at the start. */
  ghost predicate Given(roster: seq<Agent>, ts: seq<Ticket>, t: Ticket, r: Ticket) {
    if Waiting(t) && SomeRoom(roster, ts, t.team)
    then r == t.(owner := r.owner) && Suggests(roster, ts, t.team, r.owner)
    else r == t
  }

  ghost predicate Batched(roster: seq<Agent>, ts: seq<Ticket>, r: seq<Ticket>) {
    |r| == |ts| && forall i :: 0 <= i < |ts| ==> Given(roster, ts, ts[i], r[i])
  }

  lemma BatchedWhole(roster: seq<Agent>, ts: seq<Ticket>, r: seq<Ticket>)
    requires |r| == |ts| && forall i :: 0 <= i < |ts| ==> Given(roster, ts, ts[i], r[i])
    ensures Batched(roster, ts, r)
  {
    hide Given;
  }

  lemma DistinctIds(ts: seq<Ticket>)
    requires Distinct(ts)
    ensures forall i, j :: 0 <= i < |ts| && 0 <= j < |ts| && ts[i].id == ts[j].id ==> i == j
  {
  }

  lemma GivenOne(roster: seq<Agent>, ts: seq<Ticket>, t: Ticket, who: string)
    ensures Waiting(t) && SomeRoom(roster, ts, t.team) && Suggests(roster, ts, t.team, who) ==>
              Given(roster, ts, t, t.(owner := who))
    ensures !(Waiting(t) && SomeRoom(roster, ts, t.team)) ==> Given(roster, ts, t, t)
  {
    hide SomeRoom, Suggests;
  }

  lemma {:induction false} LoadGiven(ts: seq<Ticket>, r: seq<Ticket>, u: string, team: string, gets: bool)
    requires |r| == |ts|
    requires forall i :: 0 <= i < |ts| ==>
      r[i].status == ts[i].status
      && var given := gets && Waiting(ts[i]) && ts[i].team == team;
         (r[i].owner == u <==> (ts[i].owner == u && !given) || given)
    requires u != ""
    ensures Load(r, u) == Load(ts, u) + if gets then WaitingFor(ts, team) else 0
  {
    if ts != [] {
      LoadGiven(ts[1..], r[1..], u, team, gets);
    }
  }

  /** The batch reads one snapshot, so all of a team's waiting cases pile up on one agent, and
      everybody else keeps exactly what they had. */
  lemma BatchLoad(roster: seq<Agent>, ts: seq<Ticket>, r: seq<Ticket>, k: nat)
    requires Accounts(roster) && Batched(roster, ts, r) && k < |roster| && !Operator(roster[k])
    ensures Load(r, roster[k].username)
         == Load(ts, roster[k].username) + if IsFirstLeast(roster, ts, roster[k].team, k) then
           WaitingFor(ts, roster[k].team) else 0
  {
    hide Load, IsFirstLeast, Serviceable;
    var a := roster[k];
    var gets := IsFirstLeast(roster, ts, a.team, k);
    assert a.username != "" by { assert a in roster; }
    assert gets ==> SomeRoom(roster, ts, a.team);
    forall i | 0 <= i < |ts|
      ensures r[i].status == ts[i].status
      ensures r[i].owner == a.username <==>
                (ts[i].owner == a.username && !(gets && Waiting(ts[i]) && ts[i].team == a.team)) ||
                  (gets && Waiting(ts[i]) && ts[i].team == a.team)
    {
      if Waiting(ts[i]) && SomeRoom(roster, ts, ts[i].team) {
        GivenTo(roster, ts, ts[i].team, r[i].owner, k);
      }
    }
    LoadGiven(ts, r, a.username, a.team, gets);
  }

  lemma GivenTo(roster: seq<Agent>, ts: seq<Ticket>, team: string, who: string, k: nat)
    requires Accounts(roster) && k < |roster| && SomeRoom(roster, ts, team) && Suggests(roster, ts, team, who)
    ensures who == roster[k].username <==> team == roster[k].team && IsFirstLeast(roster, ts, roster[k].team, k)
  {
    hide Load;
    var i :| 0 <= i < |roster| && IsFirstLeast(roster, ts, team, i) && who == roster[i].username;
    if who == roster[k].username {
      assert roster[i] in roster && roster[k] in roster;
      assert i == k;
    }
    if team == roster[k].team && IsFirstLeast(roster, ts, roster[k].team, k) {
      FirstLeastIsUnique(roster, ts, team, i, k);
    }
  }

  /** The batch keeps everybody within capacity exactly when each team's waiting cases fit into
      the room its one chosen agent has. */
  lemma BatchSafeIff(roster: seq<Agent>, ts: seq<Ticket>, r: seq<Ticket>)
    requires Accounts(roster) && Batched(roster, ts, r) && WithinCapacity(roster, ts)
    ensures WithinCapacity(roster, r)
       <==> forall k :: 0 <= k < |roster| && IsFirstLeast(roster, ts, roster[k].team, k) ==>
              Load(ts, roster[k].username) + WaitingFor(ts, roster[k].team) <= roster[k].capacity
  {
    hide Load, Batched, Accounts, WaitingFor;
    forall k | 0 <= k < |roster| && !Operator(roster[k])
      ensures Load(r, roster[k].username)
           == Load(ts, roster[k].username) + if IsFirstLeast(roster, ts, roster[k].team, k) then
             WaitingFor(ts, roster[k].team) else 0
    {
      BatchLoad(roster, ts, r, k);
    }
    if WithinCapacity(roster, r) {
      forall k | 0 <= k < |roster| && IsFirstLeast(roster, ts, roster[k].team, k)
        ensures Load(ts, roster[k].username) + WaitingFor(ts, roster[k].team) <= roster[k].capacity
      {
        assert roster[k] in roster;
      }
    } else {
      var a :| a in roster && !Operator(a) && Load(r, a.username) > a.capacity;
      var k :| 0 <= k < |roster| && roster[k] == a;
    }
  }

  /** They need not: two waiting cases both go to the one agent with room for one. */
  lemma BatchOverfills() returns (roster: seq<Agent>, ts: seq<Ticket>, r: seq<Ticket>)
    ensures Accounts(roster) && Batched(roster, ts, r) && WithinCapacity(roster, ts) && !WithinCapacity(roster, r)
  {
    var ana := Agent("ana", "cards", 1, false);
    var first := Ticket("tkt_1", "cards", Open, "", None, None, None);
    var second := first.(id := "tkt_2");
    roster, ts := [ana], [first, second];
    r := [first.(owner := "ana"), second.(owner := "ana")];
    LoadOfTwo(first, second, "ana");
    LoadOfTwo(r[0], r[1], "ana");
    assert roster[0] == ana && IsFirstLeast(roster, ts, "cards", 0);
    assert ana in roster;
  }

  // ---- The board ----

  class Desk {
    const roster: seq<Agent>
    var tickets: seq<Ticket>

    constructor (roster: seq<Agent>, tickets: seq<Ticket>)
      ensures this.roster == roster && this.tickets == tickets
    {
      this.roster, this.tickets := roster, tickets;
    }

    /** The server's PATCH: an unknown assignee or an unknown case changes nothing. */
    method AssignOne(id: string, who: string)
      modifies this
      ensures tickets == if Known(roster, who) then Assigned(old(tickets), id, who) else old(tickets)
    {
      if Known(roster, who) {
        tickets := Assigned(tickets, id, who);
      }
    }

    method TakeIt(id: string, actor: string)
      modifies this
      ensures Next(roster, old(tickets), Action.TakeIt(id, actor), tickets)
    {
      AssignOne(id, actor);
    }

    method HandOver(id: string)
      requires Accounts(roster)
      modifies this
      ensures Next(roster, old(tickets), Action.HandOver(id), tickets)
    {
      hide Load, IsFirstLeast, Eligible, Accounts;
      var i := 0;
      while i < |tickets| && tickets[i].id != id
        invariant 0 <= i <= |tickets| && forall j :: 0 <= j < i ==> tickets[j].id != id
      {
        i := i + 1;
      }
      var who := "";
      if i < |tickets| {
        who := SuggestOn(tickets, tickets[i].team);
        assert tickets[i] in tickets;
      } else {
        LoadMissing(tickets, id, who);
      }
      AssignOne(id, who);
    }

    /** `sdAutoAssignAll`: the picks are all made on the board as it was loaded. */
    method AutoAssignAll()
      requires Accounts(roster) && Distinct(tickets)
      modifies this
      ensures Batched(roster, old(tickets), tickets)
    {
      hide *;
      ghost var before := tickets;
      var board := tickets;
      DistinctIds(board);
      for n := 0 to |board|
        invariant |tickets| == |board| && before == board
        invariant forall i :: 0 <= i < n ==> tickets[i].id == board[i].id && Given(roster, before, board[i], tickets[i])
        invariant forall i :: n <= i < |board| ==> tickets[i] == board[i]
      {
        GivenOne(roster, before, board[n], "");
        if Waiting(board[n]) {
          var who := SuggestOn(board, board[n].team);
          GivenOne(roster, before, board[n], who);
          if who != "" {
            AssignOne(board[n].id, who);
          }
        }
      }
      BatchedWhole(roster, before, tickets);
    }

    /** The suggestion over a given snapshot of the board. */
    method SuggestOn(board: seq<Ticket>, team: string) returns (who: string)
      requires Accounts(roster)
      ensures Suggests(roster, board, team, who) && Known(roster, who)
      ensures who != "" <==> SomeRoom(roster, board, team)
    {
      hide Load, Eligible;
      var best := Suggested(roster, board, team);
      who := if best.Some? then roster[best.value].username else "";
      if best.Some? {
        assert roster[best.value] in roster;
      }
    }
  }
}
