/** The synthetic workbook: whatever the random generator answers, the rows fit together. Every
    `:|` and `*` below is one draw; amounts are in paise. */
module WorkbookGenerator {
  import opened Options

  /** A reference number: its prefix, and the number printed after it. */
  datatype Ref = Ref(prefix: string, number: nat)

  datatype Customer = Customer(crn: Ref)

  datatype Account = Account(crn: Ref, number: Ref, balance: int, minimum: int)

  datatype Card = Card(crn: Ref, id: Ref, account: Option<Ref>, dpd: nat)

  datatype LoanStatus = Active | NPA | Closed

  datatype Loan = Loan(crn: Ref, id: Ref, account: Option<Ref>, tenure: nat, paid: nat, pending: nat, dpd: nat,
    balance: int, status: LoanStatus)

  datatype Policy = Policy(crn: Ref, id: Ref, kind: string, coverage: int)

  datatype Claim = Claim(crn: Ref, id: Ref, policy: Ref, status: string, claimed: int, approved: Option<int>)

  datatype Charge = Charge(crn: Ref, id: Ref, account: Option<Ref>, kind: string)

  const CLAIMABLE := ["Auto", "Health", "Home Insurance"]
  const POLICY_TYPES := ["Health", "Life", "Term Insurance", "Auto", "Home Insurance"]
  const CLAIM_STATUSES := ["Approved", "Rejected", "Under Review", "Processing"]

  /** `round`: to the nearest whole number. */
  function Round(x: real): int {
    (x + 0.5).Floor
  }

  lemma RoundBelow(x: real, n: int)
    requires x <= n as real
    ensures Round(x) <= n
  {
  }

  lemma ShareOf(x: real, share: real)
    requires x >= 0.0 && share >= 0.0
    ensures x * share >= 0.0
  {
  }

  /** `rng.uniform`: any number between the two. */
  method Uniform(lo: real, hi: real) returns (x: real)
    requires lo <= hi
    ensures lo <= x <= hi
  {
    x := *;
    if x < lo || x > hi {
      x := lo;
    }
  }

  // ---- What it means for the rows to fit ----

  predicate AllDistinct(ids: seq<Ref>) {
    forall i, j :: 0 <= i < j < |ids| ==> ids[i] != ids[j]
  }

  function Crns(cs: seq<Customer>): seq<Ref> {
    seq(|cs|, i requires 0 <= i < |cs| => cs[i].crn)
  }

  function Numbers(xs: seq<Account>): seq<Ref> {
    seq(|xs|, i requires 0 <= i < |xs| => xs[i].number)
  }

  function CardIds(xs: seq<Card>): seq<Ref> {
    seq(|xs|, i requires 0 <= i < |xs| => xs[i].id)
  }

  function LoanIds(xs: seq<Loan>): seq<Ref> {
    seq(|xs|, i requires 0 <= i < |xs| => xs[i].id)
  }

  function PolicyIds(xs: seq<Policy>): seq<Ref> {
    seq(|xs|, i requires 0 <= i < |xs| => xs[i].id)
  }

  function ClaimIds(xs: seq<Claim>): seq<Ref> {
    seq(|xs|, i requires 0 <= i < |xs| => xs[i].id)
  }

  function ChargeIds(xs: seq<Charge>): seq<Ref> {
    seq(|xs|, i requires 0 <= i < |xs| => xs[i].id)
  }

  /** The account named is one of this customer's. */
  predicate Owns(accounts: seq<Account>, crn: Ref, number: Option<Ref>) {
    number.Some? && exists a <- accounts :: a.crn == crn && a.number == number.value
  }

  predicate HasAccount(accounts: seq<Account>, crn: Ref) {
    exists a <- accounts :: a.crn == crn
  }

  predicate LoanAddsUp(l: Loan) {
    && l.paid + l.pending == l.tenure
    && (l.status == Closed <==> l.pending == 0)
    && (l.status == Closed ==> l.dpd == 0 && l.balance == 0)
    && (l.status == NPA <==> l.pending > 0 && l.dpd >= 90)
  }

  predicate Covers(policies: seq<Policy>, c: Claim) {
    exists p <- policies :: p.id == c.policy && p.crn == c.crn && p.kind in CLAIMABLE
  }

  predicate ClaimAddsUp(c: Claim) {
    (c.approved.Some? <==> c.status == "Approved") && (c.approved.Some? ==> c.approved.value <= c.claimed)
  }

  predicate StatusesVary(cs: seq<Claim>) {
    forall i, j :: 0 <= i < j < |cs| && cs[i].policy == cs[j].policy ==> cs[i].status != cs[j].status
  }

  // ---- The reference numbers ----

  class Sequences {
    var counters: map<string, nat>
    /** Every number handed out so far. */
    ghost var issued: set<Ref>

    ghost predicate Valid()
      reads this
    {
      forall r <- issued :: r.prefix in counters && r.number <= counters[r.prefix]
    }

    constructor ()
      ensures Valid() && issued == {}
    {
      counters, issued := map[], {};
    }

    /** The start only counts for the first number of a prefix. */
    method NextId(prefix: string, start: nat) returns (r: Ref)
      requires Valid() && start > 0
      modifies this
      ensures Valid() && r.prefix == prefix && r !in old(issued) && issued == old(issued) + {r}
      ensures r.number == if prefix in old(counters) then old(counters)[prefix] + 1 else start
    {
      var n := (if prefix in counters then counters[prefix] else start - 1) + 1;
      counters := counters[prefix := n];
      r := Ref(prefix, n);
      issued := issued + {r};
    }
  }

  predicate Listed(ids: seq<Ref>, issued: set<Ref>) {
    AllDistinct(ids) && forall r <- ids :: r in issued
  }

  lemma ListedPush(ids: seq<Ref>, issued: set<Ref>, r: Ref)
    requires Listed(ids, issued) && r !in issued
    ensures Listed(ids + [r], issued + {r})
  {
  }

  // ---- The sheets ----

  method Customers(s: Sequences, count: nat) returns (cs: seq<Customer>)
    requires s.Valid()
    modifies s
    ensures s.Valid() && old(s.issued) <= s.issued && |cs| == count
    ensures AllDistinct(Crns(cs))
  {
    cs := [];
    for i := 0 to count
      invariant s.Valid() && old(s.issued) <= s.issued && |cs| == i && Listed(Crns(cs), s.issued)
    {
      ghost var before := s.issued;
      var crn := s.NextId("CRN", 10001);
      ListedPush(Crns(cs), before, crn);
      assert Crns(cs + [Customer(crn)]) == Crns(cs) + [crn];
      cs := cs + [Customer(crn)];
    }
  }

  /** One account each, and sometimes a second. */
  method Accounts(s: Sequences, cs: seq<Customer>) returns (xs: seq<Account>)
    requires s.Valid()
    modifies s
    ensures s.Valid() && old(s.issued) <= s.issued && AllDistinct(Numbers(xs))
    ensures forall c <- cs :: HasAccount(xs, c.crn)
    ensures forall a <- xs :: exists c <- cs :: c.crn == a.crn
  {
    xs := [];
    for i := 0 to |cs|
      invariant s.Valid() && old(s.issued) <= s.issued && Listed(Numbers(xs), s.issued)
      invariant forall j :: 0 <= j < i ==> HasAccount(xs, cs[j].crn)
      invariant forall a <- xs :: exists c <- cs :: c.crn == a.crn
    {
      assert cs[i] in cs;
      var minimum: int :| minimum in {0, 1000000, 300000};
      var balance: int := *;
      xs := OpenAccount(s, xs, cs[i].crn, balance, minimum);
      var second: bool := *;
      if second {
        xs := OpenAccount(s, xs, cs[i].crn, balance, 300000);
      }
    }
  }

  method OpenAccount(s: Sequences, xs: seq<Account>, crn: Ref, balance: int, minimum: int) returns (r: seq<Account>)
    requires s.Valid() && Listed(Numbers(xs), s.issued)
    modifies s
    ensures s.Valid() && old(s.issued) <= s.issued && Listed(Numbers(r), s.issued)
    ensures |r| == |xs| + 1 && r[..|xs|] == xs && r[|xs|].crn == crn
    ensures HasAccount(r, crn) && forall q :: HasAccount(xs, q) ==> HasAccount(r, q)
    ensures forall a <- r :: a in xs || a.crn == crn
  {
    ghost var before := s.issued;
    var number := s.NextId("4090", 100001);
    ListedPush(Numbers(xs), before, number);
    r := xs + [Account(crn, number, balance, minimum)];
    assert Numbers(r) == Numbers(xs) + [number];
    assert r[|xs|] in r;
    forall q | HasAccount(xs, q) ensures HasAccount(r, q) {
      var a :| a in xs && a.crn == q;
      assert a in r;
    }
  }

  /** The number of the customer's first account. */
  method FirstAccount(accounts: seq<Account>, crn: Ref) returns (number: Option<Ref>)
    ensures HasAccount(accounts, crn) ==> Owns(accounts, crn, number)
    ensures !HasAccount(accounts, crn) ==> number == None
  {
    number := None;
    for i := 0 to |accounts|
      invariant number == None && forall j :: 0 <= j < i ==> accounts[j].crn != crn
    {
      if accounts[i].crn == crn {
        assert accounts[i] in accounts;
        return Some(accounts[i].number);
      }
    }
  }

  method Cards(s: Sequences, cs: seq<Customer>, accounts: seq<Account>) returns (xs: seq<Card>)
    requires s.Valid() && forall c <- cs :: HasAccount(accounts, c.crn)
    modifies s
    ensures s.Valid() && old(s.issued) <= s.issued && AllDistinct(CardIds(xs))
    ensures forall x <- xs :: Owns(accounts, x.crn, x.account)
  {
    hide HasAccount, Owns;
    xs := [];
    for i := 0 to |cs|
      invariant s.Valid() && old(s.issued) <= s.issued && Listed(CardIds(xs), s.issued)
      invariant forall x <- xs :: Owns(accounts, x.crn, x.account)
    {
      var skip: bool := *;
      if skip {
        continue;
      }
      assert cs[i] in cs;
      var number := FirstAccount(accounts, cs[i].crn);
      var dpd: nat :| dpd in {0, 5, 15, 30, 45, 60, 90};
      ghost var before := s.issued;
      var id := s.NextId("CC", 100001);
      ListedPush(CardIds(xs), before, id);
      var card := Card(cs[i].crn, id, number, dpd);
      assert CardIds(xs + [card]) == CardIds(xs) + [id];
      xs := xs + [card];
    }
  }

  /** One loan. The counts are cut so that they add up whatever the dates are. */
  method MakeLoan(s: Sequences, crn: Ref, account: Option<Ref>) returns (l: Loan)
    requires s.Valid()
    modifies s
    ensures s.Valid() && l.id !in old(s.issued) && s.issued == old(s.issued) + {l.id}
    ensures l.crn == crn && l.account == account && LoanAddsUp(l)
  {
    var tenure: nat :| 12 <= tenure <= 360;
    var principal: nat :| 100000 <= principal <= 9000000;
    var rate := Uniform(8.0, 16.0);
    var sinceApplied: int := *;
    var elapsed := if tenure < sinceApplied then tenure else sinceApplied;
    elapsed := if elapsed < 1 then 1 else elapsed;
    var dpd: nat :| dpd in {0, 15, 30, 60, 90};
    var paid := elapsed - if dpd > 0 then 1 else 0;
    paid := if paid < 0 then 0 else paid;
    paid := if paid > tenure then tenure else paid;
    var pending := if tenure - paid > 0 then tenure - paid else 0;
    var emi := Round((principal as real / tenure as real) * (1.0 + rate / 200.0) * 100.0);
    var balance := Round((emi * pending) as real);
    var status := if pending == 0 then Closed else if dpd >= 90 then NPA else Active;
    var id := s.NextId("LN", 1001);
    l := Loan(crn, id, account, tenure, paid, pending, dpd, balance, status);
  }

  method Loans(s: Sequences, cs: seq<Customer>, accounts: seq<Account>) returns (xs: seq<Loan>)
    requires s.Valid() && forall c <- cs :: HasAccount(accounts, c.crn)
    modifies s
    ensures s.Valid() && old(s.issued) <= s.issued && AllDistinct(LoanIds(xs))
    ensures forall x <- xs :: Owns(accounts, x.crn, x.account) && LoanAddsUp(x)
  {
    hide HasAccount, Owns, LoanAddsUp;
    xs := [];
    for i := 0 to |cs|
      invariant s.Valid() && old(s.issued) <= s.issued && Listed(LoanIds(xs), s.issued)
      invariant forall x <- xs :: Owns(accounts, x.crn, x.account) && LoanAddsUp(x)
    {
      assert cs[i] in cs;
      var number := FirstAccount(accounts, cs[i].crn);
      var count: nat :| count <= 2;
      for k := 0 to count
        invariant s.Valid() && old(s.issued) <= s.issued && Listed(LoanIds(xs), s.issued)
        invariant forall x <- xs :: Owns(accounts, x.crn, x.account) && LoanAddsUp(x)
      {
        ghost var before := s.issued;
        var l := MakeLoan(s, cs[i].crn, number);
        ListedPush(LoanIds(xs), before, l.id);
        assert LoanIds(xs + [l]) == LoanIds(xs) + [l.id];
        xs := xs + [l];
      }
    }
  }

  /** One claimable policy each, and mostly a second of another type. */
  method Policies(s: Sequences, cs: seq<Customer>) returns (xs: seq<Policy>)
    requires s.Valid()
    modifies s
    ensures s.Valid() && old(s.issued) <= s.issued && AllDistinct(PolicyIds(xs))
    ensures forall c <- cs :: exists p <- xs :: p.crn == c.crn && p.kind in CLAIMABLE
    ensures forall p <- xs :: p.kind in POLICY_TYPES && p.coverage > 0
  {
    xs := [];
    for i := 0 to |cs|
      invariant s.Valid() && old(s.issued) <= s.issued && Listed(PolicyIds(xs), s.issued)
      invariant forall j :: 0 <= j < i ==> exists p <- xs :: p.crn == cs[j].crn && p.kind in CLAIMABLE
      invariant forall p <- xs :: p.kind in POLICY_TYPES && p.coverage > 0
    {
      PickFirst();
      var kind: string :| kind in CLAIMABLE;
      ClaimableIsAType(kind);
      xs := Issue(s, xs, cs[i].crn, kind);
      var second: bool := *;
      if second {
        OtherType(kind);
        var other: string :| other in POLICY_TYPES && other != kind;
        xs := Issue(s, xs, cs[i].crn, other);
      }
    }
  }

  lemma PickFirst()
    ensures "Auto" in CLAIMABLE && "Life" in POLICY_TYPES
  {
    assert CLAIMABLE[0] == "Auto" && POLICY_TYPES[1] == "Life";
  }

  lemma ClaimableIsAType(kind: string)
    requires kind in CLAIMABLE
    ensures kind in POLICY_TYPES && kind != "Life"
  {
    assert kind == CLAIMABLE[0] || kind == CLAIMABLE[1] || kind == CLAIMABLE[2];
    assert POLICY_TYPES[3] == "Auto" && POLICY_TYPES[0] == "Health" && POLICY_TYPES[4] == "Home Insurance";
  }

  lemma OtherType(kind: string)
    requires kind in CLAIMABLE
    ensures exists other: string :: other in POLICY_TYPES && other != kind
  {
    PickFirst();
    ClaimableIsAType(kind);
    assert "Life" in POLICY_TYPES && "Life" != kind;
  }

  method Issue(s: Sequences, xs: seq<Policy>, crn: Ref, kind: string) returns (r: seq<Policy>)
    requires s.Valid() && Listed(PolicyIds(xs), s.issued)
    modifies s
    ensures s.Valid() && old(s.issued) <= s.issued && Listed(PolicyIds(r), s.issued)
    ensures |r| == |xs| + 1 && r[..|xs|] == xs && r[|xs|].crn == crn && r[|xs|].kind == kind && r[|xs|].coverage > 0
    ensures r[|xs|] in r && (forall p <- xs :: p in r) && forall p <- r :: p in xs || p == r[|xs|]
  {
    ghost var before := s.issued;
    var coverage: nat :| 300000 <= coverage <= 10000000;
    var id := s.NextId("POL", 1001);
    ListedPush(PolicyIds(xs), before, id);
    r := xs + [Policy(crn, id, kind, coverage * 100)];
    assert PolicyIds(r) == PolicyIds(xs) + [id];
  }

  /** `rng.sample`: two or three statuses, none twice. */
  predicate IsSample(statuses: seq<string>) {
    && 2 <= |statuses| <= 3
    && (forall x <- statuses :: x in CLAIM_STATUSES)
    && forall i, j :: 0 <= i < j < |statuses| ==> statuses[i] != statuses[j]
  }

  lemma SampleExists()
    ensures IsSample(["Approved", "Rejected"])
  {
    assert CLAIM_STATUSES[0] == "Approved" && CLAIM_STATUSES[1] == "Rejected";
  }

  /** Whatever the claims so far, those of policies from here on are new. */
  predicate ClaimsUpTo(policies: seq<Policy>, n: nat, xs: seq<Claim>)
    requires n <= |policies|
  {
    && StatusesVary(xs)
    && (forall c <- xs :: Covers(policies, c) && ClaimAddsUp(c))
    && (forall c <- xs, j :: n <= j < |policies| ==> c.policy != policies[j].id)
  }

  method Claims(s: Sequences, policies: seq<Policy>) returns (xs: seq<Claim>)
    requires s.Valid() && AllDistinct(PolicyIds(policies)) && forall p <- policies :: p.coverage > 0
    modifies s
    ensures s.Valid() && old(s.issued) <= s.issued && AllDistinct(ClaimIds(xs))
    ensures StatusesVary(xs) && forall c <- xs :: Covers(policies, c) && ClaimAddsUp(c)
  {
    hide StatusesVary, Covers, ClaimAddsUp, IsSample;
    xs := [];
    NoClaims(policies);
    for i := 0 to |policies|
      invariant s.Valid() && old(s.issued) <= s.issued && Listed(ClaimIds(xs), s.issued)
      invariant ClaimsUpTo(policies, i, xs)
    {
      if policies[i].kind !in CLAIMABLE {
        continue;
      }
      SampleExists();
      var statuses: seq<string> :| IsSample(statuses);
      ghost var before := xs;
      for k := 0 to |statuses|
        invariant s.Valid() && old(s.issued) <= s.issued && Listed(ClaimIds(xs), s.issued)
        invariant StatusesVary(xs) && forall c <- xs :: Covers(policies, c) && ClaimAddsUp(c)
        invariant forall c <- xs :: c.policy == policies[i].id ==> c.status in statuses[..k]
        invariant forall c <- xs, j :: i < j < |policies| ==> c.policy != policies[j].id
      {
        ghost var had := s.issued;
        var c := FileClaim(s, policies, i, statuses[k]);
        ListedPush(ClaimIds(xs), had, c.id);
        assert ClaimIds(xs + [c]) == ClaimIds(xs) + [c.id];
        SampleFresh(statuses, k);
        VaryPush(xs, c);
        LaterPolicies(policies, i);
        xs := xs + [c];
        assert statuses[..k + 1] == statuses[..k] + [statuses[k]];
      }
    }
  }

  lemma NoClaims(policies: seq<Policy>)
    ensures ClaimsUpTo(policies, 0, [])
  {
  }

  lemma LaterPolicies(policies: seq<Policy>, i: nat)
    requires AllDistinct(PolicyIds(policies)) && i < |policies|
    ensures forall j :: i < j < |policies| ==> policies[i].id != policies[j].id
  {
    forall j | i < j < |policies| ensures policies[i].id != policies[j].id {
      assert PolicyIds(policies)[i] != PolicyIds(policies)[j];
    }
  }

  lemma SampleFresh(statuses: seq<string>, k: nat)
    requires IsSample(statuses) && k < |statuses|
    ensures statuses[k] !in statuses[..k]
  {
  }

  lemma VaryPush(xs: seq<Claim>, c: Claim)
    requires StatusesVary(xs) && forall x <- xs :: x.policy == c.policy ==> x.status != c.status
    ensures StatusesVary(xs + [c])
  {
    forall i, j | 0 <= i < j < |xs + [c]| && (xs + [c])[i].policy == (xs + [c])[j].policy
      ensures (xs + [c])[i].status != (xs + [c])[j].status
    {
      if j == |xs| {
        assert xs[i] in xs;
      }
    }
  }

  method FileClaim(s: Sequences, policies: seq<Policy>, i: nat, status: string) returns (c: Claim)
    requires s.Valid() && i < |policies| && policies[i].kind in CLAIMABLE && policies[i].coverage > 0
    modifies s
    ensures s.Valid() && c.id !in old(s.issued) && s.issued == old(s.issued) + {c.id}
    ensures c.policy == policies[i].id && c.status == status && Covers(policies, c) && ClaimAddsUp(c)
  {
    var share := Uniform(0.02, 0.4);
    var part := Uniform(0.7, 1.0);
    ShareOf(policies[i].coverage as real, share);
    var claimed := Round(policies[i].coverage as real * share);
    var approved := None;
    if status == "Approved" {
      approved := Some(Approve(claimed, part));
    }
    var id := s.NextId("CLM", 1001);
    c := Claim(policies[i].crn, id, policies[i].id, status, claimed, approved);
    assert policies[i] in policies;
  }

  /** A rounded part of a whole amount is no more than the amount. */
  function Approve(claimed: int, part: real): (a: int)
    requires 0.7 <= part <= 1.0
    ensures claimed >= 0 ==> a <= claimed
  {
    if claimed >= 0 then PartBelow(claimed as real, part); RoundBelow(claimed as real * part,
      claimed); Round(claimed as real * part)
    else Round(claimed as real * part)
  }

  lemma PartBelow(x: real, part: real)
    requires x >= 0.0 && part <= 1.0
    ensures x * part <= x
  {
  }

  /** Too low a balance, a bounced instalment, a late card, a yearly fee. */
  method Charges(s: Sequences, accounts: seq<Account>, loans: seq<Loan>, cards: seq<Card>) returns (xs: seq<Charge>)
    requires s.Valid()
    requires forall l <- loans :: Owns(accounts, l.crn, l.account)
    requires forall c <- cards :: Owns(accounts, c.crn, c.account)
    modifies s
    ensures s.Valid() && old(s.issued) <= s.issued && AllDistinct(ChargeIds(xs))
    ensures forall x <- xs :: Owns(accounts, x.crn, x.account)
  {
    hide Owns;
    xs := [];
    for i := 0 to |accounts|
      invariant s.Valid() && old(s.issued) <= s.issued && Listed(ChargeIds(xs), s.issued)
      invariant forall x <- xs :: Owns(accounts, x.crn, x.account)
    {
      if accounts[i].balance < accounts[i].minimum {
        OwnsItself(accounts, i);
        xs := Book(s, xs, accounts, accounts[i].crn, Some(accounts[i].number), "AMB");
      }
    }
    for i := 0 to |loans|
      invariant s.Valid() && old(s.issued) <= s.issued && Listed(ChargeIds(xs), s.issued)
      invariant forall x <- xs :: Owns(accounts, x.crn, x.account)
    {
      var bounced: bool := *;
      assert loans[i] in loans;
      if loans[i].dpd > 0 && bounced {
        xs := Book(s, xs, accounts, loans[i].crn, loans[i].account, "ENACH_BounceCharge");
      }
    }
    for i := 0 to |cards|
      invariant s.Valid() && old(s.issued) <= s.issued && Listed(ChargeIds(xs), s.issued)
      invariant forall x <- xs :: Owns(accounts, x.crn, x.account)
    {
      var yearly: bool := *;
      assert cards[i] in cards;
      if cards[i].dpd > 0 {
        xs := Book(s, xs, accounts, cards[i].crn, cards[i].account, "LateFee");
      }
      if yearly {
        xs := Book(s, xs, accounts, cards[i].crn, cards[i].account, "AnnualFee");
      }
    }
  }

  lemma OwnsItself(accounts: seq<Account>, i: nat)
    requires i < |accounts|
    ensures Owns(accounts, accounts[i].crn, Some(accounts[i].number))
  {
    assert accounts[i] in accounts;
  }

  method Book(s: Sequences, xs: seq<Charge>, accounts: seq<Account>, crn: Ref, account: Option<Ref>, kind: string)
    returns (r: seq<Charge>)
    requires s.Valid() && Listed(ChargeIds(xs), s.issued) && Owns(accounts, crn, account)
    requires forall x <- xs :: Owns(accounts, x.crn, x.account)
    modifies s
    ensures s.Valid() && old(s.issued) <= s.issued && Listed(ChargeIds(r), s.issued)
    ensures forall x <- r :: Owns(accounts, x.crn, x.account)
  {
    hide Owns;
    ghost var before := s.issued;
    var id := s.NextId("CHG", 100001);
    ListedPush(ChargeIds(xs), before, id);
    r := xs + [Charge(crn, id, account, kind)];
    assert ChargeIds(r) == ChargeIds(xs) + [id];
  }

  // ---- The workbook ----

  datatype Workbook = Workbook(customers: seq<Customer>, accounts: seq<Account>, cards: seq<Card>, loans: seq<Loan>,
                               policies: seq<Policy>, claims: seq<Claim>, charges: seq<Charge>)

  predicate Consistent(w: Workbook) {
    && AllDistinct(Crns(w.customers)) && AllDistinct(Numbers(w.accounts)) && AllDistinct(CardIds(w.cards))
    && AllDistinct(LoanIds(w.loans)) && AllDistinct(PolicyIds(w.policies)) && AllDistinct(ClaimIds(w.claims))
    && AllDistinct(ChargeIds(w.charges))
    && (forall c <- w.cards :: Owns(w.accounts, c.crn, c.account))
    && (forall l <- w.loans :: Owns(w.accounts, l.crn, l.account) && LoanAddsUp(l))
    && (forall c <- w.charges :: Owns(w.accounts, c.crn, c.account))
    && (forall c <- w.claims :: Covers(w.policies, c) && ClaimAddsUp(c)) && StatusesVary(w.claims)
  }

  /** Whatever was drawn, the sheets agree with each other. */
  method Generate(count: nat) returns (w: Workbook)
    ensures Consistent(w) && |w.customers| == count
  {
    hide AllDistinct, HasAccount, Owns, LoanAddsUp, Covers, ClaimAddsUp, StatusesVary;
    var s := new Sequences();
    var cs := Customers(s, count);
    var accounts := Accounts(s, cs);
    var cards := Cards(s, cs, accounts);
    var loans := Loans(s, cs, accounts);
    var policies := Policies(s, cs);
    var claims := Claims(s, policies);
    var charges := Charges(s, accounts, loans, cards);
    w := Workbook(cs, accounts, cards, loans, policies, claims, charges);
  }
}
