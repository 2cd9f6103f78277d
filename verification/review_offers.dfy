/** Which products may be offered to a customer, and what is kept of the model's choice. */
module ReviewOffers {
  import opened Options
  import opened Texts
  import opened ReviewDraft

  // ---- The records the rules read ----

  datatype Loan = Loan(amount: Option<real>)

  datatype Card = Card(variant: string, points: int, dpd: int, limit: Option<real>)

  datatype Account = Account(balance: Option<real>, minimum: Option<real>)

  /** `days` is the time to maturity, when the date can be read. */
  datatype Deposit = Deposit(principal: Option<real>, days: Option<int>)

  datatype Charge = Charge(kind: string, amount: real, reversal: string)

  /** One turn of the conversation, as far as the rules look at it. */
  datatype Said = Said(inbound: bool, sentiment: string, intent: string, date: string)

  datatype Holdings = Holdings(loans: seq<Loan>, policyTypes: seq<string>, cards: seq<Card>, accounts: seq<Account>,
                               deposits: seq<Deposit>, segment: string, charges: seq<Charge>, said: seq<Said>)

  /** The grounding fact a candidate carries, before it is put into words. */
  datatype Basis =
    | LoanWithoutCover(amount: real)
    | NoHealthPolicy
    | NoCard
    | BalanceWithoutDeposit(balance: real, minimum: real)
    | BalanceMultiple(balance: real, minimum: real)
    | Matures(principal: Option<real>, days: int)
    | Points(points: int, variant: string)
    | EntryCard(segment: string, variant: string, limit: Option<real>)
    | ChargesPaid(count: nat, total: real)
    | AskedAbout(family: string, date: string)

  datatype Candidate = Candidate(product: string, upSell: bool, basis: Basis)

  const LIFE := {"term insurance", "life", "life insurance"}
  const HEALTH := {"health", "health insurance", "mediclaim"}
  const ENTRY_VARIANTS := {"classic", "silver", "basic"}
  const PREMIUM_SEGMENTS := {"hni", "premium", "wealth"}

  function Plain(s: string): string {
    Lower(Strip(s))
  }

  predicate Covered(types: seq<string>, kinds: set<string>) {
    exists t <- types :: Plain(t) in kinds
  }

  function OrZero(x: Option<real>): real {
    if x.Some? then x.value else 0.0
  }

  function MaxAmount(loans: seq<Loan>): real
    requires loans != []
  {
    if |loans| == 1 then OrZero(loans[0].amount)
    else
      var rest := MaxAmount(loans[1..]);
      if OrZero(loans[0].amount) >= rest then OrZero(loans[0].amount) else rest
  }

  predicate Rich(a: Account) {
    a.balance.Some? && a.minimum.Some? && a.minimum.value > 0.0 && a.balance.value >= a.minimum.value * 5.0
  }

  predicate MaturesSoon(d: Deposit) {
    d.days.Some? && 0 <= d.days.value <= 90
  }

  predicate WellUsed(c: Card) {
    c.points >= 5000 && c.dpd < 30
  }

  predicate EntryLevel(c: Card) {
    Plain(c.variant) in ENTRY_VARIANTS && c.dpd < 30
  }

  predicate Standing(c: Charge) {
    Plain(c.reversal) != "reversed" && Plain(c.reversal) != "approved"
  }

  function Unreversed(cs: seq<Charge>): seq<Charge> {
    if cs == [] then [] else (if Standing(cs[0]) then [cs[0]] else []) + Unreversed(cs[1..])
  }

  function Total(cs: seq<Charge>): real {
    if cs == [] then 0.0 else cs[0].amount + Total(cs[1..])
  }

  function WithIntent(said: seq<Said>): seq<Said> {
    if said == [] then [] else (if said[0].intent != "" then [said[0]] else []) + WithIntent(said[1..])
  }

  function Recent(said: seq<Said>): seq<Said> {
    var s := WithIntent(said);
    if |s| <= 10 then s else s[|s| - 10..]
  }

  function Family(intent: string): string {
    var i := Plain(intent);
    if i == "loan_status" || i == "loan_application" then "loan"
    else if i == "card_management" then "credit_card"
    else if i == "policy_status" then "policy"
    else ""
  }

  predicate HoldsFamily(h: Holdings, family: string) {
    if family == "loan" then h.loans != []
    else if family == "credit_card" then h.cards != []
    else if family == "policy" then h.policyTypes != []
    else true
  }

  predicate Wanted(h: Holdings, s: Said) {
    Family(s.intent) != "" && !HoldsFamily(h, Family(s.intent))
  }

  function ProductOf(family: string): string {
    if family == "loan" then "personal_loan_info" else if family == "credit_card" then "credit_card"
      else "insurance_policy"
  }

  /** The latest recent turn about a family the customer does not hold is about this one. */
  predicate AskedFor(h: Holdings, product: string) {
    var recent := Recent(h.said);
    exists i :: 0 <= i < |recent| && Wanted(h, recent[i]) && ProductOf(Family(recent[i].intent)) == product
                && forall j :: i < j < |recent| ==> !Wanted(h, recent[j])
  }

  /** Exactly when a product may be offered. */
  predicate Eligible(h: Holdings, product: string) {
    match product
    case "term_insurance" => h.loans != [] && !Covered(h.policyTypes, LIFE)
    case "health_insurance" => !Covered(h.policyTypes, HEALTH)
    case "credit_card" => h.cards == [] && (h.accounts != [] || AskedFor(h, "credit_card"))
    case "fixed_deposit" => h.deposits == [] && exists a <- h.accounts :: Rich(a)
    case "premium_account_tier" => exists a <- h.accounts :: Rich(a)
    case "fd_renewal" => exists d <- h.deposits :: MaturesSoon(d)
    case "premium_card_upgrade" =>
      (exists c <- h.cards :: WellUsed(c)) || (Plain(h.segment) in PREMIUM_SEGMENTS &&
        exists c <- h.cards :: EntryLevel(c))
    case "charge_waiver_account_upgrade" => |Unreversed(h.charges)| >= 2
    case "personal_loan_info" => h.loans == [] && AskedFor(h, "personal_loan_info")
    case "insurance_policy" => h.policyTypes == [] && AskedFor(h, "insurance_policy")
    case _ => false
  }

  /** The fact a candidate is offered on is one of the customer's own records. */
  predicate Grounded(h: Holdings, c: Candidate) {
    match c.basis
    case LoanWithoutCover(amount) => c.product == "term_insurance" && !c.upSell && h.loans != [] &&
      amount == MaxAmount(h.loans)
    case NoHealthPolicy => c.product == "health_insurance" && !c.upSell
    case NoCard => c.product == "credit_card" && !c.upSell && h.accounts != []
    case BalanceWithoutDeposit(b, m) => c.product == "fixed_deposit" && !c.upSell &&
      exists a <- h.accounts :: Rich(a) && a == Account(Some(b), Some(m))
    case BalanceMultiple(b, m) => c.product == "premium_account_tier" && c.upSell &&
      exists a <- h.accounts :: Rich(a) && a == Account(Some(b), Some(m))
    case Matures(principal, days) => c.product == "fd_renewal" && c.upSell &&
      exists d <- h.deposits :: MaturesSoon(d) && d == Deposit(principal, Some(days))
    case Points(points, variant) =>
      c.product == "premium_card_upgrade" && c.upSell &&
        exists k <- h.cards :: WellUsed(k) && k.points == points && k.variant == variant
    case EntryCard(segment, variant, limit) =>
      c.product == "premium_card_upgrade" && c.upSell && segment == h.segment &&
        exists k <- h.cards :: EntryLevel(k) && k.variant == variant && k.limit == limit
    case ChargesPaid(count, total) =>
      c.product == "charge_waiver_account_upgrade" && c.upSell && count == |Unreversed(h.charges)| &&
        total == Total(Unreversed(h.charges))
    case AskedAbout(family, date) =>
      c.product == ProductOf(family) && !c.upSell && !HoldsFamily(h, family)
      && exists t <- Recent(h.said) :: Wanted(h, t) && Family(t.intent) == family && t.date == date
  }

  predicate AllGrounded(h: Holdings, cs: seq<Candidate>) {
    forall c <- cs :: Grounded(h, c)
  }

  // ---- The rules, each with its loop ----

  predicate ByCover(h: Holdings, p: string) {
    (p == "term_insurance" && Eligible(h, p)) || (p == "health_insurance" && Eligible(h, p))
    || (p == "credit_card" && h.accounts != [] && h.cards == [])
  }

  predicate ByBalance(h: Holdings, p: string) {
    (p == "fixed_deposit" || p == "premium_account_tier") && Eligible(h, p)
  }

  predicate ByItself(h: Holdings, p: string, product: string) {
    p == product && Eligible(h, p)
  }

  /** The rules cover the eligible products, and no others. */
  lemma RulesCover(h: Holdings, p: string)
    ensures Eligible(h, p)
       <==> ByCover(h, p) || ByBalance(h, p) || ByItself(h, p, "fd_renewal") || ByItself(h, p, "premium_card_upgrade")
            || ByItself(h, p, "charge_waiver_account_upgrade") || AskedFor(h, p)
  {
    hide Rich, MaturesSoon, WellUsed, EntryLevel, Covered, AskedFor, Unreversed;
    AskedForFamilies(h);
  }

  lemma AskedForFamilies(h: Holdings)
    ensures forall p :: AskedFor(h, p) ==>
      (p == "personal_loan_info" && h.loans == []) || (p == "credit_card" && h.cards == [])
      || (p == "insurance_policy" && h.policyTypes == [])
  {
  }

  method FromDeposits(h: Holdings) returns (cs: seq<Candidate>)
    ensures forall p :: Has(cs, p) <==> ByItself(h, p, "fd_renewal")
    ensures AllGrounded(h, cs) && Ranked(cs, 5, 6)
  {
    cs := [];
    for i := 0 to |h.deposits|
      invariant cs == [] && forall j :: 0 <= j < i ==> !MaturesSoon(h.deposits[j])
    {
      var d := h.deposits[i];
      if MaturesSoon(d) {
        cs := [Candidate("fd_renewal", true, Matures(d.principal, d.days.value))];
        assert d in h.deposits && d == Deposit(d.principal, Some(d.days.value));
        HasOne(cs, "fd_renewal");
        return;
      }
    }
  }

  method FromCards(h: Holdings) returns (cs: seq<Candidate>)
    ensures forall p :: Has(cs, p) <==> ByItself(h, p, "premium_card_upgrade")
    ensures AllGrounded(h, cs) && Ranked(cs, 6, 8)
    ensures (exists c <- h.cards :: WellUsed(c)) ==> FromRule(cs, "premium_card_upgrade", 6)
  {
    hide Plain;
    cs := FromUse(h);
    var entry: seq<Candidate> := [];
    if Plain(h.segment) in PREMIUM_SEGMENTS {
      entry := FromEntry(h);
    }
    HasConcat(cs, entry);
    HasOne(cs, "premium_card_upgrade");
    HasOne(entry, "premium_card_upgrade");
    RankedConcat(cs, entry, 6, 7, 8);
    FromRuleConcat(cs, entry, "premium_card_upgrade", 6);
    if cs != [] {
      assert cs[0] in cs;
    }
    cs := cs + entry;
  }

  method FromUse(h: Holdings) returns (cs: seq<Candidate>)
    ensures cs != [] <==> exists c <- h.cards :: WellUsed(c)
    ensures (forall c <- cs :: c.product == "premium_card_upgrade") && AllGrounded(h, cs) && Ranked(cs, 6, 7)
  {
    hide WellUsed;
    cs := [];
    for i := 0 to |h.cards|
      invariant cs == [] && forall j :: 0 <= j < i ==> !WellUsed(h.cards[j])
    {
      if WellUsed(h.cards[i]) {
        cs := [Candidate("premium_card_upgrade", true, Points(h.cards[i].points, h.cards[i].variant))];
        assert h.cards[i] in h.cards;
        return;
      }
    }
  }

  method FromEntry(h: Holdings) returns (cs: seq<Candidate>)
    ensures cs != [] <==> exists c <- h.cards :: EntryLevel(c)
    ensures (forall c <- cs :: c.product == "premium_card_upgrade") && AllGrounded(h, cs) && Ranked(cs, 7, 8)
  {
    hide EntryLevel;
    cs := [];
    for i := 0 to |h.cards|
      invariant cs == [] && forall j :: 0 <= j < i ==> !EntryLevel(h.cards[j])
    {
      var c := h.cards[i];
      if EntryLevel(c) {
        assert c in h.cards;
        cs := [Candidate("premium_card_upgrade", true, EntryCard(h.segment, c.variant, c.limit))];
        return;
      }
    }
  }

  method FromInterest(h: Holdings) returns (cs: seq<Candidate>)
    ensures forall p :: Has(cs, p) <==> AskedFor(h, p)
    ensures AllGrounded(h, cs) && Ranked(cs, 9, 10)
  {
    hide Recent, Family, HoldsFamily, ProductOf;
    cs := [];
    var recent := Recent(h.said);
    var i := |recent|;
    while i > 0
      invariant 0 <= i <= |recent| && cs == [] && forall j :: i <= j < |recent| ==> !Wanted(h, recent[j])
    {
      i := i - 1;
      if Wanted(h, recent[i]) {
        var f := Family(recent[i].intent);
        cs := [Candidate(ProductOf(f), false, AskedAbout(f, recent[i].date))];
        assert recent[i] in recent && cs[0] in cs;
        return;
      }
    }
  }

  // ---- One candidate a product ----

  predicate Distinct(cs: seq<Candidate>) {
    forall i, j :: 0 <= i < j < |cs| ==> cs[i].product != cs[j].product
  }

  predicate Has(cs: seq<Candidate>, product: string) {
    exists c <- cs :: c.product == product
  }

  predicate FirstOf(cs: seq<Candidate>, i: nat)
    requires i < |cs|
  {
    forall j :: 0 <= j < i ==> cs[j].product != cs[i].product
  }

  /** `at` lists, in order, the positions at which a product comes up first, and `r` is what stands
      there. */
  predicate Firsts(cs: seq<Candidate>, r: seq<Candidate>, at: seq<nat>) {
    && |at| == |r|
    && (forall k :: 0 <= k < |at| ==> at[k] < |cs| && FirstOf(cs, at[k]) && r[k] == cs[at[k]])
    && (forall k, l :: 0 <= k < l < |at| ==> at[k] < at[l])
    && (forall i: nat :: i < |cs| && FirstOf(cs, i) ==> i in at)
  }

  lemma FirstsSkip(cs: seq<Candidate>, c: Candidate, r: seq<Candidate>, at: seq<nat>)
    requires Firsts(cs, r, at) && Has(cs, c.product)
    ensures Firsts(cs + [c], r, at)
  {
    FirstsBelow(cs, c);
  }

  lemma FirstsPush(cs: seq<Candidate>, c: Candidate, r: seq<Candidate>, at: seq<nat>)
    requires Firsts(cs, r, at) && !Has(cs, c.product)
    ensures Firsts(cs + [c], r + [c], at + [|cs|])
  {
    FirstsBelow(cs, c);
    forall i: nat | i < |cs + [c]| && FirstOf(cs + [c], i) ensures i in at + [|cs|] {
      if i < |cs| {
        assert i in at;
      } else {
        assert (at + [|cs|])[|at|] == i;
      }
    }
  }

  /** A later candidate changes nothing about the earlier positions. */
  lemma FirstsBelow(cs: seq<Candidate>, c: Candidate)
    ensures forall i: nat :: i < |cs| ==> (FirstOf(cs + [c], i) <==> FirstOf(cs, i))
    ensures FirstOf(cs + [c], |cs|) <==> !Has(cs, c.product)
  {
    forall i: nat | i < |cs| ensures FirstOf(cs + [c], i) <==> FirstOf(cs, i) {
      assert forall j :: 0 <= j < |cs| ==> (cs + [c])[j] == cs[j];
    }
    if Has(cs, c.product) {
      var d :| d in cs && d.product == c.product;
      var j: nat :| j < |cs| && cs[j] == d;
      assert (cs + [c])[j] == d;
    }
  }

  /** The first candidate of each product, in the order of the rules. */
  method Dedupe(cs: seq<Candidate>) returns (r: seq<Candidate>, ghost at: seq<nat>)
    ensures Firsts(cs, r, at)
    ensures forall p :: Has(r, p) <==> Has(cs, p)
  {
    hide Has, Firsts;
    r, at := [], [];
    var seen: set<string> := {};
    NothingFirst();
    for n := 0 to |cs|
      invariant Firsts(cs[..n], r, at)
      invariant forall p :: (p in seen <==> Has(cs[..n], p)) && (p in seen <==> Has(r, p))
    {
      var c := cs[n];
      HasPush(cs[..n], c);
      assert cs[..n + 1] == cs[..n] + [c];
      if c.product in seen {
        FirstsSkip(cs[..n], c, r, at);
        continue;
      }
      FirstsPush(cs[..n], c, r, at);
      HasPush(r, c);
      seen := seen + {c.product};
      r, at := r + [c], at + [n];
    }
    assert cs[..|cs|] == cs;
  }

  lemma NothingFirst()
    ensures Firsts([], [], []) && forall p :: !Has([], p)
  {
  }

  // ---- The order of the rules ----

  /** Which rule a candidate comes from. */
  function Rank(b: Basis): nat {
    match b
    case LoanWithoutCover(_) => 0
    case NoHealthPolicy => 1
    case NoCard => 2
    case BalanceWithoutDeposit(_, _) => 3
    case BalanceMultiple(_, _) => 4
    case Matures(_, _) => 5
    case Points(_, _) => 6
    case EntryCard(_, _, _) => 7
    case ChargesPaid(_, _) => 8
    case AskedAbout(_, _) => 9
  }

  /** In the order of the rules, all from rules `lo` to `hi`. */
  predicate Ranked(cs: seq<Candidate>, lo: nat, hi: nat) {
    && (forall i :: 0 <= i < |cs| ==> lo <= Rank(cs[i].basis) < hi)
    && (forall i, j :: 0 <= i < j < |cs| ==> Rank(cs[i].basis) < Rank(cs[j].basis))
  }

  lemma RankedConcat(a: seq<Candidate>, b: seq<Candidate>, lo: nat, mid: nat, hi: nat)
    requires Ranked(a, lo, mid) && Ranked(b, mid, hi) && lo <= mid <= hi
    ensures Ranked(a + b, lo, hi)
  {
    hide Rank;
  }

  /** Of a product's candidates the one of the earliest rule is kept. */
  lemma FirstsRanked(cs: seq<Candidate>, r: seq<Candidate>, at: seq<nat>, lo: nat, hi: nat)
    requires Firsts(cs, r, at) && Ranked(cs, lo, hi)
    ensures Ranked(r, lo, hi) && Distinct(r) && (forall c <- r :: c in cs)
    ensures forall c <- r, d <- cs :: d.product == c.product ==> Rank(c.basis) <= Rank(d.basis)
  {
    hide Rank;
    forall c <- r, d <- cs | d.product == c.product ensures Rank(c.basis) <= Rank(d.basis) {
      var k: nat :| k < |r| && r[k] == c;
      var j: nat :| j < |cs| && cs[j] == d;
      assert FirstOf(cs, at[k]);
      assert j >= at[k];
    }
  }

  /** The rule whose fact a product keeps when two rules propose it. */
  predicate FirstRule(h: Holdings, c: Candidate) {
    && (c.product == "credit_card" ==> (c.basis.NoCard? <==> h.accounts != []))
    && (c.product == "premium_card_upgrade" ==> (c.basis.Points? <==> exists k <- h.cards :: WellUsed(k)))
  }

  predicate FromRule(cs: seq<Candidate>, product: string, rank: nat) {
    exists c <- cs :: c.product == product && Rank(c.basis) == rank
  }

  lemma FromRuleConcat(a: seq<Candidate>, b: seq<Candidate>, product: string, rank: nat)
    ensures FromRule(a + b, product, rank) <==> FromRule(a, product, rank) || FromRule(b, product, rank)
  {
    hide Rank;
    if FromRule(a, product, rank) {
      var c :| c in a && c.product == product && Rank(c.basis) == rank;
      assert c in a + b;
    }
    if FromRule(b, product, rank) {
      var c :| c in b && c.product == product && Rank(c.basis) == rank;
      assert c in a + b;
    }
  }

  lemma KeptRule(h: Holdings, cs: seq<Candidate>, c: Candidate)
    requires Grounded(h, c)
    requires forall d <- cs :: d.product == c.product ==> Rank(c.basis) <= Rank(d.basis)
    requires c.product == "credit_card" && h.accounts != [] && h.cards == [] ==> FromRule(cs, c.product, 2)
    requires c.product == "premium_card_upgrade" && (exists k <- h.cards :: WellUsed(k)) ==> FromRule(cs, c.product, 6)
    ensures FirstRule(h, c)
  {
    hide WellUsed, EntryLevel, Rich, MaturesSoon, Unreversed, Total, MaxAmount, Recent, Wanted;
  }

  lemma HasPush(cs: seq<Candidate>, c: Candidate)
    ensures forall p :: Has(cs + [c], p) <==> Has(cs, p) || c.product == p
  {
    forall p ensures Has(cs + [c], p) <==> Has(cs, p) || c.product == p {
      if c.product == p {
        assert c in cs + [c];
      }
      if Has(cs, p) {
        var d :| d in cs && d.product == p;
        assert d in cs + [c];
      }
    }
  }

  lemma HasConcat(a: seq<Candidate>, b: seq<Candidate>)
    ensures forall p :: Has(a + b, p) <==> Has(a, p) || Has(b, p)
  {
    forall p ensures Has(a + b, p) <==> Has(a, p) || Has(b, p) {
      if Has(a, p) {
        var c :| c in a && c.product == p;
        assert c in a + b;
      }
      if Has(b, p) {
        var c :| c in b && c.product == p;
        assert c in a + b;
      }
    }
  }

  lemma HasOne(cs: seq<Candidate>, product: string)
    requires forall c <- cs :: c.product == product
    ensures forall p :: Has(cs, p) <==> p == product && cs != []
  {
    if cs != [] {
      assert cs[0] in cs;
    }
  }

  lemma GroundedConcat(h: Holdings, a: seq<Candidate>, b: seq<Candidate>)
    requires AllGrounded(h, a) && AllGrounded(h, b)
    ensures AllGrounded(h, a + b)
  {
    hide Grounded;
  }

  /** One rule's list of at most one candidate. */
  lemma OneRule(h: Holdings, cs: seq<Candidate>, product: string, rank: nat)
    requires |cs| <= 1 && forall c <- cs :: c.product == product && Rank(c.basis) == rank && Grounded(h, c)
    ensures AllGrounded(h, cs) && Ranked(cs, rank, rank + 1)
    ensures forall p :: Has(cs, p) <==> p == product && cs != []
    ensures FromRule(cs, product, rank) <==> cs != []
  {
    hide Rank, Grounded;
    if cs != [] {
      assert cs[0] in cs;
    }
  }

  lemma CoverFacts(h: Holdings)
    ensures h.loans != [] ==> Grounded(h, Candidate("term_insurance", false, LoanWithoutCover(MaxAmount(h.loans))))
    ensures Grounded(h, Candidate("health_insurance", false, NoHealthPolicy))
    ensures h.accounts != [] ==> Grounded(h, Candidate("credit_card", false, NoCard))
    ensures forall a: real :: Rank(LoanWithoutCover(a)) == 0
    ensures Rank(NoHealthPolicy) == 1 && Rank(NoCard) == 2
  {
    hide Covered, MaxAmount;
  }

  lemma CoverTable(h: Holdings, p: string)
    ensures ByCover(h, p) <==>
      (p == "term_insurance" && h.loans != [] && !Covered(h.policyTypes, LIFE))
      || (p == "health_insurance" && !Covered(h.policyTypes, HEALTH))
      || (p == "credit_card" && h.accounts != [] && h.cards == [])
  {
    hide Covered;
  }

  method FromCover(h: Holdings) returns (cs: seq<Candidate>)
    ensures forall p :: Has(cs, p) <==> ByCover(h, p)
    ensures AllGrounded(h, cs) && Ranked(cs, 0, 3)
    ensures h.accounts != [] && h.cards == [] ==> FromRule(cs, "credit_card", 2)
  {
    hide *;
    CoverFacts(h);
    var a: seq<Candidate>, b: seq<Candidate>, c: seq<Candidate> := [], [], [];
    if h.loans != [] && !Covered(h.policyTypes, LIFE) {
      a := [Candidate("term_insurance", false, LoanWithoutCover(MaxAmount(h.loans)))];
    }
    if !Covered(h.policyTypes, HEALTH) {
      b := [Candidate("health_insurance", false, NoHealthPolicy)];
    }
    if h.accounts != [] && h.cards == [] {
      c := [Candidate("credit_card", false, NoCard)];
    }
    OneRule(h, a, "term_insurance", 0);
    OneRule(h, b, "health_insurance", 1);
    OneRule(h, c, "credit_card", 2);
    AddRules(h, a, b, 1, 2);
    AddRules(h, a + b, c, 2, 3);
    cs := a + b + c;
    forall p ensures Has(cs, p) <==> ByCover(h, p) {
      CoverTable(h, p);
    }
  }

  lemma BalanceFacts(h: Holdings, a: Account)
    requires a in h.accounts && Rich(a)
    ensures a.balance.Some? && a.minimum.Some?
    ensures Grounded(h, Candidate("premium_account_tier", true, BalanceMultiple(a.balance.value, a.minimum.value)))
    ensures Grounded(h, Candidate("fixed_deposit", false, BalanceWithoutDeposit(a.balance.value, a.minimum.value)))
    ensures forall b: real, m: real :: Rank(BalanceWithoutDeposit(b, m)) == 3 && Rank(BalanceMultiple(b, m)) == 4
  {
    assert a == Account(Some(a.balance.value), Some(a.minimum.value));
  }

  lemma RichIs(a: Account)
    ensures Rich(a) <==>
      a.balance.Some? && a.minimum.Some? && a.minimum.value > 0.0 && a.balance.value >= a.minimum.value * 5.0
  {
  }

  lemma BalanceTable(h: Holdings, p: string)
    ensures ByBalance(h, p) <==>
      (exists a <- h.accounts :: Rich(a)) && (p == "premium_account_tier" || (p == "fixed_deposit" && h.deposits == []))
  {
    hide Rich;
  }

  lemma Poor(h: Holdings)
    requires forall j :: 0 <= j < |h.accounts| ==> !Rich(h.accounts[j])
    ensures !exists a <- h.accounts :: Rich(a)
    ensures AllGrounded(h, []) && Ranked([], 3, 5) && forall p :: !Has([], p)
  {
    hide Rich;
  }

  method FromBalance(h: Holdings) returns (cs: seq<Candidate>)
    ensures forall p :: Has(cs, p) <==> ByBalance(h, p)
    ensures AllGrounded(h, cs) && Ranked(cs, 3, 5)
  {
    hide *;
    forall p ensures ByBalance(h, p) <==>
      (exists a <- h.accounts :: Rich(a)) && (p == "premium_account_tier" || (p == "fixed_deposit" && h.deposits == []))
    {
      BalanceTable(h, p);
    }
    for i := 0 to |h.accounts|
      invariant forall j :: 0 <= j < i ==> !Rich(h.accounts[j])
    {
      var a := h.accounts[i];
      RichIs(a);
      if a.balance.None? || a.minimum.None? || a.minimum.value <= 0.0 {
        continue;
      }
      if a.balance.value >= a.minimum.value * 5.0 {
        BalanceFacts(h, a);
        var tier := [Candidate("premium_account_tier", true, BalanceMultiple(a.balance.value, a.minimum.value))];
        var deposit: seq<Candidate> := [];
        if h.deposits == [] {
          deposit := [Candidate("fixed_deposit", false, BalanceWithoutDeposit(a.balance.value, a.minimum.value))];
        }
        OneRule(h, deposit, "fixed_deposit", 3);
        OneRule(h, tier, "premium_account_tier", 4);
        RankedConcat(deposit, tier, 3, 4, 5);
        HasConcat(deposit, tier);
        GroundedConcat(h, deposit, tier);
        return deposit + tier;
      }
    }
    Poor(h);
    cs := [];
  }

  method FromCharges(h: Holdings) returns (cs: seq<Candidate>)
    ensures forall p :: Has(cs, p) <==> ByItself(h, p, "charge_waiver_account_upgrade")
    ensures AllGrounded(h, cs) && Ranked(cs, 8, 9)
  {
    hide *;
    var unreversed := Unreversed(h.charges);
    ChargeFacts(h);
    cs := if |unreversed| >= 2
      then [Candidate("charge_waiver_account_upgrade", true, ChargesPaid(|unreversed|, Total(unreversed)))] else [];
    OneRule(h, cs, "charge_waiver_account_upgrade", 8);
  }

  lemma ChargeFacts(h: Holdings)
    ensures var u := Unreversed(h.charges);
            var b := ChargesPaid(|u|, Total(u));
            Grounded(h, Candidate("charge_waiver_account_upgrade", true, b)) && Rank(b) == 8
    ensures forall p :: ByItself(h, p, "charge_waiver_account_upgrade") <==>
              p == "charge_waiver_account_upgrade" && |Unreversed(h.charges)| >= 2
  {
    hide Unreversed, Total;
  }

  /** All the rules, one after another. */
  method AllRules(h: Holdings) returns (all: seq<Candidate>)
    ensures AllGrounded(h, all) && Ranked(all, 0, 10)
    ensures forall p :: Has(all, p) <==> Eligible(h, p)
    ensures h.accounts != [] && h.cards == [] ==> FromRule(all, "credit_card", 2)
    ensures (exists c <- h.cards :: WellUsed(c)) ==> FromRule(all, "premium_card_upgrade", 6)
  {
    hide *;
    var cover := FromCover(h);
    var balance := FromBalance(h);
    var deposits := FromDeposits(h);
    var cards := FromCards(h);
    var charges := FromCharges(h);
    var interest := FromInterest(h);
    AddRules(h, cover, balance, 3, 5);
    AddRules(h, cover + balance, deposits, 5, 6);
    AddRules(h, cover + balance + deposits, cards, 6, 8);
    AddRules(h, cover + balance + deposits + cards, charges, 8, 9);
    AddRules(h, cover + balance + deposits + cards + charges, interest, 9, 10);
    all := cover + balance + deposits + cards + charges + interest;
    forall p ensures Has(all, p) <==> Eligible(h, p) {
      RulesCover(h, p);
    }
  }

  lemma AddRules(h: Holdings, a: seq<Candidate>, b: seq<Candidate>, mid: nat, hi: nat)
    requires AllGrounded(h, a) && AllGrounded(h, b) && Ranked(a, 0, mid) && Ranked(b, mid, hi) && mid <= hi
    ensures AllGrounded(h, a + b) && Ranked(a + b, 0, hi)
    ensures forall p :: Has(a + b, p) <==> Has(a, p) || Has(b, p)
    ensures FromRule(a, "credit_card", 2) || FromRule(b, "credit_card", 2) ==> FromRule(a + b, "credit_card", 2)
    ensures FromRule(a, "premium_card_upgrade", 6) || FromRule(b, "premium_card_upgrade", 6) ==>
              FromRule(a + b, "premium_card_upgrade", 6)
  {
    hide *;
    HasConcat(a, b);
    GroundedConcat(h, a, b);
    RankedConcat(a, b, 0, mid, hi);
    FromRuleConcat(a, b, "credit_card", 2);
    FromRuleConcat(a, b, "premium_card_upgrade", 6);
  }

  /** Every product at most once, in the order of the rules, on a fact of the customer's own - that
      of the first rule that proposes it - and just the products the rules allow: never a loan,
      card, deposit, life or health cover already held. */
  method BuildCandidates(h: Holdings) returns (r: seq<Candidate>)
    ensures Distinct(r) && AllGrounded(h, r) && Ranked(r, 0, 10)
    ensures forall c <- r :: FirstRule(h, c)
    ensures forall p :: Has(r, p) <==> Eligible(h, p)
  {
    hide *;
    var all := AllRules(h);
    ghost var at;
    r, at := Dedupe(all);
    FirstsRanked(all, r, at, 0, 10);
    GroundedPart(h, all, r);
    forall c <- r ensures FirstRule(h, c) {
      GroundedOne(h, r, c);
      KeptRule(h, all, c);
    }
  }

  lemma GroundedOne(h: Holdings, cs: seq<Candidate>, c: Candidate)
    requires AllGrounded(h, cs) && c in cs
    ensures Grounded(h, c)
  {
    hide Grounded;
  }

  lemma GroundedPart(h: Holdings, cs: seq<Candidate>, r: seq<Candidate>)
    requires AllGrounded(h, cs) && forall c <- r :: c in cs
    ensures AllGrounded(h, r)
  {
    hide Grounded;
  }
}
