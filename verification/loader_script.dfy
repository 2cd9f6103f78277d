/** The workbook, sheet by sheet, and the order `load_bfsi_data` writes it in. */
module LoaderScript {
  import opened LoaderGraph
  import opened LoaderTheorems

  /** A row of a sheet: its key, the properties it sets, its customer, and the one other cell
      the statement matches on: a product word, or a claim's policy. */
  datatype Entry = Entry(key: string, props: Props, customer: string, word: string)

  /** A row of the Interactions sheet. */
  datatype Talk = Talk(conversation: string, customer: string, handledBy: string, intent: string, product: string,
                       message: string, resolution: string, verified: bool, created: string, updated: string,
                         rest: Props)

  datatype Workbook = Workbook(customers: seq<Entry>, kyc: seq<Entry>, products: seq<Entry>, accounts: seq<Entry>,
                               cards: seq<Entry>, loans: seq<Entry>, deposits: seq<Entry>, policies: seq<Entry>,
                               claims: seq<Entry>, transactions: seq<Entry>, charges: seq<Entry>, talks: seq<Talk>)

  datatype Sheet =
    | Customers | Kyc | Products | Accounts | Cards | Loans | Deposits | Policies | Claims | Transactions | Charges

  function Label(sh: Sheet): string {
    match sh
    case Customers => "Customer"
    case Kyc => "KYC"
    case Products => "Product"
    case Accounts => "Account"
    case Cards => "CreditCard"
    case Loans => "Loan"
    case Deposits => "FixedDeposit"
    case Policies => "Policy"
    case Claims => "Claim"
    case Transactions => "Transaction"
    case Charges => "ChargePenalty"
  }

  function OwnedBy(rel: string, e: Entry): Want {
    Want(rel, true, ByKey(Id("Customer", e.customer)))
  }

  function Wants(sh: Sheet, e: Entry): seq<Want> {
    match sh
    case Customers => []
    case Kyc => [OwnedBy("KYC_VERIFIED_BY", e)]
    case Products => []
    case Accounts => [OwnedBy("HAS_ACCOUNT", e),
      Want("PRODUCT_IS", false, Catalogue({"SavingsAccount", "CurrentAccount"}, e.word, false))]
    case Cards => [OwnedBy("HAS_CREDIT_CARD", e), Want("PRODUCT_IS", false, Catalogue({"CreditCard"}, e.word, false))]
    case Loans => [OwnedBy("HAS_LOAN", e), Want("PRODUCT_IS", false, Catalogue({"Loan"}, e.word, true))]
    case Deposits => [OwnedBy("HAS_FD", e), Want("PRODUCT_IS", false, Catalogue({"FD"}, "Regular", false))]
    case Policies => [OwnedBy("HAS_POLICY", e)]
    case Claims => [OwnedBy("HAS_CLAIM", e), Want("HAS_CLAIM", true, ByKey(Id("Policy", e.word)))]
    case Transactions => [OwnedBy("HAS_TRANSACTION", e)]
    case Charges => [OwnedBy("HAS_CHARGE", e)]
  }

  /** The statements of a sheet; a KYC row without a customer number is skipped. */
  function SheetScript(sh: Sheet, rows: seq<Entry>): seq<Stmt> {
    if rows == [] then []
    else
      (if sh == Kyc && rows[0].key == "" then []
        else [Write(Id(Label(sh), rows[0].key), rows[0].props, Wants(sh, rows[0]))])
      + SheetScript(sh, rows[1..])
  }

  function TalkProps(t: Talk): Props {
    t.rest + map["message" := Text(t.message), "resolution" := Text(t.resolution), "intent" := Text(t.intent),
                 "product_ref" := Text(t.product), "handled_by" := Text(t.handledBy), "status" := Text("closed"),
                 "created_at" := Text(t.created), "updated_at" := Text(t.updated)]
  }

  function TalkWants(t: Talk): seq<Want> {
    [Want("HAS_INTERACTION", true, ByKey(Id("Customer", t.customer))),
      Want(LATE, false, ByKey(Id("Agent", t.handledBy)))]
  }

  /** The seed rows know no ticket scope, so every key ends in ":general". */
  function LessonOf(t: Talk): Lesson {
    Lesson((if t.intent != "" then t.intent else "unknown") + ":general", "RESMEM-" + t.conversation, t.intent,
      t.product,
           t.message, t.resolution, t.verified, t.created, t.updated)
  }

  function TalkScript(t: Talk): seq<Stmt> {
    var id := Id("Interaction", t.conversation);
    [Write(id, TalkProps(t), TalkWants(t)), Remember(id, LessonOf(t))]
  }

  function TalksScript(rows: seq<Talk>): seq<Stmt> {
    if rows == [] then [] else TalkScript(rows[0]) + TalksScript(rows[1..])
  }

  function AgentProps(kind: string, name: string, model: string): Props {
    map["agent_type" := Text(kind), "name" := Text(name), "model" := Text(model)]
  }

  function AgentsScript(model: string): seq<Stmt> {
    [Write(Id("Agent", "AI_AGENT"), AgentProps("ai", "InboxIQ AI", model), []),
     Write(Id("Agent", "HUMAN_SR"), AgentProps("human", "Support Representative", ""), [])]
  }

  function FromTalks(b: Workbook, model: string): seq<Stmt> {
    TalksScript(b.talks) + AgentsScript(model)
  }

  function FromPolicies(b: Workbook, model: string): seq<Stmt> {
    SheetScript(Policies, b.policies) + (SheetScript(Claims, b.claims) + (SheetScript(Transactions, b.transactions)
      + (SheetScript(Charges, b.charges) + FromTalks(b, model))))
  }

  function FromAccounts(b: Workbook, model: string): seq<Stmt> {
    SheetScript(Accounts, b.accounts) + (SheetScript(Cards, b.cards) + (SheetScript(Loans, b.loans)
      + (SheetScript(Deposits, b.deposits) + FromPolicies(b, model))))
  }

  /** Everything a load writes, in order: interactions before the agents they look for. */
  function Script(b: Workbook, model: string): seq<Stmt> {
    SheetScript(Customers, b.customers) + (SheetScript(Kyc, b.kyc) +
      (SheetScript(Products, b.products) + FromAccounts(b, model)))
  }

  // ---- The order is settled ----

  /** Writes labels of `own` only, and looks, but for late MATCHes, for labels of `seen` only. */
  predicate Within(script: seq<Stmt>, own: set<string>, seen: set<string>) {
    forall st <- script :: st.Write? ==>
      st.id.tag in own && LateLast(st.wants) && forall w <- st.wants :: w.rel != LATE ==> TagOf(w.target) in seen
  }

  lemma WithinPlus(a: seq<Stmt>, b: seq<Stmt>, own: set<string>, own': set<string>, seen: set<string>,
    seen': set<string>)
    requires Within(a, own, seen) && Within(b, own', seen')
    ensures Within(a + b, own + own', seen + seen')
  {
    hide LateLast;
  }

  lemma WithinFree(script: seq<Stmt>, own: set<string>, seen: set<string>, tag: string)
    requires Within(script, own, seen) && tag !in own
    ensures Free(script, tag)
  {
    hide LateLast;
  }

  lemma FreePlus(a: seq<Stmt>, b: seq<Stmt>, tag: string)
    requires Free(a, tag) && Free(b, tag)
    ensures Free(a + b, tag)
  {
  }

  lemma WithinTail(script: seq<Stmt>, own: set<string>, seen: set<string>, j: nat)
    requires Within(script, own, seen) && j < |script|
    ensures Within(script[j..], own, seen)
    ensures script[j].Write? ==>
              LateLast(script[j].wants) && forall w <- script[j].wants :: w.rel != LATE ==> TagOf(w.target) in seen
  {
    hide LateLast;
    assert script[j] in script;
    assert forall x <- script[j..] :: x in script;
  }

  /** A sheet that looks for none of the labels written from it on goes before the rest. */
  lemma SettledBefore(a: seq<Stmt>, own: set<string>, seen: set<string>, b: seq<Stmt>, own': set<string>,
    seen': set<string>)
    requires Within(a, own, seen) && Within(b, own', seen') && Settled(b) && seen !! (own + own')
    ensures Settled(a + b)
  {
    hide *;
    var script := a + b;
    forall j | 0 <= j < |script| ensures Prepared(script[j], script[j..]) {
      if j < |a| {
        WithinTail(a, own, seen, j);
        assert script[j..] == a[j..] + b;
        forall w <- (if a[j].Write? then a[j].wants
          else []) | w.rel != LATE ensures Free(script[j..], TagOf(w.target)) {
          WithinFree(a[j..], own, seen, TagOf(w.target));
          WithinFree(b, own', seen', TagOf(w.target));
          FreePlus(a[j..], b, TagOf(w.target));
        }
        PreparedFrom(a[j], script[j..]);
      } else {
        assert script[j..] == b[j - |a|..];
        SettledAt(b, j - |a|);
      }
    }
    SettledFrom(script);
  }

  lemma PreparedFrom(st: Stmt, rest: seq<Stmt>)
    requires st.Write? ==> LateLast(st.wants)
    requires forall w <- (if st.Write? then st.wants else []) :: w.rel != LATE ==> Free(rest, TagOf(w.target))
    ensures Prepared(st, rest)
  {
    hide LateLast, Free;
  }

  lemma SettledAt(script: seq<Stmt>, j: nat)
    requires Settled(script) && j < |script|
    ensures Prepared(script[j], script[j..])
  {
    hide Prepared;
  }

  lemma SettledFrom(script: seq<Stmt>)
    requires forall j :: 0 <= j < |script| ==> Prepared(script[j], script[j..])
    ensures Settled(script)
  {
    hide Prepared;
  }

  function Seen(sh: Sheet): set<string> {
    if sh == Customers || sh == Products then {}
    else if sh == Accounts || sh == Cards || sh == Loans || sh == Deposits then {"Customer", "Product"}
    else if sh == Claims then {"Customer", "Policy"}
    else {"Customer"}
  }

  lemma WantsSeen(sh: Sheet, e: Entry)
    ensures LateLast(Wants(sh, e)) && forall w <- Wants(sh, e) :: TagOf(w.target) in Seen(sh)
  {
  }

  lemma {:induction false} SheetWithin(sh: Sheet, rows: seq<Entry>)
    ensures Within(SheetScript(sh, rows), {Label(sh)}, Seen(sh))
  {
    hide Label, Wants, Seen;
    if rows != [] {
      WantsSeen(sh, rows[0]);
      SheetWithin(sh, rows[1..]);
    }
  }

  lemma {:induction false} SheetProper(sh: Sheet, rows: seq<Entry>)
    ensures AllProper(SheetScript(sh, rows))
  {
    hide Label, Wants;
    if rows != [] {
      LabelsOrdinary(sh, rows[0]);
      SheetProper(sh, rows[1..]);
    }
  }

  lemma LabelsOrdinary(sh: Sheet, e: Entry)
    ensures Label(sh) != MEMORY && forall w <- Wants(sh, e) :: TagOf(w.target) != MEMORY
  {
  }

  lemma {:induction false} TalksWithin(rows: seq<Talk>)
    ensures Within(TalksScript(rows), {"Interaction"}, {"Customer"}) && AllProper(TalksScript(rows))
  {
    hide TalkProps, LessonOf;
    if rows != [] {
      TalksWithin(rows[1..]);
    }
  }

  lemma AgentsWithin(model: string)
    ensures Within(AgentsScript(model), {"Agent"}, {}) && AllProper(AgentsScript(model)) && Settled(AgentsScript(model))
  {
    hide AgentProps;
  }

  lemma ProperPlus(a: seq<Stmt>, b: seq<Stmt>)
    requires AllProper(a) && AllProper(b)
    ensures AllProper(a + b)
  {
    hide Proper;
  }

  /** One more sheet in front of a settled script. */
  lemma SheetFirst(sh: Sheet, rows: seq<Entry>, b: seq<Stmt>, own: set<string>, seen: set<string>)
    requires Within(b, own, seen) && Settled(b) && AllProper(b) && Seen(sh) !! ({Label(sh)} + own)
    ensures var s := SheetScript(sh, rows) + b;
            Within(s, {Label(sh)} + own, Seen(sh) + seen) && Settled(s) && AllProper(s)
  {
    hide *;
    SheetWithin(sh, rows);
    SheetProper(sh, rows);
    ProperPlus(SheetScript(sh, rows), b);
    WithinPlus(SheetScript(sh, rows), b, {Label(sh)}, own, Seen(sh), seen);
    SettledBefore(SheetScript(sh, rows), {Label(sh)}, Seen(sh), b, own, seen);
  }

  const TALKING := {"Interaction", "Agent"}
  const INSURED := {"Policy", "Claim", "Transaction", "ChargePenalty"} + TALKING
  const HELD := {"Account", "CreditCard", "Loan", "FixedDeposit"} + INSURED

  lemma FromTalksSettled(b: Workbook, model: string)
    ensures Within(FromTalks(b, model), TALKING, {"Customer"}) && Settled(FromTalks(b, model)) &&
      AllProper(FromTalks(b, model))
  {
    hide TalksScript, AgentsScript, Within, Settled, AllProper;
    TalksWithin(b.talks);
    AgentsWithin(model);
    ProperPlus(TalksScript(b.talks), AgentsScript(model));
    WithinPlus(TalksScript(b.talks), AgentsScript(model), {"Interaction"}, {"Agent"}, {"Customer"}, {});
    SettledBefore(TalksScript(b.talks), {"Interaction"}, {"Customer"}, AgentsScript(model), {"Agent"}, {});
    assert {"Interaction"} + {"Agent"} == TALKING && {"Customer"} + {} == {"Customer"};
  }

  lemma FromPoliciesSettled(b: Workbook, model: string)
    ensures Within(FromPolicies(b, model), INSURED, {"Customer", "Policy"}) && Settled(FromPolicies(b, model))
    ensures AllProper(FromPolicies(b, model))
  {
    hide SheetScript, FromTalks, Within, Settled, AllProper;
    FromTalksSettled(b, model);
    SheetFirst(Charges, b.charges, FromTalks(b, model), TALKING, {"Customer"});
    var s1 := SheetScript(Charges, b.charges) + FromTalks(b, model);
    SheetFirst(Transactions, b.transactions, s1, {"ChargePenalty"} + TALKING, {"Customer"} + {"Customer"});
    var s2 := SheetScript(Transactions, b.transactions) + s1;
    var own2, seen2 := {"Transaction"} + ({"ChargePenalty"} + TALKING), {"Customer"} + ({"Customer"} + {"Customer"});
    SheetFirst(Claims, b.claims, s2, own2, seen2);
    var s3 := SheetScript(Claims, b.claims) + s2;
    var own3, seen3 := {"Claim"} + own2, {"Customer", "Policy"} + seen2;
    SheetFirst(Policies, b.policies, s3, own3, seen3);
    assert {"Policy"} + own3 == INSURED && {"Customer"} + seen3 == {"Customer", "Policy"};
  }

  lemma FromAccountsSettled(b: Workbook, model: string)
    ensures Within(FromAccounts(b, model), HELD, {"Customer", "Product", "Policy"}) && Settled(FromAccounts(b, model))
    ensures AllProper(FromAccounts(b, model))
  {
    hide SheetScript, FromPolicies, Within, Settled, AllProper;
    var want := {"Customer", "Product"};
    FromPoliciesSettled(b, model);
    SheetFirst(Deposits, b.deposits, FromPolicies(b, model), INSURED, {"Customer", "Policy"});
    var s1 := SheetScript(Deposits, b.deposits) + FromPolicies(b, model);
    var own1, seen1 := {"FixedDeposit"} + INSURED, want + {"Customer", "Policy"};
    SheetFirst(Loans, b.loans, s1, own1, seen1);
    var s2 := SheetScript(Loans, b.loans) + s1;
    SheetFirst(Cards, b.cards, s2, {"Loan"} + own1, want + seen1);
    var s3 := SheetScript(Cards, b.cards) + s2;
    SheetFirst(Accounts, b.accounts, s3, {"CreditCard"} + ({"Loan"} + own1), want + (want + seen1));
    assert {"Account"} + ({"CreditCard"} + ({"Loan"} + own1)) == HELD;
    assert want + (want + (want + seen1)) == {"Customer", "Product", "Policy"};
  }

  /** The loaders run in an order that needs no second pass, but for the agents. */
  lemma ScriptSettled(b: Workbook, model: string)
    ensures Settled(Script(b, model)) && AllProper(Script(b, model))
  {
    hide SheetScript, FromAccounts, Within, Settled, AllProper;
    FromAccountsSettled(b, model);
    var seen := {"Customer", "Product", "Policy"};
    SheetFirst(Products, b.products, FromAccounts(b, model), HELD, seen);
    var s1 := SheetScript(Products, b.products) + FromAccounts(b, model);
    SheetFirst(Kyc, b.kyc, s1, {"Product"} + HELD, {} + seen);
    var s2 := SheetScript(Kyc, b.kyc) + s1;
    SheetFirst(Customers, b.customers, s2, {"KYC"} + ({"Product"} + HELD), {"Customer"} + ({} + seen));
  }
}
