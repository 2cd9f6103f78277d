/** Which node belongs to which Concept: the tables, the matches each statement makes, the
    layer the statements build up in order, and the closed form it equals. */
module ConceptRules {
  import opened Options
  import opened ConceptGraph
  import opened Texts

  /** A dictionary item: the records' word for a subject, and the Concept of that subject. */
  datatype Naming = Naming(key: string, concept: string)

  /** A Concept, and the phrases that tell a chunk is about it. */
  datatype Rule = Rule(concept: string, phrases: seq<string>)

  const CHUNK_CONCEPTS: seq<Rule> := [
    Rule("Savings Account", ["open a new savings account"]),
    Rule("Savings Account", ["daily atm withdrawal limit", "atm withdrawal"]),
    Rule("Personal Loan", ["requirements for a personal loan"]),
    Rule("Credit Card", ["lost or stolen debit/credit card", "lost or stolen"]),
    Rule("Home Loan", ["apply for a home loan"]),
    Rule("KYC", ["update my kyc", "know your customer"]),
    Rule("Life Insurance", ["what is term insurance", "term insurance"]),
    Rule("Life Insurance", ["ulip and traditional life insurance", "ulip"]),
    Rule("Health Insurance", ["file a health insurance claim"]),
    Rule("Motor Insurance", ["car insurance premium"]),
    Rule("Insurance Portability", ["port my existing insurance policy"]),
    Rule("Demat Account", ["what is a demat account", "demat"]),
    Rule("SIP", ["what is sip", "systematic investment plan"]),
    Rule("ELSS", ["tax benefits associated with investing in elss", "elss"])]

  const CATEGORY_CONCEPTS: seq<Naming> := [
    Naming("SA", "Savings Account"),
    Naming("CSA", "Savings Account"),
    Naming("CA", "Current Account"),
    Naming("Personal Loan", "Personal Loan"),
    Naming("Home Loan", "Home Loan"),
    Naming("Auto Loan", "Auto Loan"),
    Naming("Education Loan", "Education Loan"),
    Naming("Loan Against Property", "Loan Against Property"),
    Naming("Classic", "Credit Card"),
    Naming("Gold", "Credit Card"),
    Naming("Platinum", "Credit Card"),
    Naming("Signature", "Credit Card"),
    Naming("Regular", "Fixed Deposit"),
    Naming("Tax Saver", "Fixed Deposit"),
    Naming("Senior Citizen", "Fixed Deposit"),
    Naming("Health", "Health Insurance"),
    Naming("Life", "Life Insurance"),
    Naming("Auto", "Motor Insurance"),
    Naming("Home Insurance", "Home Insurance")]

  const POLICY_TYPE_CONCEPTS: seq<Naming> := [
    Naming("Health", "Health Insurance"),
    Naming("Home Insurance", "Home Insurance"),
    Naming("Auto", "Motor Insurance"),
    Naming("Term Insurance", "Life Insurance")]

  /** The lower-cased text of a chunk; a chunk without text says nothing. */
  function Wording(n: Node): string {
    match Prop(n, "text")
    case Some(Text(t)) => Lower(t)
    case _ => ""
  }

  predicate Speaks(n: Node, rule: Rule) {
    exists phrase <- rule.phrases :: Contains(Wording(n), phrase)
  }

  // ---- What a MATCH finds ----

  function Tagged(nodes: map<nat, Node>, tag: string): set<nat> {
    set n | n in nodes && nodes[n].tag == tag
  }

  function Keyed(nodes: map<nat, Node>, tag: string, key: string, text: string): set<nat> {
    set n | n in nodes && nodes[n].tag == tag && Has(nodes[n], key, text)
  }

  function Chunks(nodes: map<nat, Node>): set<nat> {
    Keyed(nodes, "KBChunk", "doc_type", "knowledge_base")
  }

  /** `MATCH (k:KBChunk {chunk_id: id})` for the id of chunk `k`: every chunk that shares it,
      of whatever doc_type, and none when `k` has no id. */
  function Twins(nodes: map<nat, Node>, k: nat): set<nat> {
    set m | m in nodes && k in nodes && nodes[m].tag == "KBChunk" && Same(nodes[k], nodes[m], "chunk_id")
  }

  function ViaProduct(nodes: map<nat, Node>, edges: set<Edge>): set<(nat, nat)> {
    set e | e in edges && e.rel == "PRODUCT_IS" && e.src in nodes && e.dst in nodes && nodes[e.dst].tag == "Product" ::
      (e.src, e.dst)
  }

  function ViaKey(nodes: map<nat, Node>, tag: string, parent: string, key: string): set<(nat, nat)> {
    set x, y | x in nodes && y in nodes && nodes[x].tag == tag && nodes[y].tag == parent &&
      Same(nodes[x], nodes[y], key) ::
      (x, y)
  }

  lemma BaseMatches(nodes: map<nat, Node>, edges: set<Edge>, tag: string, key: string, text: string)
    requires tag != "Concept"
    ensures Keyed(nodes, tag, key, text) == Keyed(BaseNodes(nodes), tag, key, text)
    ensures Tagged(nodes, tag) == Tagged(BaseNodes(nodes), tag)
  {
  }

  lemma BaseTwins(nodes: map<nat, Node>, k: nat)
    requires k in nodes ==> !IsConcept(nodes[k])
    ensures Twins(nodes, k) == Twins(BaseNodes(nodes), k)
  {
  }

  lemma BasePaths(nodes: map<nat, Node>, edges: set<Edge>, nextId: nat)
    requires GraphOk(nodes, edges, nextId)
    ensures ViaProduct(nodes, edges) == ViaProduct(BaseNodes(nodes), BaseEdges(nodes, edges))
  {
    forall p: (nat, nat) | p in ViaProduct(nodes, edges)
      ensures p in ViaProduct(BaseNodes(nodes), BaseEdges(nodes, edges))
    {
      assert Edge(p.0, "PRODUCT_IS", p.1) in BaseEdges(nodes, edges);
    }
  }

  lemma BaseKeyPaths(nodes: map<nat, Node>, tag: string, parent: string, key: string)
    requires tag != "Concept" && parent != "Concept"
    ensures ViaKey(nodes, tag, parent, key) == ViaKey(BaseNodes(nodes), tag, parent, key)
  {
  }

  // ---- Which pairs a table asks for ----

  function NamingPairs(nodes: map<nat, Node>, tag: string, key: string, table: seq<Naming>): set<(nat, string)> {
    set n, t | n in nodes && t in table && nodes[n].tag == tag && Has(nodes[n], key, t.key) :: (n, t.concept)
  }

  /** The pairs the chunks in `read` ask for. */
  function SpeechPairs(nodes: map<nat, Node>, read: set<nat>, rules: seq<Rule>): set<(nat, string)> {
    set k, m, r | k in read && k in nodes && m in Twins(nodes, k) && r in rules && Speaks(nodes[k], r) :: (m, r.concept)
  }

  lemma NamingPairsStep(nodes: map<nat, Node>, tag: string, key: string, table: seq<Naming>, t: Naming)
    ensures NamingPairs(nodes, tag, key, table + [t])
         == NamingPairs(nodes, tag, key, table) + Each(Keyed(nodes, tag, key, t.key), t.concept)
  {
    forall p: (nat, string) | p in Each(Keyed(nodes, tag, key, t.key), t.concept)
      ensures p in NamingPairs(nodes, tag, key, table + [t])
    {
      assert t in table + [t];
    }
    forall p: (nat, string) | p in NamingPairs(nodes, tag, key, table)
      ensures p in NamingPairs(nodes, tag, key, table + [t])
    {
      var n, s :| n in nodes && s in table && nodes[n].tag == tag && Has(nodes[n], key, s.key) && p == (n, s.concept);
      assert s in table + [t];
    }
  }

  lemma SpeechPairsStep(nodes: map<nat, Node>, k: nat, rules: seq<Rule>, r: Rule)
    requires k in nodes
    ensures SpeechPairs(nodes, {k}, rules + [r])
         == SpeechPairs(nodes, {k}, rules) + (if Speaks(nodes[k], r) then Each(Twins(nodes, k), r.concept) else {})
  {
    if Speaks(nodes[k], r) {
      forall p: (nat, string) | p in Each(Twins(nodes, k), r.concept)
        ensures p in SpeechPairs(nodes, {k}, rules + [r])
      {
        assert r in rules + [r];
      }
    }
    forall p: (nat, string) | p in SpeechPairs(nodes, {k}, rules)
      ensures p in SpeechPairs(nodes, {k}, rules + [r])
    {
      var k', m, s :| k' in {k} && k' in nodes && m in Twins(nodes, k') && s in rules && Speaks(nodes[k'], s) &&
        p == (m, s.concept);
      assert s in rules + [r];
    }
  }

  lemma SpeechPairsOf(nodes: map<nat, Node>, read: set<nat>, k: nat, rules: seq<Rule>)
    ensures SpeechPairs(nodes, read + {k}, rules) == SpeechPairs(nodes, read, rules) + SpeechPairs(nodes, {k}, rules)
  {
  }

  // ---- The statements in order ----

  const NOTHING := Layer({}, map[])

  function AfterProducts(b: Base): Layer {
    Merged(NOTHING, "INSTANCE_OF", NamingPairs(b.nodes, "Product", "category", CATEGORY_CONCEPTS), true, true)
  }

  function AfterChunks(b: Base): Layer {
    Merged(AfterProducts(b), "EXPLAINS", SpeechPairs(b.nodes, Chunks(b.nodes), CHUNK_CONCEPTS), false, false)
  }

  function AfterRides(b: Base): Layer {
    Copied(AfterChunks(b), ViaProduct(b.nodes, b.edges))
  }

  function AfterPolicies(b: Base): Layer {
    Merged(AfterRides(b), "INSTANCE_OF", NamingPairs(b.nodes, "Policy", "policy_type", POLICY_TYPE_CONCEPTS), true,
      false)
  }

  function AfterClaims(b: Base): Layer {
    Copied(AfterPolicies(b), ViaKey(b.nodes, "Claim", "Policy", "policy_id"))
  }

  function AfterCharges(b: Base): Layer {
    Copied(AfterClaims(b), ViaKey(b.nodes, "ChargePenalty", "Account", "account_number"))
  }

  function AfterTransactions(b: Base): Layer {
    Copied(AfterCharges(b), ViaKey(b.nodes, "Transaction", "Account", "account_number"))
  }

  /** The whole layer the passes leave over the base graph `b`. */
  function Staged(b: Base): Layer {
    Merged(AfterTransactions(b), "INSTANCE_OF", Each(Tagged(b.nodes, "KYC"), "KYC"), false, false)
  }

  // ---- The closed form: read off one node at a time ----

  predicate Named(b: Base, n: nat, c: string, tag: string, key: string, table: seq<Naming>) {
    n in b.nodes && b.nodes[n].tag == tag && exists t <- table :: t.concept == c && Has(b.nodes[n], key, t.key)
  }

  /** A catalogue entry whose Category is a word for `c`. */
  predicate Sells(b: Base, n: nat, c: string) {
    Named(b, n, c, "Product", "category", CATEGORY_CONCEPTS)
  }

  /** A chunk that shares the id of a knowledge chunk whose text speaks of `c`. */
  predicate Explains(b: Base, n: nat, c: string) {
    exists k <- Chunks(b.nodes) ::
      n in Twins(b.nodes, k) && exists r <- CHUNK_CONCEPTS :: r.concept == c && Speaks(b.nodes[k], r)
  }

  /** A record that points at a product which sells `c`. */
  predicate Rides(b: Base, n: nat, c: string) {
    exists e <- b.edges :: e.src == n && e.rel == "PRODUCT_IS" && n in b.nodes && Sells(b, e.dst, c)
  }

  predicate Insures(b: Base, n: nat, c: string) {
    Named(b, n, c, "Policy", "policy_type", POLICY_TYPE_CONCEPTS)
  }

  /** A claim on a policy of the subject `c`. */
  predicate ClaimsOn(b: Base, n: nat, c: string) {
    exists p <- b.nodes :: (n, p) in ViaKey(b.nodes, "Claim", "Policy", "policy_id") &&
      (Insures(b, p, c) || Rides(b, p, c))
  }

  /** A charge or a transaction on an account of the subject `c`. */
  predicate SitsOn(b: Base, n: nat, c: string) {
    exists a <- b.nodes :: Rides(b, a, c) &&
      ((n, a) in ViaKey(b.nodes, "ChargePenalty", "Account", "account_number") ||
       (n, a) in ViaKey(b.nodes, "Transaction", "Account", "account_number"))
  }

  predicate Identifies(b: Base, n: nat, c: string) {
    c == "KYC" && n in b.nodes && b.nodes[n].tag == "KYC"
  }

  predicate InstanceOf(b: Base, n: nat, c: string) {
    Sells(b, n, c) || Rides(b, n, c) || Insures(b, n, c) || ClaimsOn(b, n, c) || SitsOn(b, n, c) || Identifies(b, n, c)
  }

  predicate Sold(b: Base, c: string) {
    exists n <- b.nodes :: Sells(b, n, c)
  }

  predicate Explained(b: Base, c: string) {
    exists n <- b.nodes :: Explains(b, n, c)
  }

  predicate Insured(b: Base, c: string) {
    exists n <- b.nodes :: Insures(b, n, c)
  }

  predicate Known(b: Base, c: string) {
    exists n <- b.nodes :: Identifies(b, n, c)
  }
}
