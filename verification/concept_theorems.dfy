/** The passes, one after another, leave exactly the closed form: who is linked to what, and
    which Concepts count as sold. */
module ConceptTheorems {
  import opened Options
  import opened ConceptGraph
  import opened ConceptRules

  // ---- Membership, one statement at a time ----

  lemma InMerged(l: Layer, rel: string, pairs: set<(nat, string)>, onCreate: bool, force: bool, k: Link)
    ensures k in Merged(l, rel, pairs, onCreate, force).links
       <==> k in l.links || (k.rel == rel && (k.src, k.concept) in pairs)
  {
    InLinksFor(pairs, rel, k);
  }

  predicate Reached(l: Layer, via: set<(nat, nat)>, k: Link) {
    exists v <- via :: v.0 == k.src && Link(v.1, "INSTANCE_OF", k.concept) in l.links
  }

  lemma InCopied(l: Layer, via: set<(nat, nat)>, k: Link)
    ensures k in Copied(l, via).links <==> k in l.links || (k.rel == "INSTANCE_OF" && Reached(l, via, k))
  {
    if k in Inherited(l, via) {
      var v, j :| v in via && j in l.links && j.src == v.1 && j.rel == "INSTANCE_OF" &&
        k == Link(v.0, "INSTANCE_OF", j.concept);
      assert j == Link(v.1, "INSTANCE_OF", k.concept);
    }
    if k.rel == "INSTANCE_OF" && Reached(l, via, k) {
      var v :| v in via && v.0 == k.src && Link(v.1, "INSTANCE_OF", k.concept) in l.links;
      assert k == Link(v.0, "INSTANCE_OF", Link(v.1, "INSTANCE_OF", k.concept).concept);
    }
  }

  lemma InNamingPairs(b: Base, n: nat, c: string, tag: string, key: string, table: seq<Naming>)
    ensures (n, c) in NamingPairs(b.nodes, tag, key, table) <==> Named(b, n, c, tag, key, table)
  {
    if Named(b, n, c, tag, key, table) {
      var t :| t in table && t.concept == c && Has(b.nodes[n], key, t.key);
      assert (n, t.concept) in NamingPairs(b.nodes, tag, key, table);
    }
  }

  lemma InSpeechPairs(b: Base, n: nat, c: string)
    ensures (n, c) in SpeechPairs(b.nodes, Chunks(b.nodes), CHUNK_CONCEPTS) <==> Explains(b, n, c)
  {
    hide CHUNK_CONCEPTS;
    hide Speaks;
    hide Twins;
    if (n, c) in SpeechPairs(b.nodes, Chunks(b.nodes), CHUNK_CONCEPTS) {
      var k, m, r :| k in Chunks(b.nodes) && k in b.nodes && m in Twins(b.nodes, k) && r in CHUNK_CONCEPTS
                     && Speaks(b.nodes[k], r) && (n, c) == (m, r.concept);
      assert Explains(b, n, c);
    }
    if Explains(b, n, c) {
      var k :| k in Chunks(b.nodes) && n in Twins(b.nodes, k)
               && exists r <- CHUNK_CONCEPTS :: r.concept == c && Speaks(b.nodes[k], r);
      var r :| r in CHUNK_CONCEPTS && r.concept == c && Speaks(b.nodes[k], r);
      assert (n, r.concept) in SpeechPairs(b.nodes, Chunks(b.nodes), CHUNK_CONCEPTS);
    }
  }

  // ---- The stages ----

  lemma ProductsStage(b: Base, k: Link)
    ensures k in AfterProducts(b).links <==> k.rel == "INSTANCE_OF" && Sells(b, k.src, k.concept)
  {
    hide *;
    AfterProductsIs(b);
    InMerged(NOTHING, "INSTANCE_OF", NamingPairs(b.nodes, "Product", "category", CATEGORY_CONCEPTS), true, true, k);
    InNamingPairs(b, k.src, k.concept, "Product", "category", CATEGORY_CONCEPTS);
    SellsIs(b, k.src, k.concept);
  }

  lemma AfterProductsIs(b: Base)
    ensures AfterProducts(b) == Merged(NOTHING, "INSTANCE_OF",
      NamingPairs(b.nodes, "Product", "category", CATEGORY_CONCEPTS), true, true)
    ensures NOTHING.links == {} && NOTHING.sold == map[]
  {
    hide CATEGORY_CONCEPTS;
  }

  lemma SellsIs(b: Base, n: nat, c: string)
    ensures Sells(b, n, c) <==> Named(b, n, c, "Product", "category", CATEGORY_CONCEPTS)
    ensures Sells(b, n, c) ==> n in b.nodes && b.nodes[n].tag == "Product"
  {
    hide CATEGORY_CONCEPTS;
  }

  lemma InsuresIs(b: Base, n: nat, c: string)
    ensures Insures(b, n, c) <==> Named(b, n, c, "Policy", "policy_type", POLICY_TYPE_CONCEPTS)
    ensures Insures(b, n, c) ==> n in b.nodes && b.nodes[n].tag == "Policy"
  {
    hide POLICY_TYPE_CONCEPTS;
  }

  lemma ChunksStage(b: Base, k: Link)
    ensures k in AfterChunks(b).links
       <==> (k.rel == "INSTANCE_OF" && Sells(b, k.src, k.concept))
            || (k.rel == "EXPLAINS" && Explains(b, k.src, k.concept))
  {
    hide *;
    AfterChunksIs(b);
    ProductsStage(b, k);
    InMerged(AfterProducts(b), "EXPLAINS", SpeechPairs(b.nodes, Chunks(b.nodes), CHUNK_CONCEPTS), false, false, k);
    InSpeechPairs(b, k.src, k.concept);
  }

  lemma AfterChunksIs(b: Base)
    ensures AfterChunks(b) == Merged(AfterProducts(b), "EXPLAINS",
      SpeechPairs(b.nodes, Chunks(b.nodes), CHUNK_CONCEPTS), false, false)
  {
    hide CHUNK_CONCEPTS;
  }

  lemma RidesStage(b: Base, n: nat, c: string)
    ensures Link(n, "INSTANCE_OF", c) in AfterRides(b).links <==> Sells(b, n, c) || Rides(b, n, c)
  {
    hide *;
    var k := Link(n, "INSTANCE_OF", c);
    AfterRidesIs(b);
    InCopied(AfterChunks(b), ViaProduct(b.nodes, b.edges), k);
    ChunksStage(b, k);
    RidesReached(b, n, c);
  }

  lemma AfterRidesIs(b: Base)
    ensures AfterRides(b) == Copied(AfterChunks(b), ViaProduct(b.nodes, b.edges))
  {
    hide AfterChunks;
  }

  lemma RidesReached(b: Base, n: nat, c: string)
    ensures Reached(AfterChunks(b), ViaProduct(b.nodes, b.edges), Link(n, "INSTANCE_OF", c)) <==> Rides(b, n, c)
  {
    hide Sells, AfterChunks;
    var via := ViaProduct(b.nodes, b.edges);
    var k := Link(n, "INSTANCE_OF", c);
    if Reached(AfterChunks(b), via, k) {
      var v :| v in via && v.0 == n && Link(v.1, "INSTANCE_OF", c) in AfterChunks(b).links;
      ChunksStage(b, Link(v.1, "INSTANCE_OF", c));
      assert Edge(n, "PRODUCT_IS", v.1) in b.edges;
    }
    if Rides(b, n, c) {
      var e :| e in b.edges && e.src == n && e.rel == "PRODUCT_IS" && n in b.nodes && Sells(b, e.dst, c);
      ChunksStage(b, Link(e.dst, "INSTANCE_OF", c));
      SellsIs(b, e.dst, c);
      assert (n, e.dst) in via;
    }
  }

  lemma PoliciesStage(b: Base, n: nat, c: string)
    ensures Link(n, "INSTANCE_OF", c) in AfterPolicies(b).links
       <==> Sells(b, n, c) || Rides(b, n, c) || Insures(b, n, c)
  {
    hide *;
    AfterPoliciesIs(b);
    RidesStage(b, n, c);
    InMerged(AfterRides(b), "INSTANCE_OF", NamingPairs(b.nodes, "Policy", "policy_type", POLICY_TYPE_CONCEPTS), true,
      false,
             Link(n, "INSTANCE_OF", c));
    InNamingPairs(b, n, c, "Policy", "policy_type", POLICY_TYPE_CONCEPTS);
    InsuresIs(b, n, c);
  }

  lemma AfterPoliciesIs(b: Base)
    ensures AfterPolicies(b) == Merged(AfterRides(b), "INSTANCE_OF",
      NamingPairs(b.nodes, "Policy", "policy_type", POLICY_TYPE_CONCEPTS), true, false)
  {
    hide AfterRides, POLICY_TYPE_CONCEPTS;
  }

  lemma InViaKey(b: Base, tag: string, parent: string, key: string, x: nat, y: nat)
    ensures (x, y) in ViaKey(b.nodes, tag, parent, key) ==>
              x in b.nodes && y in b.nodes && b.nodes[x].tag == tag && b.nodes[y].tag == parent
  {
  }

  lemma ClaimsReached(b: Base, n: nat, c: string)
    ensures Reached(AfterPolicies(b), ViaKey(b.nodes, "Claim", "Policy", "policy_id"), Link(n, "INSTANCE_OF", c))
      <==> ClaimsOn(b, n, c)
  {
    hide AfterPolicies, ViaKey, Insures, Rides;
    var via := ViaKey(b.nodes, "Claim", "Policy", "policy_id");
    if Reached(AfterPolicies(b), via, Link(n, "INSTANCE_OF", c)) {
      var v :| v in via && v.0 == n && Link(v.1, "INSTANCE_OF", c) in AfterPolicies(b).links;
      PoliciesStage(b, v.1, c);
      InViaKey(b, "Claim", "Policy", "policy_id", v.0, v.1);
      SellsIs(b, v.1, c);
      assert v == (n, v.1);
    }
    if ClaimsOn(b, n, c) {
      var p :| p in b.nodes && (n, p) in via && (Insures(b, p, c) || Rides(b, p, c));
      PoliciesStage(b, p, c);
    }
  }

  lemma ClaimsStage(b: Base, n: nat, c: string)
    ensures Link(n, "INSTANCE_OF", c) in AfterClaims(b).links
       <==> Sells(b, n, c) || Rides(b, n, c) || Insures(b, n, c) || ClaimsOn(b, n, c)
  {
    hide *;
    AfterClaimsIs(b);
    PoliciesStage(b, n, c);
    InCopied(AfterPolicies(b), ViaKey(b.nodes, "Claim", "Policy", "policy_id"), Link(n, "INSTANCE_OF", c));
    ClaimsReached(b, n, c);
  }

  lemma AfterClaimsIs(b: Base)
    ensures AfterClaims(b) == Copied(AfterPolicies(b), ViaKey(b.nodes, "Claim", "Policy", "policy_id"))
  {
    hide AfterPolicies;
  }

  /** An Account is linked by its product only, whatever pass has run. */
  lemma AccountLinks(b: Base, a: nat, c: string)
    requires a in b.nodes && b.nodes[a].tag == "Account"
    ensures !Sells(b, a, c) && !Insures(b, a, c) && !ClaimsOn(b, a, c)
  {
    hide ViaKey;
    SellsIs(b, a, c);
    InsuresIs(b, a, c);
    if ClaimsOn(b, a, c) {
      var p :| p in b.nodes && (a, p) in ViaKey(b.nodes, "Claim", "Policy", "policy_id");
      InViaKey(b, "Claim", "Policy", "policy_id", a, p);
    }
  }

  predicate ChargedOn(b: Base, tag: string, n: nat, c: string) {
    exists a <- b.nodes :: Rides(b, a, c) && (n, a) in ViaKey(b.nodes, tag, "Account", "account_number")
  }

  lemma SitsOnIs(b: Base, n: nat, c: string)
    ensures SitsOn(b, n, c) <==> ChargedOn(b, "ChargePenalty", n, c) || ChargedOn(b, "Transaction", n, c)
  {
    hide ViaKey, Rides;
  }

  lemma ChargesReached(b: Base, n: nat, c: string)
    ensures Reached(AfterClaims(b), ViaKey(b.nodes, "ChargePenalty", "Account", "account_number"),
      Link(n, "INSTANCE_OF", c))
       <==> ChargedOn(b, "ChargePenalty", n, c)
  {
    hide AfterClaims, ViaKey, Rides, Insures, Sells, ClaimsOn;
    var via := ViaKey(b.nodes, "ChargePenalty", "Account", "account_number");
    if Reached(AfterClaims(b), via, Link(n, "INSTANCE_OF", c)) {
      var v :| v in via && v.0 == n && Link(v.1, "INSTANCE_OF", c) in AfterClaims(b).links;
      assert v == (n, v.1);
      InViaKey(b, "ChargePenalty", "Account", "account_number", n, v.1);
      ClaimsStage(b, v.1, c);
      AccountLinks(b, v.1, c);
    }
    if ChargedOn(b, "ChargePenalty", n, c) {
      var a :| a in b.nodes && Rides(b, a, c) && (n, a) in via;
      ClaimsStage(b, a, c);
    }
  }

  lemma ChargesStage(b: Base, n: nat, c: string)
    ensures Link(n, "INSTANCE_OF", c) in AfterCharges(b).links
       <==> Sells(b, n, c) || Rides(b, n, c) || Insures(b, n, c) || ClaimsOn(b, n, c)
            || ChargedOn(b, "ChargePenalty", n, c)
  {
    hide *;
    AfterChargesIs(b);
    ClaimsStage(b, n, c);
    InCopied(AfterClaims(b), ViaKey(b.nodes, "ChargePenalty", "Account", "account_number"), Link(n, "INSTANCE_OF", c));
    ChargesReached(b, n, c);
  }

  lemma AfterChargesIs(b: Base)
    ensures AfterCharges(b) == Copied(AfterClaims(b), ViaKey(b.nodes, "ChargePenalty", "Account", "account_number"))
    ensures AfterTransactions(b) == Copied(AfterCharges(b), ViaKey(b.nodes, "Transaction", "Account", "account_number"))
  {
    hide AfterClaims;
  }

  lemma NotCharged(b: Base, a: nat, c: string)
    requires a in b.nodes && b.nodes[a].tag == "Account"
    ensures !ChargedOn(b, "ChargePenalty", a, c)
  {
    hide ViaKey, Rides;
    if ChargedOn(b, "ChargePenalty", a, c) {
      var y :| y in b.nodes && (a, y) in ViaKey(b.nodes, "ChargePenalty", "Account", "account_number");
      InViaKey(b, "ChargePenalty", "Account", "account_number", a, y);
    }
  }

  lemma TransactionsReached(b: Base, n: nat, c: string)
    ensures Reached(AfterCharges(b), ViaKey(b.nodes, "Transaction", "Account", "account_number"),
      Link(n, "INSTANCE_OF", c))
       <==> ChargedOn(b, "Transaction", n, c)
  {
    hide AfterCharges, ViaKey, Rides, Insures, Sells, ClaimsOn;
    var via := ViaKey(b.nodes, "Transaction", "Account", "account_number");
    if Reached(AfterCharges(b), via, Link(n, "INSTANCE_OF", c)) {
      var v :| v in via && v.0 == n && Link(v.1, "INSTANCE_OF", c) in AfterCharges(b).links;
      assert v == (n, v.1);
      InViaKey(b, "Transaction", "Account", "account_number", n, v.1);
      ChargesStage(b, v.1, c);
      AccountLinks(b, v.1, c);
      NotCharged(b, v.1, c);
    }
    if ChargedOn(b, "Transaction", n, c) {
      var a :| a in b.nodes && Rides(b, a, c) && (n, a) in via;
      ChargesStage(b, a, c);
    }
  }

  lemma InEach(ms: set<nat>, c: string, n: nat, d: string)
    ensures (n, d) in Each(ms, c) <==> n in ms && d == c
  {
  }

  lemma StagedIs(b: Base)
    ensures Staged(b) == Merged(AfterTransactions(b), "INSTANCE_OF", Each(Tagged(b.nodes, "KYC"), "KYC"), false, false)
  {
    hide AfterTransactions;
  }

  lemma IdentifiesIs(b: Base, n: nat, c: string)
    ensures Identifies(b, n, c) <==> (n, c) in Each(Tagged(b.nodes, "KYC"), "KYC")
  {
    InEach(Tagged(b.nodes, "KYC"), "KYC", n, c);
  }

  lemma InstanceOfIs(b: Base, n: nat, c: string)
    ensures InstanceOf(b, n, c)
       <==> Sells(b, n, c) || Rides(b, n, c) || Insures(b, n, c) || ClaimsOn(b, n, c)
            || ChargedOn(b, "ChargePenalty", n, c)
            || ChargedOn(b, "Transaction", n, c) || Identifies(b, n, c)
  {
    hide Sells, Rides, Insures, ClaimsOn, SitsOn, Identifies, ChargedOn;
    SitsOnIs(b, n, c);
  }

  /** After the last pass a node is an INSTANCE_OF exactly the Concepts its own product,
      policy type, parent policy, account or KYC status names. */
  lemma InstanceLinks(b: Base, n: nat, c: string)
    ensures Link(n, "INSTANCE_OF", c) in Staged(b).links <==> InstanceOf(b, n, c)
  {
    hide *;
    var k := Link(n, "INSTANCE_OF", c);
    ChargesStage(b, n, c);
    AfterChargesIs(b);
    InCopied(AfterCharges(b), ViaKey(b.nodes, "Transaction", "Account", "account_number"), k);
    TransactionsReached(b, n, c);
    StagedIs(b);
    InMerged(AfterTransactions(b), "INSTANCE_OF", Each(Tagged(b.nodes, "KYC"), "KYC"), false, false, k);
    IdentifiesIs(b, n, c);
    InstanceOfIs(b, n, c);
  }

  /** No pass after the chunk pass draws or removes an edge of another type. */
  lemma OtherLinks(b: Base, k: Link)
    requires k.rel != "INSTANCE_OF"
    ensures k in Staged(b).links <==> k.rel == "EXPLAINS" && Explains(b, k.src, k.concept)
  {
    hide *;
    ChunksStage(b, k);
    AfterRidesIs(b);
    InCopied(AfterChunks(b), ViaProduct(b.nodes, b.edges), k);
    AfterPoliciesIs(b);
    InMerged(AfterRides(b), "INSTANCE_OF", NamingPairs(b.nodes, "Policy", "policy_type", POLICY_TYPE_CONCEPTS), true,
      false, k);
    AfterClaimsIs(b);
    InCopied(AfterPolicies(b), ViaKey(b.nodes, "Claim", "Policy", "policy_id"), k);
    AfterChargesIs(b);
    InCopied(AfterClaims(b), ViaKey(b.nodes, "ChargePenalty", "Account", "account_number"), k);
    InCopied(AfterCharges(b), ViaKey(b.nodes, "Transaction", "Account", "account_number"), k);
    StagedIs(b);
    InMerged(AfterTransactions(b), "INSTANCE_OF", Each(Tagged(b.nodes, "KYC"), "KYC"), false, false, k);
  }

  // ---- The sold flag ----

  lemma NamedPair(pairs: set<(nat, string)>, n: nat, c: string)
    requires (n, c) in pairs
    ensures c in NamesIn(pairs)
  {
    assert (n, c).1 == c;
  }

  lemma NamesPaired(pairs: set<(nat, string)>, c: string) returns (n: nat)
    requires c in NamesIn(pairs)
    ensures (n, c) in pairs
  {
    var p :| p in pairs && p.1 == c;
    n := p.0;
    assert p == (n, c);
  }

  lemma SoldNames(b: Base, c: string)
    ensures c in NamesIn(NamingPairs(b.nodes, "Product", "category", CATEGORY_CONCEPTS)) <==> Sold(b, c)
  {
    hide Sells, NamingPairs, CATEGORY_CONCEPTS, NamesIn;
    var pairs := NamingPairs(b.nodes, "Product", "category", CATEGORY_CONCEPTS);
    if c in NamesIn(pairs) {
      var n := NamesPaired(pairs, c);
      InNamingPairs(b, n, c, "Product", "category", CATEGORY_CONCEPTS);
      SellsIs(b, n, c);
    }
    if Sold(b, c) {
      var n :| n in b.nodes && Sells(b, n, c);
      SellsIs(b, n, c);
      InNamingPairs(b, n, c, "Product", "category", CATEGORY_CONCEPTS);
      NamedPair(pairs, n, c);
    }
  }

  lemma InsuredNames(b: Base, c: string)
    ensures c in NamesIn(NamingPairs(b.nodes, "Policy", "policy_type", POLICY_TYPE_CONCEPTS)) <==> Insured(b, c)
  {
    hide Insures, NamingPairs, POLICY_TYPE_CONCEPTS, NamesIn;
    var pairs := NamingPairs(b.nodes, "Policy", "policy_type", POLICY_TYPE_CONCEPTS);
    if c in NamesIn(pairs) {
      var n := NamesPaired(pairs, c);
      InNamingPairs(b, n, c, "Policy", "policy_type", POLICY_TYPE_CONCEPTS);
      InsuresIs(b, n, c);
    }
    if Insured(b, c) {
      var n :| n in b.nodes && Insures(b, n, c);
      InsuresIs(b, n, c);
      InNamingPairs(b, n, c, "Policy", "policy_type", POLICY_TYPE_CONCEPTS);
      NamedPair(pairs, n, c);
    }
  }

  lemma ExplainsWhere(b: Base, n: nat, c: string)
    ensures Explains(b, n, c) ==> n in b.nodes && b.nodes[n].tag == "KBChunk"
  {
    hide Speaks, CHUNK_CONCEPTS;
  }

  lemma ExplainedNames(b: Base, c: string)
    ensures c in NamesIn(SpeechPairs(b.nodes, Chunks(b.nodes), CHUNK_CONCEPTS)) <==> Explained(b, c)
  {
    hide Explains, SpeechPairs, CHUNK_CONCEPTS, NamesIn, Chunks;
    var pairs := SpeechPairs(b.nodes, Chunks(b.nodes), CHUNK_CONCEPTS);
    if c in NamesIn(pairs) {
      var n := NamesPaired(pairs, c);
      InSpeechPairs(b, n, c);
      ExplainsWhere(b, n, c);
    }
    if Explained(b, c) {
      var n :| n in b.nodes && Explains(b, n, c);
      InSpeechPairs(b, n, c);
      NamedPair(pairs, n, c);
    }
  }

  lemma KnownNames(b: Base, c: string)
    ensures c in NamesIn(Each(Tagged(b.nodes, "KYC"), "KYC")) <==> Known(b, c)
  {
    hide NamesIn, Each, Identifies;
    var pairs := Each(Tagged(b.nodes, "KYC"), "KYC");
    if c in NamesIn(pairs) {
      var n := NamesPaired(pairs, c);
      InEach(Tagged(b.nodes, "KYC"), "KYC", n, c);
      IdentifiesIs(b, n, c);
    }
    if Known(b, c) {
      var n :| n in b.nodes && Identifies(b, n, c);
      IdentifiesIs(b, n, c);
      NamedPair(pairs, n, c);
    }
  }

  lemma CopiedSold(l: Layer, via: set<(nat, nat)>)
    ensures Copied(l, via).sold == l.sold
  {
  }

  /** What `sold` means is fixed by which pass reached the subject first: a catalogue entry
      sells it; a subject only chunks speak of is not sold, even when a policy names it; a
      policy sells it; KYC alone does not. And these are the only Concepts there are. */
  lemma SoldFlag(b: Base, c: string)
    ensures c in Staged(b).sold <==> Sold(b, c) || Explained(b, c) || Insured(b, c) || Known(b, c)
    ensures c in Staged(b).sold ==> (Staged(b).sold[c] <==> Sold(b, c) || (!Explained(b, c) && Insured(b, c)))
  {
    hide *;
    AfterProductsIs(b);
    MergedSold(NOTHING, "INSTANCE_OF", NamingPairs(b.nodes, "Product", "category", CATEGORY_CONCEPTS), true, true, c);
    SoldNames(b, c);
    AfterChunksIs(b);
    MergedSold(AfterProducts(b), "EXPLAINS", SpeechPairs(b.nodes, Chunks(b.nodes), CHUNK_CONCEPTS), false, false, c);
    ExplainedNames(b, c);
    AfterRidesIs(b);
    CopiedSold(AfterChunks(b), ViaProduct(b.nodes, b.edges));
    AfterPoliciesIs(b);
    MergedSold(AfterRides(b), "INSTANCE_OF", NamingPairs(b.nodes, "Policy", "policy_type", POLICY_TYPE_CONCEPTS),
      true, false, c);
    InsuredNames(b, c);
    AfterClaimsIs(b);
    CopiedSold(AfterPolicies(b), ViaKey(b.nodes, "Claim", "Policy", "policy_id"));
    AfterChargesIs(b);
    CopiedSold(AfterClaims(b), ViaKey(b.nodes, "ChargePenalty", "Account", "account_number"));
    CopiedSold(AfterCharges(b), ViaKey(b.nodes, "Transaction", "Account", "account_number"));
    StagedIs(b);
    MergedSold(AfterTransactions(b), "INSTANCE_OF", Each(Tagged(b.nodes, "KYC"), "KYC"), false, false, c);
    KnownNames(b, c);
  }

  /** A Concept exists exactly when some record, product, policy or chunk points at it. */
  lemma NoOrphans(b: Base, c: string)
    ensures c in Staged(b).sold <==> exists n <- b.nodes :: InstanceOf(b, n, c) || Explains(b, n, c)
  {
    hide *;
    SoldFlag(b, c);
    NoOrphansForms(b, c);
  }

  lemma RidesNeedSeller(b: Base, n: nat, c: string)
    requires Rides(b, n, c)
    ensures Sold(b, c)
  {
    hide Sells;
    var e :| e in b.edges && e.src == n && e.rel == "PRODUCT_IS" && n in b.nodes && Sells(b, e.dst, c);
    SellsIs(b, e.dst, c);
  }

  lemma ParentNeedsSubject(b: Base, n: nat, c: string)
    requires ClaimsOn(b, n, c) || SitsOn(b, n, c)
    ensures Sold(b, c) || Insured(b, c)
  {
    hide Insures, Rides, ViaKey, Sold;
    if ClaimsOn(b, n, c) {
      var p :| p in b.nodes && (Insures(b, p, c) || Rides(b, p, c));
      if Rides(b, p, c) {
        RidesNeedSeller(b, p, c);
      }
    } else {
      var a :| a in b.nodes && Rides(b, a, c);
      RidesNeedSeller(b, a, c);
    }
  }

  lemma NoOrphansForms(b: Base, c: string)
    ensures Sold(b, c) || Explained(b, c) || Insured(b, c) || Known(b, c)
       <==> exists n <- b.nodes :: InstanceOf(b, n, c) || Explains(b, n, c)
  {
    hide Sells, Rides, Insures, ClaimsOn, SitsOn, Identifies, Explains;
    if exists n <- b.nodes :: InstanceOf(b, n, c) || Explains(b, n, c) {
      var n :| n in b.nodes && (InstanceOf(b, n, c) || Explains(b, n, c));
      if Rides(b, n, c) {
        RidesNeedSeller(b, n, c);
      } else if ClaimsOn(b, n, c) || SitsOn(b, n, c) {
        ParentNeedsSubject(b, n, c);
      }
    }
  }

  // ---- The names a build reports ----

  /** The subjects the knowledge chunks speak of, whether or not a chunk could be linked. */
  function Spoken(nodes: map<nat, Node>, read: set<nat>, rules: seq<Rule>): set<string> {
    set k, r | k in read && k in nodes && r in rules && Speaks(nodes[k], r) :: r.concept
  }

  function PolicySubjects(): set<string> {
    set t | t in POLICY_TYPE_CONCEPTS :: t.concept
  }

  /** The size of this set is the "concepts" a build reports. */
  function Reported(b: Base): set<string> {
    NamesIn(NamingPairs(b.nodes, "Product", "category", CATEGORY_CONCEPTS)) +
      Spoken(b.nodes, Chunks(b.nodes), CHUNK_CONCEPTS)
    + PolicySubjects() + {"KYC"}
  }

  lemma ExplainedSpoken(b: Base, c: string)
    requires Explained(b, c)
    ensures c in Spoken(b.nodes, Chunks(b.nodes), CHUNK_CONCEPTS)
  {
    hide Speaks, CHUNK_CONCEPTS, Twins;
    var n :| n in b.nodes && Explains(b, n, c);
    var k :| k in Chunks(b.nodes) && n in Twins(b.nodes, k)
             && exists r <- CHUNK_CONCEPTS :: r.concept == c && Speaks(b.nodes[k], r);
    var r :| r in CHUNK_CONCEPTS && r.concept == c && Speaks(b.nodes[k], r);
  }

  lemma InsuredSubject(b: Base, c: string)
    requires Insured(b, c)
    ensures c in PolicySubjects()
  {
    hide POLICY_TYPE_CONCEPTS;
    var n :| n in b.nodes && Insures(b, n, c);
    InsuresIs(b, n, c);
    var t :| t in POLICY_TYPE_CONCEPTS && t.concept == c && Has(b.nodes[n], "policy_type", t.key);
  }

  lemma KnownIsKyc(b: Base, c: string)
    requires Known(b, c)
    ensures c == "KYC"
  {
  }

  lemma InReported(b: Base, c: string)
    ensures c in Reported(b) <==> c in NamesIn(NamingPairs(b.nodes, "Product", "category", CATEGORY_CONCEPTS))
                                  || c in Spoken(b.nodes, Chunks(b.nodes), CHUNK_CONCEPTS) ||
                                    c in PolicySubjects() || c == "KYC"
  {
    hide NamesIn, NamingPairs, Spoken, PolicySubjects, CATEGORY_CONCEPTS, CHUNK_CONCEPTS;
  }

  /** Every Concept there is is named. */
  lemma ReportedCovers(b: Base, c: string)
    requires c in Staged(b).sold
    ensures c in Reported(b)
  {
    hide *;
    SoldFlag(b, c);
    SoldNames(b, c);
    InReported(b, c);
    if Explained(b, c) {
      ExplainedSpoken(b, c);
    } else if Insured(b, c) {
      InsuredSubject(b, c);
    } else if Known(b, c) {
      KnownIsKyc(b, c);
    }
  }

  // ---- When the report is right ----

  predicate Subject(b: Base, c: string) {
    Sold(b, c) || Explained(b, c) || Insured(b, c) || Known(b, c)
  }

  /** The chunk `k` speaks of `c`. */
  predicate SpeaksOf(b: Base, k: nat, c: string) {
    k in b.nodes && exists r <- CHUNK_CONCEPTS :: r.concept == c && Speaks(b.nodes[k], r)
  }

  /** What a caller can look up before a build: every policy subject and KYC is the subject of some
      record, and so is whatever a knowledge chunk without an id speaks of. */
  ghost predicate ReportIsRight(b: Base) {
    && (forall c :: c in PolicySubjects() || c == "KYC" ==> Subject(b, c))
    && (forall k, c :: k in Chunks(b.nodes) && SpeaksOf(b, k, c) && Prop(b.nodes[k], "chunk_id").None? ==>
          Subject(b, c))
  }

  lemma InSpoken(b: Base, c: string)
    ensures c in Spoken(b.nodes, Chunks(b.nodes), CHUNK_CONCEPTS) <==> exists k <- Chunks(b.nodes) :: SpeaksOf(b, k, c)
  {
    hide Speaks, CHUNK_CONCEPTS;
  }

  /** A chunk with an id is matched by its own id, so what it speaks of gets a Concept. */
  lemma IdentifiedExplains(b: Base, k: nat, c: string)
    requires k in Chunks(b.nodes) && SpeaksOf(b, k, c) && Prop(b.nodes[k], "chunk_id").Some?
    ensures Explained(b, c)
  {
    hide Speaks, CHUNK_CONCEPTS;
    assert k in Twins(b.nodes, k);
    assert Explains(b, k, c);
  }

  lemma ExistsIffSubject(b: Base, c: string)
    ensures c in Staged(b).sold <==> Subject(b, c)
  {
    hide *;
    SoldFlag(b, c);
    SubjectIs(b, c);
  }

  lemma SubjectIs(b: Base, c: string)
    ensures Subject(b, c) <==> Sold(b, c) || Explained(b, c) || Insured(b, c) || Known(b, c)
  {
    hide Sold, Explained, Insured, Known;
  }

  /** The reported names are the existing Concepts exactly when nothing is named for which there
      is no record: no policy type or KYC without one, and no chunk without an id speaking of a
      subject nothing else reaches. */
  lemma ReportedExactIff(b: Base)
    ensures Reported(b) == Staged(b).sold.Keys <==> ReportIsRight(b)
  {
    hide *;
    if ReportIsRight(b) {
      forall c ensures c in Reported(b) <==> c in Staged(b).sold {
        ReportedWhenRight(b, c);
      }
    }
    if Reported(b) == Staged(b).sold.Keys {
      forall c | c in PolicySubjects() || c == "KYC" ensures Subject(b, c) {
        InReported(b, c);
        ExistsIffSubject(b, c);
      }
      forall k, c | k in Chunks(b.nodes) && SpeaksOf(b, k, c) && NoId(b, k) ensures Subject(b, c) {
        InSpoken(b, c);
        InReported(b, c);
        ExistsIffSubject(b, c);
      }
      RightFrom(b);
    }
  }

  predicate NoId(b: Base, k: nat) {
    k in b.nodes && Prop(b.nodes[k], "chunk_id").None?
  }

  lemma RightFrom(b: Base)
    requires forall c :: c in PolicySubjects() || c == "KYC" ==> Subject(b, c)
    requires forall k, c :: k in Chunks(b.nodes) && SpeaksOf(b, k, c) && NoId(b, k) ==> Subject(b, c)
    ensures ReportIsRight(b)
  {
    hide Subject, SpeaksOf, PolicySubjects;
  }

  lemma ReportedWhenRight(b: Base, c: string)
    requires ReportIsRight(b)
    ensures c in Reported(b) <==> c in Staged(b).sold
  {
    hide *;
    ExistsIffSubject(b, c);
    if c in Staged(b).sold {
      ReportedCovers(b, c);
    }
    InReported(b, c);
    SoldNames(b, c);
    InSpoken(b, c);
    SubjectIs(b, c);
    RightGives(b, c);
    if c in Spoken(b.nodes, Chunks(b.nodes), CHUNK_CONCEPTS) {
      var k :| k in Chunks(b.nodes) && SpeaksOf(b, k, c);
      RightChunk(b, k, c);
    }
  }

  lemma RightGives(b: Base, c: string)
    requires ReportIsRight(b)
    ensures c in PolicySubjects() || c == "KYC" ==> Subject(b, c)
  {
    hide Subject, SpeaksOf, PolicySubjects;
  }

  lemma RightChunk(b: Base, k: nat, c: string)
    requires ReportIsRight(b) && k in Chunks(b.nodes) && SpeaksOf(b, k, c)
    ensures Subject(b, c)
  {
    hide Sold, Explained, Insured, Known, SpeaksOf, PolicySubjects;
    if Prop(b.nodes[k], "chunk_id").Some? {
      IdentifiedExplains(b, k, c);
    }
  }

  lemma PartOfSameSize<T>(a: set<T>, b: set<T>)
    requires a <= b && |a| == |b|
    ensures a == b
  {
    if x :| x in b && x !in a {
      PartOfSize(a, b - {x});
    }
  }

  lemma {:induction false} PartOfSize<T>(a: set<T>, b: set<T>)
    requires a <= b
    ensures |a| <= |b|
  {
    if x :| x in a {
      PartOfSize(a - {x}, b - {x});
    }
  }

  /** So the reported number is the number of Concepts under just that condition, and above it
      otherwise. */
  lemma ReportedNumberIff(b: Base)
    ensures |Staged(b).sold.Keys| <= |Reported(b)|
    ensures |Staged(b).sold.Keys| == |Reported(b)| <==> ReportIsRight(b)
  {
    hide *;
    forall c | c in Staged(b).sold ensures c in Reported(b) {
      ReportedCovers(b, c);
    }
    ReportedExactIff(b);
    PartOfSize(Staged(b).sold.Keys, Reported(b));
    if |Staged(b).sold.Keys| == |Reported(b)| {
      PartOfSameSize(Staged(b).sold.Keys, Reported(b));
    }
  }

  /** It does differ: over an empty graph five subjects are named, and no Concept exists. */
  lemma ReportedOvercounts()
    ensures Reported(Base(map[], {})) == {"Health Insurance", "Home Insurance", "Motor Insurance", "Life Insurance",
      "KYC"}
    ensures Staged(Base(map[], {})).sold == map[]
  {
    var b := Base(map[], {});
    hide Staged, CATEGORY_CONCEPTS, CHUNK_CONCEPTS, POLICY_TYPE_CONCEPTS, Speaks;
    assert NamesIn(NamingPairs(b.nodes, "Product", "category", CATEGORY_CONCEPTS)) == {};
    assert Spoken(b.nodes, Chunks(b.nodes), CHUNK_CONCEPTS) == {};
    PolicySubjectsAre();
    forall c ensures c !in Staged(b).sold {
      SoldFlag(b, c);
    }
  }

  lemma PolicySubjectsAre()
    ensures PolicySubjects() == {"Health Insurance", "Home Insurance", "Motor Insurance", "Life Insurance"}
  {
    var t := POLICY_TYPE_CONCEPTS;
    assert t[0] in t && t[1] in t && t[2] in t && t[3] in t;
  }
}
