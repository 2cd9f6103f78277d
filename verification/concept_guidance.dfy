/** What the Concept layer is for: every knowledge chunk reaches the reply writer, marked with
    whether it is about something this customer holds. */
module ConceptGuidance {
  import opened Options
  import opened Texts
  import opened ConceptGraph
  import opened ConceptRules
  import opened ConceptTheorems
  import opened ConceptLayer

  datatype Match = Match(chunk: nat, concept: string)

  datatype Row = Row(text: string, concept: string, isHers: bool)

  function NameOf(n: Node): string {
    match Prop(n, "name")
    case Some(Text(t)) => t
    case _ => ""
  }

  function TextOf(n: Node): string {
    match Prop(n, "text")
    case Some(Text(t)) => t
    case _ => ""
  }

  // ---- The query ----

  predicate IsCustomer(nodes: map<nat, Node>, n: nat, cid: string) {
    n in nodes && nodes[n].tag == "Customer" && Has(nodes[n], "customer_id", cid)
  }

  /** (c:Customer {customer_id: cid})-[]->(h)-[:INSTANCE_OF]->(held:Concept), the names. */
  function HeldNames(nodes: map<nat, Node>, edges: set<Edge>, cid: string): set<string> {
    set e, f | e in edges && f in edges && IsCustomer(nodes, e.src, cid) && e.dst == f.src && f.rel == "INSTANCE_OF"
               && f.dst in nodes && IsConcept(nodes[f.dst]) :: NameOf(nodes[f.dst])
  }

  /** (k:KBChunk {doc_type: 'knowledge_base'})-[:EXPLAINS]->(con:Concept). */
  function ExplainMatches(nodes: map<nat, Node>, edges: set<Edge>): set<Match> {
    set f | f in edges && f.rel == "EXPLAINS" && f.src in Chunks(nodes) && f.dst in nodes && IsConcept(nodes[f.dst]) ::
      Match(f.src, NameOf(nodes[f.dst]))
  }

  /** ORDER BY is_hers DESC, con.name. */
  predicate Before(held: set<string>, a: Match, b: Match) {
    var hersA, hersB := a.concept in held, b.concept in held;
    (hersA && !hersB) || (hersA == hersB && NameLess(a.concept, b.concept))
  }

  predicate Ordered(held: set<string>, ms: seq<Match>) {
    forall i, j :: 0 <= i < j < |ms| ==> !Before(held, ms[j], ms[i])
  }

  predicate NoTwice(ms: seq<Match>) {
    forall i, j :: 0 <= i < j < |ms| ==> ms[i] != ms[j]
  }

  /** The answers the database may give: all matches, each once, in order; ties are its own. */
  predicate Answers(nodes: map<nat, Node>, edges: set<Edge>, cid: string, ms: seq<Match>) {
    && NoTwice(ms)
    && (set m | m in ms) == ExplainMatches(nodes, edges)
    && Ordered(HeldNames(nodes, edges, cid), ms)
  }

  /** The rows `get_guidance` keeps: a chunk without text gives no row. */
  function Kept(nodes: map<nat, Node>, ms: seq<Match>): (r: seq<Match>)
    ensures forall m :: m in r <==> m in ms && m.chunk in nodes && TextOf(nodes[m.chunk]) != ""
    ensures |r| <= |ms|
  {
    if ms == [] then [] else
      (if ms[0].chunk in nodes && TextOf(nodes[ms[0].chunk]) != "" then [ms[0]] else []) + Kept(nodes, ms[1..])
  }

  function Guidance(nodes: map<nat, Node>, edges: set<Edge>, cid: string, ms: seq<Match>): (rows: seq<Row>)
    ensures |rows| == |Kept(nodes, ms)|
    ensures forall i :: 0 <= i < |rows| ==>
      rows[i] == Row(TextOf(nodes[Kept(nodes, ms)[i].chunk]), Kept(nodes, ms)[i].concept,
                     Kept(nodes, ms)[i].concept in HeldNames(nodes, edges, cid))
  {
    var kept := Kept(nodes, ms);
    seq(|kept|, i requires 0 <= i < |kept| =>
      Row(TextOf(nodes[kept[i].chunk]), kept[i].concept, kept[i].concept in HeldNames(nodes, edges, cid)))
  }

  lemma {:induction false} KeptOrder(nodes: map<nat, Node>, held: set<string>, ms: seq<Match>)
    requires NoTwice(ms) && Ordered(held, ms)
    ensures NoTwice(Kept(nodes, ms)) && Ordered(held, Kept(nodes, ms))
  {
    if ms != [] {
      var rest := Kept(nodes, ms[1..]);
      KeptOrder(nodes, held, ms[1..]);
      forall j | 0 <= j < |rest| ensures rest[j] != ms[0] && !Before(held, rest[j], ms[0]) {
        assert rest[j] in rest;
        var i :| 0 <= i < |ms[1..]| && ms[1..][i] == rest[j];
        assert ms[i + 1] == rest[j];
      }
    }
  }

  // ---- What the base graph says the answer is ----

  /** Some record of the customer is an instance of `c`. */
  predicate Hers(b: Base, cid: string, c: string) {
    exists e <- b.edges :: IsCustomer(b.nodes, e.src, cid) && InstanceOf(b, e.dst, c)
  }

  predicate ExplainsHere(b: Base, m: Match) {
    m.chunk in Chunks(b.nodes) && Explains(b, m.chunk, m.concept)
  }

  lemma ConceptName(c: string, sold: bool)
    ensures NameOf(ConceptNode(c, sold)) == c && IsConcept(ConceptNode(c, sold))
  {
  }

  /** Reading an edge into a Concept is reading a link of the layer. */
  lemma EdgeIsLink(nodes: map<nat, Node>, edges: set<Edge>, nextId: nat, ids: map<string, nat>, layer: Layer, f: Edge)
    requires Holds(nodes, edges, nextId, ids, layer) && f in edges && f.dst in nodes && IsConcept(nodes[f.dst])
    ensures Link(f.src, f.rel, NameOf(nodes[f.dst])) in layer.links
  {
    var c :| c in ids && ids[c] == f.dst;
    ConceptName(c, layer.sold[c]);
    assert Edge(f.src, f.rel, ids[c]) == f;
  }

  lemma LinkIsEdge(nodes: map<nat, Node>, edges: set<Edge>, nextId: nat, ids: map<string, nat>, layer: Layer, l: Link)
    returns (f: Edge)
    requires Holds(nodes, edges, nextId, ids, layer) && l in layer.links
    ensures f in edges && f.src == l.src && f.rel == l.rel && f.dst in nodes && IsConcept(nodes[f.dst])
    ensures NameOf(nodes[f.dst]) == l.concept
  {
    f := Edge(l.src, l.rel, ids[l.concept]);
    ConceptName(l.concept, layer.sold[l.concept]);
  }

  lemma BaseEdge(nodes: map<nat, Node>, edges: set<Edge>, nextId: nat, e: Edge)
    requires GraphOk(nodes, edges, nextId) && e in edges && !IsConcept(nodes[e.dst])
    ensures e in BaseOf(nodes, edges).edges
  {
  }

  lemma FromBase(nodes: map<nat, Node>, edges: set<Edge>, e: Edge)
    requires e in BaseOf(nodes, edges).edges
    ensures e in edges
  {
  }

  lemma CustomerInBase(nodes: map<nat, Node>, edges: set<Edge>, n: nat, cid: string)
    ensures IsCustomer(nodes, n, cid) <==> IsCustomer(BaseOf(nodes, edges).nodes, n, cid)
  {
  }

  lemma LinkSource(nodes: map<nat, Node>, edges: set<Edge>, nextId: nat, f: Edge)
    requires GraphOk(nodes, edges, nextId) && f in edges
    ensures f.src in nodes && !IsConcept(nodes[f.src])
  {
  }

  /** After a build, the names collected for a customer are exactly the subjects some record of
      hers reaches through its product, policy type, parent policy or account. */
  lemma HeldNamesAre(nodes: map<nat, Node>, edges: set<Edge>, nextId: nat, ids: map<string, nat>, layer: Layer,
                     cid: string, c: string)
    requires Holds(nodes, edges, nextId, ids, layer) && layer == Staged(BaseOf(nodes, edges))
    ensures c in HeldNames(nodes, edges, cid) <==> Hers(BaseOf(nodes, edges), cid, c)
  {
    hide Holds, Staged, InstanceOf, BaseOf, IsCustomer, GraphOk, NameOf;
    var b := BaseOf(nodes, edges);
    HoldsIndexed(nodes, edges, nextId, ids, layer);
    if c in HeldNames(nodes, edges, cid) {
      var e, f :| e in edges && f in edges && IsCustomer(nodes, e.src, cid) && e.dst == f.src && f.rel == "INSTANCE_OF"
                  && f.dst in nodes && IsConcept(nodes[f.dst]) && NameOf(nodes[f.dst]) == c;
      EdgeIsLink(nodes, edges, nextId, ids, layer, f);
      InstanceLinks(b, f.src, c);
      LinkSource(nodes, edges, nextId, f);
      BaseEdge(nodes, edges, nextId, e);
      CustomerInBase(nodes, edges, e.src, cid);
    }
    if Hers(b, cid, c) {
      var e :| e in b.edges && IsCustomer(b.nodes, e.src, cid) && InstanceOf(b, e.dst, c);
      InstanceLinks(b, e.dst, c);
      var f := LinkIsEdge(nodes, edges, nextId, ids, layer, Link(e.dst, "INSTANCE_OF", c));
      FromBase(nodes, edges, e);
      CustomerInBase(nodes, edges, e.src, cid);
    }
  }

  /** And the chunk rows are exactly the pairs the chunk rules ask for. */
  lemma ExplainMatchesAre(nodes: map<nat, Node>, edges: set<Edge>, nextId: nat, ids: map<string, nat>, layer: Layer,
    m: Match)
    requires Holds(nodes, edges, nextId, ids, layer) && layer == Staged(BaseOf(nodes, edges))
    ensures m in ExplainMatches(nodes, edges) <==> ExplainsHere(BaseOf(nodes, edges), m)
  {
    hide Holds, Staged, Explains, BaseOf, Chunks, NameOf;
    var b := BaseOf(nodes, edges);
    BaseChunks(nodes, edges);
    var l := Link(m.chunk, "EXPLAINS", m.concept);
    OtherLinks(b, l);
    if m in ExplainMatches(nodes, edges) {
      var f :| f in edges && f.rel == "EXPLAINS" && f.src in Chunks(nodes) && f.dst in nodes && IsConcept(nodes[f.dst])
               && m == Match(f.src, NameOf(nodes[f.dst]));
      EdgeIsLink(nodes, edges, nextId, ids, layer, f);
    }
    if ExplainsHere(b, m) {
      var f := LinkIsEdge(nodes, edges, nextId, ids, layer, l);
    }
  }

  lemma TextInBase(nodes: map<nat, Node>, edges: set<Edge>, k: nat)
    requires k in Chunks(BaseOf(nodes, edges).nodes)
    ensures k in nodes && k in BaseOf(nodes, edges).nodes && nodes[k] == BaseOf(nodes, edges).nodes[k]
  {
  }

  /** After a build, whatever order the database gives ties: one row for every pair of a
      knowledge chunk with text and a Concept it explains, no pair twice, hers marked exactly when
      a record of hers reaches the Concept, hers first and then by name. */
  lemma GuidanceIsExact(g: Graph, cid: string, ms: seq<Match>)
    requires g.Valid() && g.layer == Staged(g.Original()) && Answers(g.nodes, g.edges, cid, ms)
    ensures var b, kept := g.Original(), Kept(g.nodes, ms);
            && NoTwice(kept)
            && (forall m :: m in kept <==> ExplainsHere(b, m) && m.chunk in b.nodes && TextOf(b.nodes[m.chunk]) != "")
            && Ordered(HeldNames(g.nodes, g.edges, cid), kept)
    ensures var b, kept, rows := g.Original(), Kept(g.nodes, ms), Guidance(g.nodes, g.edges, cid, ms);
            && |rows| == |kept|
            && forall i :: 0 <= i < |rows| ==>
                 kept[i].chunk in b.nodes && rows[i].text == TextOf(b.nodes[kept[i].chunk])
                 && rows[i].concept == kept[i].concept && (rows[i].isHers <==> Hers(b, cid, kept[i].concept))
  {
    hide *;
    g.ValidMeans();
    g.OriginalMeans();
    AnswersMean(g.nodes, g.edges, cid, ms);
    KeptOrder(g.nodes, HeldNames(g.nodes, g.edges, cid), ms);
    var b, kept := g.Original(), Kept(g.nodes, ms);
    forall m ensures m in kept <==> ExplainsHere(b, m) && m.chunk in b.nodes && TextOf(b.nodes[m.chunk]) != "" {
      ExplainMatchesAre(g.nodes, g.edges, g.nextId, g.ids, g.layer, m);
      if ExplainsHere(b, m) {
        ChunkOfMatch(b, m);
        TextInBase(g.nodes, g.edges, m.chunk);
      }
    }
    var rows := Guidance(g.nodes, g.edges, cid, ms);
    forall i | 0 <= i < |rows|
      ensures kept[i].chunk in b.nodes && rows[i].text == TextOf(b.nodes[kept[i].chunk])
              && rows[i].concept == kept[i].concept && (rows[i].isHers <==> Hers(b, cid, kept[i].concept))
    {
      assert kept[i] in kept;
      ChunkOfMatch(b, kept[i]);
      TextInBase(g.nodes, g.edges, kept[i].chunk);
      HeldNamesAre(g.nodes, g.edges, g.nextId, g.ids, g.layer, cid, kept[i].concept);
    }
  }

  lemma ChunkOfMatch(b: Base, m: Match)
    requires ExplainsHere(b, m)
    ensures m.chunk in Chunks(b.nodes)
  {
    hide Explains;
  }

  lemma AnswersMean(nodes: map<nat, Node>, edges: set<Edge>, cid: string, ms: seq<Match>)
    requires Answers(nodes, edges, cid, ms)
    ensures NoTwice(ms) && Ordered(HeldNames(nodes, edges, cid), ms)
    ensures forall m :: m in ms <==> m in ExplainMatches(nodes, edges)
  {
    hide ExplainMatches, HeldNames, NoTwice, Ordered;
    assert forall m :: m in ms <==> m in (set m | m in ms);
  }

  // ---- Growth ----

  /** More records and more edges; nothing that was there changes. */
  predicate Grew(b: Base, b': Base) {
    (forall n <- b.nodes :: n in b'.nodes && b'.nodes[n] == b.nodes[n]) && b.edges <= b'.edges
  }

  lemma NamedGrows(b: Base, b': Base, n: nat, c: string, tag: string, key: string, table: seq<Naming>)
    requires Grew(b, b') && Named(b, n, c, tag, key, table)
    ensures Named(b', n, c, tag, key, table)
  {
  }

  lemma SellsGrows(b: Base, b': Base, n: nat, c: string)
    requires Grew(b, b') && Sells(b, n, c)
    ensures Sells(b', n, c)
  {
    hide *;
    SellsIs(b, n, c);
    NamedGrows(b, b', n, c, "Product", "category", CATEGORY_CONCEPTS);
    SellsIs(b', n, c);
  }

  lemma InsuresGrows(b: Base, b': Base, n: nat, c: string)
    requires Grew(b, b') && Insures(b, n, c)
    ensures Insures(b', n, c)
  {
    hide *;
    InsuresIs(b, n, c);
    NamedGrows(b, b', n, c, "Policy", "policy_type", POLICY_TYPE_CONCEPTS);
    InsuresIs(b', n, c);
  }

  lemma RidesGrows(b: Base, b': Base, n: nat, c: string)
    requires Grew(b, b') && Rides(b, n, c)
    ensures Rides(b', n, c)
  {
    hide Sells;
    var e :| e in b.edges && e.src == n && e.rel == "PRODUCT_IS" && n in b.nodes && Sells(b, e.dst, c);
    SellsGrows(b, b', e.dst, c);
  }

  lemma ViaKeyGrows(b: Base, b': Base, tag: string, parent: string, key: string)
    requires Grew(b, b')
    ensures ViaKey(b.nodes, tag, parent, key) <= ViaKey(b'.nodes, tag, parent, key)
  {
  }

  lemma InstanceOfGrows(b: Base, b': Base, n: nat, c: string)
    requires Grew(b, b') && InstanceOf(b, n, c)
    ensures InstanceOf(b', n, c)
  {
    hide Sells, Rides, Insures, ViaKey;
    ViaKeyGrows(b, b', "Claim", "Policy", "policy_id");
    ViaKeyGrows(b, b', "ChargePenalty", "Account", "account_number");
    ViaKeyGrows(b, b', "Transaction", "Account", "account_number");
    if Sells(b, n, c) {
      SellsGrows(b, b', n, c);
    } else if Rides(b, n, c) {
      RidesGrows(b, b', n, c);
    } else if Insures(b, n, c) {
      InsuresGrows(b, b', n, c);
    } else if ClaimsOn(b, n, c) {
      var p :| p in b.nodes && (n, p) in ViaKey(b.nodes, "Claim", "Policy", "policy_id") &&
        (Insures(b, p, c) || Rides(b, p, c));
      if Insures(b, p, c) {
        InsuresGrows(b, b', p, c);
      } else {
        RidesGrows(b, b', p, c);
      }
    } else if SitsOn(b, n, c) {
      var a :| a in b.nodes && Rides(b, a, c) &&
        ((n, a) in ViaKey(b.nodes, "ChargePenalty", "Account", "account_number") ||
         (n, a) in ViaKey(b.nodes, "Transaction", "Account", "account_number"));
      RidesGrows(b, b', a, c);
    }
  }

  /** Whatever is added to the records, a subject that was hers stays hers. */
  lemma HersGrows(b: Base, b': Base, cid: string, c: string)
    requires Grew(b, b') && Hers(b, cid, c)
    ensures Hers(b', cid, c)
  {
    hide InstanceOf;
    var e :| e in b.edges && IsCustomer(b.nodes, e.src, cid) && InstanceOf(b, e.dst, c);
    InstanceOfGrows(b, b', e.dst, c);
  }

  /** A chunk pair is never lost either, and only a new chunk can add one. */
  lemma ExplainsHereGrows(b: Base, b': Base, m: Match)
    requires Grew(b, b')
    ensures ExplainsHere(b, m) ==> ExplainsHere(b', m)
    ensures (forall n <- b'.nodes :: n !in b.nodes ==> b'.nodes[n].tag != "KBChunk") && ExplainsHere(b', m) ==>
      ExplainsHere(b, m)
  {
    hide Speaks, CHUNK_CONCEPTS;
    if ExplainsHere(b, m) {
      var k :| k in Chunks(b.nodes) && m.chunk in Twins(b.nodes, k) &&
        exists r <- CHUNK_CONCEPTS :: r.concept == m.concept && Speaks(b.nodes[k], r);
      assert k in Chunks(b'.nodes) && m.chunk in Twins(b'.nodes, k);
    }
    if (forall n <- b'.nodes :: n !in b.nodes ==> b'.nodes[n].tag != "KBChunk") && ExplainsHere(b', m) {
      var k :| k in Chunks(b'.nodes) && m.chunk in Twins(b'.nodes, k) &&
        exists r <- CHUNK_CONCEPTS :: r.concept == m.concept && Speaks(b'.nodes[k], r);
      assert k in Chunks(b.nodes) && m.chunk in Twins(b.nodes, k);
    }
  }

  /** A record added for a customer takes no row away and adds none; it can only turn a row
      from general to hers. */
  lemma HoldingOnlyMarks(g: Graph, g': Graph, cid: string, ms: seq<Match>, ms': seq<Match>, m: Match)
    requires g.Valid() && g.layer == Staged(g.Original()) && Answers(g.nodes, g.edges, cid, ms)
    requires g'.Valid() && g'.layer == Staged(g'.Original()) && Answers(g'.nodes, g'.edges, cid, ms')
    requires Grew(g.Original(), g'.Original())
    requires forall n <- g'.Original().nodes :: n !in g.Original().nodes ==> g'.Original().nodes[n].tag != "KBChunk"
    ensures m in Kept(g.nodes, ms) <==> m in Kept(g'.nodes, ms')
    ensures m.concept in HeldNames(g.nodes, g.edges, cid) ==> m.concept in HeldNames(g'.nodes, g'.edges, cid)
  {
    hide *;
    var b, b' := g.Original(), g'.Original();
    GuidanceIsExact(g, cid, ms);
    GuidanceIsExact(g', cid, ms');
    ExplainsHereGrows(b, b', m);
    if ExplainsHere(b, m) {
      ChunkOfMatch(b, m);
      ChunkKept(b, b', m.chunk);
    }
    g.ValidMeans();
    g'.ValidMeans();
    g.OriginalMeans();
    g'.OriginalMeans();
    HeldNamesAre(g.nodes, g.edges, g.nextId, g.ids, g.layer, cid, m.concept);
    HeldNamesAre(g'.nodes, g'.edges, g'.nextId, g'.ids, g'.layer, cid, m.concept);
    if Hers(b, cid, m.concept) {
      HersGrows(b, b', cid, m.concept);
    }
  }

  lemma ChunkKept(b: Base, b': Base, k: nat)
    requires Grew(b, b') && k in Chunks(b.nodes)
    ensures k in b.nodes && k in b'.nodes && b'.nodes[k] == b.nodes[k]
  {
  }

  // ---- There is an answer ----

  lemma BeforeOrder(held: set<string>, a: Match, b: Match, c: Match)
    ensures !(Before(held, a, b) && Before(held, b, a))
    ensures Before(held, a, b) && !Before(held, c, b) ==> Before(held, a, c)
  {
    NameOrder(a.concept, b.concept, c.concept);
  }

  lemma Insert(held: set<string>, m: Match, ms: seq<Match>) returns (r: seq<Match>)
    requires Ordered(held, ms) && NoTwice(ms) && m !in ms
    ensures Ordered(held, r) && NoTwice(r) && forall x :: x in r <==> x == m || x in ms
  {
    var i := 0;
    while i < |ms| && !Before(held, m, ms[i])
      invariant 0 <= i <= |ms|
      invariant forall j :: 0 <= j < i ==> !Before(held, m, ms[j])
    {
      i := i + 1;
    }
    r := ms[..i] + [m] + ms[i..];
    forall j | i <= j < |ms| ensures !Before(held, ms[j], m) {
      BeforeOrder(held, m, ms[i], ms[j]);
      BeforeOrder(held, m, ms[j], m);
    }
  }

  lemma {:induction false} AnswerExists(nodes: map<nat, Node>, edges: set<Edge>, cid: string) returns (ms: seq<Match>)
    ensures Answers(nodes, edges, cid, ms)
  {
    hide HeldNames, ExplainMatches, Before;
    ms := [];
    var held := HeldNames(nodes, edges, cid);
    var all := ExplainMatches(nodes, edges);
    var rest := all;
    while rest != {}
      invariant rest <= all && NoTwice(ms) && Ordered(held, ms)
      invariant forall x :: x in ms <==> x in all && x !in rest
      decreases |rest|
    {
      var m :| m in rest;
      ms := Insert(held, m, ms);
      rest := rest - {m};
    }
    assert (set m | m in ms) == all;
  }
}
