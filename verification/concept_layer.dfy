/** The build itself: the writes `build_concept_layer` sends, statement by statement. */
module ConceptLayer {
  import opened Options
  import opened ConceptGraph
  import opened ConceptRules
  import opened ConceptTheorems

  // ---- Cleaning ----

  function Unlinked(nodes: map<nat, Node>, edges: set<Edge>, rel: string, tag: Option<string>): set<Edge> {
    set e | e in edges && !(e.rel == rel && e.src in nodes && (tag == None || tag == Some(nodes[e.src].tag))
                            && e.dst in nodes && IsConcept(nodes[e.dst]))
  }

  function Orphans(nodes: map<nat, Node>, edges: set<Edge>): set<nat> {
    set n | n in nodes && IsConcept(nodes[n]) && forall e <- edges :: e.dst != n
  }

  /** The three deletions together leave no edge into a Concept. */
  lemma AllUnlinked(nodes: map<nat, Node>, edges: set<Edge>, nextId: nat)
    requires GraphOk(nodes, edges, nextId)
    ensures var e1 := Unlinked(nodes, edges, "INSTANCE_OF", Some("Product"));
            var e2 := Unlinked(nodes, e1, "EXPLAINS", Some("KBChunk"));
            Unlinked(nodes, e2, "INSTANCE_OF", None) == BaseEdges(nodes, edges)
  {
  }

  /** So every Concept is an orphan, and the sweep leaves the base graph. */
  lemma SweptClean(nodes: map<nat, Node>, edges: set<Edge>, nextId: nat)
    requires GraphOk(nodes, edges, nextId)
    ensures nodes - Orphans(nodes, BaseEdges(nodes, edges)) == BaseNodes(nodes)
    ensures Holds(BaseNodes(nodes), BaseEdges(nodes, edges), nextId, map[], NOTHING)
    ensures BaseOf(BaseNodes(nodes), BaseEdges(nodes, edges)) == BaseOf(nodes, edges)
  {
    var swept := nodes - Orphans(nodes, BaseEdges(nodes, edges));
    assert swept == BaseNodes(nodes);
    assert BaseNodes(BaseNodes(nodes)) == BaseNodes(nodes);
    assert BaseEdges(BaseNodes(nodes), BaseEdges(nodes, edges)) == BaseEdges(nodes, edges);
  }

  // ---- What the methods need of their matches ----

  lemma KeyedLinkable(nodes: map<nat, Node>, tag: string, key: string, text: string)
    requires tag != "Concept"
    ensures Linkable(nodes, Keyed(nodes, tag, key, text), "INSTANCE_OF")
    ensures Linkable(nodes, Tagged(nodes, tag), "INSTANCE_OF")
  {
  }

  lemma TwinsLinkable(nodes: map<nat, Node>, k: nat)
    ensures Linkable(nodes, Twins(nodes, k), "EXPLAINS")
  {
  }

  lemma EachNames(ms: set<nat>, c: string)
    ensures NamesIn(Each(ms, c)) == if ms == {} then {} else {c}
  {
    if m :| m in ms {
      assert (m, c) in Each(ms, c) && (m, c).1 == c;
    }
  }

  /** One MERGE statement over the matches `ms` of one Concept, spelled out. */
  lemma MergedEach(l: Layer, rel: string, ms: set<nat>, c: string, onCreate: bool, force: bool)
    requires ms != {}
    ensures Merged(l, rel, Each(ms, c), onCreate, force)
         == Layer(l.links + LinksFor(Each(ms, c), rel),
                  l.sold[c := if force then true else if c in l.sold then l.sold[c] else onCreate])
  {
    hide Each, LinksFor, NamesIn;
    EachNames(ms, c);
    assert Merged(l, rel, Each(ms, c), onCreate, force).sold
        == l.sold[c := if force then true else if c in l.sold then l.sold[c] else onCreate];
  }

  lemma NoneMatched(l: Layer, rel: string, c: string, onCreate: bool, force: bool)
    ensures Merged(l, rel, Each({}, c), onCreate, force) == l
  {
    hide Merged;
    assert Each({}, c) == {};
    MergedNothing(l, rel, onCreate, force);
  }

  lemma SameSold(m: map<string, bool>, c: string)
    requires c in m
    ensures m[c := m[c]] == m
  {
  }

  function Concepts(nodes: map<nat, Node>, c: string): set<nat> {
    set n | n in nodes && IsConcept(nodes[n]) && Has(nodes[n], "name", c)
  }

  lemma ConceptsAre(nodes: map<nat, Node>, edges: set<Edge>, nextId: nat, ids: map<string, nat>, layer: Layer,
    c: string)
    requires Holds(nodes, edges, nextId, ids, layer)
    ensures Concepts(nodes, c) == if c in ids then {ids[c]} else {}
    ensures ids.Keys == layer.sold.Keys
    ensures c in ids ==> ids[c] in nodes && nodes[ids[c]] == ConceptNode(c, layer.sold[c])
  {
    hide Holds;
    forall n: nat ensures n in Concepts(nodes, c) <==> c in ids && ids[c] == n {
      OneNodePerName(nodes, edges, nextId, ids, layer, n, c);
    }
    HoldsIndexed(nodes, edges, nextId, ids, layer);
  }

  lemma HoldsIndexed(nodes: map<nat, Node>, edges: set<Edge>, nextId: nat, ids: map<string, nat>, layer: Layer)
    requires Holds(nodes, edges, nextId, ids, layer)
    ensures Indexed(nodes, ids, layer.sold) && GraphOk(nodes, edges, nextId)
  {
  }

  lemma MarkedNode(c: string, sold: bool)
    ensures ConceptNode(c, sold).(props := ConceptNode(c, sold).props["sold" := Flag(true)]) == ConceptNode(c, true)
  {
  }

  lemma StillLinkable(nodes: map<nat, Node>, edges: set<Edge>, nodes': map<nat, Node>, edges': set<Edge>,
    ms: set<nat>, rel: string)
    requires Linkable(nodes, ms, rel) && BaseOf(nodes, edges) == BaseOf(nodes', edges')
    ensures Linkable(nodes', ms, rel)
  {
    forall m | m in ms ensures m in BaseNodes(nodes) && m in BaseNodes(nodes') {
    }
  }

  lemma HoldsBelow(nodes: map<nat, Node>, edges: set<Edge>, nextId: nat, ids: map<string, nat>, layer: Layer)
    requires Holds(nodes, edges, nextId, ids, layer)
    ensures nextId !in nodes
  {
    HoldsIndexed(nodes, edges, nextId, ids, layer);
  }

  ghost predicate Sources(nodes: map<nat, Node>, via: set<(nat, nat)>) {
    forall v <- via :: v.0 in nodes && !IsConcept(nodes[v.0])
  }

  lemma SourcesAre(nodes: map<nat, Node>, via: set<(nat, nat)>)
    ensures Sources(nodes, via) <==> forall v <- via :: v.0 in nodes && !IsConcept(nodes[v.0])
  {
  }

  lemma ProductSources(nodes: map<nat, Node>, edges: set<Edge>, nextId: nat)
    requires GraphOk(nodes, edges, nextId)
    ensures Sources(nodes, ViaProduct(nodes, edges))
  {
  }

  lemma KeySources(nodes: map<nat, Node>, tag: string, parent: string, key: string)
    requires tag != "Concept"
    ensures Sources(nodes, ViaKey(nodes, tag, parent, key))
  {
  }

  lemma NamingNothing(nodes: map<nat, Node>, tag: string, key: string)
    ensures NamingPairs(nodes, tag, key, []) == {} && NamesIn({}) == {}
  {
  }

  lemma BaseKeyed(nodes: map<nat, Node>, edges: set<Edge>, tag: string, key: string, text: string)
    requires tag != "Concept"
    ensures Keyed(nodes, tag, key, text) == Keyed(BaseOf(nodes, edges).nodes, tag, key, text)
    ensures Tagged(nodes, tag) == Tagged(BaseOf(nodes, edges).nodes, tag)
  {
    hide Keyed, Tagged;
    BaseMatches(nodes, edges, tag, key, text);
  }

  lemma BaseChunk(nodes: map<nat, Node>, edges: set<Edge>, k: nat)
    requires k in nodes && !IsConcept(nodes[k])
    ensures k in BaseOf(nodes, edges).nodes && BaseOf(nodes, edges).nodes[k] == nodes[k]
    ensures Twins(nodes, k) == Twins(BaseOf(nodes, edges).nodes, k)
  {
    hide Twins;
    BaseTwins(nodes, k);
  }

  lemma InBase(nodes: map<nat, Node>, edges: set<Edge>, k: nat)
    requires k in BaseOf(nodes, edges).nodes
    ensures k in nodes && !IsConcept(nodes[k]) && BaseOf(nodes, edges).nodes[k] == nodes[k]
  {
  }

  lemma BaseChunks(nodes: map<nat, Node>, edges: set<Edge>)
    ensures Chunks(nodes) == Chunks(BaseOf(nodes, edges).nodes)
  {
    hide Keyed;
    BaseKeyed(nodes, edges, "KBChunk", "doc_type", "knowledge_base");
  }

  lemma ChunkInBase(nodes: map<nat, Node>, edges: set<Edge>, k: nat)
    requires k in Chunks(BaseOf(nodes, edges).nodes)
    ensures k in nodes && !IsConcept(nodes[k])
  {
  }

  lemma SpeechNothing(nodes: map<nat, Node>, k: nat)
    ensures SpeechPairs(nodes, {k}, []) == {} && Spoken(nodes, {k}, []) == {}
  {
  }

  lemma NothingRead(nodes: map<nat, Node>, rules: seq<Rule>)
    ensures SpeechPairs(nodes, {}, rules) == {} && Spoken(nodes, {}, rules) == {}
  {
  }

  lemma SpokenStep(nodes: map<nat, Node>, k: nat, rules: seq<Rule>, r: Rule)
    requires k in nodes
    ensures Spoken(nodes, {k}, rules + [r]) == Spoken(nodes, {k}, rules) + (if Speaks(nodes[k], r) then {r.concept}
      else {})
  {
    hide Speaks;
    forall c | c in Spoken(nodes, {k}, rules) ensures c in Spoken(nodes, {k}, rules + [r]) {
      var k', s :| k' in {k} && k' in nodes && s in rules && Speaks(nodes[k'], s) && s.concept == c;
      assert s in rules + [r];
    }
    if Speaks(nodes[k], r) {
      assert r in rules + [r] && k in {k};
    }
  }

  lemma SpokenOf(nodes: map<nat, Node>, read: set<nat>, k: nat, rules: seq<Rule>)
    ensures Spoken(nodes, read + {k}, rules) == Spoken(nodes, read, rules) + Spoken(nodes, {k}, rules)
  {
    hide Speaks;
  }

  lemma NoMore(pairs: set<(nat, string)>)
    ensures pairs + {} == pairs
  {
  }

  lemma ReportedIs(b: Base)
    ensures Reported(b) == NamesIn(NamingPairs(b.nodes, "Product", "category", CATEGORY_CONCEPTS))
                           + Spoken(b.nodes, Chunks(b.nodes), CHUNK_CONCEPTS) + PolicySubjects() + {"KYC"}
  {
    hide NamesIn, NamingPairs, Spoken, Chunks, PolicySubjects, CATEGORY_CONCEPTS, CHUNK_CONCEPTS;
  }

  /** Two graphs that hold the same layer give every query about Concepts the same answers:
      each link of one is a link of the other, into a node with the same name and flag. So a
      rebuild changes nothing but the identities of the Concept nodes. */
  lemma SameLayerSameFacts(nodes: map<nat, Node>, edges: set<Edge>, nextId: nat, ids: map<string, nat>,
                           nodes': map<nat, Node>, edges': set<Edge>, nextId': nat, ids': map<string, nat>,
                             layer: Layer, e: Edge)
    returns (e': Edge)
    requires Holds(nodes, edges, nextId, ids, layer) && Holds(nodes', edges', nextId', ids', layer)
    requires e in edges && IsConcept(nodes[e.dst])
    ensures e' in edges' && e'.src == e.src && e'.rel == e.rel && e'.dst in nodes' && nodes'[e'.dst] == nodes[e.dst]
  {
    var c :| c in ids && ids[c] == e.dst;
    assert Link(e.src, e.rel, c) in layer.links;
    e' := Edge(e.src, e.rel, ids'[c]);
  }

  // ---- Which nodes a pass may add ----

  /** Whatever is new has an id that was not handed out before. */
  ghost predicate NewAbove(was: map<nat, Node>, mark: nat, now: map<nat, Node>, mark': nat) {
    mark <= mark' && forall n <- now :: n in was || n >= mark
  }

  lemma NewAboveSame(was: map<nat, Node>, mark: nat, now: map<nat, Node>)
    requires forall n <- now :: n in was
    ensures NewAbove(was, mark, now, mark)
  {
  }

  lemma NewAboveThen(a: map<nat, Node>, i: nat, b: map<nat, Node>, j: nat, c: map<nat, Node>, k: nat)
    requires NewAbove(a, i, b, j) && NewAbove(b, j, c, k)
    ensures NewAbove(a, i, c, k)
  {
  }

  lemma NewAboveOne(was: map<nat, Node>, mark: nat, c: string, sold: bool)
    ensures NewAbove(was, mark, was[mark := ConceptNode(c, sold)], mark + 1)
  {
  }

  /** After a build over `was` every earlier Concept is gone, and everything else is there. */
  lemma OldConceptsGone(was: map<nat, Node>, edges: set<Edge>, mark: nat, now: map<nat, Node>, edges': set<Edge>,
                        mark': nat)
    requires GraphOk(was, edges, mark) && NewAbove(BaseNodes(was), mark, now, mark')
    requires BaseOf(now, edges') == BaseOf(was, edges)
    ensures forall n <- was :: n in now <==> !IsConcept(was[n])
    ensures forall n <- was :: n in now ==> now[n] == was[n]
  {
    forall n | n in was
      ensures (n in now <==> !IsConcept(was[n])) && (n in now ==> now[n] == was[n])
    {
      if !IsConcept(was[n]) {
        assert n in BaseOf(was, edges).nodes && n in BaseOf(now, edges').nodes;
      }
    }
  }

  // ---- The counts a build reports ----

  /** Edges of one type into Concepts, from nodes that have the label, or from those that do not. */
  function ConceptEdges(nodes: map<nat, Node>, edges: set<Edge>, rel: string, tag: string, has: bool): set<Edge> {
    set e | e in edges && e.rel == rel && e.src in nodes && (nodes[e.src].tag == tag) == has && e.dst in nodes &&
      IsConcept(nodes[e.dst])
  }

  function LayerLinks(b: Base, l: Layer, rel: string, tag: string, has: bool): set<Link> {
    set k | k in l.links && k.rel == rel && k.src in b.nodes && (b.nodes[k.src].tag == tag) == has
  }

  function EdgesOf(ids: map<string, nat>, links: set<Link>): set<Edge> {
    set l | l in links && l.concept in ids :: Edge(l.src, l.rel, ids[l.concept])
  }

  lemma {:induction false} CountLinks(ids: map<string, nat>, links: set<Link>)
    requires forall l <- links :: l.concept in ids
    requires forall c <- ids, d <- ids :: ids[c] == ids[d] ==> c == d
    ensures |EdgesOf(ids, links)| == |links|
  {
    if l :| l in links {
      var rest := links - {l};
      CountLinks(ids, rest);
      var e := Edge(l.src, l.rel, ids[l.concept]);
      assert EdgesOf(ids, links) == EdgesOf(ids, rest) + {e};
      assert e !in EdgesOf(ids, rest);
    }
  }

  lemma ConceptEdgesAre(nodes: map<nat, Node>, edges: set<Edge>, nextId: nat, ids: map<string, nat>, layer: Layer,
                        rel: string, tag: string, has: bool)
    requires Holds(nodes, edges, nextId, ids, layer)
    ensures ConceptEdges(nodes, edges, rel, tag, has)
         == EdgesOf(ids, LayerLinks(BaseOf(nodes, edges), layer, rel, tag, has))
  {
    var links := LayerLinks(BaseOf(nodes, edges), layer, rel, tag, has);
    forall e | e in ConceptEdges(nodes, edges, rel, tag, has) ensures e in EdgesOf(ids, links) {
      var c :| c in ids && ids[c] == e.dst;
      var l := Link(e.src, e.rel, c);
      assert l in layer.links && l in links;
    }
    forall e | e in EdgesOf(ids, links) ensures e in ConceptEdges(nodes, edges, rel, tag, has) {
      var l :| l in links && l.concept in ids && e == Edge(l.src, l.rel, ids[l.concept]);
      assert nodes[ids[l.concept]] == ConceptNode(l.concept, layer.sold[l.concept]);
    }
  }

  /** Counting edges is counting links: a name has one node. */
  lemma EdgeCount(nodes: map<nat, Node>, edges: set<Edge>, nextId: nat, ids: map<string, nat>, layer: Layer,
                  rel: string, tag: string, has: bool)
    requires Holds(nodes, edges, nextId, ids, layer)
    ensures |ConceptEdges(nodes, edges, rel, tag, has)| == |LayerLinks(BaseOf(nodes, edges), layer, rel, tag, has)|
  {
    hide ConceptEdges, LayerLinks, EdgesOf, BaseOf;
    var links := LayerLinks(BaseOf(nodes, edges), layer, rel, tag, has);
    ConceptEdgesAre(nodes, edges, nextId, ids, layer, rel, tag, has);
    InLayer(BaseOf(nodes, edges), layer, rel, tag, has);
    forall c <- ids, d <- ids | ids[c] == ids[d] ensures c == d {
      NameIsOwn(nodes, ids, layer.sold, c, d);
    }
    CountLinks(ids, links);
  }

  lemma InLayer(b: Base, l: Layer, rel: string, tag: string, has: bool)
    ensures LayerLinks(b, l, rel, tag, has) <= l.links
  {
  }

  /** The nodes at the start of the edges: `count(DISTINCT startNode(r))`. */
  function Starts(edges: set<Edge>): set<nat> {
    set e | e in edges :: e.src
  }

  function LinkStarts(links: set<Link>): set<nat> {
    set l | l in links :: l.src
  }

  lemma StartsAre(nodes: map<nat, Node>, edges: set<Edge>, nextId: nat, ids: map<string, nat>, layer: Layer,
                  rel: string, tag: string, has: bool)
    requires Holds(nodes, edges, nextId, ids, layer)
    ensures Starts(ConceptEdges(nodes, edges, rel, tag, has))
         == LinkStarts(LayerLinks(BaseOf(nodes, edges), layer, rel, tag, has))
  {
    hide ConceptEdges, LayerLinks, BaseOf;
    var links := LayerLinks(BaseOf(nodes, edges), layer, rel, tag, has);
    ConceptEdgesAre(nodes, edges, nextId, ids, layer, rel, tag, has);
    InLayer(BaseOf(nodes, edges), layer, rel, tag, has);
    forall l | l in links ensures Edge(l.src, l.rel, ids[l.concept]) in EdgesOf(ids, links) {
    }
  }

  /** What the three counts count: products by the subjects their category names, knowledge chunks
      that explain anything, and every other node by the subjects it is an instance of. */
  lemma CountedLinks(b: Base, k: Link)
    ensures k in LayerLinks(b, AfterProducts(b), "INSTANCE_OF", "Product", true)
       <==> k.rel == "INSTANCE_OF" && Sells(b, k.src, k.concept)
    ensures k in LayerLinks(b, AfterChunks(b), "EXPLAINS", "KBChunk", true)
       <==> k.rel == "EXPLAINS" && Explains(b, k.src, k.concept)
    ensures k in LayerLinks(b, Staged(b), "INSTANCE_OF", "Product", false)
       <==> k.rel == "INSTANCE_OF" && k.src in b.nodes && b.nodes[k.src].tag != "Product"
            && InstanceOf(b, k.src, k.concept)
  {
    hide AfterProducts, AfterChunks, Staged, Sells, Explains, InstanceOf;
    ProductsStage(b, k);
    SellsIs(b, k.src, k.concept);
    ChunksStage(b, k);
    ExplainsWhere(b, k.src, k.concept);
    InstanceLinks(b, k.src, k.concept);
  }

  class Graph {
    var nodes: map<nat, Node>
    var edges: set<Edge>
    var nextId: nat
    /** The node that stands for each Concept name, and what the layer says. */
    ghost var ids: map<string, nat>
    ghost var layer: Layer

    ghost predicate Valid()
      reads this
    {
      Holds(nodes, edges, nextId, ids, layer)
    }

    ghost function Original(): Base
      reads this
    {
      BaseOf(nodes, edges)
    }

    /** Deletes this module's own edges, then the Concepts nothing points at. */
    method Clean()
      requires GraphOk(nodes, edges, nextId)
      modifies this
      ensures nodes == BaseNodes(old(nodes)) && edges == BaseEdges(old(nodes), old(edges)) && nextId == old(nextId)
      ensures Valid() && layer == NOTHING && Original() == old(Original())
    {
      hide *;
      OriginalMeans();
      AllUnlinked(nodes, edges, nextId);
      SweptClean(nodes, edges, nextId);
      edges := Unlinked(nodes, edges, "INSTANCE_OF", Some("Product"));
      edges := Unlinked(nodes, edges, "EXPLAINS", Some("KBChunk"));
      edges := Unlinked(nodes, edges, "INSTANCE_OF", None);
      nodes := nodes - Orphans(nodes, edges);
      ids, layer := map[], NOTHING;
      ValidMeans();
      OriginalMeans();
    }

    /** MERGE (con:Concept {name: c}) ON CREATE SET con.sold = onCreate. */
    method MergeConcept(c: string, onCreate: bool) returns (id: nat)
      requires Valid()
      modifies this
      ensures Valid() && Original() == old(Original()) && edges == old(edges)
      ensures nodes.Keys == old(nodes.Keys) + {id} && forall n <- old(nodes) :: nodes[n] == old(nodes)[n]
      ensures NewAbove(old(nodes), old(nextId), nodes, nextId)
      ensures c in ids && ids[c] == id && c in layer.sold && nodes[id] == ConceptNode(c, layer.sold[c])
      ensures layer == old(layer).(sold := old(layer).sold[c := if c in old(layer).sold then old(layer).sold[c]
        else onCreate])
    {
      hide *;
      ValidMeans();
      OriginalMeans();
      ConceptsAre(nodes, edges, nextId, ids, layer, c);
      var matched := Concepts(nodes, c);
      if matched == {} {
        CreateHolds(nodes, edges, nextId, ids, layer, c, onCreate);
        HoldsBelow(nodes, edges, nextId, ids, layer);
        NewAboveOne(nodes, nextId, c, onCreate);
        id := nextId;
        nodes := nodes[id := ConceptNode(c, onCreate)];
        nextId := id + 1;
        ids, layer := ids[c := id], layer.(sold := layer.sold[c := onCreate]);
      } else {
        id :| id in matched;
        NewAboveSame(nodes, nextId, nodes);
        SameSold(layer.sold, c);
      }
      ValidMeans();
      OriginalMeans();
    }

    /** For every matched node: MERGE the Concept, with `force` SET sold, MERGE the edge. */
    method LinkAll(ms: set<nat>, rel: string, c: string, onCreate: bool, force: bool)
      requires Valid() && Linkable(nodes, ms, rel)
      modifies this
      ensures Valid() && Original() == old(Original())
      ensures layer == Merged(old(layer), rel, Each(ms, c), onCreate, force)
      ensures NewAbove(old(nodes), old(nextId), nodes, nextId)
    {
      hide *;
      if ms == {} {
        NewAboveSame(nodes, nextId, nodes);
        NoneMatched(layer, rel, c, onCreate, force);
        return;
      }
      OriginalMeans();
      MergedEach(layer, rel, ms, c, onCreate, force);
      ghost var was, drawn := nodes, edges;
      var id := MergeConcept(c, onCreate);
      if force {
        ValidMeans();
        OriginalMeans();
        MarkHolds(nodes, edges, nextId, ids, layer, c, true);
        MarkedNode(c, layer.sold[c]);
        ghost var made := nodes;
        nodes := nodes[id := nodes[id].(props := nodes[id].props["sold" := Flag(true)])];
        NewAboveSame(made, nextId, nodes);
        NewAboveThen(was, old(nextId), made, nextId, nodes, nextId);
        layer := layer.(sold := layer.sold[c := true]);
        ValidMeans();
        OriginalMeans();
      }
      ValidMeans();
      OriginalMeans();
      StillLinkable(was, drawn, nodes, edges, ms, rel);
      LinkHolds(nodes, edges, nextId, ids, layer, ms, rel, c);
      edges := edges + EdgesTo(ms, rel, id);
      layer := layer.(links := layer.links + LinksFor(Each(ms, c), rel));
      ValidMeans();
      OriginalMeans();
    }

    /** MATCH a path (x)..(y)-[:INSTANCE_OF]->(con) MERGE (x)-[:INSTANCE_OF]->(con). All rows are
        matched before the first edge is drawn. */
    method CopyAlong(via: set<(nat, nat)>)
      requires Valid() && Sources(nodes, via)
      modifies this
      ensures Valid() && Original() == old(Original()) && nodes == old(nodes) && nextId == old(nextId)
      ensures layer == Copied(old(layer), via)
    {
      hide *;
      ValidMeans();
      OriginalMeans();
      SourcesAre(nodes, via);
      CopyHolds(nodes, edges, nextId, ids, layer, via);
      edges := edges + CopiedEdges(nodes, edges, via);
      layer := Copied(layer, via);
      ValidMeans();
      OriginalMeans();
    }

    /** One pass over a dictionary from the records' words to Concepts. `hit` are the Concepts
        for which a record was matched. */
    method LinkTable(tag: string, key: string, table: seq<Naming>, force: bool) returns (hit: set<string>)
      requires Valid() && tag != "Concept"
      modifies this
      ensures Valid() && Original() == old(Original())
      ensures layer == Merged(old(layer), "INSTANCE_OF", NamingPairs(Original().nodes, tag, key, table), true, force)
      ensures hit == NamesIn(NamingPairs(Original().nodes, tag, key, table))
      ensures NewAbove(old(nodes), old(nextId), nodes, nextId)
    {
      hide *;
      hit := {};
      NewAboveSame(nodes, nextId, nodes);
      ghost var b := Original();
      ghost var before := layer;
      NamingNothing(b.nodes, tag, key);
      MergedNothing(layer, "INSTANCE_OF", true, force);
      for i := 0 to |table|
        invariant Valid() && Original() == b && NewAbove(old(nodes), old(nextId), nodes, nextId)
        invariant layer == Merged(before, "INSTANCE_OF", NamingPairs(b.nodes, tag, key, table[..i]), true, force)
        invariant hit == NamesIn(NamingPairs(b.nodes, tag, key, table[..i]))
      {
        var t := table[i];
        OriginalMeans();
        BaseKeyed(nodes, edges, tag, key, t.key);
        KeyedLinkable(nodes, tag, key, t.key);
        var ms := Keyed(nodes, tag, key, t.key);
        ghost var had, mark := nodes, nextId;
        LinkAll(ms, "INSTANCE_OF", t.concept, true, force);
        NewAboveThen(old(nodes), old(nextId), had, mark, nodes, nextId);
        assert table[..i + 1] == table[..i] + [t];
        NamingPairsStep(b.nodes, tag, key, table[..i], t);
        NamesInBoth(NamingPairs(b.nodes, tag, key, table[..i]), Each(ms, t.concept));
        EachNames(ms, t.concept);
        MergedTwice(before, "INSTANCE_OF", NamingPairs(b.nodes, tag, key, table[..i]), Each(ms, t.concept), true,
          force);
        if ms != {} {
          hit := hit + {t.concept};
        }
      }
      assert table[..|table|] == table;
    }

    /** The rules one chunk is tried against, in order. */
    method LinkChunk(k: nat, rules: seq<Rule>) returns (hit: set<string>)
      requires Valid() && k in nodes && !IsConcept(nodes[k])
      modifies this
      ensures Valid() && Original() == old(Original())
      ensures layer == Merged(old(layer), "EXPLAINS", SpeechPairs(Original().nodes, {k}, rules), false, false)
      ensures hit == Spoken(Original().nodes, {k}, rules)
      ensures NewAbove(old(nodes), old(nextId), nodes, nextId)
    {
      hide *;
      hit := {};
      NewAboveSame(nodes, nextId, nodes);
      OriginalMeans();
      ghost var b := Original();
      ghost var before := layer;
      BaseChunk(nodes, edges, k);
      ghost var chunk := nodes[k];
      SpeechNothing(b.nodes, k);
      MergedNothing(layer, "EXPLAINS", false, false);
      for i := 0 to |rules|
        invariant Valid() && Original() == b && k in b.nodes && b.nodes[k] == chunk
        invariant NewAbove(old(nodes), old(nextId), nodes, nextId)
        invariant layer == Merged(before, "EXPLAINS", SpeechPairs(b.nodes, {k}, rules[..i]), false, false)
        invariant hit == Spoken(b.nodes, {k}, rules[..i])
      {
        var rule := rules[i];
        OriginalMeans();
        InBase(nodes, edges, k);
        assert rules[..i + 1] == rules[..i] + [rule];
        SpeechPairsStep(b.nodes, k, rules[..i], rule);
        SpokenStep(b.nodes, k, rules[..i], rule);
        if Speaks(nodes[k], rule) {
          TwinsLinkable(nodes, k);
          BaseChunk(nodes, edges, k);
          ghost var had, mark := nodes, nextId;
          LinkAll(Twins(nodes, k), "EXPLAINS", rule.concept, false, false);
          NewAboveThen(old(nodes), old(nextId), had, mark, nodes, nextId);
          MergedTwice(before, "EXPLAINS", SpeechPairs(b.nodes, {k}, rules[..i]),
            Each(Twins(b.nodes, k), rule.concept), false, false);
          hit := hit + {rule.concept};
        } else {
          NoMore(SpeechPairs(b.nodes, {k}, rules[..i]));
        }
      }
      assert rules[..|rules|] == rules;
    }

    /** The knowledge chunks, in whatever order the query returns them. */
    method LinkChunks(rules: seq<Rule>) returns (hit: set<string>)
      requires Valid()
      modifies this
      ensures Valid() && Original() == old(Original())
      ensures layer == Merged(old(layer), "EXPLAINS", SpeechPairs(Original().nodes, Chunks(Original().nodes), rules),
        false, false)
      ensures hit == Spoken(Original().nodes, Chunks(Original().nodes), rules)
      ensures NewAbove(old(nodes), old(nextId), nodes, nextId)
    {
      hide *;
      hit := {};
      NewAboveSame(nodes, nextId, nodes);
      OriginalMeans();
      ghost var b := Original();
      ghost var before := layer;
      BaseChunks(nodes, edges);
      var rows := Chunks(nodes);
      ghost var read: set<nat> := {};
      NothingRead(b.nodes, rules);
      MergedNothing(layer, "EXPLAINS", false, false);
      while rows != {}
        invariant Valid() && Original() == b && rows <= Chunks(b.nodes)
        invariant NewAbove(old(nodes), old(nextId), nodes, nextId)
        invariant read + rows == Chunks(b.nodes)
        invariant layer == Merged(before, "EXPLAINS", SpeechPairs(b.nodes, read, rules), false, false)
        invariant hit == Spoken(b.nodes, read, rules)
        decreases |rows|
      {
        var k :| k in rows;
        OriginalMeans();
        ChunkInBase(nodes, edges, k);
        ghost var had, mark := nodes, nextId;
        var more := LinkChunk(k, rules);
        NewAboveThen(old(nodes), old(nextId), had, mark, nodes, nextId);
        SpeechPairsOf(b.nodes, read, k, rules);
        SpokenOf(b.nodes, read, k, rules);
        MergedTwice(before, "EXPLAINS", SpeechPairs(b.nodes, read, rules), SpeechPairs(b.nodes, {k}, rules), false,
          false);
        hit := hit + more;
        read, rows := read + {k}, rows - {k};
      }
      assert read == Chunks(b.nodes);
    }

    /** Clean, then the passes in the order the module runs them, with the counts it reports: the
        names of the subjects, the products linked, the chunks linked, and the other nodes' links. */
    method Build() returns (concepts: set<string>, products: nat, chunks: nat, holdings: nat)
      requires GraphOk(nodes, edges, nextId)
      modifies this
      ensures Valid() && Original() == old(Original())
      ensures layer == Staged(Original())
      ensures concepts == Reported(Original())
      ensures products == |LayerLinks(Original(), AfterProducts(Original()), "INSTANCE_OF", "Product", true)|
      ensures chunks == |LinkStarts(LayerLinks(Original(), AfterChunks(Original()), "EXPLAINS", "KBChunk", true))|
      ensures holdings == |LayerLinks(Original(), Staged(Original()), "INSTANCE_OF", "Product", false)|
      ensures forall n <- old(nodes) :: n in nodes <==> !IsConcept(old(nodes)[n])
      ensures forall n <- old(nodes) :: n in nodes ==> nodes[n] == old(nodes)[n]
    {
      hide *;
      OriginalMeans();
      Clean();
      ghost var b := Original();
      AfterProductsIs(b);
      concepts := LinkTable("Product", "category", CATEGORY_CONCEPTS, true);
      products := Counted("INSTANCE_OF", "Product", true);
      ghost var had, mark := nodes, nextId;
      AfterChunksIs(b);
      var spoken := LinkChunks(CHUNK_CONCEPTS);
      NewAboveThen(BaseNodes(old(nodes)), old(nextId), had, mark, nodes, nextId);
      concepts := concepts + spoken;
      chunks := CountedStarts("EXPLAINS", "KBChunk");
      AfterRidesIs(b);
      Paths();
      CopyAlong(ViaProduct(nodes, edges));
      AfterPoliciesIs(b);
      had, mark := nodes, nextId;
      var _ := LinkTable("Policy", "policy_type", POLICY_TYPE_CONCEPTS, false);
      NewAboveThen(BaseNodes(old(nodes)), old(nextId), had, mark, nodes, nextId);
      AfterClaimsIs(b);
      Paths();
      CopyAlong(ViaKey(nodes, "Claim", "Policy", "policy_id"));
      AfterChargesIs(b);
      Paths();
      CopyAlong(ViaKey(nodes, "ChargePenalty", "Account", "account_number"));
      CopyAlong(ViaKey(nodes, "Transaction", "Account", "account_number"));
      StagedIs(b);
      OriginalMeans();
      BaseKeyed(nodes, edges, "KYC", "", "");
      KeyedLinkable(nodes, "KYC", "", "");
      had, mark := nodes, nextId;
      LinkAll(Tagged(nodes, "KYC"), "INSTANCE_OF", "KYC", false, false);
      NewAboveThen(BaseNodes(old(nodes)), old(nextId), had, mark, nodes, nextId);
      concepts := concepts + PolicySubjects() + {"KYC"};
      ReportedIs(b);
      holdings := Counted("INSTANCE_OF", "Product", false);
      OriginalMeans();
      OldConceptsGone(old(nodes), old(edges), old(nextId), nodes, edges, nextId);
    }

    /** `count(r)` over the edges into Concepts. */
    method Counted(rel: string, tag: string, has: bool) returns (n: nat)
      requires Valid()
      ensures n == |LayerLinks(Original(), layer, rel, tag, has)|
    {
      hide *;
      ValidMeans();
      OriginalMeans();
      EdgeCount(nodes, edges, nextId, ids, layer, rel, tag, has);
      n := |ConceptEdges(nodes, edges, rel, tag, has)|;
    }

    /** `count(DISTINCT startNode(r))`. */
    method CountedStarts(rel: string, tag: string) returns (n: nat)
      requires Valid()
      ensures n == |LinkStarts(LayerLinks(Original(), layer, rel, tag, true))|
    {
      hide *;
      ValidMeans();
      OriginalMeans();
      StartsAre(nodes, edges, nextId, ids, layer, rel, tag, true);
      n := |Starts(ConceptEdges(nodes, edges, rel, tag, true))|;
    }

    lemma Paths()
      requires Valid()
      ensures var b := Original();
              && ViaProduct(nodes, edges) == ViaProduct(b.nodes, b.edges)
              && ViaKey(nodes, "Claim", "Policy", "policy_id") == ViaKey(b.nodes, "Claim", "Policy", "policy_id")
              && ViaKey(nodes, "ChargePenalty", "Account", "account_number") ==
                ViaKey(b.nodes, "ChargePenalty", "Account", "account_number")
              && ViaKey(nodes, "Transaction", "Account", "account_number") ==
                ViaKey(b.nodes, "Transaction", "Account", "account_number")
      ensures Sources(nodes, ViaProduct(nodes, edges))
      ensures Sources(nodes, ViaKey(nodes, "Claim", "Policy", "policy_id"))
      ensures Sources(nodes, ViaKey(nodes, "ChargePenalty", "Account", "account_number"))
      ensures Sources(nodes, ViaKey(nodes, "Transaction", "Account", "account_number"))
    {
      hide ViaKey, ViaProduct, Sources, Holds;
      HoldsIndexed(nodes, edges, nextId, ids, layer);
      BasePaths(nodes, edges, nextId);
      BaseKeyPaths(nodes, "Claim", "Policy", "policy_id");
      BaseKeyPaths(nodes, "ChargePenalty", "Account", "account_number");
      BaseKeyPaths(nodes, "Transaction", "Account", "account_number");
      ProductSources(nodes, edges, nextId);
      KeySources(nodes, "Claim", "Policy", "policy_id");
      KeySources(nodes, "ChargePenalty", "Account", "account_number");
      KeySources(nodes, "Transaction", "Account", "account_number");
    }

    lemma ValidMeans()
      ensures Valid() <==> Holds(nodes, edges, nextId, ids, layer)
    {
      hide Holds;
    }

    lemma OriginalMeans()
      ensures Original() == BaseOf(nodes, edges)
    {
    }
  }
}
