/** The property graph the Concept layer is built in: nodes with one label and named
    properties, typed edges, and the part of it that is not the Concept layer. */
module ConceptGraph {
  import opened Options

  datatype Value = Text(text: string) | Flag(flag: bool)

  datatype Node = Node(tag: string, props: map<string, Value>)

  datatype Edge = Edge(src: nat, rel: string, dst: nat)

  /** One edge into a Concept, named by the Concept's name rather than by the node's identity. */
  datatype Link = Link(src: nat, rel: string, concept: string)

  /** Everything that is not a Concept or an edge into one. */
  datatype Base = Base(nodes: map<nat, Node>, edges: set<Edge>)

  /** What the Concept layer says, with node identities abstracted away. */
  datatype Layer = Layer(links: set<Link>, sold: map<string, bool>)

  function Prop(n: Node, key: string): Option<Value> {
    if key in n.props then Some(n.props[key]) else None
  }

  /** `(n {key: text})`: a missing property matches nothing. */
  predicate Has(n: Node, key: string, text: string) {
    Prop(n, key) == Some(Text(text))
  }

  /** `(m {key: n.key})`: a null on the right-hand side matches nothing. */
  predicate Same(n: Node, m: Node, key: string) {
    Prop(n, key).Some? && Prop(n, key) == Prop(m, key)
  }

  predicate IsConcept(n: Node) {
    n.tag == "Concept"
  }

  function ConceptNode(name: string, sold: bool): Node {
    Node("Concept", map["name" := Text(name), "sold" := Flag(sold)])
  }

  function BaseNodes(nodes: map<nat, Node>): map<nat, Node> {
    map n | n in nodes && !IsConcept(nodes[n]) :: nodes[n]
  }

  function BaseEdges(nodes: map<nat, Node>, edges: set<Edge>): set<Edge> {
    set e | e in edges && e.dst in nodes && !IsConcept(nodes[e.dst])
  }

  function BaseOf(nodes: map<nat, Node>, edges: set<Edge>): Base {
    Base(BaseNodes(nodes), BaseEdges(nodes, edges))
  }

  /** The only edges this repository ever draws into a Concept. */
  predicate LinkShape(tag: string, rel: string) {
    rel == "INSTANCE_OF" || (rel == "EXPLAINS" && tag == "KBChunk")
  }

  /** No dangling edge, no edge out of a Concept, and into a Concept only edges of the two
      kinds this repository draws. A graph no Concept was ever added to satisfies it. */
  ghost predicate GraphOk(nodes: map<nat, Node>, edges: set<Edge>, nextId: nat) {
    && (forall n <- nodes :: n < nextId)
    && (forall e <- edges :: e.src in nodes && e.dst in nodes && !IsConcept(nodes[e.src])
                             && (IsConcept(nodes[e.dst]) ==> LinkShape(nodes[e.src].tag, e.rel)))
  }

  ghost predicate Indexed(nodes: map<nat, Node>, ids: map<string, nat>, sold: map<string, bool>) {
    && ids.Keys == sold.Keys
    && (forall c <- ids :: ids[c] in nodes && nodes[ids[c]] == ConceptNode(c, sold[c]))
    && (forall n <- nodes :: IsConcept(nodes[n]) ==> exists c :: c in ids && ids[c] == n)
  }

  ghost predicate Tied(edges: set<Edge>, ids: map<string, nat>, links: set<Link>) {
    && (forall l <- links :: l.concept in ids && Edge(l.src, l.rel, ids[l.concept]) in edges)
    && (forall c, src: nat, rel :: c in ids && Edge(src, rel, ids[c]) in edges ==> Link(src, rel, c) in links)
  }

  /** The graph holds exactly the Concept layer `layer`, one node a name. */
  ghost predicate Holds(nodes: map<nat, Node>, edges: set<Edge>, nextId: nat, ids: map<string, nat>, layer: Layer) {
    GraphOk(nodes, edges, nextId) && Indexed(nodes, ids, layer.sold) && Tied(edges, ids, layer.links)
  }

  lemma NameIsOwn(nodes: map<nat, Node>, ids: map<string, nat>, sold: map<string, bool>, c: string, d: string)
    requires Indexed(nodes, ids, sold) && c in ids && d in ids && ids[c] == ids[d]
    ensures c == d
  {
    assert nodes[ids[c]].props["name"] == Text(c);
    assert nodes[ids[d]].props["name"] == Text(d);
  }

  /** Concept names are unique, and a name is matched by its own node only. */
  lemma OneNodePerName(nodes: map<nat, Node>, edges: set<Edge>, nextId: nat, ids: map<string, nat>, layer: Layer,
                       n: nat, c: string)
    requires Holds(nodes, edges, nextId, ids, layer)
    ensures n in nodes && IsConcept(nodes[n]) && Has(nodes[n], "name", c) <==> c in ids && ids[c] == n
  {
    if n in nodes && IsConcept(nodes[n]) {
      var d :| d in ids && ids[d] == n;
      assert nodes[n] == ConceptNode(d, layer.sold[d]);
    }
    if c in ids && ids[c] == n {
      assert nodes[n] == ConceptNode(c, layer.sold[c]);
    }
  }

  // ---- What one statement does to a layer ----

  function NamesIn(pairs: set<(nat, string)>): set<string> {
    set p | p in pairs :: p.1
  }

  function LinksFor(pairs: set<(nat, string)>, rel: string): set<Link> {
    set p | p in pairs :: Link(p.0, rel, p.1)
  }

  /** MERGE the Concept of every pair, then MERGE the pair's edge. A Concept that is new gets
      `onCreate`; with `force` an old one is marked sold as well. */
  function Merged(l: Layer, rel: string, pairs: set<(nat, string)>, onCreate: bool, force: bool): Layer {
    Layer(l.links + LinksFor(pairs, rel),
          map c | c in l.sold.Keys + NamesIn(pairs) ::
            if c in NamesIn(pairs) && force then true
            else if c in l.sold then l.sold[c]
            else onCreate)
  }

  function Inherited(l: Layer, via: set<(nat, nat)>): set<Link> {
    set v, k | v in via && k in l.links && k.src == v.1 && k.rel == "INSTANCE_OF" :: Link(v.0, "INSTANCE_OF", k.concept)
  }

  /** Along every pair (x, y), MERGE from x the INSTANCE_OF edges y already has. */
  function Copied(l: Layer, via: set<(nat, nat)>): Layer {
    l.(links := l.links + Inherited(l, via))
  }

  lemma InLinksFor(pairs: set<(nat, string)>, rel: string, l: Link)
    ensures l in LinksFor(pairs, rel) <==> l.rel == rel && (l.src, l.concept) in pairs
  {
    if l.rel == rel && (l.src, l.concept) in pairs {
      assert l == Link((l.src, l.concept).0, rel, (l.src, l.concept).1);
    }
  }

  lemma MergedSold(l: Layer, rel: string, pairs: set<(nat, string)>, onCreate: bool, force: bool, c: string)
    ensures var m := Merged(l, rel, pairs, onCreate, force);
            && (c in m.sold <==> c in l.sold || c in NamesIn(pairs))
            && (c in m.sold ==> m.sold[c] == (if c in NamesIn(pairs) && force then true
                                              else if c in l.sold then l.sold[c] else onCreate))
  {
  }

  lemma MergedNothing(l: Layer, rel: string, onCreate: bool, force: bool)
    ensures Merged(l, rel, {}, onCreate, force) == l
  {
    assert LinksFor({}, rel) == {};
    assert Merged(l, rel, {}, onCreate, force).sold == l.sold;
  }

  lemma NamesInBoth(a: set<(nat, string)>, b: set<(nat, string)>)
    ensures NamesIn(a + b) == NamesIn(a) + NamesIn(b)
  {
  }

  lemma MergedTwiceSold(l: Layer, rel: string, a: set<(nat, string)>, b: set<(nat, string)>, onCreate: bool,
    force: bool)
    requires force ==> onCreate
    ensures Merged(Merged(l, rel, a, onCreate, force), rel, b, onCreate, force).sold
         == Merged(l, rel, a + b, onCreate, force).sold
  {
    hide *;
    NamesInBoth(a, b);
    var mid := Merged(l, rel, a, onCreate, force);
    var one, two := Merged(l, rel, a + b, onCreate, force), Merged(mid, rel, b, onCreate, force);
    forall c
      ensures (c in two.sold <==> c in one.sold) && (c in one.sold ==> two.sold[c] == one.sold[c])
    {
      MergedSold(l, rel, a, onCreate, force, c);
      MergedSold(mid, rel, b, onCreate, force, c);
      MergedSold(l, rel, a + b, onCreate, force, c);
    }
  }

  /** Two passes with the same rule are one pass over both sets of pairs. `onCreate` differs
      from `force` only in what a later pass may overwrite, so the rule is fixed. */
  lemma MergedTwice(l: Layer, rel: string, a: set<(nat, string)>, b: set<(nat, string)>, onCreate: bool, force: bool)
    requires force ==> onCreate
    ensures Merged(Merged(l, rel, a, onCreate, force), rel, b, onCreate, force) ==
      Merged(l, rel, a + b, onCreate, force)
  {
    assert LinksFor(a + b, rel) == LinksFor(a, rel) + LinksFor(b, rel);
    assert NamesIn(a + b) == NamesIn(a) + NamesIn(b);
    var one := Merged(l, rel, a + b, onCreate, force);
    var two := Merged(Merged(l, rel, a, onCreate, force), rel, b, onCreate, force);
    assert one.links == two.links;
    assert one.sold == two.sold by { MergedTwiceSold(l, rel, a, b, onCreate, force); }
  }

  // ---- The same on the graph ----

  lemma CreateIndexed(nodes: map<nat, Node>, nextId: nat, ids: map<string, nat>, sold: map<string, bool>,
                      c: string, flag: bool)
    requires Indexed(nodes, ids, sold) && c !in ids && nextId !in nodes
    ensures Indexed(nodes[nextId := ConceptNode(c, flag)], ids[c := nextId], sold[c := flag])
  {
    var nodes' := nodes[nextId := ConceptNode(c, flag)];
    var ids' := ids[c := nextId];
    forall n | n in nodes' && IsConcept(nodes'[n]) ensures exists d :: d in ids' && ids'[d] == n {
      if n == nextId {
        assert c in ids' && ids'[c] == n;
      } else {
        var d :| d in ids && ids[d] == n;
        assert d in ids' && ids'[d] == n;
      }
    }
  }

  /** Rewriting or adding Concept nodes leaves the base graph alone. */
  lemma ConceptOutsideBase(nodes: map<nat, Node>, edges: set<Edge>, n: nat, c: string, flag: bool)
    requires if n in nodes then IsConcept(nodes[n]) else forall e <- edges :: e.dst != n
    ensures BaseOf(nodes[n := ConceptNode(c, flag)], edges) == BaseOf(nodes, edges)
  {
    var nodes' := nodes[n := ConceptNode(c, flag)];
    assert BaseNodes(nodes') == BaseNodes(nodes);
    assert BaseEdges(nodes', edges) == BaseEdges(nodes, edges);
  }

  /** MERGE that has to create: a fresh Concept node, no edge. */
  lemma CreateHolds(nodes: map<nat, Node>, edges: set<Edge>, nextId: nat, ids: map<string, nat>, layer: Layer,
                    c: string, sold: bool)
    requires Holds(nodes, edges, nextId, ids, layer) && c !in ids
    ensures Holds(nodes[nextId := ConceptNode(c, sold)], edges, nextId + 1, ids[c := nextId],
                  layer.(sold := layer.sold[c := sold]))
    ensures BaseOf(nodes[nextId := ConceptNode(c, sold)], edges) == BaseOf(nodes, edges)
  {
    hide BaseOf, Indexed;
    assert nextId !in nodes;
    CreateIndexed(nodes, nextId, ids, layer.sold, c, sold);
    ConceptOutsideBase(nodes, edges, nextId, c, sold);
  }

  /** SET sold on a Concept that is there. */
  lemma MarkHolds(nodes: map<nat, Node>, edges: set<Edge>, nextId: nat, ids: map<string, nat>, layer: Layer,
                  c: string, sold: bool)
    requires Holds(nodes, edges, nextId, ids, layer) && c in ids
    ensures Holds(nodes[ids[c] := ConceptNode(c, sold)], edges, nextId, ids, layer.(sold := layer.sold[c := sold]))
    ensures BaseOf(nodes[ids[c] := ConceptNode(c, sold)], edges) == BaseOf(nodes, edges)
  {
    var nodes' := nodes[ids[c] := ConceptNode(c, sold)];
    assert IsConcept(nodes[ids[c]]);
    assert Indexed(nodes', ids, layer.sold[c := sold]) by {
      forall d | d in ids ensures ids[d] in nodes' && nodes'[ids[d]] == ConceptNode(d, layer.sold[c := sold][d]) {
        if ids[d] == ids[c] {
          NameIsOwn(nodes, ids, layer.sold, c, d);
        }
      }
    }
    ConceptOutsideBase(nodes, edges, ids[c], c, sold);
  }

  ghost predicate Linkable(nodes: map<nat, Node>, ms: set<nat>, rel: string) {
    forall m <- ms :: m in nodes && !IsConcept(nodes[m]) && LinkShape(nodes[m].tag, rel)
  }

  function EdgesTo(ms: set<nat>, rel: string, con: nat): set<Edge> {
    set m | m in ms :: Edge(m, rel, con)
  }

  function Each(ms: set<nat>, c: string): set<(nat, string)> {
    set m | m in ms :: (m, c)
  }

  /** MERGE of one edge a matched node into a Concept that is there. */
  lemma LinkHolds(nodes: map<nat, Node>, edges: set<Edge>, nextId: nat, ids: map<string, nat>, layer: Layer,
                  ms: set<nat>, rel: string, c: string)
    requires Holds(nodes, edges, nextId, ids, layer) && c in ids && Linkable(nodes, ms, rel)
    ensures Holds(nodes, edges + EdgesTo(ms, rel, ids[c]), nextId, ids,
                  layer.(links := layer.links + LinksFor(Each(ms, c), rel)))
    ensures BaseOf(nodes, edges + EdgesTo(ms, rel, ids[c])) == BaseOf(nodes, edges)
  {
    var edges' := edges + EdgesTo(ms, rel, ids[c]);
    assert IsConcept(nodes[ids[c]]);
    assert GraphOk(nodes, edges', nextId);
    forall d, src: nat, r | d in ids && Edge(src, r, ids[d]) in EdgesTo(ms, rel, ids[c])
      ensures Link(src, r, d) in LinksFor(Each(ms, c), rel)
    {
      NameIsOwn(nodes, ids, layer.sold, c, d);
      assert (src, c) in Each(ms, c);
      InLinksFor(Each(ms, c), rel, Link(src, r, d));
    }
    forall l | l in LinksFor(Each(ms, c), rel)
      ensures l.concept in ids && Edge(l.src, l.rel, ids[l.concept]) in edges'
    {
      InLinksFor(Each(ms, c), rel, l);
      assert Edge(l.src, rel, ids[c]) in EdgesTo(ms, rel, ids[c]);
    }
    assert Tied(edges', ids, layer.links + LinksFor(Each(ms, c), rel));
    assert BaseEdges(nodes, edges') == BaseEdges(nodes, edges);
  }

  function CopiedEdges(nodes: map<nat, Node>, edges: set<Edge>, via: set<(nat, nat)>): set<Edge> {
    set v, e | v in via && e in edges && e.src == v.1 && e.rel == "INSTANCE_OF" && e.dst in nodes &&
      IsConcept(nodes[e.dst]) ::
      Edge(v.0, "INSTANCE_OF", e.dst)
  }

  /** MERGE along a path that ends in INSTANCE_OF. */
  lemma CopyHolds(nodes: map<nat, Node>, edges: set<Edge>, nextId: nat, ids: map<string, nat>, layer: Layer,
                  via: set<(nat, nat)>)
    requires Holds(nodes, edges, nextId, ids, layer)
    requires forall v <- via :: v.0 in nodes && !IsConcept(nodes[v.0])
    ensures Holds(nodes, edges + CopiedEdges(nodes, edges, via), nextId, ids, Copied(layer, via))
    ensures BaseOf(nodes, edges + CopiedEdges(nodes, edges, via)) == BaseOf(nodes, edges)
  {
    var new' := CopiedEdges(nodes, edges, via);
    var edges' := edges + new';
    forall d, src: nat, r | d in ids && Edge(src, r, ids[d]) in new'
      ensures Link(src, r, d) in Inherited(layer, via)
    {
      var v, e :| v in via && e in edges && e.src == v.1 && e.rel == "INSTANCE_OF" && e.dst in nodes
                  && IsConcept(nodes[e.dst]) && Edge(src, r, ids[d]) == Edge(v.0, "INSTANCE_OF", e.dst);
      assert e == Edge(v.1, "INSTANCE_OF", ids[d]);
      var k := Link(v.1, "INSTANCE_OF", d);
      assert k in layer.links;
    }
    forall l | l in Inherited(layer, via)
      ensures l.concept in ids && Edge(l.src, l.rel, ids[l.concept]) in new'
    {
      var v, k :| v in via && k in layer.links && k.src == v.1 && k.rel == "INSTANCE_OF" &&
        l == Link(v.0, "INSTANCE_OF", k.concept);
      var e := Edge(k.src, k.rel, ids[k.concept]);
      assert e in edges && IsConcept(nodes[e.dst]);
    }
    assert Tied(edges', ids, Copied(layer, via).links);
    assert GraphOk(nodes, edges', nextId);
    assert BaseEdges(nodes, edges') == BaseEdges(nodes, edges);
  }
}
