/** Seeding the graph from the workbook: one keyed MERGE a row, with the edges the row asks for,
    and the resolution memory every interaction row creates or refreshes. */
module LoaderGraph {
  import opened Texts

  datatype Value = Text(text: string) | Num(num: int) | Flag(flag: bool)

  type Props = map<string, Value>

  /** MERGE is always on one key property, so label and key identify a node. */
  datatype Id = Id(tag: string, key: string)

  datatype Edge = Edge(src: Id, rel: string, dst: Id)

  datatype State = State(nodes: map<Id, Props>, edges: set<Edge>)

  /** What a row's MATCH looks for: a node by its key, or products of some types whose category
      is the row's word, or whose name contains it. */
  datatype Target = ByKey(id: Id) | Catalogue(types: set<string>, word: string, byName: bool)

  /** MATCH the target, MERGE an edge to it, or from it when `inward`. */
  datatype Want = Want(rel: string, inward: bool, target: Target)

  /** What an interaction row tells the resolution memory. */
  datatype Lesson = Lesson(key: string, id: string, intent: string, product: string, message: string,
    resolution: string,
                           verified: bool, created: string, updated: string)

  datatype Stmt =
    | Write(id: Id, props: Props, wants: seq<Want>)
    | Remember(conversation: Id, lesson: Lesson)

  function TagOf(t: Target): string {
    match t
    case ByKey(id) => id.tag
    case Catalogue(_, _, _) => "Product"
  }

  predicate Fits(p: Props, types: set<string>, word: string, byName: bool) {
    && (exists t <- types :: "product_type" in p && p["product_type"] == Text(t))
    && (("category" in p && p["category"] == Text(word))
        || (byName && "name" in p && p["name"].Text? && Contains(p["name"].text, word)))
  }

  function Matches(nodes: map<Id, Props>, t: Target): set<Id> {
    match t
    case ByKey(id) => if id in nodes then {id} else {}
    case Catalogue(types, word, byName) =>
      set i | i in nodes && i.tag == "Product" && Fits(nodes[i], types, word, byName)
  }

  function Drawn(id: Id, w: Want, ms: set<Id>): set<Edge> {
    set m | m in ms :: if w.inward then Edge(m, w.rel, id) else Edge(id, w.rel, m)
  }

  /** Each MATCH runs on the rows the one before it left: the first that finds nothing ends the
      statement. */
  function Chain(nodes: map<Id, Props>, id: Id, wants: seq<Want>): set<Edge> {
    if wants == [] then {}
    else
      var ms := Matches(nodes, wants[0].target);
      if ms == {} then {} else Drawn(id, wants[0], ms) + Chain(nodes, id, wants[1..])
  }

  function At(nodes: map<Id, Props>, id: Id): Props {
    if id in nodes then nodes[id] else map[]
  }

  const MEMORY := "ResolutionMemory"

  function MemoryId(l: Lesson): Id {
    Id(MEMORY, l.key)
  }

  /** ON CREATE SET. */
  function Created(l: Lesson): Props {
    map["id" := Text(l.id), "intent_type" := Text(l.intent), "product_id" := Text(l.product),
        "query_pattern" := Text(l.message), "resolution_text" := Text(l.resolution), "verified" := Flag(l.verified),
        "times_reused" := Num(0), "created_at" := Text(l.created)]
  }

  /** ON MATCH SET. */
  function Touched(l: Lesson): Props {
    map["intent_type" := Text(l.intent), "resolution_text" := Text(l.resolution), "verified" := Flag(l.verified),
        "updated_at" := Text(l.updated)]
  }

  function Nodes(nodes: map<Id, Props>, st: Stmt): map<Id, Props> {
    match st
    case Write(id, props, _) => nodes[id := At(nodes, id) + props]
    case Remember(_, l) =>
      if MemoryId(l) in nodes then nodes[MemoryId(l) := nodes[MemoryId(l)] + Touched(l)]
      else nodes[MemoryId(l) := Created(l)]
  }

  function Edges(nodes: map<Id, Props>, st: Stmt): set<Edge> {
    match st
    case Write(id, _, wants) => Chain(Nodes(nodes, st), id, wants)
    case Remember(i, l) => {Edge(i, "CREATED_MEMORY", MemoryId(l))}
  }

  /** One statement. */
  function Step(s: State, st: Stmt): State {
    State(Nodes(s.nodes, st), s.edges + Edges(s.nodes, st))
  }

  function Run(s: State, script: seq<Stmt>): State
    decreases |script|
  {
    if script == [] then s else Run(Step(s, script[0]), script[1..])
  }

  // ---- Nodes and edges apart ----

  function AllNodes(nodes: map<Id, Props>, script: seq<Stmt>): map<Id, Props>
    decreases |script|
  {
    if script == [] then nodes else AllNodes(Nodes(nodes, script[0]), script[1..])
  }

  /** The edges a run draws, which depend on the nodes it starts from only. */
  function AllEdges(nodes: map<Id, Props>, script: seq<Stmt>): set<Edge>
    decreases |script|
  {
    if script == [] then {} else Edges(nodes, script[0]) + AllEdges(Nodes(nodes, script[0]), script[1..])
  }

  lemma {:induction false} RunSplits(s: State, script: seq<Stmt>)
    ensures Run(s, script) == State(AllNodes(s.nodes, script), s.edges + AllEdges(s.nodes, script))
    decreases |script|
  {
    hide Nodes, Edges;
    if script != [] {
      RunSplits(Step(s, script[0]), script[1..]);
    } else {
      assert s.edges + {} == s.edges;
    }
  }

  lemma {:induction false} RunConcat(s: State, a: seq<Stmt>, b: seq<Stmt>)
    ensures Run(s, a + b) == Run(Run(s, a), b)
    decreases |a|
  {
    hide Step;
    if a == [] {
      assert a + b == b;
    } else {
      assert (a + b)[1..] == a[1..] + b && (a + b)[0] == a[0];
      RunConcat(Step(s, a[0]), a[1..], b);
    }
  }

  lemma {:induction false} NodesConcat(nodes: map<Id, Props>, a: seq<Stmt>, b: seq<Stmt>)
    ensures AllNodes(nodes, a + b) == AllNodes(AllNodes(nodes, a), b)
    decreases |a|
  {
    hide Nodes;
    if a == [] {
      assert a + b == b;
    } else {
      assert (a + b)[1..] == a[1..] + b && (a + b)[0] == a[0];
      NodesConcat(Nodes(nodes, a[0]), a[1..], b);
    }
  }

  // ---- Ordinary nodes: what a script writes to one of them ----

  function OwnOf(st: Stmt, id: Id): Props {
    if st.Write? && st.id == id then st.props else map[]
  }

  /** The properties the script sets on `id`, later statements over earlier ones. */
  function Own(script: seq<Stmt>, id: Id): Props {
    if script == [] then map[] else OwnOf(script[0], id) + Own(script[1..], id)
  }

  predicate Mentions(script: seq<Stmt>, id: Id) {
    exists st <- script :: st.Write? && st.id == id
  }

  predicate Proper(st: Stmt) {
    st.Write? ==> st.id.tag != MEMORY && forall w <- st.wants :: TagOf(w.target) != MEMORY
  }

  /** Rows write ordinary nodes; only `Remember` touches the memories. */
  predicate AllProper(script: seq<Stmt>) {
    forall st <- script :: Proper(st)
  }

  lemma MapPlus(a: Props, b: Props, c: Props)
    ensures (a + b) + c == a + (b + c)
    ensures a + map[] == a && map[] + a == a
    ensures (a + b) + b == a + b
    ensures ((a + b) + c) + b + c == (a + b) + c
  {
  }

  lemma NodesElsewhere(nodes: map<Id, Props>, st: Stmt, id: Id)
    requires id.tag != MEMORY
    ensures At(Nodes(nodes, st), id) == At(nodes, id) + OwnOf(st, id)
    ensures id in Nodes(nodes, st) <==> id in nodes || (st.Write? && st.id == id)
  {
    MapPlus(At(nodes, id), map[], map[]);
  }

  /** After a run an ordinary node has what it had, overwritten by what the rows set, the last
      row of a key winning. */
  lemma {:induction false} NodeAfter(nodes: map<Id, Props>, script: seq<Stmt>, id: Id)
    requires id.tag != MEMORY
    ensures At(AllNodes(nodes, script), id) == At(nodes, id) + Own(script, id)
    ensures id in AllNodes(nodes, script) <==> id in nodes || Mentions(script, id)
    decreases |script|
  {
    hide Nodes, At, OwnOf;
    MapPlus(At(nodes, id), map[], map[]);
    if script != [] {
      var st := script[0];
      NodesElsewhere(nodes, st, id);
      NodeAfter(Nodes(nodes, st), script[1..], id);
      MapPlus(At(nodes, id), OwnOf(st, id), Own(script[1..], id));
      assert script == [st] + script[1..];
    }
  }

  // ---- Memories ----

  function Lessons(script: seq<Stmt>, key: string): seq<Lesson> {
    if script == [] then []
    else (if script[0].Remember? && script[0].lesson.key == key then [script[0].lesson]
      else []) + Lessons(script[1..], key)
  }

  /** A memory that was there: the last lesson's intent, resolution, flag and time, nothing else.
      A new one: the first lesson's id, product, message and time, and the last one's rest. */
  function Learned(had: bool, was: Props, ls: seq<Lesson>): Props {
    if ls == [] then was
    else if had then was + Touched(ls[|ls| - 1])
    else if |ls| == 1 then Created(ls[0])
    else Created(ls[0]) + Touched(ls[|ls| - 1])
  }

  lemma TouchedTwice(p: Props, a: Lesson, b: Lesson)
    ensures p + Touched(a) + Touched(b) == p + Touched(b)
  {
  }

  lemma LearnedNothing(had: bool, was: Props)
    ensures Learned(had, was, []) == was
  {
  }

  lemma LearnedStep(had: bool, was: Props, l: Lesson, rest: seq<Lesson>)
    ensures Learned(had, was, [l] + rest) == Learned(true, if had then was + Touched(l) else Created(l), rest)
  {
    hide Touched, Created;
    if rest != [] {
      var last := rest[|rest| - 1];
      assert ([l] + rest)[|[l] + rest| - 1] == last;
      if had {
        TouchedTwice(was, l, last);
      }
    }
  }

  lemma NodesMemory(nodes: map<Id, Props>, st: Stmt, key: string)
    requires Proper(st)
    ensures var id, n := Id(MEMORY, key), Nodes(nodes, st);
            if st.Remember? && st.lesson.key == key
            then id in n && n[id] == (if id in nodes then nodes[id] + Touched(st.lesson) else Created(st.lesson))
            else (id in n <==> id in nodes) && At(n, id) == At(nodes, id)
  {
    hide Touched, Created;
  }

  lemma {:induction false} MemoryAfter(nodes: map<Id, Props>, script: seq<Stmt>, key: string)
    requires AllProper(script)
    ensures var id, ls, n := Id(MEMORY, key), Lessons(script, key), AllNodes(nodes, script);
            && (id in n <==> id in nodes || ls != [])
            && At(n, id) == Learned(id in nodes, At(nodes, id), ls)
    decreases |script|
  {
    hide Nodes, Learned, Touched, Created, Proper;
    LearnedNothing(Id(MEMORY, key) in nodes, At(nodes, Id(MEMORY, key)));
    if script != [] {
      var st, id := script[0], Id(MEMORY, key);
      var n := Nodes(nodes, st);
      assert script[0] in script;
      assert forall x <- script[1..] :: x in script;
      NodesMemory(nodes, st, key);
      MemoryAfter(n, script[1..], key);
      if st.Remember? && st.lesson.key == key {
        LearnedStep(id in nodes, At(nodes, id), st.lesson, Lessons(script[1..], key));
        assert Lessons(script, key) == [st.lesson] + Lessons(script[1..], key);
      } else {
        assert Lessons(script, key) == Lessons(script[1..], key);
      }
    }
  }
}
