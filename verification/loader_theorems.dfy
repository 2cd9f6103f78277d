/** Loading the same workbook again: what the second load still changes, and that a third
    changes nothing. */
module LoaderTheorems {
  import opened LoaderGraph

  // ---- The nodes ----

  lemma {:induction false} OwnConcat(a: seq<Stmt>, b: seq<Stmt>, id: Id)
    ensures Own(a + b, id) == Own(a, id) + Own(b, id)
  {
    hide OwnOf;
    MapPlus(Own(b, id), map[], map[]);
    if a == [] {
      assert a + b == b;
    } else {
      assert (a + b)[1..] == a[1..] + b && (a + b)[0] == a[0];
      OwnConcat(a[1..], b, id);
      MapPlus(OwnOf(a[0], id), Own(a[1..], id), Own(b, id));
    }
  }

  /** Loading again changes no ordinary node. */
  lemma OrdinarySettled(nodes: map<Id, Props>, script: seq<Stmt>, id: Id)
    requires id.tag != MEMORY
    ensures var one := AllNodes(nodes, script); var two := AllNodes(one, script);
            (id in two <==> id in one) && At(two, id) == At(one, id)
  {
    hide *;
    var one := AllNodes(nodes, script);
    NodeAfter(nodes, script, id);
    NodeAfter(one, script, id);
    MapPlus(At(nodes, id), Own(script, id), map[]);
  }

  lemma LearnedAgain(had: bool, was: Props, ls: seq<Lesson>)
    ensures var one := Learned(had, was, ls);
            Learned(had || ls != [], one, ls) == if !had && |ls| == 1 then Created(ls[0]) + Touched(ls[0]) else one
    ensures var one := Learned(had, was, ls); var two := Learned(had || ls != [], one, ls);
            Learned(had || ls != [], two, ls) == two
  {
    hide Created, Touched;
    if ls != [] {
      var last := ls[|ls| - 1];
      TouchedTwice(was, last, last);
      TouchedTwice(Created(ls[0]), last, last);
    }
  }

  /** A memory is changed by the second load exactly when the first created it from a single
      row, and then only in gaining that row's `updated_at`. */
  lemma MemorySecond(nodes: map<Id, Props>, script: seq<Stmt>, key: string)
    requires AllProper(script)
    ensures var id, ls := Id(MEMORY, key), Lessons(script, key);
            var one := AllNodes(nodes, script); var two := AllNodes(one, script);
            && (id in two <==> id in one)
            && At(two, id) == (if id !in nodes && |ls| == 1 then At(one, id)["updated_at" := Text(ls[0].updated)]
              else At(one, id))
  {
    hide *;
    var id, ls := Id(MEMORY, key), Lessons(script, key);
    var one := AllNodes(nodes, script);
    MemoryAfter(nodes, script, key);
    MemoryAfter(one, script, key);
    LearnedAgain(id in nodes, At(nodes, id), ls);
    if id !in nodes && |ls| == 1 {
      LearnedOnce(At(nodes, id), ls);
      CreatedTouched(ls[0]);
    }
  }

  lemma LearnedOnce(was: Props, ls: seq<Lesson>)
    requires |ls| == 1
    ensures Learned(false, was, ls) == Created(ls[0])
  {
    hide Created, Touched;
  }

  lemma CreatedTouched(l: Lesson)
    ensures Created(l) + Touched(l) == Created(l)["updated_at" := Text(l.updated)]
  {
  }

  lemma MemorySettled(nodes: map<Id, Props>, script: seq<Stmt>, key: string)
    requires AllProper(script)
    ensures var id, one := Id(MEMORY, key), AllNodes(nodes, script);
            var two := AllNodes(one, script); var three := AllNodes(two, script);
            (id in three <==> id in two) && At(three, id) == At(two, id)
  {
    hide *;
    var id, ls, one := Id(MEMORY, key), Lessons(script, key), AllNodes(nodes, script);
    MemoryAfter(nodes, script, key);
    MemoryAfter(one, script, key);
    MemoryAfter(AllNodes(one, script), script, key);
    LearnedAgain(id in nodes, At(nodes, id), ls);
  }

  lemma SameNodes(a: map<Id, Props>, b: map<Id, Props>)
    requires forall id: Id :: (id in a <==> id in b) && At(a, id) == At(b, id)
    ensures a == b
  {
    forall id | id in a ensures id in b && a[id] == b[id] {
      assert At(a, id) == At(b, id);
    }
  }

  lemma NodesSettled(nodes: map<Id, Props>, script: seq<Stmt>)
    requires AllProper(script)
    ensures var one := AllNodes(nodes, script); var two := AllNodes(one, script); AllNodes(two, script) == two
  {
    hide *;
    var one := AllNodes(nodes, script);
    var two := AllNodes(one, script);
    var three := AllNodes(two, script);
    forall id: Id ensures (id in three <==> id in two) && At(three, id) == At(two, id) {
      if id.tag == MEMORY {
        MemorySettled(nodes, script, id.key);
        assert id == Id(MEMORY, id.key);
      } else {
        OrdinarySettled(one, script, id);
      }
    }
    SameNodes(three, two);
  }

  // ---- The edges ----

  /** Two graphs that may differ in their memories only. */
  ghost predicate Alike(a: map<Id, Props>, b: map<Id, Props>) {
    forall id: Id :: id.tag != MEMORY && (id in a || id in b) ==> id in a && id in b && a[id] == b[id]
  }

  lemma AlikeMatches(a: map<Id, Props>, b: map<Id, Props>, t: Target)
    requires Alike(a, b) && TagOf(t) != MEMORY
    ensures Matches(a, t) == Matches(b, t)
  {
    hide Fits;
    assert MEMORY != "Product";
  }

  lemma {:induction false} AlikeChain(a: map<Id, Props>, b: map<Id, Props>, id: Id, wants: seq<Want>)
    requires Alike(a, b) && forall w <- wants :: TagOf(w.target) != MEMORY
    ensures Chain(a, id, wants) == Chain(b, id, wants)
  {
    hide Alike, Matches, Drawn;
    if wants != [] {
      assert wants[0] in wants;
      assert forall w <- wants[1..] :: w in wants;
      AlikeMatches(a, b, wants[0].target);
      AlikeChain(a, b, id, wants[1..]);
    }
  }

  lemma AlikeStep(a: map<Id, Props>, b: map<Id, Props>, st: Stmt)
    requires Alike(a, b) && Proper(st)
    ensures Alike(Nodes(a, st), Nodes(b, st)) && Edges(a, st) == Edges(b, st)
  {
    hide Chain, Touched, Created;
    assert Alike(Nodes(a, st), Nodes(b, st));
    if st.Write? {
      AlikeChain(Nodes(a, st), Nodes(b, st), st.id, st.wants);
    }
  }

  lemma {:induction false} AlikeEdges(a: map<Id, Props>, b: map<Id, Props>, script: seq<Stmt>)
    requires Alike(a, b) && AllProper(script)
    ensures AllEdges(a, script) == AllEdges(b, script)
    decreases |script|
  {
    hide Alike, Nodes, Edges, Proper;
    if script != [] {
      assert script[0] in script;
      assert forall x <- script[1..] :: x in script;
      AlikeStep(a, b, script[0]);
      AlikeEdges(Nodes(a, script[0]), Nodes(b, script[0]), script[1..]);
    }
  }

  lemma AlikeAfter(nodes: map<Id, Props>, script: seq<Stmt>)
    ensures var one := AllNodes(nodes, script); Alike(one, AllNodes(one, script))
  {
    hide AllNodes;
    var one := AllNodes(nodes, script);
    var two := AllNodes(one, script);
    forall id: Id | id.tag != MEMORY && (id in one || id in two)
      ensures id in one && id in two && one[id] == two[id]
    {
      OrdinarySettled(nodes, script, id);
      assert At(two, id) == At(one, id);
    }
  }

  /** Whatever the workbook and whatever graph it is loaded over, the second load reaches a
      fixpoint: a third changes no node and no edge. */
  lemma SecondLoadIsFinal(s: State, script: seq<Stmt>)
    requires AllProper(script)
    ensures var two := Run(Run(s, script), script); Run(two, script) == two
  {
    hide *;
    var one := Run(s, script);
    RunSplits(s, script);
    RunSplits(one, script);
    var two := Run(one, script);
    RunSplits(two, script);
    NodesSettled(s.nodes, script);
    AlikeAfter(s.nodes, script);
    AlikeEdges(one.nodes, two.nodes, script);
    Absorbs(one.edges, AllEdges(one.nodes, script));
  }

  lemma Absorbs(a: set<Edge>, b: set<Edge>)
    ensures a + b + b == a + b
  {
  }

  // ---- What the second load can still draw ----

  /** No statement writes a node of this label. */
  predicate Free(script: seq<Stmt>, tag: string) {
    forall st <- script :: st.Write? ==> st.id.tag != tag
  }

  const LATE := "HANDLED_BY"

  /** Only the last MATCH of a statement may be the late one. */
  predicate LateLast(wants: seq<Want>) {
    forall k :: 0 <= k < |wants| - 1 ==> wants[k].rel != LATE
  }

  predicate Prepared(st: Stmt, rest: seq<Stmt>) {
    st.Write? ==> LateLast(st.wants) && forall w <- st.wants :: w.rel != LATE ==> Free(rest, TagOf(w.target))
  }

  /** Every statement but for its late MATCH looks for labels nobody writes from here on. */
  predicate Settled(script: seq<Stmt>) {
    forall j :: 0 <= j < |script| ==> Prepared(script[j], script[j..])
  }

  ghost predicate AgreeOn(a: map<Id, Props>, b: map<Id, Props>, tag: string) {
    forall id: Id :: id.tag == tag ==> (id in a <==> id in b) && At(a, id) == At(b, id)
  }

  lemma AgreeMatches(a: map<Id, Props>, b: map<Id, Props>, t: Target)
    requires AgreeOn(a, b, TagOf(t))
    ensures Matches(a, t) == Matches(b, t)
  {
    hide Fits;
    forall i | i in a && i.tag == TagOf(t) ensures i in b && a[i] == b[i] {
      assert At(a, i) == At(b, i);
    }
    forall i | i in b && i.tag == TagOf(t) ensures i in a && a[i] == b[i] {
      assert At(a, i) == At(b, i);
    }
  }

  predicate OnlyLate(es: set<Edge>) {
    forall e <- es :: e.rel == LATE
  }

  lemma DrawnRel(id: Id, w: Want, ms: set<Id>)
    ensures forall e <- Drawn(id, w, ms) :: e.rel == w.rel
  {
  }

  lemma {:induction false} ChainLate(a: map<Id, Props>, b: map<Id, Props>, id: Id, wants: seq<Want>)
    requires LateLast(wants) && forall w <- wants :: w.rel != LATE ==> Matches(a, w.target) == Matches(b, w.target)
    ensures OnlyLate(Chain(b, id, wants) - Chain(a, id, wants))
  {
    hide Matches, Drawn;
    if wants != [] {
      var w := wants[0];
      assert w in wants;
      assert forall x <- wants[1..] :: x in wants;
      DrawnRel(id, w, Matches(b, w.target));
      if w.rel == LATE {
        assert wants[1..] == [];
      } else {
        ChainLate(a, b, id, wants[1..]);
      }
    }
  }

  lemma FreeOwn(script: seq<Stmt>, id: Id)
    requires Free(script, id.tag)
    ensures !Mentions(script, id) && Own(script, id) == map[]
  {
    if script != [] {
      assert script[0] in script;
      assert forall x <- script[1..] :: x in script;
      FreeOwn(script[1..], id);
    }
  }

  /** At any point of the two loads the labels nobody writes any more are the same. */
  lemma AgreeHere(nodes: map<Id, Props>, u: seq<Stmt>, v: seq<Stmt>, tag: string)
    requires tag != MEMORY && Free(v, tag)
    ensures AgreeOn(AllNodes(nodes, u), AllNodes(AllNodes(nodes, u + v), u), tag)
  {
    hide *;
    forall id: Id | id.tag == tag
      ensures (id in AllNodes(nodes, u) <==> id in AllNodes(AllNodes(nodes, u + v), u))
              && At(AllNodes(nodes, u), id) == At(AllNodes(AllNodes(nodes, u + v), u), id)
    {
      NodeAfter(nodes, u, id);
      NodeAfter(nodes, u + v, id);
      NodeAfter(AllNodes(nodes, u + v), u, id);
      OwnConcat(u, v, id);
      FreeOwn(v, id);
      MentionsConcat(u, v, id);
      MapPlus(At(nodes, id), Own(u, id), map[]);
      MapPlus(Own(u, id), map[], map[]);
    }
    AgreeFrom(AllNodes(nodes, u), AllNodes(AllNodes(nodes, u + v), u), tag);
  }

  lemma AgreeFrom(a: map<Id, Props>, b: map<Id, Props>, tag: string)
    requires forall id: Id :: id.tag == tag ==> (id in a <==> id in b) && At(a, id) == At(b, id)
    ensures AgreeOn(a, b, tag)
  {
  }

  lemma MentionsConcat(a: seq<Stmt>, b: seq<Stmt>, id: Id)
    ensures Mentions(a + b, id) <==> Mentions(a, id) || Mentions(b, id)
  {
  }

  lemma PreparedIs(st: Stmt, rest: seq<Stmt>)
    requires Prepared(st, rest) && st.Write?
    ensures LateLast(st.wants) && forall w <- st.wants :: w.rel != LATE ==> Free(rest, TagOf(w.target))
  {
    hide Free, LateLast;
  }

  lemma EdgesLate(nodes: map<Id, Props>, u: seq<Stmt>, v: seq<Stmt>)
    requires v != [] && Proper(v[0]) && Prepared(v[0], v)
    ensures OnlyLate(Edges(AllNodes(AllNodes(nodes, u + v), u), v[0]) - Edges(AllNodes(nodes, u), v[0]))
  {
    hide *;
    var st := v[0];
    var a, b := AllNodes(nodes, u), AllNodes(AllNodes(nodes, u + v), u);
    EdgesAre(a, st);
    EdgesAre(b, st);
    if st.Write? {
      PreparedIs(st, v);
      var w1 := v[1..];
      assert v == [st] + w1;
      assert u + v == (u + [st]) + w1;
      NodesPush(nodes, u, st);
      NodesPush(AllNodes(nodes, u + v), u, st);
      forall w <- st.wants | w.rel != LATE
        ensures Matches(Nodes(a, st), w.target) == Matches(Nodes(b, st), w.target)
      {
        ProperWant(st, w);
        FreeTail(v, TagOf(w.target));
        AgreeHere(nodes, u + [st], w1, TagOf(w.target));
        AgreeMatches(Nodes(a, st), Nodes(b, st), w.target);
      }
      ChainLate(Nodes(a, st), Nodes(b, st), st.id, st.wants);
    } else {
      NothingLate(Edges(a, st));
    }
  }

  lemma NothingLate(es: set<Edge>)
    ensures OnlyLate(es - es)
  {
  }

  lemma FreeTail(v: seq<Stmt>, tag: string)
    requires v != [] && Free(v, tag)
    ensures Free(v[1..], tag)
  {
  }

  lemma ProperWant(st: Stmt, w: Want)
    requires Proper(st) && st.Write? && w in st.wants
    ensures TagOf(w.target) != MEMORY
  {
  }

  lemma EdgesAre(nodes: map<Id, Props>, st: Stmt)
    ensures st.Write? ==> Edges(nodes, st) == Chain(Nodes(nodes, st), st.id, st.wants)
    ensures st.Remember? ==> Edges(nodes, st) == {Edge(st.conversation, "CREATED_MEMORY", MemoryId(st.lesson))}
  {
    hide Chain, Nodes;
  }

  lemma NodesPush(nodes: map<Id, Props>, u: seq<Stmt>, st: Stmt)
    ensures AllNodes(nodes, u + [st]) == Nodes(AllNodes(nodes, u), st)
  {
    hide Nodes;
    NodesConcat(nodes, u, [st]);
    assert [st][1..] == [];
  }

  lemma {:induction false} RestLate(nodes: map<Id, Props>, u: seq<Stmt>, v: seq<Stmt>)
    requires AllProper(v) && Settled(v)
    ensures OnlyLate(AllEdges(AllNodes(AllNodes(nodes, u + v), u), v) - AllEdges(AllNodes(nodes, u), v))
    decreases |v|
  {
    hide *;
    var a, b := AllNodes(nodes, u), AllNodes(AllNodes(nodes, u + v), u);
    AllEdgesAre(a, v);
    AllEdgesAre(b, v);
    if v == [] {
      NothingLate({});
    } else {
      SettledParts(v);
      EdgesLate(nodes, u, v);
      assert v == [v[0]] + v[1..];
      assert u + v == (u + [v[0]]) + v[1..];
      NodesPush(nodes, u, v[0]);
      NodesPush(AllNodes(nodes, u + v), u, v[0]);
      RestLate(nodes, u + [v[0]], v[1..]);
      LateUnion(Edges(a, v[0]), Edges(b, v[0]), AllEdges(Nodes(a, v[0]), v[1..]), AllEdges(Nodes(b, v[0]), v[1..]));
    }
  }

  lemma AllEdgesAre(nodes: map<Id, Props>, v: seq<Stmt>)
    ensures AllEdges(nodes, v) == if v == [] then {} else Edges(nodes, v[0]) + AllEdges(Nodes(nodes, v[0]), v[1..])
  {
    hide Edges, Nodes;
  }

  lemma SettledParts(v: seq<Stmt>)
    requires v != [] && AllProper(v) && Settled(v)
    ensures Proper(v[0]) && Prepared(v[0], v) && AllProper(v[1..]) && Settled(v[1..])
  {
    hide Proper, Prepared;
    assert v[0..] == v;
    assert forall x <- v[1..] :: x in v;
    forall j | 0 <= j < |v[1..]| ensures Prepared(v[1..][j], v[1..][j..]) {
      assert v[1..][j..] == v[j + 1..];
    }
  }

  lemma LateUnion(a: set<Edge>, b: set<Edge>, c: set<Edge>, d: set<Edge>)
    requires OnlyLate(b - a) && OnlyLate(d - c)
    ensures OnlyLate((b + d) - (a + c))
  {
  }

  /** When every label is loaded before it is looked for, but for the late MATCH, the second load
      draws late edges only. */
  lemma SecondLoadDrawsLate(s: State, script: seq<Stmt>)
    requires AllProper(script) && Settled(script)
    ensures var one := Run(s, script); OnlyLate(Run(one, script).edges - one.edges)
  {
    hide *;
    var one := Run(s, script);
    RunSplits(s, script);
    RunSplits(one, script);
    assert [] + script == script;
    RestLate(s.nodes, [], script);
    NothingRun(s.nodes);
    NothingRun(one.nodes);
    LateOver(s.edges, AllEdges(s.nodes, script), AllEdges(one.nodes, script));
  }

  lemma NothingRun(nodes: map<Id, Props>)
    ensures AllNodes(nodes, []) == nodes
  {
  }

  lemma LateOver(e: set<Edge>, a: set<Edge>, b: set<Edge>)
    requires OnlyLate(b - a)
    ensures OnlyLate((e + a + b) - (e + a))
  {
  }
}
