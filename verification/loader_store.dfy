/** The loader itself: the writes, row after row, and what two loads of one workbook leave. */
module LoaderStore {
  import opened LoaderGraph
  import opened LoaderTheorems
  import opened LoaderScript

  lemma NothingRuns(s: State)
    ensures Run(s, []) == s
  {
  }

  lemma RunPush(s: State, script: seq<Stmt>, st: Stmt)
    ensures Run(s, script + [st]) == Step(Run(s, script), st)
  {
    hide Step;
    RunConcat(s, script, [st]);
    assert [st][1..] == [];
  }

  lemma SheetEnds(sh: Sheet)
    ensures SheetScript(sh, []) == []
  {
  }

  lemma {:induction false} SheetPush(sh: Sheet, rows: seq<Entry>, row: Entry)
    ensures SheetScript(sh, rows + [row])
         == SheetScript(sh, rows)
            + (if sh == Kyc && row.key == "" then [] else [Write(Id(Label(sh), row.key), row.props, Wants(sh, row))])
  {
    hide Label, Wants;
    if rows == [] {
      assert rows + [row] == [row] && [row][1..] == [];
    } else {
      assert (rows + [row])[1..] == rows[1..] + [row] && (rows + [row])[0] == rows[0];
      SheetPush(sh, rows[1..], row);
    }
  }

  lemma TalksEnd()
    ensures TalksScript([]) == []
  {
  }

  lemma {:induction false} TalksPush(rows: seq<Talk>, t: Talk)
    ensures var id := Id("Interaction", t.conversation);
            TalksScript(rows + [t])
            == (TalksScript(rows) + [Write(id, TalkProps(t), TalkWants(t))]) + [Remember(id, LessonOf(t))]
  {
    hide TalkProps, TalkWants, LessonOf;
    if rows == [] {
      assert rows + [t] == [t] && [t][1..] == [];
    } else {
      assert (rows + [t])[1..] == rows[1..] + [t] && (rows + [t])[0] == rows[0];
      TalksPush(rows[1..], t);
    }
  }

  lemma AgentsAre(model: string)
    ensures AgentsScript(model)
         == [Write(Id("Agent", "AI_AGENT"), AgentProps("ai", "InboxIQ AI", model), []),
             Write(Id("Agent", "HUMAN_SR"), AgentProps("human", "Support Representative", ""), [])]
    ensures [] + [AgentsScript(model)[0]] == [AgentsScript(model)[0]]
    ensures [AgentsScript(model)[0]] + [AgentsScript(model)[1]] == AgentsScript(model)
  {
    hide AgentProps;
  }

  /** Running the script is running its sheets, one after another. */
  lemma ScriptParts(s: State, b: Workbook, model: string)
    ensures var s1 := Run(Run(Run(s, SheetScript(Customers, b.customers)), SheetScript(Kyc, b.kyc)),
      SheetScript(Products, b.products));
            var s2 := Run(Run(s1, SheetScript(Accounts, b.accounts)), SheetScript(Cards, b.cards));
            var s3 := Run(Run(s2, SheetScript(Loans, b.loans)), SheetScript(Deposits, b.deposits));
            var s4 := Run(Run(s3, SheetScript(Policies, b.policies)), SheetScript(Claims, b.claims));
            var s5 := Run(Run(s4, SheetScript(Transactions, b.transactions)), SheetScript(Charges, b.charges));
            Run(s, Script(b, model)) == Run(Run(s5, TalksScript(b.talks)), AgentsScript(model))
  {
    hide Run, SheetScript, TalksScript, AgentsScript;
    RunConcat(s, SheetScript(Customers, b.customers), SheetScript(Kyc, b.kyc) +
      (SheetScript(Products, b.products) + FromAccounts(b, model)));
    var t := Run(s, SheetScript(Customers, b.customers));
    RunConcat(t, SheetScript(Kyc, b.kyc), SheetScript(Products, b.products) + FromAccounts(b, model));
    t := Run(t, SheetScript(Kyc, b.kyc));
    RunConcat(t, SheetScript(Products, b.products), FromAccounts(b, model));
    AccountsParts(Run(t, SheetScript(Products, b.products)), b, model);
  }

  lemma AccountsParts(s: State, b: Workbook, model: string)
    ensures var s2 := Run(Run(s, SheetScript(Accounts, b.accounts)), SheetScript(Cards, b.cards));
            var s3 := Run(Run(s2, SheetScript(Loans, b.loans)), SheetScript(Deposits, b.deposits));
            var s4 := Run(Run(s3, SheetScript(Policies, b.policies)), SheetScript(Claims, b.claims));
            var s5 := Run(Run(s4, SheetScript(Transactions, b.transactions)), SheetScript(Charges, b.charges));
            Run(s, FromAccounts(b, model)) == Run(Run(s5, TalksScript(b.talks)), AgentsScript(model))
  {
    hide Run, SheetScript, TalksScript, AgentsScript;
    var rest3 := SheetScript(Deposits, b.deposits) + FromPolicies(b, model);
    var rest2 := SheetScript(Loans, b.loans) + rest3;
    RunConcat(s, SheetScript(Accounts, b.accounts), SheetScript(Cards, b.cards) + rest2);
    var t := Run(s, SheetScript(Accounts, b.accounts));
    RunConcat(t, SheetScript(Cards, b.cards), rest2);
    t := Run(t, SheetScript(Cards, b.cards));
    RunConcat(t, SheetScript(Loans, b.loans), rest3);
    t := Run(t, SheetScript(Loans, b.loans));
    RunConcat(t, SheetScript(Deposits, b.deposits), FromPolicies(b, model));
    PoliciesParts(Run(t, SheetScript(Deposits, b.deposits)), b, model);
  }

  lemma PoliciesParts(s: State, b: Workbook, model: string)
    ensures var s4 := Run(Run(s, SheetScript(Policies, b.policies)), SheetScript(Claims, b.claims));
            var s5 := Run(Run(s4, SheetScript(Transactions, b.transactions)), SheetScript(Charges, b.charges));
            Run(s, FromPolicies(b, model)) == Run(Run(s5, TalksScript(b.talks)), AgentsScript(model))
  {
    hide Run, SheetScript, TalksScript, AgentsScript;
    var rest3 := SheetScript(Charges, b.charges) + FromTalks(b, model);
    var rest2 := SheetScript(Transactions, b.transactions) + rest3;
    RunConcat(s, SheetScript(Policies, b.policies), SheetScript(Claims, b.claims) + rest2);
    var t := Run(s, SheetScript(Policies, b.policies));
    RunConcat(t, SheetScript(Claims, b.claims), rest2);
    t := Run(t, SheetScript(Claims, b.claims));
    RunConcat(t, SheetScript(Transactions, b.transactions), rest3);
    t := Run(t, SheetScript(Transactions, b.transactions));
    RunConcat(t, SheetScript(Charges, b.charges), FromTalks(b, model));
    t := Run(t, SheetScript(Charges, b.charges));
    RunConcat(t, TalksScript(b.talks), AgentsScript(model));
  }

  class Store {
    var nodes: map<Id, Props>
    var edges: set<Edge>

    ghost function Now(): State
      reads this
    {
      State(nodes, edges)
    }

    /** MERGE the row's node, SET its properties, then MATCH and MERGE edge after edge for as long
        as the matches find something. */
    method Put(id: Id, props: Props, wants: seq<Want>)
      modifies this
      ensures Now() == Step(old(Now()), Write(id, props, wants))
    {
      hide Matches, Drawn;
      if id !in nodes {
        nodes := nodes[id := map[]];
      }
      nodes := nodes[id := nodes[id] + props];
      ghost var before := edges;
      var k := 0;
      while k < |wants|
        invariant 0 <= k <= |wants| && nodes == Nodes(old(nodes), Write(id, props, wants))
        invariant edges + Chain(nodes, id, wants[k..]) == before + Chain(nodes, id, wants)
      {
        var ms := Matches(nodes, wants[k].target);
        assert wants[k..][0] == wants[k] && wants[k..][1..] == wants[k + 1..];
        if ms == {} {
          break;
        }
        edges := edges + Drawn(id, wants[k], ms);
        k := k + 1;
      }
      assert Chain(nodes, id, wants[k..]) == {};
    }

    /** MATCH the interaction just written, MERGE the memory, ON CREATE or ON MATCH SET, MERGE
        CREATED_MEMORY. */
    method Learn(conversation: Id, l: Lesson)
      modifies this
      ensures Now() == Step(old(Now()), Remember(conversation, l))
    {
      hide Created, Touched;
      var id := MemoryId(l);
      if id in nodes {
        nodes := nodes[id := nodes[id] + Touched(l)];
      } else {
        nodes := nodes[id := Created(l)];
      }
      edges := edges + {Edge(conversation, "CREATED_MEMORY", id)};
    }

    method LoadSheet(sh: Sheet, rows: seq<Entry>) returns (count: nat)
      modifies this
      ensures Now() == Run(old(Now()), SheetScript(sh, rows)) && count == |rows|
    {
      hide *;
      SheetEnds(sh);
      NothingRuns(Now());
      for i := 0 to |rows|
        invariant Now() == Run(old(Now()), SheetScript(sh, rows[..i]))
      {
        var row := rows[i];
        SheetPush(sh, rows[..i], row);
        assert rows[..i + 1] == rows[..i] + [row];
        if sh == Kyc && row.key == "" {
          assert SheetScript(sh, rows[..i]) + [] == SheetScript(sh, rows[..i]);
          continue;
        }
        var st := Write(Id(Label(sh), row.key), row.props, Wants(sh, row));
        RunPush(old(Now()), SheetScript(sh, rows[..i]), st);
        Put(Id(Label(sh), row.key), row.props, Wants(sh, row));
      }
      assert rows[..|rows|] == rows;
      count := |rows|;
    }

    method LoadTalks(rows: seq<Talk>) returns (count: nat)
      modifies this
      ensures Now() == Run(old(Now()), TalksScript(rows)) && count == |rows|
    {
      hide *;
      TalksEnd();
      NothingRuns(Now());
      for i := 0 to |rows|
        invariant Now() == Run(old(Now()), TalksScript(rows[..i]))
      {
        var t := rows[i];
        var id := Id("Interaction", t.conversation);
        ghost var before := TalksScript(rows[..i]);
        TalksPush(rows[..i], t);
        RunPush(old(Now()), before, Write(id, TalkProps(t), TalkWants(t)));
        Put(id, TalkProps(t), TalkWants(t));
        RunPush(old(Now()), before + [Write(id, TalkProps(t), TalkWants(t))], Remember(id, LessonOf(t)));
        Learn(id, LessonOf(t));
        assert rows[..i + 1] == rows[..i] + [t];
      }
      assert rows[..|rows|] == rows;
      count := |rows|;
    }

    method LoadAgents(model: string) returns (count: nat)
      modifies this
      ensures Now() == Run(old(Now()), AgentsScript(model)) && count == 2
    {
      hide *;
      NothingRuns(Now());
      AgentsAre(model);
      RunPush(Now(), [], AgentsScript(model)[0]);
      RunPush(Now(), [AgentsScript(model)[0]], AgentsScript(model)[1]);
      Put(Id("Agent", "AI_AGENT"), AgentProps("ai", "InboxIQ AI", model), []);
      Put(Id("Agent", "HUMAN_SR"), AgentProps("human", "Support Representative", ""), []);
      count := 2;
    }

    method Load(b: Workbook, model: string) returns (counts: map<string, nat>)
      modifies this
      ensures Now() == Run(old(Now()), Script(b, model))
      ensures counts == map["customers" := |b.customers|, "kyc" := |b.kyc|, "products" := |b.products|,
                            "accounts" := |b.accounts|, "credit_cards" := |b.cards|, "loans" := |b.loans|,
                            "fixed_deposits" := |b.deposits|, "policies" := |b.policies|, "claims" := |b.claims|,
                            "transactions" := |b.transactions|, "charges" := |b.charges|,
                            "interactions" := |b.talks|, "agents" := 2]
    {
      hide *;
      counts := map[];
      ScriptParts(Now(), b, model);
      var n := LoadSheet(Customers, b.customers);
      counts := counts["customers" := n];
      n := LoadSheet(Kyc, b.kyc);
      counts := counts["kyc" := n];
      n := LoadSheet(Products, b.products);
      counts := counts["products" := n];
      n := LoadSheet(Accounts, b.accounts);
      counts := counts["accounts" := n];
      n := LoadSheet(Cards, b.cards);
      counts := counts["credit_cards" := n];
      n := LoadSheet(Loans, b.loans);
      counts := counts["loans" := n];
      n := LoadSheet(Deposits, b.deposits);
      counts := counts["fixed_deposits" := n];
      n := LoadSheet(Policies, b.policies);
      counts := counts["policies" := n];
      n := LoadSheet(Claims, b.claims);
      counts := counts["claims" := n];
      n := LoadSheet(Transactions, b.transactions);
      counts := counts["transactions" := n];
      n := LoadSheet(Charges, b.charges);
      counts := counts["charges" := n];
      n := LoadTalks(b.talks);
      counts := counts["interactions" := n];
      n := LoadAgents(model);
      counts := counts["agents" := n];
    }
  }

  // ---- Two loads of one workbook ----

  /** A third load changes nothing, whatever graph the first was made over. */
  lemma ThirdLoadChangesNothing(s: State, b: Workbook, model: string)
    ensures var two := Run(Run(s, Script(b, model)), Script(b, model)); Run(two, Script(b, model)) == two
  {
    hide *;
    ScriptSettled(b, model);
    SecondLoadIsFinal(s, Script(b, model));
  }

  /** The second load draws HANDLED_BY edges only, leaves every ordinary node as it is, and gives
      an `updated_at` to just the memories the first created from a single row. */
  lemma SecondLoadAdds(s: State, b: Workbook, model: string, id: Id)
    ensures var script := Script(b, model); var one := Run(s, script); var two := Run(one, script);
            && one.edges <= two.edges && OnlyLate(two.edges - one.edges)
            && (id in two.nodes <==> id in one.nodes)
            && At(two.nodes, id)
               == (if id.tag == MEMORY && id !in s.nodes && |Lessons(script, id.key)| == 1
                   then At(one.nodes, id)["updated_at" := Text(Lessons(script, id.key)[0].updated)]
                     else At(one.nodes, id))
  {
    hide *;
    var script := Script(b, model);
    var one := Run(s, script);
    ScriptSettled(b, model);
    SecondLoadDrawsLate(s, script);
    RunSplits(s, script);
    RunSplits(one, script);
    if id.tag == MEMORY {
      assert id == Id(MEMORY, id.key);
      MemorySecond(s.nodes, script, id.key);
    } else {
      OrdinarySettled(s.nodes, script, id);
    }
  }

  predicate Holds(p: Props, k: string, v: Value) {
    k in p && p[k] == v
  }

  predicate SameAt(p: Props, q: Props, k: string) {
    (k in q <==> k in p) && (k in p ==> q[k] == p[k])
  }

  lemma TouchedFields(p: Props, l: Lesson)
    ensures var q := p + Touched(l);
            && Holds(q, "resolution_text", Text(l.resolution)) && Holds(q, "verified", Flag(l.verified))
            && Holds(q, "intent_type", Text(l.intent)) && Holds(q, "updated_at", Text(l.updated))
            && SameAt(p, q, "query_pattern") && SameAt(p, q, "times_reused") && SameAt(p, q, "created_at")
  {
  }

  lemma CreatedFields(l: Lesson)
    ensures var q := Created(l);
            && Holds(q, "resolution_text", Text(l.resolution)) && Holds(q, "verified", Flag(l.verified))
            && Holds(q, "intent_type", Text(l.intent)) && Holds(q, "query_pattern", Text(l.message))
            && Holds(q, "times_reused", Num(0)) && Holds(q, "created_at", Text(l.created))
  {
  }

  /** Of a key's rows the last gives the resolution, the flag and the intent; a memory that was
      there keeps its pattern, its use count and its age, a new one has the first row's pattern
      and age and has not been used. */
  lemma MemoryContents(nodes: map<Id, Props>, script: seq<Stmt>, key: string)
    requires AllProper(script) && Lessons(script, key) != []
    ensures var ls, q, id := Lessons(script, key), At(AllNodes(nodes, script), Id(MEMORY, key)), Id(MEMORY, key);
            var last := ls[|ls| - 1];
            && Holds(q, "resolution_text", Text(last.resolution)) && Holds(q, "verified", Flag(last.verified))
            && Holds(q, "intent_type", Text(last.intent))
            && (id in nodes ==> SameAt(nodes[id], q, "query_pattern") && SameAt(nodes[id], q, "times_reused")
                                && SameAt(nodes[id], q, "created_at"))
            && (id !in nodes ==> && Holds(q, "query_pattern", Text(ls[0].message)) && Holds(q, "times_reused", Num(0))
                                 && Holds(q, "created_at", Text(ls[0].created)))
  {
    hide AllNodes, Lessons, Created, Touched, AllProper;
    var id, ls := Id(MEMORY, key), Lessons(script, key);
    MemoryAfter(nodes, script, key);
    TouchedFields(At(nodes, id), ls[|ls| - 1]);
    TouchedFields(Created(ls[0]), ls[|ls| - 1]);
    CreatedFields(ls[0]);
  }
}
