/** Pairing a chronological list of turns into flow steps. */
module ThreadPairs {
  import opened Options
  import opened ThreadTurns

  /** A step holds a customer message then an answer, at least one of them, and a message waiting
      for its answer is never left beside the answer that follows it. */
  ghost predicate WellPaired(steps: seq<Step>) {
    && (forall i :: 0 <= i < |steps| ==> WellFormed(steps[i]))
    && (forall i :: 0 <= i < |steps| - 1 && steps[i].outbound.None? ==> steps[i + 1].inbound.Some?)
  }

  ghost predicate WellFormed(s: Step) {
    && (s.inbound.Some? || s.outbound.Some?)
    && (s.inbound.Some? ==> s.inbound.value.inbound)
    && (s.outbound.Some? ==> !s.outbound.value.inbound)
  }

  function Waiting(pending: Option<Turn>): seq<Turn> {
    if pending.Some? then [pending.value] else []
  }

  lemma {:induction false} FlattenConcat(a: seq<Step>, b: seq<Step>)
    ensures Flatten(a + b) == Flatten(a) + Flatten(b)
  {
    hide TurnsOf;
    if a == [] {
      assert a + b == b;
    } else {
      FlattenConcat(a[1..], b);
      assert (a + b)[1..] == a[1..] + b && (a + b)[0] == a[0];
    }
  }

  lemma FlattenPush(steps: seq<Step>, s: Step)
    ensures Flatten(steps + [s]) == Flatten(steps) + TurnsOf(s)
  {
    FlattenConcat(steps, [s]);
    assert [s][1..] == [];
  }

  function Visible(turns: seq<Turn>, channel: string): seq<Turn> {
    if turns == [] then []
    else (if channel == "all" || turns[0].channel == channel then [turns[0]] else []) + Visible(turns[1..], channel)
  }

  /** Pushing the step (pending, out) accounts for both its turns. */
  lemma PushTurns(steps: seq<Step>, pending: Option<Turn>, out: Option<Turn>)
    ensures Flatten(steps + [Step(pending, out)]) == Flatten(steps) + Waiting(pending) + Waiting(out)
  {
    FlattenPush(steps, Step(pending, out));
    assert TurnsOf(Step(pending, out)) == Waiting(pending) + Waiting(out);
    hide Flatten;
  }

  lemma PushPaired(steps: seq<Step>, s: Step)
    requires WellPaired(steps) && WellFormed(s)
    requires |steps| > 0 && steps[|steps| - 1].outbound.None? ==> s.inbound.Some?
    ensures WellPaired(steps + [s])
  {
  }

  lemma PairedStart()
    ensures WellPaired([]) && Flatten([]) == []
  {
  }

  /** The pairing loop. Nothing is lost, added or reordered, and messages meet their answers. */
  method Pair(turns: seq<Turn>) returns (steps: seq<Step>)
    ensures Flatten(steps) == turns && WellPaired(steps)
  {
    hide Flatten, WellPaired;
    PairedStart();
    steps := [];
    var pending: Option<Turn> := None;
    for k := 0 to |turns|
      invariant Flatten(steps) + Waiting(pending) == turns[..k]
      invariant WellPaired(steps) && (pending.Some? ==> pending.value.inbound)
      invariant |steps| > 0 && steps[|steps| - 1].outbound.None? ==> pending.Some?
    {
      var t := turns[k];
      assert turns[..k + 1] == turns[..k] + [t];
      if t.inbound {
        if pending.Some? {
          PushTurns(steps, pending, None);
          PushPaired(steps, Step(pending, None));
          steps := steps + [Step(pending, None)];
        }
        pending := Some(t);
      } else {
        PushTurns(steps, pending, Some(t));
        PushPaired(steps, Step(pending, Some(t)));
        steps := steps + [Step(pending, Some(t))];
        pending := None;
      }
    }
    assert turns[..|turns|] == turns;
    if pending.Some? {
      PushTurns(steps, pending, None);
      PushPaired(steps, Step(pending, None));
      steps := steps + [Step(pending, None)];
    }
  }

  /** Those two facts leave no choice: there is exactly one way to pair a list of turns. */
  lemma {:induction false} PairingIsUnique(a: seq<Step>, b: seq<Step>)
    requires WellPaired(a) && WellPaired(b) && Flatten(a) == Flatten(b)
    ensures a == b
  {
    if a == [] || b == [] {
      NonEmptyFlatten(a);
      NonEmptyFlatten(b);
    } else {
      SameHead(a, b);
      SameHead(b, a);
      assert a[0] == b[0];
      assert Flatten(a[1..]) == Flatten(a)[|TurnsOf(a[0])|..];
      assert Flatten(b[1..]) == Flatten(b)[|TurnsOf(b[0])|..];
      PairingIsUnique(a[1..], b[1..]);
    }
  }

  lemma NonEmptyFlatten(a: seq<Step>)
    requires WellPaired(a)
    ensures a == [] <==> Flatten(a) == []
  {
  }

  /** The first step is read off the first two turns. */
  lemma SameHead(a: seq<Step>, b: seq<Step>)
    requires WellPaired(a) && WellPaired(b) && Flatten(a) == Flatten(b) && a != [] && b != []
    ensures a[0].inbound == b[0].inbound
    ensures a[0].outbound.Some? ==> a[0].outbound == b[0].outbound
  {
    var f := Flatten(a);
    FirstTurns(a);
    FirstTurns(b);
  }

  lemma FirstTurns(a: seq<Step>)
    requires WellPaired(a) && a != []
    ensures var f := Flatten(a);
            && |f| > 0
            && (a[0].inbound.Some? <==> f[0].inbound)
            && (a[0].inbound.Some? ==> a[0].inbound.value == f[0])
            && (a[0].inbound.None? ==> a[0].outbound == Some(f[0]))
            && (a[0].inbound.Some? ==> (a[0].outbound.Some? <==> |f| > 1 && !f[1].inbound))
            && (a[0].inbound.Some? && a[0].outbound.Some? ==> |f| > 1 && a[0].outbound.value == f[1])
  {
    if a[0].inbound.Some? && a[0].outbound.None? && |a| > 1 {
      assert a[1..][0] == a[1];
      assert Flatten(a)[1] == Flatten(a[1..])[0];
    }
  }
}
