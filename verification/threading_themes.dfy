/** Giving every step a theme: the ticket's subject, else its own intent, else a neighbour's theme. */
module ThreadThemes {
  import opened ThreadTurns

  /** A row of the cached ticket lists. */
  datatype Record = Record(id: string, intent: string)

  /** The intent recorded on the first ticket with this id, if there is one. */
  function RecordIntent(records: seq<Record>, tk: string): string {
    if records == [] then "" else if records[0].id == tk then records[0].intent else RecordIntent(records[1..], tk)
  }

  /** The first intent among the first `n` steps that carry the ticket. */
  ghost function FirstRaw(raw: seq<string>, tickets: seq<string>, tk: string, n: nat): string
    requires n <= |raw| == |tickets|
  {
    if n == 0 then "" else Or(FirstRaw(raw, tickets, tk, n - 1), if tickets[n - 1] == tk then raw[n - 1] else "")
  }

  /** What a ticket is about: the ticket's own record first, then the first step that says. */
  ghost function Subject(records: seq<Record>, raw: seq<string>, tickets: seq<string>, tk: string, n: nat): string
    requires n <= |raw| == |tickets|
  {
    Or(RecordIntent(records, tk), FirstRaw(raw, tickets, tk, n))
  }

  lemma ThemeNeverMissing(intent: string)
    ensures ThemeOf(intent) != ""
  {
  }

  /** After `n` steps: exactly the tickets with a subject so far have a theme, the subject's. */
  ghost predicate Themed(m: map<string, string>, records: seq<Record>, raw: seq<string>, tickets: seq<string>, n: nat)
    requires n <= |raw| == |tickets|
  {
    && (forall tk :: tk in m <==> tk != "" && tk in tickets[..n] && Subject(records, raw, tickets, tk, n) != "")
    && (forall tk :: tk in m ==> m[tk] == ThemeOf(Subject(records, raw, tickets, tk, n)))
  }

  lemma SubjectStep(records: seq<Record>, raw: seq<string>, tickets: seq<string>, tk: string, n: nat)
    requires n < |raw| == |tickets|
    ensures tk != tickets[n] || Subject(records, raw, tickets, tk, n) != "" ==>
              Subject(records, raw, tickets, tk, n + 1) == Subject(records, raw, tickets, tk, n)
    ensures tk == tickets[n] && Subject(records, raw, tickets, tk, n) == "" ==>
      Subject(records, raw, tickets, tk, n + 1) == raw[n]
    ensures tk == tickets[n] && tk !in tickets[..n] ==>
              Subject(records, raw, tickets, tk, n + 1) == Or(RecordIntent(records, tk), raw[n])
  {
    hide RecordIntent;
    NotSeen(raw, tickets, tk, n);
  }

  lemma ThemedSkip(m: map<string, string>, records: seq<Record>, raw: seq<string>, tickets: seq<string>, n: nat)
    requires n < |raw| == |tickets| && Themed(m, records, raw, tickets, n)
    requires tickets[n] == "" || tickets[n] in m
    ensures Themed(m, records, raw, tickets, n + 1)
  {
    hide Subject, ThemeOf;
    forall tk | tk != ""
      ensures tk in m ==> Subject(records, raw, tickets, tk, n + 1) == Subject(records, raw, tickets, tk, n)
      ensures tk != tickets[n] ==> Subject(records, raw, tickets, tk, n + 1) == Subject(records, raw, tickets, tk, n)
    {
      SubjectStep(records, raw, tickets, tk, n);
    }
    assert tickets[..n + 1] == tickets[..n] + [tickets[n]];
  }

  lemma ThemedPush(m: map<string, string>, records: seq<Record>, raw: seq<string>, tickets: seq<string>, n: nat,
    subject: string)
    requires n < |raw| == |tickets| && Themed(m, records, raw, tickets, n)
    requires tickets[n] != "" && tickets[n] !in m && subject == Or(RecordIntent(records, tickets[n]), raw[n])
    ensures Themed(if subject != "" then m[tickets[n] := ThemeOf(subject)] else m, records, raw, tickets, n + 1)
  {
    hide ThemeOf;
    var tk := tickets[n];
    SubjectNow(m, records, raw, tickets, n, subject);
    hide Subject, Or;
    forall t | t != tk
      ensures Subject(records, raw, tickets, t, n + 1) == Subject(records, raw, tickets, t, n)
    {
      SubjectStep(records, raw, tickets, t, n);
    }
    assert tickets[..n + 1] == tickets[..n] + [tk];
  }

  /** A ticket without a theme yet has its subject from its record or from this very step. */
  lemma SubjectNow(m: map<string, string>, records: seq<Record>, raw: seq<string>, tickets: seq<string>, n: nat,
    subject: string)
    requires n < |raw| == |tickets| && Themed(m, records, raw, tickets, n)
    requires tickets[n] != "" && tickets[n] !in m && subject == Or(RecordIntent(records, tickets[n]), raw[n])
    ensures Subject(records, raw, tickets, tickets[n], n + 1) == subject
  {
    hide ThemeOf, RecordIntent, FirstRaw;
    SubjectStep(records, raw, tickets, tickets[n], n);
  }

  /** The per-ticket pass: exactly the tickets with a subject get a theme, the subject's. */
  method TicketThemes(records: seq<Record>, raw: seq<string>, tickets: seq<string>) returns (m: map<string, string>)
    requires |raw| == |tickets|
    ensures forall tk :: tk in m <==> tk != "" && tk in tickets && Subject(records, raw, tickets, tk, |raw|) != ""
    ensures forall tk :: tk in m ==> m[tk] == ThemeOf(Subject(records, raw, tickets, tk, |raw|))
  {
    hide *;
    m := map[];
    ThemedStart(records, raw, tickets);
    for i := 0 to |raw|
      invariant Themed(m, records, raw, tickets, i)
    {
      var tk := tickets[i];
      if tk == "" || tk in m {
        ThemedSkip(m, records, raw, tickets, i);
        continue;
      }
      var rec := Scan(records, tk);
      var subject := Or(rec, raw[i]);
      ThemedPush(m, records, raw, tickets, i, subject);
      if subject != "" {
        m := m[tk := ThemeOf(subject)];
      }
    }
    ThemedEnd(m, records, raw, tickets);
  }

  lemma ThemedStart(records: seq<Record>, raw: seq<string>, tickets: seq<string>)
    requires |raw| == |tickets|
    ensures Themed(map[], records, raw, tickets, 0)
  {
  }

  lemma ThemedEnd(m: map<string, string>, records: seq<Record>, raw: seq<string>, tickets: seq<string>)
    requires |raw| == |tickets| && Themed(m, records, raw, tickets, |raw|)
    ensures forall tk :: tk in m <==> tk != "" && tk in tickets && Subject(records, raw, tickets, tk, |raw|) != ""
    ensures forall tk :: tk in m ==> m[tk] == ThemeOf(Subject(records, raw, tickets, tk, |raw|))
  {
    hide Subject, ThemeOf;
    assert tickets[..|raw|] == tickets;
  }

  /** The scan for the ticket's record. */
  method Scan(records: seq<Record>, tk: string) returns (intent: string)
    ensures intent == RecordIntent(records, tk)
  {
    intent := "";
    var i := 0;
    while i < |records|
      invariant 0 <= i <= |records|
      invariant intent == "" && RecordIntent(records, tk) == RecordIntent(records[i..], tk)
    {
      if records[i].id == tk {
        intent := records[i].intent;
        return;
      }
      i := i + 1;
    }
  }

  lemma NotSeen(raw: seq<string>, tickets: seq<string>, tk: string, n: nat)
    requires n <= |raw| == |tickets|
    ensures tk !in tickets[..n] ==> FirstRaw(raw, tickets, tk, n) == ""
  {
    if n > 0 {
      NotSeen(raw, tickets, tk, n - 1);
      assert tickets[..n] == tickets[..n - 1] + [tickets[n - 1]];
    }
  }

  // ---------------------------------------------------------------- spreading themes

  /** The theme a step has by itself: its ticket's, else its own intent's, else none. */
  function Own(m: map<string, string>, raw: seq<string>, tickets: seq<string>, i: nat): string
    requires i < |raw| == |tickets|
  {
    if tickets[i] in m then m[tickets[i]] else if raw[i] != "" then ThemeOf(raw[i]) else ""
  }

  /** Step `j` is the nearest step at or before `i` with a theme of its own. */
  ghost predicate NearestBefore(m: map<string, string>, raw: seq<string>, tickets: seq<string>, i: nat, j: nat)
    requires i < |raw| == |tickets|
  {
    j <= i && Own(m, raw, tickets, j) != "" && forall k :: j < k <= i ==> Own(m, raw, tickets, k) == ""
  }

  ghost predicate NoneUpTo(m: map<string, string>, raw: seq<string>, tickets: seq<string>, i: nat)
    requires i <= |raw| == |tickets|
  {
    forall k :: 0 <= k < i ==> Own(m, raw, tickets, k) == ""
  }

  /** The closed form of the pass: a step takes the nearest own theme at or before it, else the first
      one after it, else General. */
  ghost predicate Spread(m: map<string, string>, raw: seq<string>, tickets: seq<string>, i: nat, th: string)
    requires i < |raw| == |tickets|
  {
    && (forall j :: NearestBefore(m, raw, tickets, i, j) ==> th == Own(m, raw, tickets, j))
    && (forall j :: i < j < |raw| && NoneUpTo(m, raw, tickets, j) && Own(m, raw, tickets, j) != "" ==>
          th == Own(m, raw, tickets, j))
    && (NoneUpTo(m, raw, tickets, |raw|) ==> th == "general")
  }

  /** Every step falls under exactly one of the three cases, so the closed form determines the theme. */
  lemma {:induction false} SpreadDetermines(m: map<string, string>, raw: seq<string>, tickets: seq<string>, i: nat,
                                           th: string, th': string)
    requires i < |raw| == |tickets|
    requires Spread(m, raw, tickets, i, th) && Spread(m, raw, tickets, i, th')
    ensures th == th'
  {
    if NoneUpTo(m, raw, tickets, i + 1) {
      if !NoneUpTo(m, raw, tickets, |raw|) {
        var j := FirstOwn(m, raw, tickets);
      }
    } else {
      var j := LastOwn(m, raw, tickets, i);
    }
  }

  lemma FirstOwn(m: map<string, string>, raw: seq<string>, tickets: seq<string>) returns (j: nat)
    requires |raw| == |tickets| && !NoneUpTo(m, raw, tickets, |raw|)
    ensures j < |raw| && NoneUpTo(m, raw, tickets, j) && Own(m, raw, tickets, j) != ""
  {
    j := 0;
    while Own(m, raw, tickets, j) == ""
      invariant j < |raw| && NoneUpTo(m, raw, tickets, j)
      decreases |raw| - j
    {
      j := j + 1;
    }
  }

  lemma LastOwn(m: map<string, string>, raw: seq<string>, tickets: seq<string>, i: nat) returns (j: nat)
    requires i < |raw| == |tickets| && !NoneUpTo(m, raw, tickets, i + 1)
    ensures NearestBefore(m, raw, tickets, i, j)
  {
    j := i;
    while Own(m, raw, tickets, j) == ""
      invariant j <= i && (forall k :: j < k <= i ==> Own(m, raw, tickets, k) == "")
      decreases j
    {
      assert j > 0;
      j := j - 1;
    }
  }

  lemma OwnIs(m: map<string, string>, raw: seq<string>, tickets: seq<string>, i: nat)
    requires i < |raw| == |tickets|
    ensures Own(m, raw, tickets, i) == if tickets[i] in m then m[tickets[i]]
      else if raw[i] != "" then ThemeOf(raw[i]) else ""
  {
    hide ThemeOf;
  }

  /** The spreading loop. `looked` records the steps at which the look-ahead ran: only ever step 0. */
  method SpreadThemes(m: map<string, string>, raw: seq<string>, tickets: seq<string>)
    returns (themes: seq<string>, ghost looked: set<nat>)
    requires |raw| == |tickets| && forall tk :: tk in m ==> m[tk] != ""
    ensures |themes| == |raw| && forall i :: 0 <= i < |raw| ==> Spread(m, raw, tickets, i, themes[i])
    ensures forall i :: 0 <= i < |raw| ==> themes[i] != ""
    ensures looked <= {0}
  {
    hide *;
    themes, looked := [], {};
    var carried := "";
    for si := 0 to |raw|
      invariant |themes| == si && (carried == "" <==> si == 0)
      invariant si > 0 ==> carried == themes[si - 1]
      invariant forall i :: 0 <= i < si ==> Spread(m, raw, tickets, i, themes[i]) && themes[i] != ""
      invariant looked <= {0}
    {
      var th: string;
      OwnIs(m, raw, tickets, si);
      if tickets[si] in m {
        th := m[tickets[si]];
        OwnHere(m, raw, tickets, si);
      } else if raw[si] != "" {
        ThemeNeverMissing(raw[si]);
        th := ThemeOf(raw[si]);
        OwnHere(m, raw, tickets, si);
      } else if carried != "" {
        th := carried;
        Inherits(m, raw, tickets, si, carried);
      } else {
        looked := looked + {si};
        th := LookAhead(m, raw, tickets);
      }
      themes := themes + [th];
      carried := th;
    }
  }

  lemma OwnHere(m: map<string, string>, raw: seq<string>, tickets: seq<string>, i: nat)
    requires i < |raw| == |tickets| && Own(m, raw, tickets, i) != ""
    ensures Spread(m, raw, tickets, i, Own(m, raw, tickets, i))
  {
  }

  lemma Inherits(m: map<string, string>, raw: seq<string>, tickets: seq<string>, i: nat, th: string)
    requires 0 < i < |raw| == |tickets| && Own(m, raw, tickets, i) == ""
    requires Spread(m, raw, tickets, i - 1, th)
    ensures Spread(m, raw, tickets, i, th)
  {
    forall j | NearestBefore(m, raw, tickets, i, j)
      ensures th == Own(m, raw, tickets, j)
    {
      assert NearestBefore(m, raw, tickets, i - 1, j);
    }
  }

  lemma FoundAhead(m: map<string, string>, raw: seq<string>, tickets: seq<string>, sj: nat)
    requires sj < |raw| == |tickets| && NoneUpTo(m, raw, tickets, sj) && Own(m, raw, tickets, sj) != ""
    ensures sj > 0 ==> Spread(m, raw, tickets, 0, Own(m, raw, tickets, sj))
  {
    forall j | 0 < j < |raw| && NoneUpTo(m, raw, tickets, j) && Own(m, raw, tickets, j) != ""
      ensures j == sj
    {
      FirstIsUnique(m, raw, tickets, sj, j);
    }
  }

  lemma FirstIsUnique(m: map<string, string>, raw: seq<string>, tickets: seq<string>, a: nat, b: nat)
    requires a < |raw| == |tickets| && NoneUpTo(m, raw, tickets, a) && Own(m, raw, tickets, a) != ""
    requires b < |raw| && NoneUpTo(m, raw, tickets, b) && Own(m, raw, tickets, b) != ""
    ensures a == b
  {
  }

  /** The leading step with no theme of its own looks for the first one further on. */
  method LookAhead(m: map<string, string>, raw: seq<string>, tickets: seq<string>) returns (th: string)
    requires 0 < |raw| == |tickets| && Own(m, raw, tickets, 0) == "" && forall tk :: tk in m ==> m[tk] != ""
    ensures Spread(m, raw, tickets, 0, th) && th != ""
  {
    var sj := 1;
    while sj < |raw|
      invariant 1 <= sj <= |raw| && NoneUpTo(m, raw, tickets, sj)
    {
      if tickets[sj] in m || raw[sj] != "" {
        th := if tickets[sj] in m then m[tickets[sj]] else ThemeOf(raw[sj]);
        if tickets[sj] !in m {
          ThemeNeverMissing(raw[sj]);
        }
        FoundAhead(m, raw, tickets, sj);
        return;
      }
      sj := sj + 1;
    }
    th := ThemeOf("");
  }
}
