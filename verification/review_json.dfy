/** Cutting JSON out of a model's answer, and reading values out of it. */
module ReviewJson {
  import opened Options
  import opened Texts

  datatype Json =
    | Null | Bool(b: bool) | Num(n: real) | Str(s: string) | Arr(items: seq<Json>) | Obj(fields: map<string, Json>)

  /** What `float` makes of a value: a number, an error that is caught, or the error of an integer
      too large for a float, which is not. */
  datatype Reading = Value(x: real) | NoNumber | TooLarge

  /** What Python brings: writing out a value that is not text, `float`, `json.loads` with None for
      its errors, and `json.dumps`. */
  datatype Coercions = Coercions(show: Json -> string, number: Json -> Reading, loads: string -> Option<Json>,
    dumps: Json -> string)

  /** What is used of the JSON format: a list is written between brackets and an object between
      braces, and what starts with a bracket is a list or no JSON. */
  ghost predicate Format(co: Coercions) {
    && (forall items :: Fenced(co.dumps(Arr(items)), '[', ']'))
    && (forall fields :: Fenced(co.dumps(Obj(fields)), '{', '}'))
    && (forall t :: t != "" && t[0] == '[' && co.loads(t).Some? ==> co.loads(t).value.Arr?)
  }

  /** Written out and decoded, a value comes back: so it is with every value that JSON can write. */
  predicate RoundTrips(co: Coercions, j: Json) {
    co.loads(co.dumps(j)) == Some(j)
  }

  predicate Fenced(t: string, open: char, close: char) {
    |t| >= 2 && t[0] == open && t[|t| - 1] == close
  }

  predicate Truthy(j: Json) {
    match j
    case Null => false
    case Bool(b) => b
    case Num(n) => n != 0.0
    case Str(s) => s != ""
    case Arr(items) => items != []
    case Obj(fields) => fields != map[]
  }

  function Get(j: Json, key: string): Json
    requires j.Obj?
  {
    if key in j.fields then j.fields[key] else Null
  }

  // ---- `find`, `rfind` and what lies between ----

  function Find(s: string, c: char): (i: int)
    ensures -1 <= i < |s| && (i == -1 <==> c !in s)
    ensures i != -1 ==> s[i] == c && forall k :: 0 <= k < i ==> s[k] != c
  {
    if s == "" then -1
    else if s[0] == c then 0
    else
      var i := Find(s[1..], c);
      assert s == [s[0]] + s[1..];
      if i == -1 then -1 else i + 1
  }

  function RFind(s: string, c: char): (i: int)
    ensures -1 <= i < |s| && (i == -1 <==> c !in s)
    ensures i != -1 ==> s[i] == c && forall k :: i < k < |s| ==> s[k] != c
  {
    if s == "" then -1
    else if s[|s| - 1] == c then |s| - 1
    else
      assert s == s[..|s| - 1] + [s[|s| - 1]];
      RFind(s[..|s| - 1], c)
  }

  /** From the first opening mark to the last closing one, when they come in that order. */
  function Cut(s: string, open: char, close: char): Option<string> {
    var start, end := Find(s, open), RFind(s, close);
    if start == -1 || end < start then None else Some(s[start..end + 1])
  }

  /** A fenced text is cut out of anything that brings no opening mark before it and no closing
      mark after it. */
  lemma CutIs(pre: string, t: string, post: string, open: char, close: char)
    requires Fenced(t, open, close) && open !in pre && close !in post
    ensures Cut(pre + t + post, open, close) == Some(t)
  {
    hide Find, RFind;
    var s := pre + t + post;
    FindIs(s, open, |pre|);
    RFindIs(s, close, |pre| + |t| - 1);
    assert s[|pre|..|pre| + |t|] == t;
  }

  lemma FindIs(s: string, c: char, i: nat)
    requires i < |s| && s[i] == c && forall k :: 0 <= k < i ==> s[k] != c
    ensures Find(s, c) == i
  {
    hide Find;
  }

  lemma RFindIs(s: string, c: char, i: nat)
    requires i < |s| && s[i] == c && forall k :: i < k < |s| ==> s[k] != c
    ensures RFind(s, c) == i
  {
    hide RFind;
  }

  lemma Joined(a: string, s: string, b: string, c: char)
    ensures c in a + s + b <==> c in a || c in s || c in b
  {
    assert c in a + s <==> c in a || c in s;
  }

  /** Text around it without either mark changes nothing about what is cut out. */
  lemma CutPadded(a: string, s: string, b: string, open: char, close: char)
    requires open !in a && close !in a && open !in b && close !in b
    ensures Cut(a + s + b, open, close) == Cut(s, open, close)
  {
    hide Find, RFind;
    var t := a + s + b;
    var start, end := Find(s, open), RFind(s, close);
    Joined(a, s, b, open);
    Joined(a, s, b, close);
    if start != -1 && end != -1 {
      FindIs(t, open, |a| + start);
      RFindIs(t, close, |a| + end);
      if start <= end {
        assert t[|a| + start..|a| + end + 1] == s[start..end + 1];
      }
    }
  }

  // ---- The two decodings ----

  /** What the answer decodes to: from its first opening brace to its last closing one. */
  function Decoded(co: Coercions, raw: string): Option<Json> {
    match Cut(Strip(raw), '{', '}')
    case None => None
    case Some(t) => co.loads(t)
  }

  function CleanArray(text: string): string {
    match Cut(text, '[', ']')
    case None => text
    case Some(t) => t
  }

  /** `parsed.get("offers") or []`. */
  function Offered(parsed: Json): Json
    requires parsed.Obj?
  {
    if Truthy(Get(parsed, "offers")) then Get(parsed, "offers") else Arr([])
  }

  /** The offers are written out once more and decoded again, between their brackets. */
  function Again(co: Coercions, offered: Json): Option<Json> {
    co.loads(CleanArray(co.dumps(offered)))
  }

  /** Stripping takes blanks only. */
  lemma {:induction false} StripLeftBlank(s: string)
    ensures forall k :: 0 <= k < |s| - |StripLeft(s)| ==> IsSpace(s[k])
  {
    if s != "" && IsSpace(s[0]) {
      StripLeftBlank(s[1..]);
      assert forall k :: 1 <= k < |s| ==> s[k] == s[1..][k - 1];
    }
  }

  lemma {:induction false} StripRightBlank(s: string)
    ensures forall k :: |StripRight(s)| <= k < |s| ==> IsSpace(s[k])
  {
    if s != "" && IsSpace(s[|s| - 1]) {
      StripRightBlank(s[..|s| - 1]);
      assert forall k :: 0 <= k < |s| - 1 ==> s[k] == s[..|s| - 1][k];
    }
  }

  lemma StripIs(s: string) returns (a: string, b: string)
    ensures s == a + Strip(s) + b
    ensures (forall k :: 0 <= k < |a| ==> IsSpace(a[k])) && (forall k :: 0 <= k < |b| ==> IsSpace(b[k]))
  {
    hide StripLeft, StripRight;
    var t := StripLeft(s);
    a, b := s[..|s| - |t|], t[|StripRight(t)|..];
    StripLeftBlank(s);
    StripRightBlank(t);
    assert s == a + t && t == StripRight(t) + b;
  }

  /** An object is read out of an answer that wraps it in anything without braces on the outer
      sides, such as a code fence. */
  lemma ObjectReadBack(co: Coercions, pre: string, fields: map<string, Json>, post: string)
    requires Format(co) && RoundTrips(co, Obj(fields)) && '{' !in pre && '}' !in post
    ensures Decoded(co, pre + co.dumps(Obj(fields)) + post) == Some(Obj(fields))
  {
    var t := co.dumps(Obj(fields));
    var raw := pre + t + post;
    var a, b := StripIs(raw);
    CutPadded(a, Strip(raw), b, '{', '}');
    CutIs(pre, t, post, '{', '}');
  }

  /** A list of offers survives its second decoding; an object survives it exactly when its text
      holds no opening bracket before a closing one. */
  lemma OfferedAgain(co: Coercions, offered: Json)
    requires Format(co) && RoundTrips(co, offered)
    ensures offered.Arr? ==> Again(co, offered) == Some(offered)
    ensures offered.Obj? ==> (Again(co, offered) == Some(offered) <==> Cut(co.dumps(offered), '[', ']').None?)
  {
    var t := co.dumps(offered);
    if offered.Arr? {
      CutIs("", t, "", '[', ']');
      assert "" + t + "" == t;
    } else if offered.Obj? && Cut(t, '[', ']').Some? {
      var u := Cut(t, '[', ']').value;
      assert u != "" && u[0] == '[';
    }
  }

  /** A list inside an object is taken in place of the object when no bracket stands around it. */
  lemma InnerListTaken(co: Coercions, offered: Json, pre: string, items: seq<Json>, post: string)
    requires Format(co) && RoundTrips(co, Arr(items))
    requires co.dumps(offered) == pre + co.dumps(Arr(items)) + post && '[' !in pre && ']' !in post
    ensures Again(co, offered) == Some(Arr(items))
  {
    CutIs(pre, co.dumps(Arr(items)), post, '[', ']');
  }
}
