/** Substring tests, as `in` and CONTAINS make them, the order of names, and stripping. */
module Texts {

  predicate Contains(text: string, phrase: string) {
    exists i | 0 <= i <= |text| :: phrase <= text[i..]
  }

  predicate NameLess(a: string, b: string) {
    b != "" && (a == "" || a[0] < b[0] || (a[0] == b[0] && NameLess(a[1..], b[1..])))
  }

  lemma {:induction false} NameOrder(a: string, b: string, c: string)
    ensures !(NameLess(a, b) && NameLess(b, a))
    ensures NameLess(a, b) && !NameLess(c, b) ==> NameLess(a, c)
    decreases |a|
  {
    if a != "" && b != "" {
      NameOrder(a[1..], b[1..], if c != "" then c[1..] else c);
    }
  }

  function LowerChar(c: char): char {
    if 'A' <= c <= 'Z' then c + 32 as char else c
  }

  function Lower(s: string): string {
    seq(|s|, i requires 0 <= i < |s| => LowerChar(s[i]))
  }

  /** The whitespace of `str.strip` and of `\s`, within ASCII. */
  predicate IsSpace(c: char) {
    c == ' ' || '\t' <= c <= '\r' || 28 as char <= c <= 31 as char
  }

  predicate IsDigit(c: char) {
    '0' <= c <= '9'
  }

  function StripLeft(s: string): (r: string)
    ensures |r| <= |s| && r == s[|s| - |r|..]
    ensures r != "" ==> !IsSpace(r[0])
  {
    if s != "" && IsSpace(s[0]) then StripLeft(s[1..]) else s
  }

  function StripRight(s: string): (r: string)
    ensures |r| <= |s| && r == s[..|r|]
    ensures r != "" ==> !IsSpace(r[|r| - 1])
  {
    if s != "" && IsSpace(s[|s| - 1]) then StripRight(s[..|s| - 1]) else s
  }

  function Strip(s: string): string {
    StripRight(StripLeft(s))
  }

  // ---- Facts about stripping ----

  lemma StripEnds(s: string)
    ensures Strip(s) != "" ==> !IsSpace(Strip(s)[0]) && !IsSpace(Strip(s)[|Strip(s)| - 1])
    ensures |Strip(s)| <= |StripLeft(s)| && Strip(s) == StripLeft(s)[..|Strip(s)|]
  {
  }

  lemma {:induction false} StripLeftAll(s: string)
    requires forall k :: 0 <= k < |s| ==> IsSpace(s[k])
    ensures StripLeft(s) == ""
  {
    if s != "" {
      StripLeftAll(s[1..]);
    }
  }

  lemma {:induction false} StripLeftOff(a: string, s: string)
    requires forall k :: 0 <= k < |a| ==> IsSpace(a[k])
    ensures StripLeft(a + s) == StripLeft(s)
  {
    if a == "" {
      assert a + s == s;
    } else {
      assert (a + s)[1..] == a[1..] + s;
      StripLeftOff(a[1..], s);
    }
  }

  lemma {:induction false} StripRightOff(s: string, a: string)
    requires forall k :: 0 <= k < |a| ==> IsSpace(a[k])
    ensures StripRight(s + a) == StripRight(s)
  {
    if a == "" {
      assert s + a == s;
    } else {
      assert (s + a)[..|s + a| - 1] == s + a[..|a| - 1];
      StripRightOff(s, a[..|a| - 1]);
    }
  }

  /** Text already without blanks at its ends. */
  predicate Trimmed(s: string) {
    s != "" ==> !IsSpace(s[0]) && !IsSpace(s[|s| - 1])
  }

  lemma StripPadded(a: string, s: string, b: string)
    requires Trimmed(s)
    requires forall k :: 0 <= k < |a| ==> IsSpace(a[k])
    requires forall k :: 0 <= k < |b| ==> IsSpace(b[k])
    ensures Strip(a + s + b) == s
  {
    assert a + s + b == a + (s + b);
    StripLeftOff(a, s + b);
    if s == "" {
      assert s + b == b;
      StripLeftAll(b);
    } else {
      assert StripLeft(s + b) == s + b;
      StripRightOff(s, b);
    }
  }
}
