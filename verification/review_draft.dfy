/** Laying out a drafted message, and refusing one that still holds a mask. */
module ReviewDraft {
  import opened Options
  import opened Texts

  const CLOSERS := ["Thank you for your patience.", "Thank you for banking with us.", "Thank you for your time."]

  function FirstComma(text: string): (c: nat)
    ensures c <= |text| && (c < |text| ==> text[c] == ',')
  {
    if text == "" || text[0] == ',' then 0 else 1 + FirstComma(text[1..])
  }

  predicate IsGreeting(head: string) {
    |head| <= 60 && ("hi" <= Lower(head) || "hello" <= Lower(head) || "dear" <= Lower(head))
  }

  predicate Greets(text: string) {
    FirstComma(text) < |text| && IsGreeting(text[..FirstComma(text)])
  }

  predicate SmallLetter(c: char) {
    'a' <= c <= 'z'
  }

  function UpperChar(c: char): char
    requires SmallLetter(c)
  {
    c - 32 as char
  }

  function Capital(s: string): string {
    if s != "" && SmallLetter(s[0]) then [UpperChar(s[0])] + s[1..] else s
  }

  predicate EndsWith(s: string, t: string) {
    |t| <= |s| && s[|s| - |t|..] == t
  }

  function Opening(text: string): seq<string> {
    if Greets(text) then [text[..FirstComma(text) + 1]] else []
  }

  function Body(text: string): string {
    if Greets(text) then Capital(Strip(text[FirstComma(text) + 1..])) else text
  }

  /** The first of the closers that ends the text. */
  function CloserOf(rest: string, k: nat): Option<string>
    requires k <= |CLOSERS|
    decreases |CLOSERS| - k
  {
    if k == |CLOSERS| then None else if EndsWith(rest, CLOSERS[k]) then Some(CLOSERS[k]) else CloserOf(rest, k + 1)
  }

  function Closed(rest: string): seq<string> {
    match CloserOf(rest, 0)
    case Some(c) => if |c| <= |rest| then [Strip(rest[..|rest| - |c|]), c] else []
    case None => [rest]
  }

  function NonEmpty(parts: seq<string>): seq<string> {
    if parts == [] then [] else (if parts[0] != "" then [parts[0]] else []) + NonEmpty(parts[1..])
  }

  function Joined(parts: seq<string>): string {
    if parts == [] then "" else if |parts| == 1 then parts[0] else parts[0] + "\n\n" + Joined(parts[1..])
  }

  function Parts(text: string): seq<string> {
    NonEmpty(Opening(text) + Closed(Body(text)))
  }

  function Paragraphs(text: string): string {
    if '\n' in text then text else Joined(Parts(text))
  }

  /** The loop over the closers. */
  method LayOut(text: string) returns (r: string)
    ensures r == Paragraphs(text)
  {
    hide Closed, Capital, IsGreeting, Strip, EndsWith;
    if '\n' in text {
      return text;
    }
    var parts: seq<string>, rest := [], text;
    var c := FirstComma(text);
    if c < |text| && IsGreeting(text[..c]) {
      parts, rest := [text[..c + 1]], Capital(Strip(text[c + 1..]));
    }
    assert parts == Opening(text) && rest == Body(text);
    for k := 0 to |CLOSERS|
      invariant CloserOf(rest, 0) == CloserOf(rest, k)
    {
      if EndsWith(rest, CLOSERS[k]) {
        ClosedBy(rest, CLOSERS[k]);
        rest := Strip(rest[..|rest| - |CLOSERS[k]|]);
        parts := parts + if rest != "" then [rest, CLOSERS[k]] else [CLOSERS[k]];
        NonEmptyClosed(Opening(text), rest, CLOSERS[k]);
        return Joined(NonEmpty(parts));
      }
    }
    NotClosed(rest);
    r := Joined(NonEmpty(parts + [rest]));
  }

  lemma ClosedBy(rest: string, c: string)
    requires EndsWith(rest, c)
    ensures |c| <= |rest| && (CloserOf(rest, 0) == Some(c) ==> Closed(rest) == [Strip(rest[..|rest| - |c|]), c])
  {
    hide Strip, CloserOf;
  }

  lemma NotClosed(rest: string)
    ensures CloserOf(rest, 0) == None ==> Closed(rest) == [rest]
  {
    hide CloserOf;
  }

  lemma {:induction false} NonEmptyConcat(a: seq<string>, b: seq<string>)
    ensures NonEmpty(a + b) == NonEmpty(a) + NonEmpty(b)
  {
    if a == [] {
      assert a + b == b;
    } else {
      assert (a + b)[1..] == a[1..] + b && (a + b)[0] == a[0];
      NonEmptyConcat(a[1..], b);
    }
  }

  lemma NonEmptyClosed(a: seq<string>, rest: string, c: string)
    ensures NonEmpty(a + [rest, c]) == NonEmpty(a + if rest != "" then [rest, c] else [c])
  {
    NonEmptyConcat(a, [rest, c]);
    NonEmptyConcat(a, [c]);
    assert [rest, c][1..] == [c];
  }

  // ---- Nothing is lost ----

  /** The text without its blanks. */
  function Squeeze(s: string): string {
    if s == "" then "" else Visible(s[0]) + Squeeze(s[1..])
  }

  function Visible(c: char): string {
    if IsSpace(c) then "" else [c]
  }

  lemma {:induction false} SqueezeConcat(a: string, b: string)
    ensures Squeeze(a + b) == Squeeze(a) + Squeeze(b)
  {
    hide Visible;
    if a == "" {
      assert a + b == b;
    } else {
      assert (a + b)[1..] == a[1..] + b && (a + b)[0] == a[0];
      SqueezeConcat(a[1..], b);
    }
  }

  lemma {:induction false} SqueezeLeft(s: string)
    ensures Squeeze(StripLeft(s)) == Squeeze(s)
  {
    if s != "" && IsSpace(s[0]) {
      SqueezeLeft(s[1..]);
    }
  }

  lemma {:induction false} SqueezeRight(s: string)
    ensures Squeeze(StripRight(s)) == Squeeze(s)
  {
    if s != "" && IsSpace(s[|s| - 1]) {
      SqueezeRight(s[..|s| - 1]);
      SqueezeConcat(s[..|s| - 1], [s[|s| - 1]]);
      assert s == s[..|s| - 1] + [s[|s| - 1]];
    }
  }

  lemma SqueezeStrip(s: string)
    ensures Squeeze(Strip(s)) == Squeeze(s)
  {
    SqueezeLeft(s);
    SqueezeRight(StripLeft(s));
  }

  function SqueezeAll(parts: seq<string>): string {
    if parts == [] then "" else Squeeze(parts[0]) + SqueezeAll(parts[1..])
  }

  lemma BlankLine()
    ensures Squeeze("\n\n") == ""
  {
    assert "\n\n"[1..] == "\n" && "\n"[1..] == "";
  }

  lemma JoinedIs(parts: seq<string>)
    ensures Joined(parts) == if parts == [] then "" else if |parts| == 1 then parts[0]
      else parts[0] + "\n\n" + Joined(parts[1..])
    ensures SqueezeAll(parts) == if parts == [] then "" else Squeeze(parts[0]) + SqueezeAll(parts[1..])
  {
    hide Squeeze;
  }

  lemma {:induction false} SqueezeJoined(parts: seq<string>)
    ensures Squeeze(Joined(parts)) == SqueezeAll(parts)
  {
    hide *;
    JoinedIs(parts);
    BlankLine();
    SqueezeTwo("", "");
    if |parts| == 1 {
      assert parts[1..] == [];
      JoinedIs([]);
    } else if parts != [] {
      SqueezeJoined(parts[1..]);
      SqueezeConcat(parts[0] + "\n\n", Joined(parts[1..]));
      SqueezeConcat(parts[0], "\n\n");
    } else {
      EmptySqueeze();
    }
  }

  lemma EmptySqueeze()
    ensures Squeeze("") == ""
  {
  }

  lemma {:induction false} SqueezeNonEmpty(parts: seq<string>)
    ensures SqueezeAll(NonEmpty(parts)) == SqueezeAll(parts)
  {
    if parts != [] {
      SqueezeNonEmpty(parts[1..]);
      var rest := NonEmpty(parts[1..]);
      assert parts[0] != "" ==> ([parts[0]] + rest)[1..] == rest;
      assert parts[0] == "" ==> NonEmpty(parts) == rest;
    }
  }

  lemma {:induction false} SqueezeAllConcat(a: seq<string>, b: seq<string>)
    ensures SqueezeAll(a + b) == SqueezeAll(a) + SqueezeAll(b)
  {
    if a == [] {
      assert a + b == b;
    } else {
      assert (a + b)[1..] == a[1..] + b && (a + b)[0] == a[0];
      SqueezeAllConcat(a[1..], b);
    }
  }

  lemma CloserEnds(rest: string, k: nat)
    requires k <= |CLOSERS|
    ensures CloserOf(rest, k).Some? ==> EndsWith(rest, CloserOf(rest, k).value)
    decreases |CLOSERS| - k
  {
    hide EndsWith;
  }

  lemma SqueezeTwo(a: string, b: string)
    ensures SqueezeAll([a, b]) == Squeeze(a) + Squeeze(b) && SqueezeAll([a]) == Squeeze(a) && SqueezeAll([]) == ""
  {
    hide Squeeze;
    assert [b][1..] == [] && [a][1..] == [];
    assert SqueezeAll([b]) == Squeeze(b) && SqueezeAll([a]) == Squeeze(a);
    assert [a, b][1..] == [b];
  }

  lemma ClosedIs(rest: string)
    ensures CloserOf(rest, 0) == None ==> Closed(rest) == [rest]
    ensures CloserOf(rest, 0).Some? ==> var c := CloserOf(rest, 0).value;
              |c| <= |rest| && rest == rest[..|rest| - |c|] + c && Closed(rest) == [Strip(rest[..|rest| - |c|]), c]
  {
    hide Strip, CloserOf;
    CloserEnds(rest, 0);
  }

  lemma SqueezeClosed(rest: string)
    ensures SqueezeAll(Closed(rest)) == Squeeze(rest)
  {
    hide *;
    ClosedIs(rest);
    SqueezeTwo(rest, "");
    if CloserOf(rest, 0).Some? {
      var c := CloserOf(rest, 0).value;
      var front := rest[..|rest| - |c|];
      SqueezeConcat(front, c);
      SqueezeStrip(front);
      SqueezeTwo(Strip(front), c);
    }
  }

  /** The same text, or the same but for one small letter made a capital. */
  predicate OneCapital(a: string, b: string) {
    b == a || exists i :: 0 <= i < |a| && SmallLetter(a[i]) && b == a[i := UpperChar(a[i])]
  }

  lemma SqueezeCapital(s: string)
    requires s != "" ==> !IsSpace(s[0])
    ensures Squeeze(Capital(s)) == Squeeze(s)
         || (Squeeze(s) != "" && SmallLetter(Squeeze(s)[0]) &&
           Squeeze(Capital(s)) == Squeeze(s)[0 := UpperChar(Squeeze(s)[0])])
  {
    if s != "" && SmallLetter(s[0]) {
      assert Capital(s)[1..] == s[1..];
    }
  }

  lemma OneCapitalAfter(a: string, b: string)
    requires b != "" && SmallLetter(b[0])
    ensures OneCapital(a + b, a + b[0 := UpperChar(b[0])])
  {
    hide SmallLetter, UpperChar;
    assert (a + b)[|a|] == b[0];
    assert a + b[0 := UpperChar(b[0])] == (a + b)[|a| := UpperChar((a + b)[|a|])];
  }

  lemma GreetingIs(text: string)
    ensures !Greets(text) ==> Opening(text) == [] && Body(text) == text
    ensures Greets(text) ==> var c := FirstComma(text);
              c < |text| && text == text[..c + 1] + text[c + 1..]
              && Opening(text) == [text[..c + 1]] && Body(text) == Capital(Strip(text[c + 1..]))
  {
    hide Strip, Capital, IsGreeting;
  }

  lemma SqueezeBody(text: string)
    ensures OneCapital(Squeeze(text), SqueezeAll(Opening(text)) + Squeeze(Body(text)))
  {
    hide *;
    GreetingIs(text);
    Same(Squeeze(text));
    SqueezeTwo("", "");
    if Greets(text) {
      var head, tail := text[..FirstComma(text) + 1], text[FirstComma(text) + 1..];
      SqueezeTwo(head, "");
      SqueezeConcat(head, tail);
      SqueezeStrip(tail);
      StripEnds(tail);
      SqueezeCapital(Strip(tail));
      if Squeeze(Body(text)) != Squeeze(tail) {
        OneCapitalAfter(Squeeze(head), Squeeze(tail));
      }
    } else {
      assert "" + Squeeze(text) == Squeeze(text);
    }
  }

  /** The layout moves blanks only: every other character stays, in order, but for one letter
      that may become a capital. */
  lemma LayoutKeepsText(text: string)
    ensures OneCapital(Squeeze(text), Squeeze(Paragraphs(text)))
  {
    hide Opening, Closed, Body, NonEmpty, OneCapital;
    if '\n' in text {
      Same(Squeeze(text));
    } else {
      SqueezeJoined(Parts(text));
      SqueezeNonEmpty(Opening(text) + Closed(Body(text)));
      SqueezeAllConcat(Opening(text), Closed(Body(text)));
      SqueezeClosed(Body(text));
      SqueezeBody(text);
    }
  }

  lemma Same(a: string)
    ensures OneCapital(a, a)
  {
  }

  // ---- Laying out twice ----

  lemma {:induction false} JoinedLines(parts: seq<string>)
    requires |parts| > 1
    ensures '\n' in Joined(parts)
  {
    var t := Joined(parts);
    assert t[|parts[0]|] == '\n';
  }

  lemma {:induction false} CommaCut(text: string)
    requires FirstComma(text) < |text|
    ensures FirstComma(text[..FirstComma(text) + 1]) == FirstComma(text)
  {
    if text[0] != ',' {
      CommaCut(text[1..]);
      assert text[..FirstComma(text) + 1][1..] == text[1..][..FirstComma(text[1..]) + 1];
    }
  }

  lemma CloserAlone(c: string)
    requires c in CLOSERS
    ensures Parts(c) == [c]
  {
    hide *;
    CloserPlain(c);
    GreetingIs(c);
    ClosedIs(c);
    EmptyStrip();
    assert c[..|c| - |c|] == "";
    SingleNonEmpty(c);
    PartsIs(c);
    assert [] + ["", c] == ["", c];
  }

  lemma PartsIs(text: string)
    ensures Parts(text) == NonEmpty(Opening(text) + Closed(Body(text)))
  {
    hide NonEmpty, Opening, Closed, Body;
  }

  lemma EmptyStrip()
    ensures Strip("") == "" && Capital("") == "" && CloserOf("", 0) == None
  {
  }

  lemma SingleNonEmpty(c: string)
    requires c != ""
    ensures NonEmpty(["", c]) == [c] && NonEmpty([c, ""]) == [c] && NonEmpty([c]) == [c] && NonEmpty([""]) == []
  {
    assert [c][1..] == [] && [""][1..] == [];
    assert NonEmpty([c]) == [c] && NonEmpty([""]) == [];
    assert ["", c][1..] == [c] && [c, ""][1..] == [""];
  }

  lemma {:induction false} NoComma(s: string)
    requires ',' !in s
    ensures FirstComma(s) == |s|
  {
    if s != "" {
      NoComma(s[1..]);
    }
  }

  lemma EndsApart(s: string, t: string, k: nat)
    requires k < |t| <= |s| && s[|s| - 1 - k] != t[|t| - 1 - k]
    ensures !EndsWith(s, t)
  {
  }

  lemma CloserIsItself(c: string)
    requires c in CLOSERS
    ensures CloserOf(c, 0) == Some(c) && c != ""
  {
    hide EndsWith;
    assert forall t <- CLOSERS :: EndsWith(t, t) by { EndsAll(); }
    EndsShort(CLOSERS[2], CLOSERS[0]);
    EndsShort(CLOSERS[2], CLOSERS[1]);
    EndsApart(CLOSERS[1], CLOSERS[0], 1);
  }

  lemma EndsAll()
    ensures forall t <- CLOSERS :: EndsWith(t, t)
  {
    hide CLOSERS;
  }

  lemma EndsShort(s: string, t: string)
    requires |s| < |t|
    ensures !EndsWith(s, t)
  {
  }

  lemma CloserPlain(c: string)
    requires c in CLOSERS
    ensures !Greets(c) && CloserOf(c, 0) == Some(c) && c != "" && '\n' !in c
  {
    hide CloserOf, EndsWith, IsGreeting;
    CloserIsItself(c);
    CloserChars(c);
    NoComma(c);
  }

  lemma CloserChars(c: string)
    requires c in CLOSERS
    ensures ',' !in c && '\n' !in c
  {
    assert c == CLOSERS[0] || c == CLOSERS[1] || c == CLOSERS[2];
    assert forall k :: 0 <= k < |c| ==> c[k] != ',' && c[k] != '\n';
  }

  lemma GreetingAlone(text: string)
    requires Greets(text)
    ensures Parts(text[..FirstComma(text) + 1]) == [text[..FirstComma(text) + 1]]
  {
    hide *;
    GreetingIs(text);
    var head := text[..FirstComma(text) + 1];
    HeadGreets(text);
    GreetingIs(head);
    EmptyStrip();
    assert head[FirstComma(head) + 1..] == "" && head[..FirstComma(head) + 1] == head;
    ClosedIs("");
    PartsIs(head);
    SingleNonEmpty(head);
    assert [head] + [""] == [head, ""];
  }

  lemma HeadGreets(text: string)
    requires Greets(text)
    ensures var head := text[..FirstComma(text) + 1]; Greets(head) && FirstComma(head) == |head| - 1
  {
    hide IsGreeting;
    CommaCut(text);
    assert text[..FirstComma(text) + 1][..FirstComma(text)] == text[..FirstComma(text)];
  }

  /** A layout of one part is the part it is made of. */
  lemma OnePartAgain(text: string)
    requires |Parts(text)| == 1
    ensures Parts(Parts(text)[0]) == Parts(text)
  {
    hide *;
    PartsIs(text);
    GreetingIs(text);
    ClosedIs(Body(text));
    var closed := Closed(Body(text));
    NonEmptyConcat(Opening(text), closed);
    if Greets(text) {
      var head := text[..FirstComma(text) + 1];
      SingleNonEmpty(head);
      ClosedParts(Body(text));
      GreetingAlone(text);
    } else {
      assert [] + closed == closed;
      ClosedParts(text);
      if CloserOf(text, 0).Some? {
        CloserAlone(CloserOf(text, 0).value);
      }
    }
  }

  /** The closed part of a text: the text itself, or a closer with or without words before it. */
  lemma ClosedParts(rest: string)
    ensures var c := CloserOf(rest, 0);
            && (c.Some? ==> c.value in CLOSERS)
            && (c.None? ==> NonEmpty(Closed(rest)) == if rest == "" then [] else [rest])
            && (c.Some? ==> NonEmpty(Closed(rest)) == [c.value] || |NonEmpty(Closed(rest))| == 2)
  {
    hide *;
    ClosedIs(rest);
    CloserListed(rest, 0);
    if CloserOf(rest, 0).None? {
      EmptyAlone();
      if rest != "" {
        SingleNonEmpty(rest);
      }
    } else {
      var c := CloserOf(rest, 0).value;
      CloserPlain(c);
      TwoNonEmpty(Strip(rest[..|rest| - |c|]), c);
    }
  }

  lemma EmptyAlone()
    ensures NonEmpty([""]) == [] && NonEmpty([]) == []
  {
    assert [""][1..] == [];
  }

  lemma TwoNonEmpty(a: string, c: string)
    requires c != ""
    ensures NonEmpty([a, c]) == if a == "" then [c] else [a, c]
  {
    SingleNonEmpty(c);
    assert [a, c][1..] == [c];
  }

  lemma CloserListed(rest: string, k: nat)
    requires k <= |CLOSERS|
    ensures CloserOf(rest, k).Some? ==> CloserOf(rest, k).value in CLOSERS
    decreases |CLOSERS| - k
  {
    hide EndsWith;
  }

  lemma ParagraphsIs(text: string)
    ensures Paragraphs(text) == if '\n' in text then text else Joined(Parts(text))
  {
    hide Parts, Joined;
  }

  /** Laying out a laid-out message changes nothing. */
  lemma LayoutTwice(text: string)
    ensures Paragraphs(Paragraphs(text)) == Paragraphs(text)
  {
    hide *;
    var once := Paragraphs(text);
    ParagraphsIs(text);
    ParagraphsIs(once);
    JoinedIs(Parts(text));
    if '\n' !in text {
      if |Parts(text)| > 1 {
        JoinedLines(Parts(text));
      } else if |Parts(text)| == 1 {
        OnePartAgain(text);
      } else {
        NothingLaidOut();
      }
    }
  }

  lemma NothingLaidOut()
    ensures Joined(Parts("")) == ""
  {
    EmptyStrip();
    EmptyAlone();
    assert [] + [""] == [""];
  }

  // ---- Masks ----

  const MASKS := ["name", "phone", "email", "account", "card", "aadhaar", "pan"]

  predicate AllDigits(s: string) {
    s != "" && forall k :: 0 <= k < |s| ==> IsDigit(s[k])
  }

  /** `[NAME_1]` and its like, in any case. */
  predicate IsMask(t: string) {
    && |t| >= 2 && t[0] == '[' && t[|t| - 1] == ']'
    && exists m <- MASKS ::
         |m| + 3 < |t| && Lower(t[1..1 + |m|]) == m && t[1 + |m|] == '_' && AllDigits(t[2 + |m|..|t| - 1])
  }

  predicate HasMask(s: string) {
    exists i, j :: 0 <= i < j <= |s| && IsMask(s[i..j])
  }

  lemma MaskLetters(m: string)
    requires m in MASKS
    ensures forall k :: 0 <= k < |m| ==> SmallLetter(m[k])
  {
  }

  /** A mask begins with a bracket and holds no line break, so a layout can neither split nor
      make one. */
  lemma MaskShape(t: string)
    requires IsMask(t)
    ensures t != "" && t[0] == '[' && '\n' !in t
  {
    hide AllDigits;
    var m :| m in MASKS && |m| + 3 < |t| && Lower(t[1..1 + |m|]) == m && t[1 + |m|] == '_' &&
      AllDigits(t[2 + |m|..|t| - 1]);
    MaskChars(t, m);
  }

  lemma MaskChars(t: string, m: string)
    requires m in MASKS && |m| + 3 < |t| && Lower(t[1..1 + |m|]) == m && t[1 + |m|] == '_' &&
      AllDigits(t[2 + |m|..|t| - 1])
    requires t[0] == '[' && t[|t| - 1] == ']'
    ensures '\n' !in t
  {
    hide MASKS;
    MaskLetters(m);
    forall k | 0 <= k < |t| ensures t[k] != '\n' {
      if 1 <= k < 1 + |m| {
        assert Lower(t[1..1 + |m|])[k - 1] == LowerChar(t[k]) == m[k - 1];
      } else if 2 + |m| <= k < |t| - 1 {
        assert t[2 + |m|..|t| - 1][k - 2 - |m|] == t[k];
      }
    }
  }

  lemma SliceOfSlice(s: string, i: nat, j: nat, a: nat, b: nat)
    requires i <= j <= |s| && a <= b <= j - i
    ensures s[i..j][a..b] == s[i + a..i + b]
  {
    forall k | 0 <= k < b - a ensures s[i..j][a..b][k] == s[i + a..i + b][k] {
    }
  }

  lemma SliceAt(s: string, i: nat, j: nat, k: nat)
    requires i <= k < j <= |s|
    ensures s[i..j][k - i] == s[k]
  {
  }

  /** A slice behind a prefix is a slice of what follows it, one before a suffix of what precedes. */
  lemma SliceBehind(p: string, b: string, i: nat, j: nat)
    requires |p| <= i <= j <= |p| + |b|
    ensures (p + b)[i..j] == b[i - |p|..j - |p|]
  {
  }

  lemma SliceBefore(a: string, q: string, i: nat, j: nat)
    requires i <= j <= |a|
    ensures (a + q)[i..j] == a[i..j]
  {
  }

  lemma MaskWithin(s: string, i: nat, j: nat)
    requires i <= j <= |s| && HasMask(s[i..j])
    ensures HasMask(s)
  {
    hide IsMask;
    var t := s[i..j];
    var a, b :| 0 <= a < b <= |t| && IsMask(t[a..b]);
    SliceOfSlice(s, i, j, a, b);
  }

  lemma MaskInPart(a: string, b: string)
    requires HasMask(a + "\n\n" + b)
    ensures HasMask(a) || HasMask(b)
  {
    hide IsMask;
    var p := a + "\n\n";
    var s := p + b;
    var i, j :| 0 <= i < j <= |s| && IsMask(s[i..j]);
    MaskShape(s[i..j]);
    if j <= |a| {
      SliceBefore(p, b, i, j);
      SliceBefore(a, "\n\n", i, j);
    } else if i >= |p| {
      SliceBehind(p, b, i, j);
    } else {
      SliceAt(s, i, j, if i <= |a| then |a| else |a| + 1);
      assert false;
    }
  }

  lemma {:induction false} MaskInJoined(parts: seq<string>)
    requires HasMask(Joined(parts))
    ensures exists k :: 0 <= k < |parts| && HasMask(parts[k])
  {
    hide HasMask, Joined;
    JoinedIs(parts);
    if parts == [] {
      NoMaskInNothing();
    } else if |parts| == 1 {
      assert HasMask(parts[0]);
    } else {
      MaskInPart(parts[0], Joined(parts[1..]));
      if HasMask(Joined(parts[1..])) {
        MaskInJoined(parts[1..]);
        var k :| 0 <= k < |parts[1..]| && HasMask(parts[1..][k]);
        assert parts[k + 1] == parts[1..][k];
      } else {
        assert HasMask(parts[0]);
      }
    }
  }

  lemma NoMaskInNothing()
    ensures !HasMask("")
  {
  }

  lemma MaskInCapital(s: string)
    requires HasMask(Capital(s))
    ensures HasMask(s)
  {
    hide IsMask;
    var t := Capital(s);
    var i, j :| 0 <= i < j <= |t| && IsMask(t[i..j]);
    MaskShape(t[i..j]);
    SliceAt(t, i, j, i);
    assert t == s || i > 0;
    assert t[i..j] == s[i..j];
  }

  lemma MaskInStrip(s: string)
    requires HasMask(Strip(s))
    ensures HasMask(s)
  {
    hide *;
    StripEnds(s);
    var l, t := StripLeft(s), Strip(s);
    assert t == l[0..|t|];
    MaskWithin(l, 0, |t|);
    assert l == s[|s| - |l|..|s|];
    MaskWithin(s, |s| - |l|, |s|);
  }

  lemma {:induction false} NonEmptyFrom(parts: seq<string>, p: string)
    requires p in NonEmpty(parts)
    ensures p in parts
  {
    if parts != [] && (parts[0] == "" || p != parts[0]) {
      assert p in NonEmpty(parts[1..]);
      NonEmptyFrom(parts[1..], p);
    }
  }

  lemma CloserNoMask(c: string)
    requires c in CLOSERS
    ensures !HasMask(c)
  {
    hide IsMask;
    assert forall k :: 0 <= k < |c| ==> c[k] != '[' by { CloserBrackets(c); }
    if HasMask(c) {
      var i, j :| 0 <= i < j <= |c| && IsMask(c[i..j]);
      MaskShape(c[i..j]);
      SliceAt(c, i, j, i);
    }
  }

  lemma CloserBrackets(c: string)
    requires c in CLOSERS
    ensures forall k :: 0 <= k < |c| ==> c[k] != '['
  {
    assert c == CLOSERS[0] || c == CLOSERS[1] || c == CLOSERS[2];
  }

  lemma MaskInParts(text: string, p: string)
    requires p in Parts(text) && HasMask(p)
    ensures HasMask(text)
  {
    hide *;
    PartsIs(text);
    NonEmptyFrom(Opening(text) + Closed(Body(text)), p);
    GreetingIs(text);
    ClosedIs(Body(text));
    CloserListed(Body(text), 0);
    var rest := Body(text);
    if Greets(text) && p == text[..FirstComma(text) + 1] {
      assert p == text[0..FirstComma(text) + 1];
      MaskWithin(text, 0, FirstComma(text) + 1);
    } else {
      if CloserOf(rest, 0).Some? {
        var c := CloserOf(rest, 0).value;
        CloserNoMask(c);
        MaskInStrip(rest[..|rest| - |c|]);
        assert rest[..|rest| - |c|] == rest[0..|rest| - |c|];
        MaskWithin(rest, 0, |rest| - |c|);
      }
      assert HasMask(rest);
      if Greets(text) {
        var tail := text[FirstComma(text) + 1..];
        MaskInCapital(Strip(tail));
        MaskInStrip(tail);
        assert tail == text[FirstComma(text) + 1..|text|];
        MaskWithin(text, FirstComma(text) + 1, |text|);
      }
    }
  }

  /** The layout never makes a mask. */
  lemma LayoutMakesNoMask(text: string)
    requires HasMask(Paragraphs(text))
    ensures HasMask(text)
  {
    hide *;
    ParagraphsIs(text);
    if '\n' !in text {
      MaskInJoined(Parts(text));
      var k :| 0 <= k < |Parts(text)| && HasMask(Parts(text)[k]);
      MaskInParts(text, Parts(text)[k]);
    }
  }

  const DRAFT_CHARS := 900

  /** A draft fit to send, or nothing. */
  function CleanDraft(value: string): string {
    var text := Strip(value);
    if text == "" || HasMask(text) then ""
    else
      var laid := Paragraphs(text);
      if |laid| <= DRAFT_CHARS then laid else laid[..DRAFT_CHARS]
  }

  /** Whatever the model wrote: what survives is short and free of masks, and nothing survives
      exactly when there was nothing, or a mask, to begin with. */
  lemma CleanDraftIsSafe(value: string)
    ensures |CleanDraft(value)| <= DRAFT_CHARS && !HasMask(CleanDraft(value))
    ensures CleanDraft(value) == "" <==> Strip(value) == "" || HasMask(Strip(value))
  {
    hide *;
    var text := Strip(value);
    CleanDraftIs(value);
    NoMaskInNothing();
    if text != "" && !HasMask(text) {
      var laid := Paragraphs(text);
      if HasMask(laid) {
        LayoutMakesNoMask(text);
      }
      if |laid| > DRAFT_CHARS && HasMask(laid[..DRAFT_CHARS]) {
        assert laid[..DRAFT_CHARS] == laid[0..DRAFT_CHARS];
        MaskWithin(laid, 0, DRAFT_CHARS);
      }
      StripTrims(value);
      LaidOutText(text);
    }
  }

  lemma StripTrims(s: string)
    ensures Trimmed(Strip(s))
  {
    hide Strip;
    StripEnds(s);
  }

  lemma CleanDraftIs(value: string)
    ensures var text := Strip(value);
            CleanDraft(value) == if text == "" || HasMask(text) then ""
                                 else if |Paragraphs(text)| <= DRAFT_CHARS then Paragraphs(text)
                                   else Paragraphs(text)[..DRAFT_CHARS]
    ensures DRAFT_CHARS == 900
  {
    hide Strip, HasMask, Paragraphs;
  }

  /** A message of something does not become a message of nothing. */
  lemma LaidOutText(text: string)
    requires Trimmed(text) && text != ""
    ensures Paragraphs(text) != ""
  {
    hide Paragraphs;
    LayoutKeepsText(text);
    assert Squeeze(text) != "";
  }
}
