/** The line tests of the Markdown converter. A line is what `split("\n")` yields. */
module MarkdownLines {
  import opened Texts

  predicate Blank(line: string) {
    Strip(line) == ""
  }

  predicate IsFence(line: string) {
    "```" <= Strip(line)
  }

  /** `-{3,}` and its like, matched against the whole stripped line. */
  predicate RuleOf(c: char, t: string) {
    |t| >= 3 && forall k :: 0 <= k < |t| ==> t[k] == c
  }

  predicate IsRule(line: string) {
    var t := Strip(line);
    RuleOf('-', t) || RuleOf('*', t) || RuleOf('_', t)
  }

  /** Only blanks, colons, pipes and dashes, and at least one dash. */
  predicate IsSep(line: string) {
    (forall k :: 0 <= k < |line| ==> IsSpace(line[k]) || line[k] in ":|-") && '-' in line
  }

  function Hashes(t: string): (k: nat)
    ensures k <= |t|
  {
    if t != "" && t[0] == '#' then 1 + Hashes(t[1..]) else 0
  }

  /** One to four hashes and a blank after them. */
  predicate IsHeading(line: string) {
    var t := Strip(line);
    1 <= Hashes(t) <= 4 && Hashes(t) < |t| && IsSpace(t[Hashes(t)])
  }

  function Digits(t: string): (k: nat)
    ensures k <= |t|
    ensures k > 0 ==> IsDigit(t[0])
  {
    if t != "" && IsDigit(t[0]) then 1 + Digits(t[1..]) else 0
  }

  /** The length of a number and its dot at the start of `t`, or 0. */
  function OrderedMark(t: string): (k: nat)
    ensures k <= |t|
    ensures k > 0 ==> IsDigit(t[0])
  {
    var d := Digits(t);
    if d > 0 && d < |t| && t[d] == '.' then d + 1 else 0
  }

  predicate Bullet(t: string) {
    t != "" && t[0] in "-*+"
  }

  function Mark(t: string): (k: nat)
    ensures k <= |t|
  {
    if Bullet(t) then 1 else OrderedMark(t)
  }

  predicate SpaceAt(t: string, k: nat) {
    k < |t| && IsSpace(t[k])
  }

  /** Indentation, a bullet or a number with a dot, and a blank: the raw line is tested. */
  predicate IsItem(line: string) {
    var t := StripLeft(line);
    Mark(t) > 0 && SpaceAt(t, Mark(t))
  }

  predicate IsOrderedItem(line: string) {
    var t := StripLeft(line);
    OrderedMark(t) > 0 && SpaceAt(t, OrderedMark(t))
  }

  /** Which lines an inner loop goes on over. */
  datatype Mode = FenceBody | TableRows | Quoted | ItemTail | ParagraphTail

  predicate Goes(mode: Mode, line: string) {
    var t := Strip(line);
    match mode
    case FenceBody => !IsFence(line)
    case TableRows => "|" <= t
    case Quoted => ">" <= t
    case ItemTail =>
      t != "" && !IsItem(line) && !("#" <= t || "|" <= t || ">" <= t || "```" <= t) && !RuleOf('-', t)
    case ParagraphTail =>
      t != "" && !("#" <= t || "|" <= t || ">" <= t || "```" <= t || "- " <= t || "* " <= t || "+ " <= t)
      && !IsOrderedItem(line) && !RuleOf('-', t)
  }

  datatype Kind = Fence | Table | Heading | Rule | Quote | Item | Empty | Paragraph

  /** The branch the first of these lines takes; only a table looks at the next one. */
  function KindOf(s: seq<string>): Kind
    requires s != []
  {
    if IsFence(s[0]) then Fence
    else if "|" <= Strip(s[0]) && |s| > 1 && IsSep(s[1]) then Table
    else if IsHeading(s[0]) then Heading
    else if IsRule(s[0]) then Rule
    else if ">" <= Strip(s[0]) then Quote
    else if IsItem(s[0]) then Item
    else if Blank(s[0]) then Empty
    else Paragraph
  }

  /** How many lines in a row `mode` goes over. */
  function Run(s: seq<string>, mode: Mode): (k: nat)
    ensures k <= |s|
  {
    if s != [] && Goes(mode, s[0]) then 1 + Run(s[1..], mode) else 0
  }

  lemma {:induction false} RunStops(s: seq<string>, mode: Mode)
    ensures Run(s, mode) < |s| ==> !Goes(mode, s[Run(s, mode)])
    ensures forall j :: 0 <= j < Run(s, mode) ==> Goes(mode, s[j])
  {
    hide Goes;
    if s != [] && Goes(mode, s[0]) {
      RunStops(s[1..], mode);
    }
  }

  /** The run is decided where it stops: by a line `mode` does not go over. */
  lemma {:induction false} RunIs(s: seq<string>, mode: Mode, k: nat)
    requires k <= |s| && (k < |s| ==> !Goes(mode, s[k]))
    requires forall j :: 0 <= j < k ==> Goes(mode, s[j])
    ensures Run(s, mode) == k
  {
    hide Goes;
    if k > 0 {
      RunIs(s[1..], mode, k - 1);
    }
  }
}
