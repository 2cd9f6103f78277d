/** The document a list of lines stands for, block by block from the front, and what holds of
    every document: no line lost or read twice, fences paired, blank lines separate. */
module MarkdownBlocks {
  import opened Texts
  import opened MarkdownLines

  datatype Block =
    | Code(lines: seq<string>)
    | Grid(header: seq<string>, rows: seq<seq<string>>)
    | Title(text: string)
    | Head(level: nat, text: string)
    | Line
    | Note(text: string)
    | Bulleted(ordered: bool, depth: nat, text: string)
    | Prose(text: string)

  // ---- What a block says ----

  function Untabbed(line: string): string {
    if line == "" then "" else (if line[0] == '\t' then "    " else [line[0]]) + Untabbed(line[1..])
  }

  function UntabbedAll(lines: seq<string>): seq<string> {
    seq(|lines|, i requires 0 <= i < |lines| => Untabbed(lines[i]))
  }

  function DropBlanks(lines: seq<string>): (r: seq<string>)
    ensures |r| <= |lines|
  {
    if lines != [] && Blank(lines[0]) then DropBlanks(lines[1..]) else lines
  }

  function DropBlanksBack(lines: seq<string>): (r: seq<string>)
    ensures |r| <= |lines|
  {
    if lines != [] && Blank(lines[|lines| - 1]) then DropBlanksBack(lines[..|lines| - 1]) else lines
  }

  /** `strip("|")`. */
  function StripPipes(t: string): string {
    StripPipesRight(StripPipesLeft(t))
  }

  function StripPipesLeft(t: string): string {
    if t != "" && t[0] == '|' then StripPipesLeft(t[1..]) else t
  }

  function StripPipesRight(t: string): string {
    if t != "" && t[|t| - 1] == '|' then StripPipesRight(t[..|t| - 1]) else t
  }

  /** `split("|")`: never empty. */
  function Split(t: string): (cells: seq<string>)
    ensures cells != []
  {
    if t == "" then [""]
    else if t[0] == '|' then [""] + Split(t[1..])
    else var rest := Split(t[1..]); [[t[0]] + rest[0]] + rest[1..]
  }

  function StripAll(cells: seq<string>): seq<string> {
    seq(|cells|, i requires 0 <= i < |cells| => Strip(cells[i]))
  }

  function SplitRow(line: string): (cells: seq<string>)
    ensures cells != []
  {
    StripAll(Split(StripPipes(Strip(line))))
  }

  function SplitRows(lines: seq<string>): seq<seq<string>> {
    seq(|lines|, i requires 0 <= i < |lines| => SplitRow(lines[i]))
  }

  /** A row as the table shows it: cut or filled to the width of the header. */
  function Fit(cells: seq<string>, width: nat): seq<string> {
    seq(width, c requires 0 <= c < width => if c < |cells| then cells[c] else "")
  }

  function FitRows(rows: seq<seq<string>>, width: nat): seq<seq<string>> {
    seq(|rows|, i requires 0 <= i < |rows| => Fit(rows[i], width))
  }

  function Join(parts: seq<string>): string {
    if parts == [] then "" else if |parts| == 1 then parts[0] else parts[0] + " " + Join(parts[1..])
  }

  /** The text after the `>` of a quoted line, stripped. */
  function QuoteText(line: string): string {
    var t := StripLeft(line);
    if t != "" && t[0] == '>' then Strip(t[1..]) else Strip(line)
  }

  function QuoteTexts(lines: seq<string>): seq<string> {
    if lines == [] then []
    else (if QuoteText(lines[0]) != "" then [QuoteText(lines[0])] else []) + QuoteTexts(lines[1..])
  }

  function HeadText(line: string): string {
    Strip(Strip(line)[Hashes(Strip(line))..])
  }

  function Depth(line: string): nat {
    var indent := |line| - |StripLeft(line)|;
    if indent / 2 < 2 then indent / 2 else 2
  }

  function ItemText(line: string, tail: seq<string>): string {
    var t := StripLeft(line);
    StripLeft(t[Mark(t)..]) + Continued(tail)
  }

  function Continued(tail: seq<string>): string {
    if tail == [] then "" else " " + Strip(tail[0]) + Continued(tail[1..])
  }

  // ---- One block ----

  /** How many lines the first block takes. An unclosed fence takes one more than there are. */
  function Took(s: seq<string>): (k: nat)
    requires s != []
    ensures 1 <= k <= |s| + 1
    ensures k == |s| + 1 ==> KindOf(s) == Fence
  {
    hide KindOf;
    match KindOf(s)
    case Fence => 2 + Run(s[1..], FenceBody)
    case Table => TableLines(s)
    case Heading => 1
    case Rule => 1
    case Quote => QuoteLines(s)
    case Item => 1 + Run(s[1..], ItemTail)
    case Empty => 1
    case Paragraph => 1 + Run(s[1..], ParagraphTail)
  }

  function TableLines(s: seq<string>): (k: nat)
    requires s != [] && KindOf(s) == Table
    ensures 2 <= k <= |s|
  {
    2 + Run(s[2..], TableRows)
  }

  function QuoteLines(s: seq<string>): (k: nat)
    requires s != [] && KindOf(s) == Quote
    ensures 1 <= k <= |s|
  {
    Run(s, Quoted)
  }

  function Rest(s: seq<string>): (r: seq<string>)
    requires s != []
    ensures |r| < |s|
  {
    if Took(s) <= |s| then s[Took(s)..] else []
  }

  predicate IsTitle(s: seq<string>, done: bool)
    requires s != []
  {
    KindOf(s) == Heading && Hashes(Strip(s[0])) == 1 && !done
  }

  function CodeBlock(body: seq<string>): seq<Block> {
    var shown := DropBlanksBack(DropBlanks(body));
    if shown == [] then [] else [Code(UntabbedAll(shown))]
  }

  function TableBlock(head: string, body: seq<string>): Block {
    var header := SplitRow(head);
    Grid(header, FitRows(SplitRows(body), |header|))
  }

  function HeadBlock(line: string, done: bool): Block {
    var level := Hashes(Strip(line));
    if level == 1 && !done then Title(HeadText(line)) else Head(if level < 3 then level else 3, HeadText(line))
  }

  /** The block the first lines make: none for blank lines and for an empty fence. */
  function BlockOf(s: seq<string>, done: bool): seq<Block>
    requires s != []
  {
    match KindOf(s)
    case Fence => CodeBlock(s[1..1 + Run(s[1..], FenceBody)])
    case Table => [TableBlock(s[0], s[2..2 + Run(s[2..], TableRows)])]
    case Heading => [HeadBlock(s[0], done)]
    case Rule => [Line]
    case Quote => [Note(Join(QuoteTexts(s[..Run(s, Quoted)])))]
    case Item => [Bulleted(IsOrderedItem(s[0]), Depth(s[0]), ItemText(s[0], s[1..1 + Run(s[1..], ItemTail)]))]
    case Empty => []
    case Paragraph => [Prose(Join(StripAll([s[0]] + s[1..1 + Run(s[1..], ParagraphTail)])))]
  }

  // ---- The document ----

  function Blocks(s: seq<string>, done: bool): seq<Block>
    decreases |s|
  {
    if s == [] then [] else BlockOf(s, done) + Blocks(Rest(s), done || IsTitle(s, done))
  }

  predicate Titled(s: seq<string>, done: bool)
    decreases |s|
  {
    if s == [] then done else Titled(Rest(s), done || IsTitle(s, done))
  }

  predicate LeavesOpen(s: seq<string>)
    decreases |s|
  {
    s != [] && (Took(s) > |s| || LeavesOpen(Rest(s)))
  }

  /** The lines of each block, in order. */
  function Pieces(s: seq<string>): seq<seq<string>>
    decreases |s|
  {
    if s == [] then [] else [s[..if Took(s) <= |s| then Took(s) else |s|]] + Pieces(Rest(s))
  }

  function Flat(pieces: seq<seq<string>>): seq<string> {
    if pieces == [] then [] else pieces[0] + Flat(pieces[1..])
  }

  /** Every line belongs to exactly one block, in the order of the document. */
  lemma {:induction false} EveryLineOnce(s: seq<string>)
    ensures Flat(Pieces(s)) == s
    decreases |s|
  {
    hide Took;
    if s != [] {
      EveryLineOnce(Rest(s));
      var cut := if Took(s) <= |s| then Took(s) else |s|;
      assert Pieces(s)[1..] == Pieces(Rest(s));
      assert s == s[..cut] + Rest(s);
    }
  }

  // ---- Fences pair up ----

  function Fences(s: seq<string>): nat {
    if s == [] then 0 else (if IsFence(s[0]) then 1 else 0) + Fences(s[1..])
  }

  lemma {:induction false} FencesSplit(s: seq<string>, t: seq<string>)
    ensures Fences(s + t) == Fences(s) + Fences(t)
  {
    if s == [] {
      assert s + t == t;
    } else {
      assert (s + t)[1..] == s[1..] + t;
      FencesSplit(s[1..], t);
    }
  }

  lemma {:induction false} NoFences(s: seq<string>)
    requires forall k :: 0 <= k < |s| ==> !IsFence(s[k])
    ensures Fences(s) == 0
  {
    if s != [] {
      NoFences(s[1..]);
    }
  }

  lemma FenceHead(t: string)
    ensures "```" <= t ==> t != "" && t[0] == '`'
  {
    if "```" <= t {
      assert t[0] == "```"[0];
    }
  }

  /** No inner loop goes over a fence line. */
  lemma NoModeSwallowsFence(mode: Mode, line: string)
    requires Goes(mode, line)
    ensures !IsFence(line)
  {
    var t := Strip(line);
    FenceHead(t);
  }

  lemma RunHasNoFence(s: seq<string>, mode: Mode)
    ensures Fences(s[..Run(s, mode)]) == 0
  {
    hide Goes, IsFence;
    RunStops(s, mode);
    forall k | 0 <= k < Run(s, mode) ensures !IsFence(s[k]) {
      NoModeSwallowsFence(mode, s[k]);
    }
    NoFences(s[..Run(s, mode)]);
  }

  lemma SepIsNoFence(line: string)
    requires IsSep(line)
    ensures !IsFence(line)
  {
    var t := Strip(line);
    StripWithin(line);
    FenceHead(t);
  }

  lemma StripWithin(line: string)
    ensures forall k :: 0 <= k < |Strip(line)| ==> Strip(line)[k] in line
  {
    var l := StripLeft(line);
    StripEnds(line);
    forall k | 0 <= k < |Strip(line)| ensures Strip(line)[k] in line {
      assert Strip(line)[k] == l[k] && l[k] == line[|line| - |l| + k];
    }
  }

  lemma KindIsFence(s: seq<string>)
    requires s != []
    ensures KindOf(s) == Fence <==> IsFence(s[0])
    ensures KindOf(s) == Table ==> |s| > 1 && IsSep(s[1])
  {
    hide IsFence, IsSep, IsHeading, IsRule, IsItem, Blank, Strip;
  }

  lemma HeadedFences(s: seq<string>, head: nat, mode: Mode)
    requires head <= |s| && forall k :: 0 <= k < head ==> !IsFence(s[k])
    ensures Fences(s[..head + Run(s[head..], mode)]) == 0
  {
    hide IsFence, Goes;
    var cut := head + Run(s[head..], mode);
    RunHasNoFence(s[head..], mode);
    NoFences(s[..head]);
    FencesSplit(s[..head], s[head..cut]);
    assert s[..cut] == s[..head] + s[head..cut];
    assert s[head..cut] == s[head..][..cut - head];
  }

  lemma SingleFences(s: seq<string>)
    requires s != [] && !IsFence(s[0])
    ensures Fences(s[..1]) == 0
  {
    hide IsFence;
    NoFences(s[..1]);
  }

  lemma TookIs(s: seq<string>)
    requires s != []
    ensures match KindOf(s)
            case Fence => Took(s) == 2 + Run(s[1..], FenceBody)
            case Table => |s| > 1 && Took(s) == 2 + Run(s[2..], TableRows)
            case Quote => Took(s) == Run(s, Quoted)
            case Item => Took(s) == 1 + Run(s[1..], ItemTail)
            case Paragraph => Took(s) == 1 + Run(s[1..], ParagraphTail)
            case _ => Took(s) == 1
  {
    hide KindOf, Run;
    KindIsFence(s);
  }

  /** The lines of one block hold no fence, except that a closed code block holds two. */
  lemma PieceFences(s: seq<string>)
    requires s != []
    ensures KindOf(s) != Fence ==> Fences(s[..Took(s)]) == 0
    ensures KindOf(s) == Fence && Took(s) <= |s| ==> Fences(s[..Took(s)]) == 2
    ensures KindOf(s) == Fence && Took(s) > |s| ==> Fences(s) == 1
  {
    hide *;
    KindIsFence(s);
    TookIs(s);
    match KindOf(s)
    case Fence => FencePieceFences(s);
    case Table => SepIsNoFence(s[1]); HeadedFences(s, 2, TableRows);
    case Quote => assert s[0..] == s; HeadedFences(s, 0, Quoted);
    case Item => HeadedFences(s, 1, ItemTail);
    case Paragraph => HeadedFences(s, 1, ParagraphTail);
    case _ => SingleFences(s);
  }

  lemma FencesOf(line: string)
    ensures Fences([line]) == if IsFence(line) then 1 else 0
  {
    hide IsFence;
    assert [line][1..] == [];
  }

  lemma FencePieceFences(s: seq<string>)
    requires s != [] && KindOf(s) == Fence
    ensures Took(s) <= |s| ==> Fences(s[..Took(s)]) == 2
    ensures Took(s) > |s| ==> Fences(s) == 1
  {
    hide *;
    KindIsFence(s);
    TookIs(s);
    var k := Run(s[1..], FenceBody);
    RunHasNoFence(s[1..], FenceBody);
    assert s[1..][..k] == s[1..1 + k];
    FencesOf(s[0]);
    FencesSplit([s[0]], s[1..1 + k]);
    if Took(s) <= |s| {
      RunStops(s[1..], FenceBody);
      FenceStops(s[1 + k]);
      FencesOf(s[1 + k]);
      FencesSplit([s[0]] + s[1..1 + k], [s[1 + k]]);
      assert s[..Took(s)] == [s[0]] + s[1..1 + k] + [s[1 + k]];
    } else {
      assert s == [s[0]] + s[1..1 + k];
    }
  }

  lemma FenceStops(line: string)
    ensures Goes(FenceBody, line) <==> !IsFence(line)
  {
    hide IsFence;
  }

  /** The last fence is left open exactly when the number of fence lines is odd. */
  lemma {:induction false} OpenIffOdd(s: seq<string>)
    ensures LeavesOpen(s) <==> Fences(s) % 2 == 1
    decreases |s|
  {
    hide IsFence, Took, KindOf;
    if s != [] {
      PieceFences(s);
      if Took(s) <= |s| {
        assert s == s[..Took(s)] + Rest(s);
        FencesSplit(s[..Took(s)], Rest(s));
        OpenIffOdd(Rest(s));
      } else {
        KindOfOpen(s);
      }
    }
  }

  lemma KindOfOpen(s: seq<string>)
    requires s != [] && Took(s) > |s|
    ensures KindOf(s) == Fence && Rest(s) == []
  {
    hide KindOf;
  }
}
