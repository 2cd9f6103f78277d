/** What the converter keeps: parts separated by a blank line are converted apart, the title
    comes once, a table written out reads back, and which lines a paragraph swallows. */
module MarkdownTheorems {
  import opened Texts
  import opened MarkdownLines
  import opened MarkdownBlocks

  // ---- Parts separated by a blank line ----

  lemma EmptyLine()
    ensures Strip("") == "" && Blank("") && !IsFence("") && !IsSep("") && !IsHeading("") && !IsRule("") && !IsItem("")
    ensures forall mode: Mode :: Goes(mode, "") <==> mode == FenceBody
  {
  }

  /** An inner loop that stops within `a`, or at a blank line after it, does not see the rest. */
  lemma RunSplit(a: seq<string>, b: seq<string>, mode: Mode)
    requires mode != FenceBody || Run(a, mode) < |a|
    ensures Run(a + [""] + b, mode) == Run(a, mode)
  {
    hide Goes;
    EmptyLine();
    RunStops(a, mode);
    RunIs(a + [""] + b, mode, Run(a, mode));
  }

  lemma RunTail(a: seq<string>, b: seq<string>, k: nat, mode: Mode)
    requires k <= |a| && (mode != FenceBody || Run(a[k..], mode) < |a| - k)
    ensures Run((a + [""] + b)[k..], mode) == Run(a[k..], mode)
    ensures (a + [""] + b)[k..k + Run(a[k..], mode)] == a[k..k + Run(a[k..], mode)]
  {
    hide Run;
    assert (a + [""] + b)[k..] == a[k..] + [""] + b;
    RunSplit(a[k..], b, mode);
  }

  lemma KindSplit(a: seq<string>, b: seq<string>)
    requires a != []
    ensures KindOf(a + [""] + b) == KindOf(a)
  {
    hide IsFence, IsSep, IsHeading, IsRule, IsItem, Blank, Strip;
    EmptyLine();
    assert (a + [""] + b)[0] == a[0];
    assert |a| > 1 ==> (a + [""] + b)[1] == a[1];
    assert |a| == 1 ==> (a + [""] + b)[1] == "";
  }

  lemma FenceBlock(s: seq<string>, done: bool)
    requires s != [] && KindOf(s) == Fence
    ensures BlockOf(s, done) == CodeBlock(s[1..1 + Run(s[1..], FenceBody)])
  {
    hide KindOf, Run, CodeBlock, TableBlock, HeadBlock, QuoteTexts, ItemText, Depth, IsOrderedItem, StripAll, Join;
  }

  lemma GridBlock(s: seq<string>, done: bool)
    requires s != [] && KindOf(s) == Table && |s| > 1
    ensures BlockOf(s, done) == [TableBlock(s[0], s[2..2 + Run(s[2..], TableRows)])]
  {
    hide KindOf, Run, CodeBlock, TableBlock, HeadBlock, QuoteTexts, ItemText, Depth, IsOrderedItem, StripAll, Join;
  }

  lemma QuoteBlock(s: seq<string>, done: bool)
    requires s != [] && KindOf(s) == Quote
    ensures BlockOf(s, done) == [Note(Join(QuoteTexts(s[..Run(s, Quoted)])))]
  {
    hide KindOf, Run, CodeBlock, TableBlock, HeadBlock, QuoteTexts, ItemText, Depth, IsOrderedItem, StripAll, Join;
  }

  lemma ItemBlock(s: seq<string>, done: bool)
    requires s != [] && KindOf(s) == Item
    ensures BlockOf(s, done) == [Bulleted(IsOrderedItem(s[0]), Depth(s[0]),
      ItemText(s[0], s[1..1 + Run(s[1..], ItemTail)]))]
  {
    hide KindOf, Run, CodeBlock, TableBlock, HeadBlock, QuoteTexts, ItemText, Depth, IsOrderedItem, StripAll, Join;
  }

  lemma ProseBlock(s: seq<string>, done: bool)
    requires s != [] && KindOf(s) == Paragraph
    ensures BlockOf(s, done) == [Prose(Join(StripAll([s[0]] + s[1..1 + Run(s[1..], ParagraphTail)])))]
  {
    hide KindOf, Run, CodeBlock, TableBlock, HeadBlock, QuoteTexts, ItemText, Depth, IsOrderedItem, StripAll, Join;
  }

  lemma LineBlock(s: seq<string>, done: bool)
    requires s != []
    ensures KindOf(s) == Heading ==> BlockOf(s, done) == [HeadBlock(s[0], done)]
    ensures KindOf(s) == Rule ==> BlockOf(s, done) == [Line]
    ensures KindOf(s) == Empty ==> BlockOf(s, done) == []
  {
    hide KindOf, Run, CodeBlock, TableBlock, HeadBlock, QuoteTexts, ItemText, Depth, IsOrderedItem, StripAll, Join;
  }

  lemma BlockIs(s: seq<string>, done: bool)
    requires s != []
    ensures match KindOf(s)
            case Fence => BlockOf(s, done) == CodeBlock(s[1..1 + Run(s[1..], FenceBody)])
            case Table => |s| > 1 && BlockOf(s, done) == [TableBlock(s[0], s[2..2 + Run(s[2..], TableRows)])]
            case Heading => BlockOf(s, done) == [HeadBlock(s[0], done)]
            case Rule => BlockOf(s, done) == [Line]
            case Quote => BlockOf(s, done) == [Note(Join(QuoteTexts(s[..Run(s, Quoted)])))]
            case Item => BlockOf(s, done)
              == [Bulleted(IsOrderedItem(s[0]), Depth(s[0]), ItemText(s[0], s[1..1 + Run(s[1..], ItemTail)]))]
            case Empty => BlockOf(s, done) == []
            case Paragraph => BlockOf(s, done) == [Prose(Join(StripAll([s[0]] + s[1..1 + Run(s[1..], ParagraphTail)])))]
  {
    hide *;
    KindIsFence(s);
    match KindOf(s)
    case Fence => FenceBlock(s, done);
    case Table => GridBlock(s, done);
    case Quote => QuoteBlock(s, done);
    case Item => ItemBlock(s, done);
    case Paragraph => ProseBlock(s, done);
    case _ => LineBlock(s, done);
  }

  /** The first block of `a` is the first block of the whole text, unless it is an open fence. */
  lemma BlockSplit(a: seq<string>, b: seq<string>, done: bool)
    requires a != [] && Took(a) <= |a|
    ensures var l := a + [""] + b;
            Took(l) == Took(a) && BlockOf(l, done) == BlockOf(a, done) && (IsTitle(l, done) <==> IsTitle(a, done))
  {
    hide *;
    var l := a + [""] + b;
    KindSplit(a, b);
    KindIsFence(a);
    TookIs(a);
    TookIs(l);
    BlockIs(a, done);
    BlockIs(l, done);
    TitleIs(a, done);
    TitleIs(l, done);
    assert l[0] == a[0];
    match KindOf(a)
    case Fence => RunTail(a, b, 1, FenceBody);
    case Table => RunTail(a, b, 2, TableRows);
    case Quote => RunSplit(a, b, Quoted); assert l[..Run(a, Quoted)] == a[..Run(a, Quoted)];
    case Item => RunTail(a, b, 1, ItemTail);
    case Paragraph => RunTail(a, b, 1, ParagraphTail);
    case _ =>
  }

  lemma TitleIs(s: seq<string>, done: bool)
    requires s != []
    ensures IsTitle(s, done) <==> KindOf(s) == Heading && Hashes(Strip(s[0])) == 1 && !done
  {
    hide KindOf, Strip;
  }

  lemma BlocksIs(s: seq<string>, done: bool)
    ensures s == [] ==> Blocks(s, done) == [] && Titled(s, done) == done
    ensures s != [] ==> Blocks(s, done) == BlockOf(s, done) + Blocks(Rest(s), done || IsTitle(s, done))
                        && Titled(s, done) == Titled(Rest(s), done || IsTitle(s, done))
    ensures s != [] && Took(s) <= |s| ==> Rest(s) == s[Took(s)..]
    ensures s != [] ==> (LeavesOpen(s) <==> Took(s) > |s| || LeavesOpen(Rest(s)))
    ensures LeavesOpen([]) == false
  {
    hide BlockOf, IsTitle, Took;
  }

  lemma EmptyKind(b: seq<string>)
    ensures KindOf([""] + b) == Empty
  {
    hide IsFence, IsSep, IsHeading, IsRule, IsItem, Blank;
    EmptyLine();
  }

  lemma BlankFirst(b: seq<string>, done: bool)
    ensures Blocks([""] + b, done) == Blocks(b, done)
  {
    hide *;
    var s := [""] + b;
    EmptyKind(b);
    TookIs(s);
    BlockIs(s, done);
    BlocksIs(s, done);
    TitleIs(s, done);
    assert s[1..] == b;
  }

  /** Scanning `a`, a blank line and `b` is scanning `a` and then `b`, with what `a` said about
      the title carried over, whenever `a` leaves no fence open. */
  lemma {:induction false} Apart(a: seq<string>, b: seq<string>, done: bool)
    requires !LeavesOpen(a)
    ensures Blocks(a + [""] + b, done) == Blocks(a, done) + Blocks(b, Titled(a, done))
    decreases |a|
  {
    hide *;
    BlocksIs(a, done);
    if a == [] {
      assert a + [""] + b == [""] + b;
      BlankFirst(b, done);
    } else {
      var l := a + [""] + b;
      BlockSplit(a, b, done);
      BlocksIs(l, done);
      assert l[Took(a)..] == a[Took(a)..] + [""] + b;
      Apart(a[Took(a)..], b, done || IsTitle(a, done));
    }
  }

  lemma StripX()
    ensures StripLeft("x") == "x" && Strip("x") == "x"
  {
    assert StripLeft("x") == "x" && StripRight("x") == "x";
  }

  lemma ItemX()
    ensures !IsItem("x")
  {
    hide StripLeft;
    StripX();
    assert Digits("x") == 0;
  }

  /** A line of prose to put after a blank one. */
  lemma LineX()
    ensures Strip("x") == "x" && !Blank("x") && !IsFence("x") && !IsHeading("x") && !IsRule("x") && !IsItem("x")
    ensures !("|" <= "x") && !(">" <= "x")
  {
    hide Strip, IsItem;
    StripX();
    ItemX();
    assert "|"[0] != "x"[0] && ">"[0] != "x"[0] && "`"[0] != "x"[0];
  }

  lemma ProseX(done: bool)
    ensures Blocks(["x"], done) == [Prose("x")]
  {
    hide IsFence, IsHeading, IsRule, IsItem, Blank, Strip, Goes, TableBlock, HeadBlock, QuoteTexts, ItemText, CodeBlock;
    var s := ["x"];
    LineX();
    assert KindOf(s) == Paragraph;
    assert s[1..] == [];
    assert StripAll([s[0]] + s[1..1]) == ["x"];
    assert Took(s) == 1 && Rest(s) == [];
  }

  lemma {:induction false} KeepsX(front: seq<string>)
    ensures var r := DropBlanks(front + ["", "x"]); r != [] && r[|r| - 1] == "x"
  {
    hide Blank;
    LineX();
    var s := front + ["", "x"];
    if front == [] {
      assert s[1..] == ["x"];
    } else if Blank(front[0]) {
      assert s[1..] == front[1..] + ["", "x"];
      KeepsX(front[1..]);
    }
  }

  lemma OpenCode(front: seq<string>)
    ensures |CodeBlock(front + ["", "x"])| == 1 && CodeBlock(front + ["", "x"])[0].Code?
  {
    hide Blank, UntabbedAll, DropBlanks;
    KeepsX(front);
    LineX();
  }

  lemma OpenRun(a: seq<string>)
    requires a != [] && Took(a) > |a|
    ensures var l := a + [""] + ["x"];
            Took(l) > |l| && Rest(l) == [] && KindOf(l) == Fence && Run(l[1..], FenceBody) == |l| - 1
  {
    hide KindOf, IsFence, Goes;
    var l := a + [""] + ["x"];
    KindSplit(a, ["x"]);
    TookIs(a);
    KindOfOpen(a);
    RunStops(a[1..], FenceBody);
    LineX();
    EmptyLine();
    forall j | 0 <= j < |l| - 1 ensures Goes(FenceBody, l[1..][j]) {
      if j < |a| - 1 {
        assert l[1..][j] == a[1..][j];
      } else {
        assert l[1..][j] == "" || l[1..][j] == "x";
        FenceStops(l[1..][j]);
      }
    }
    RunIs(l[1..], FenceBody, |l| - 1);
    TookIs(l);
  }

  /** With a fence left open the text after the blank line is swallowed as code. */
  lemma {:induction false} OpenSwallows(a: seq<string>, done: bool)
    requires LeavesOpen(a)
    ensures var l := Blocks(a + [""] + ["x"], done); l != [] && l[|l| - 1].Code?
    decreases |a|
  {
    hide *;
    BlocksIs(a, done);
    var l := a + [""] + ["x"];
    BlocksIs(l, done);
    if Took(a) > |a| {
      OpenRun(a);
      BlockIs(l, done);
      assert l[1..1 + Run(l[1..], FenceBody)] == a[1..] + ["", "x"];
      OpenCode(a[1..]);
      BlocksIs([], done || IsTitle(l, done));
    } else {
      BlockSplit(a, ["x"], done);
      assert l[Took(a)..] == a[Took(a)..] + [""] + ["x"];
      OpenSwallows(a[Took(a)..], done || IsTitle(a, done));
    }
  }

  ghost predicate Separable(a: seq<string>, done: bool) {
    forall b: seq<string> :: Blocks(a + [""] + b, done) == Blocks(a, done) + Blocks(b, Titled(a, done))
  }

  /** Exactly the texts with an even number of fence lines can be converted apart from whatever
      follows a blank line. */
  lemma SeparableIffFencesPair(a: seq<string>, done: bool)
    ensures Separable(a, done) <==> Fences(a) % 2 == 0
  {
    hide *;
    OpenIffOdd(a);
    if LeavesOpen(a) {
      OpenSwallows(a, done);
      ProseX(Titled(a, done));
      NotSeparable(a, done);
    } else {
      forall b: seq<string> ensures Blocks(a + [""] + b, done) == Blocks(a, done) + Blocks(b, Titled(a, done)) {
        Apart(a, b, done);
      }
      AllSeparable(a, done);
    }
  }

  lemma NotSeparable(a: seq<string>, done: bool)
    requires var l := Blocks(a + [""] + ["x"], done); l != [] && l[|l| - 1].Code?
    requires Blocks(["x"], Titled(a, done)) == [Prose("x")]
    ensures !Separable(a, done)
  {
    hide Blocks, Titled;
  }

  lemma AllSeparable(a: seq<string>, done: bool)
    requires forall b: seq<string> :: Blocks(a + [""] + b, done) == Blocks(a, done) + Blocks(b, Titled(a, done))
    ensures Separable(a, done)
  {
    hide Blocks, Titled;
  }

  // ---- The title ----

  function Titles(blocks: seq<Block>): nat {
    if blocks == [] then 0 else (if blocks[0].Title? then 1 else 0) + Titles(blocks[1..])
  }

  lemma {:induction false} TitlesSplit(x: seq<Block>, y: seq<Block>)
    ensures Titles(x + y) == Titles(x) + Titles(y)
  {
    if x == [] {
      assert x + y == y;
    } else {
      assert (x + y)[1..] == x[1..] + y;
      TitlesSplit(x[1..], y);
    }
  }

  lemma NoTitles()
    ensures Titles([]) == 0
  {
  }

  lemma SingleTitle(x: seq<Block>)
    requires |x| == 1
    ensures Titles(x) == if x[0].Title? then 1 else 0
  {
  }

  lemma NoTitleInCode(body: seq<string>)
    ensures Titles(CodeBlock(body)) == 0
  {
    hide DropBlanks, DropBlanksBack, UntabbedAll;
  }

  lemma NoTitleInTable(head: string, body: seq<string>)
    ensures Titles([TableBlock(head, body)]) == 0
  {
    hide SplitRow, SplitRows, FitRows;
  }

  lemma HeadTitle(line: string, done: bool)
    ensures Titles([HeadBlock(line, done)]) == if Hashes(Strip(line)) == 1 && !done then 1 else 0
  {
    hide Strip, Hashes, HeadText;
  }

  lemma BlockTitles(s: seq<string>, done: bool)
    requires s != []
    ensures Titles(BlockOf(s, done)) == if IsTitle(s, done) then 1 else 0
  {
    hide *;
    BlockIs(s, done);
    TitleIs(s, done);
    KindIsFence(s);
    match KindOf(s)
    case Fence => NoTitleInCode(s[1..1 + Run(s[1..], FenceBody)]);
    case Table => NoTitleInTable(s[0], s[2..2 + Run(s[2..], TableRows)]);
    case Heading => HeadTitle(s[0], done);
    case Empty => NoTitles();
    case _ => SingleTitle(BlockOf(s, done));
  }

  /** However many level-1 headings there are, at most one becomes the title, and none when the
      document has one already. */
  lemma {:induction false} OneTitle(s: seq<string>, done: bool)
    ensures Titles(Blocks(s, done)) == if !done && Titled(s, done) then 1 else 0
    ensures done ==> Titled(s, done)
    decreases |s|
  {
    hide *;
    BlocksIs(s, done);
    NoTitles();
    if s != [] {
      BlockTitles(s, done);
      OneTitle(Rest(s), done || IsTitle(s, done));
      TitlesSplit(BlockOf(s, done), Blocks(Rest(s), done || IsTitle(s, done)));
      TitleIs(s, done);
    }
  }

  // ---- Lines a paragraph swallows ----

  /** Whatever follows it, the line would start a block of its own after a blank line. */
  predicate StartsBlock(line: string) {
    IsFence(line) || IsHeading(line) || IsRule(line) || ">" <= Strip(line) || IsItem(line)
  }

  /** A bullet with nothing after it, or with a tab where the paragraph loop looks for a space. */
  predicate OddBullet(line: string) {
    var t := Strip(line);
    Bullet(t) && SpaceAt(StripLeft(line), 1) && !(|t| > 1 && t[1] == ' ')
  }

  lemma TwoChars(t: string, c: char)
    ensures [c, ' '] <= t <==> |t| > 1 && t[0] == c && t[1] == ' '
  {
  }

  lemma BulletItem(line: string)
    requires Strip(line) != ""
    ensures IsItem(line) <==> IsOrderedItem(line) || (Bullet(Strip(line)) && SpaceAt(StripLeft(line), 1))
  {
    StripEnds(line);
    hide Strip, StripLeft, OrderedMark, SpaceAt;
    assert StripLeft(line)[0] == Strip(line)[0];
  }

  lemma SpacedBullet(t: string)
    ensures "- " <= t || "* " <= t || "+ " <= t <==> Bullet(t) && |t| > 1 && t[1] == ' '
  {
    TwoChars(t, '-');
    TwoChars(t, '*');
    TwoChars(t, '+');
    assert "- " == ['-', ' '] && "* " == ['*', ' '] && "+ " == ['+', ' '];
  }

  lemma HashFirst(line: string)
    requires IsHeading(line)
    ensures "#" <= Strip(line)
  {
  }

  /** The lines of another kind that a running paragraph nevertheless takes in are exactly the
      rules drawn with stars or underscores and the odd bullets: the paragraph loop tests less
      than the block loop does. */
  lemma SwallowedIff(line: string)
    requires Goes(ParagraphTail, line)
    ensures StartsBlock(line) <==> RuleOf('*', Strip(line)) || RuleOf('_', Strip(line)) || OddBullet(line)
  {
    hide Strip, StripLeft, RuleOf, IsHeading, IsItem, IsOrderedItem, Bullet;
    BulletItem(line);
    SpacedBullet(Strip(line));
    if IsHeading(line) {
      HashFirst(line);
    }
  }

  // ---- A table row written out reads back ----

  function Inner(cells: seq<string>): string
    requires cells != []
  {
    " " + cells[0] + " " + (if |cells| == 1 then "" else "|" + Inner(cells[1..]))
  }

  /** `| a | b |`. */
  function RowText(cells: seq<string>): string
    requires cells != []
  {
    "|" + Inner(cells) + "|"
  }

  function PaddedCells(cells: seq<string>): seq<string> {
    seq(|cells|, i requires 0 <= i < |cells| => " " + cells[i] + " ")
  }

  lemma {:induction false} InnerEnds(cells: seq<string>)
    requires cells != []
    ensures var u := Inner(cells); |u| >= 2 && u[0] == ' ' && u[|u| - 1] == ' '
  {
    if |cells| > 1 {
      InnerEnds(cells[1..]);
    }
  }

  lemma {:induction false} SplitPlain(a: string)
    requires '|' !in a
    ensures Split(a) == [a]
  {
    if a != "" {
      SplitPlain(a[1..]);
      assert [a[0]] + a[1..] == a;
    }
  }

  lemma {:induction false} SplitAtPipe(a: string, b: string)
    requires '|' !in a
    ensures Split(a + "|" + b) == [a] + Split(b)
  {
    var s := a + "|" + b;
    if a == "" {
      assert s[1..] == b;
    } else {
      assert s[1..] == a[1..] + "|" + b;
      SplitAtPipe(a[1..], b);
      assert [a[0]] + a[1..] == a;
    }
  }

  lemma {:induction false} SplitInner(cells: seq<string>)
    requires cells != [] && forall c <- cells :: '|' !in c
    ensures Split(Inner(cells)) == PaddedCells(cells)
  {
    var a := " " + cells[0] + " ";
    if |cells| == 1 {
      assert Inner(cells) == a;
      SplitPlain(a);
    } else {
      assert Inner(cells) == a + "|" + Inner(cells[1..]);
      SplitAtPipe(a, Inner(cells[1..]));
      SplitInner(cells[1..]);
    }
  }

  lemma OuterPipes(cells: seq<string>)
    requires cells != []
    ensures StripPipes(RowText(cells)) == Inner(cells)
  {
    hide Inner;
    InnerEnds(cells);
    var u := Inner(cells);
    var t := RowText(cells);
    assert t[1..] == u + "|";
    assert u[0] != '|' && u[|u| - 1] != '|';
    assert StripPipesLeft(u + "|") == u + "|";
    assert StripPipesLeft(t) == u + "|";
    assert StripPipesRight(u) == u;
    assert (u + "|")[..|u + "|"| - 1] == u;
    assert StripPipesRight(u + "|") == u;
  }

  lemma CellsBack(cells: seq<string>)
    requires forall c <- cells :: Trimmed(c)
    ensures StripAll(PaddedCells(cells)) == cells
  {
    forall i | 0 <= i < |cells| ensures StripAll(PaddedCells(cells))[i] == cells[i] {
      assert cells[i] in cells;
      StripPadded(" ", cells[i], " ");
    }
  }

  /** Cells without pipes or outer blanks, written with one blank around each, are the cells
      the converter reads, empty ones included. */
  lemma RowReadsBack(cells: seq<string>)
    requires cells != [] && forall c <- cells :: '|' !in c && Trimmed(c)
    ensures SplitRow(RowText(cells)) == cells
  {
    hide Strip, StripPipes, Split, StripAll, Inner;
    StripPadded("", RowText(cells), "");
    assert "" + RowText(cells) + "" == RowText(cells);
    OuterPipes(cells);
    SplitInner(cells);
    CellsBack(cells);
  }
}
