/** The block loop of the Markdown converter: one index into the lines, moved by every branch. */
module MarkdownScanner {
  import opened Texts
  import opened MarkdownLines
  import opened MarkdownBlocks
  import opened MarkdownTheorems

  /** The inner loops: from line `i`, the lines `mode` goes over. */
  method Gather(lines: seq<string>, i: nat, mode: Mode) returns (j: nat, buf: seq<string>)
    requires i <= |lines|
    ensures j == i + Run(lines[i..], mode) && j <= |lines|
    ensures buf == lines[i..j]
  {
    hide *;
    j, buf := i, [];
    while j < |lines| && Goes(mode, lines[j])
      invariant i <= j <= |lines| && buf == lines[i..j]
      invariant forall k :: 0 <= k < j - i ==> Goes(mode, lines[i..][k])
    {
      buf := buf + [lines[j]];
      j := j + 1;
    }
    RunIs(lines[i..], mode, j - i);
  }

  /** Pops the blank lines at the front of a code block, then those at its end. */
  method Trim(lines: seq<string>) returns (buf: seq<string>)
    ensures buf == DropBlanksBack(DropBlanks(lines))
  {
    hide Blank;
    buf := lines;
    while buf != [] && Blank(buf[0])
      invariant DropBlanks(buf) == DropBlanks(lines)
      decreases |buf|
    {
      buf := buf[1..];
    }
    while buf != [] && Blank(buf[|buf| - 1])
      invariant DropBlanksBack(buf) == DropBlanksBack(DropBlanks(lines))
      decreases |buf|
    {
      buf := buf[..|buf| - 1];
    }
  }

  lemma CodeIs(body: seq<string>)
    ensures var shown := DropBlanksBack(DropBlanks(body)); CodeBlock(body) == if shown == [] then []
      else [Code(UntabbedAll(shown))]
  {
    hide DropBlanks, DropBlanksBack, UntabbedAll;
  }

  lemma KindBy(s: seq<string>)
    requires s != []
    ensures KindOf(s) == if IsFence(s[0]) then Fence
                         else if "|" <= Strip(s[0]) && |s| > 1 && IsSep(s[1]) then Table
                         else if IsHeading(s[0]) then Heading
                         else if IsRule(s[0]) then Rule
                         else if ">" <= Strip(s[0]) then Quote
                         else if IsItem(s[0]) then Item
                         else if Blank(s[0]) then Empty
                         else Paragraph
  {
    hide IsFence, IsSep, IsHeading, IsRule, IsItem, Blank, Strip;
  }

  /** One block from line `i`: the lines it takes and what it adds to the document. */
  method Step(lines: seq<string>, i: nat, done: bool) returns (j: nat, out: seq<Block>, done': bool)
    requires i < |lines|
    ensures j == i + Took(lines[i..])
    ensures out == BlockOf(lines[i..], done)
    ensures done' == (done || IsTitle(lines[i..], done))
  {
    hide *;
    ghost var s := lines[i..];
    var line := lines[i];
    KindBy(s);
    TookIs(s);
    BlockIs(s, done);
    TitleIs(s, done);
    Shift(lines, i);
    done' := done;
    if IsFence(line) {
      var body: seq<string>, buf: seq<string>;
      j, body := Gather(lines, i + 1, FenceBody);
      j := j + 1;
      buf := Trim(body);
      CodeIs(body);
      out := if buf == [] then [] else [Code(UntabbedAll(buf))];
    } else if "|" <= Strip(line) && i + 1 < |lines| && IsSep(lines[i + 1]) {
      var body: seq<string>;
      j, body := Gather(lines, i + 2, TableRows);
      out := [TableBlock(line, body)];
    } else if IsHeading(line) {
      HeadIs(line, done);
      if Hashes(Strip(line)) == 1 && !done {
        done' := true;
        out := [Title(HeadText(line))];
      } else {
        out := [Head(if Hashes(Strip(line)) < 3 then Hashes(Strip(line)) else 3, HeadText(line))];
      }
      j := i + 1;
    } else if IsRule(line) {
      out, j := [Line], i + 1;
    } else if ">" <= Strip(line) {
      var buf: seq<string>;
      j, buf := Gather(lines, i, Quoted);
      out := [Note(Join(QuoteTexts(buf)))];
    } else if IsItem(line) {
      var tail: seq<string>;
      j, tail := Gather(lines, i + 1, ItemTail);
      out := [Bulleted(IsOrderedItem(line), Depth(line), ItemText(line, tail))];
    } else if Blank(line) {
      out, j := [], i + 1;
    } else {
      var tail: seq<string>;
      j, tail := Gather(lines, i + 1, ParagraphTail);
      out := [Prose(Join(StripAll([line] + tail)))];
    }
  }

  lemma Shift(lines: seq<string>, i: nat)
    requires i < |lines|
    ensures lines[i..][0] == lines[i] && |lines[i..]| == |lines| - i 
    ensures lines[i..][1..] == lines[i + 1..] &&
      (i + 1 < |lines| ==> lines[i..][1] == lines[i + 1] && lines[i..][2..] == lines[i + 2..])
    ensures forall k :: 0 <= k <= |lines| - i ==> lines[i..][..k] == lines[i..i + k]
    ensures forall j, k :: 0 <= j <= k <= |lines| - i ==> lines[i..][j..k] == lines[i + j..i + k]
  {
  }

  lemma HeadIs(line: string, done: bool)
    ensures HeadBlock(line, done) == if Hashes(Strip(line)) == 1 && !done then Title(HeadText(line))
                                     else Head(if Hashes(Strip(line)) < 3 then Hashes(Strip(line))
                                       else 3, HeadText(line))
  {
    hide Strip, HeadText, Hashes;
  }

  /** The whole loop. It ends one past the last line exactly when the last fence is not closed,
      and at the last line otherwise. */
  method Scan(lines: seq<string>) returns (blocks: seq<Block>, i: nat, done: bool)
    ensures blocks == Blocks(lines, false)
    ensures done == Titled(lines, false)
    ensures i == |lines| + if Fences(lines) % 2 == 1 then 1 else 0
  {
    hide *;
    blocks, i, done := [], 0, false;
    assert lines[0..] == lines;
    OpenIffOdd(lines);
    BlocksIs([], false);
    while i < |lines|
      invariant i <= |lines| ==> blocks + Blocks(lines[i..], done) == Blocks(lines, false)
      invariant i <= |lines| ==> Titled(lines[i..], done) == Titled(lines, false)
      invariant i <= |lines| ==> (LeavesOpen(lines[i..]) <==> LeavesOpen(lines))
      invariant i > |lines| ==> i == |lines| + 1 && LeavesOpen(lines)
      invariant i > |lines| ==> blocks == Blocks(lines, false) && done == Titled(lines, false)
      decreases |lines| - i
    {
      var out: seq<Block>;
      ghost var s, was := lines[i..], done;
      BlocksIs(s, done);
      i, out, done := Step(lines, i, done);
      if Took(s) <= |s| {
        assert s[Took(s)..] == lines[i..];
      } else {
        KindOfOpen(s);
        BlocksIs([], done);
      }
      blocks := blocks + out;
    }
    BlocksIs([], done);
    assert i == |lines| ==> lines[i..] == [];
  }
}
