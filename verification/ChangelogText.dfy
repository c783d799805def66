/** Text as lines ended by line feeds, and how the changelog script pads what it inserts. */
module ChangelogText {
  type Line = string

  predicate Plain(line: Line) { '\n' !in line }

  predicate AllPlain(lines: seq<Line>) {
    forall i :: 0 <= i < |lines| ==> Plain(lines[i])
  }

  /** Every line ended by a line feed. */
  function Text(lines: seq<Line>): string {
    if lines == [] then [] else lines[0] + ("\n" + Text(lines[1..]))
  }

  function LineEnd(text: string): (n: nat)
    ensures n <= |text| && Plain(text[..n])
    ensures n < |text| ==> text[n] == '\n'
  {
    if text == [] || text[0] == '\n' then 0 else 1 + LineEnd(text[1..])
  }

  /** The lines of a text; a last line without its line feed is completed. */
  function Lines(text: string): (r: seq<Line>)
    ensures AllPlain(r)
    decreases |text|
  {
    if text == [] then []
    else
      var n := LineEnd(text);
      [text[..n]] + (if n == |text| then [] else Lines(text[n + 1..]))
  }

  predicate EndsWith(text: string, end: string) {
    |end| <= |text| && text[|text| - |end|..] == end
  }

  predicate OccursAt(text: string, part: string, i: nat) {
    i + |part| <= |text| && text[i..i + |part|] == part
  }

  predicate Contains(text: string, part: string) {
    exists i: nat :: i <= |text| && OccursAt(text, part, i)
  }

  /** `_separate_before` and `_separate_after`: what makes the text end with a blank line. */
  function Separator(text: string): string {
    if EndsWith(text, "\n\n") then "" else if EndsWith(text, "\n") then "\n" else "\n\n"
  }

  /** `_join_verbatim`. */
  function JoinVerbatim(contents: seq<string>): string {
    if contents == [] then []
    else
      var before := JoinVerbatim(contents[..|contents| - 1]);
      (if before == [] then [] else before + Separator(before)) + contents[|contents| - 1]
  }

  /** The loop of `_join_verbatim`. */
  method Join(contents: seq<string>) returns (payload: string)
    ensures payload == JoinVerbatim(contents)
  {
    payload := [];
    for i := 0 to |contents|
      invariant payload == JoinVerbatim(contents[..i])
    {
      assert contents[..i + 1][..i] == contents[..i];
      if payload != [] {
        payload := payload + Separator(payload);
      }
      payload := payload + contents[i];
    }
    assert contents[..|contents|] == contents;
  }

  // ----- the same in lines -----

  /** The lines with a blank one at the end. */
  function Padded(lines: seq<Line>): seq<Line> {
    if lines != [] && lines[|lines| - 1] == [] then lines else lines + [[]]
  }

  /** The lines one entry contributes. */
  function Block(content: string): seq<Line> { Padded(Lines(content)) }

  function Blocks(contents: seq<string>): seq<Line> {
    if contents == [] then [] else Blocks(contents[..|contents| - 1]) + Block(contents[|contents| - 1])
  }

  lemma {:induction false} TextAppend(a: seq<Line>, b: seq<Line>)
    ensures Text(a + b) == Text(a) + Text(b)
  {
    if a == [] {
      assert a + b == b;
    } else {
      assert (a + b)[0] == a[0] && (a + b)[1..] == a[1..] + b;
      TextAppend(a[1..], b);
      assert a[0] + ("\n" + (Text(a[1..]) + Text(b))) == (a[0] + ("\n" + Text(a[1..]))) + Text(b);
    }
  }

  lemma TextOne(line: Line)
    ensures Text([line]) == line + "\n"
  {}

  /** Only the line feed at the very end may be missing. */
  lemma {:induction false} TextOfLines(text: string)
    ensures text != [] && text[|text| - 1] != '\n' ==> Text(Lines(text)) == text + "\n"
    ensures text == [] || text[|text| - 1] == '\n' ==> Text(Lines(text)) == text
    decreases |text|
  {
    hide Text, Lines;
    if text == [] {
      NoLines();
    } else if LineEnd(text) == |text| {
      OneLine(text);
    } else {
      var n := LineEnd(text);
      var first, rest := text[..n], text[n + 1..];
      TextOfLines(rest);
      FirstLine(text, n, rest);
      LinesFirst(text, n, rest);
      FirstThenRest(text, first, rest, Text(Lines(rest)));
    }
  }

  lemma FirstThenRest(text: string, first: string, rest: string, completed: string)
    requires text == first + ("\n" + rest)
    requires completed == if rest != [] && rest[|rest| - 1] != '\n' then rest + "\n" else rest
    ensures first + ("\n" + completed) == if text[|text| - 1] != '\n' then text + "\n" else text
  {}

  lemma NoLines()
    ensures Text(Lines([])) == []
  {}

  lemma OneLine(text: string)
    requires text != [] && (LineEnd(text) == |text| || Plain(text))
    ensures text[|text| - 1] != '\n' && Lines(text) == [text] && Text(Lines(text)) == text + "\n"
  {
    assert text[..|text|] == text;
    assert text[|text| - 1] in text;
    assert Lines(text) == [text];
    TextOne(text);
  }

  lemma FirstLine(text: string, n: nat, rest: string)
    requires n < |text| && text[n] == '\n' && rest == text[n + 1..]
    ensures text == text[..n] + ("\n" + rest)
    ensures text[|text| - 1] == if rest == [] then '\n' else rest[|rest| - 1]
  {}

  lemma LinesFirst(text: string, n: nat, rest: string)
    requires n == LineEnd(text) < |text| && rest == text[n + 1..]
    ensures Text(Lines(text)) == text[..n] + ("\n" + Text(Lines(rest)))
  {
    hide LineEnd, Lines, Text;
    LinesUnfold(text);
    TextAppend([text[..n]], Lines(rest));
    TextOne(text[..n]);
    assert (text[..n] + "\n") + Text(Lines(rest)) == text[..n] + ("\n" + Text(Lines(rest)));
  }

  lemma TextEnds(lines: seq<Line>)
    requires lines != []
    ensures EndsWith(Text(lines), "\n")
  {}

  lemma EndsTwo(text: string)
    requires text != []
    ensures EndsWith(text, "\n") <==> text[|text| - 1] == '\n'
    ensures EndsWith(text, "\n\n") <==> |text| > 1 && text[|text| - 1] == '\n' && text[|text| - 2] == '\n'
  {}

  lemma EndOf(before: string, last: Line)
    requires Plain(last)
    ensures last == [] && before != [] && before[|before| - 1] == '\n' ==> EndsWith(before + (last + "\n"), "\n\n")
    ensures last != [] ==> !EndsWith(before + (last + "\n"), "\n\n")
  {
    var text := before + (last + "\n");
    EndsTwo(text);
    if last != [] {
      assert text[|text| - 2] == last[|last| - 1];
      assert last[|last| - 1] in last;
    } else if before != [] {
      assert text[|text| - 2] == before[|before| - 1];
    }
  }

  lemma TextSnoc(lines: seq<Line>)
    requires lines != []
    ensures Text(lines) == Text(lines[..|lines| - 1]) + (lines[|lines| - 1] + "\n")
  {
    hide Text;
    var k := |lines| - 1;
    assert lines == lines[..k] + [lines[k]];
    TextAppend(lines[..k], [lines[k]]);
    TextOne(lines[k]);
  }

  /** A text that ends with a line feed ends with a blank line exactly when its last line is empty. */
  lemma BlankEnd(lines: seq<Line>)
    requires lines != [] && AllPlain(lines) && (|lines| > 1 || lines[0] != [])
    ensures EndsWith(Text(lines), "\n\n") <==> lines[|lines| - 1] == []
  {
    hide Text, EndsWith;
    var k := |lines| - 1;
    TextSnoc(lines);
    EndOf(Text(lines[..k]), lines[k]);
    if lines[k] == [] {
      TextEnds(lines[..k]);
      TextNotEmpty(lines[..k]);
      EndsTwo(Text(lines[..k]));
    }
  }

  lemma TextNotEmpty(lines: seq<Line>)
    ensures Text(lines) == [] <==> lines == []
  {}

  /** Adding the separator is completing the last line and padding. */
  lemma SeparatorPads(text: string)
    requires text != [] && text != "\n"
    ensures Text(Padded(Lines(text))) == text + Separator(text)
  {
    hide Text, Lines, EndsWith;
    var lines := Lines(text);
    TextOfLines(text);
    TextAppend(lines, [[]]);
    TextOne([]);
    NotOneEmptyLine(text);
    EndsTwo(text);
    if text[|text| - 1] == '\n' {
      BlankEnd(lines);
      assert text + "" == text;
    } else {
      LastLineNotEmpty(text);
      assert (text + "\n") + "\n" == text + "\n\n";
      assert ([] + "\n") == "\n";
    }
  }

  lemma NotOneEmptyLine(text: string)
    requires text != [] && text != "\n"
    ensures Lines(text) != [] && (|Lines(text)| > 1 || Lines(text)[0] != [])
  {}

  lemma {:induction false} LastLineNotEmpty(text: string)
    requires text != [] && text[|text| - 1] != '\n'
    ensures Lines(text) != [] && Lines(text)[|Lines(text)| - 1] != []
    decreases |text|
  {
    hide LineEnd, Lines;
    LinesUnfold(text);
    var n := LineEnd(text);
    if n < |text| {
      LastLineNotEmpty(text[n + 1..]);
    } else {
      assert text[..n] == text;
    }
  }

  /** The payload with its separator is the blocks of its entries, one after the other. */
  lemma JoinSnoc(contents: seq<string>)
    requires contents != [] && contents[|contents| - 1] != []
    ensures var before, last := JoinVerbatim(contents[..|contents| - 1]), contents[|contents| - 1];
            JoinVerbatim(contents) == (if before == [] then last else before + Separator(before) + last)
  {}

  lemma {:induction false} BlocksAreVerbatim(contents: seq<string>)
    requires contents != []
    requires forall i :: 0 <= i < |contents| ==> contents[i] != [] && contents[i] != "\n"
    ensures JoinVerbatim(contents) != []
    ensures Text(Blocks(contents)) == JoinVerbatim(contents) + Separator(JoinVerbatim(contents))
  {
    hide Text, Block, Separator, JoinVerbatim;
    var init, last := contents[..|contents| - 1], contents[|contents| - 1];
    BlockText(last);
    TextAppend(Blocks(init), Block(last));
    JoinSnoc(contents);
    if init == [] {
      JoinNothing();
      assert [] + Block(last) == Block(last);
    } else {
      BlocksAreVerbatim(init);
      var joined := JoinVerbatim(init) + Separator(JoinVerbatim(init));
      EndsAlike(joined, last);
      assert (joined + last) + Separator(last) == joined + (last + Separator(last));
    }
  }

  lemma JoinNothing()
    ensures JoinVerbatim([]) == []
  {}

  lemma BlockText(content: string)
    requires content != [] && content != "\n"
    ensures Text(Block(content)) == content + Separator(content)
  {
    SeparatorPads(content);
  }

  /** The separator of a text looks no further back than a non-trivial last part. */
  lemma EndsAlike(before: string, last: string)
    requires last != [] && last != "\n"
    ensures Separator(before + last) == Separator(last)
  {}

  // ----- containment -----

  lemma ContainsMiddle(before: string, part: string, after: string)
    ensures Contains(before + (part + after), part)
  {
    assert OccursAt(before + (part + after), part, |before|);
  }

  lemma ContainsMore(before: string, text: string, after: string, part: string)
    requires Contains(text, part)
    ensures Contains(before + (text + after), part)
  {
    var i: nat :| i <= |text| && OccursAt(text, part, i);
    assert OccursAt(before + (text + after), part, |before| + i);
  }

  lemma PaddedIs(lines: seq<Line>)
    ensures Padded(lines) == lines || Padded(lines) == lines + [[]]
  {}

  lemma BlockStartsWith(content: string) returns (rest: string)
    requires content != []
    ensures Text(Block(content)) == content + rest
  {
    hide Text, Lines, Padded;
    var lines := Lines(content);
    TextOfLines(content);
    TextAppend(lines, [[]]);
    PaddedIs(lines);
    var end := if content[|content| - 1] == '\n' then "" else "\n";
    var pad := if Block(content) == lines then "" else Text([[]]);
    rest := end + pad;
    assert content + (end + pad) == (content + end) + pad;
    assert content + "" == content && (content + end) + "" == content + end;
  }

  /** A text that is cut after a line feed is cut after its first line at the earliest. */
  lemma CutAfterFirst(lines: seq<Line>, u: string, v: string)
    requires AllPlain(lines) && Text(lines) == u + v && u != [] && u[|u| - 1] == '\n'
    ensures lines != [] && |lines[0]| < |u|
    ensures u[..|lines[0]| + 1] == lines[0] + "\n"
    ensures Text(lines[1..]) == u[|lines[0]| + 1..] + v
  {
    assert |Text(lines)| == |u| + |v|;
    var first := lines[0] + "\n";
    var rest := Text(lines[1..]);
    assert first + rest == u + v;
    assert (u + v)[|u| - 1] == '\n';
    CutSame(first, rest, u, v);
  }

  lemma CutSame(a: string, b: string, u: string, v: string)
    requires a + b == u + v && |a| <= |u|
    ensures u[..|a|] == a && b == u[|a|..] + v
  {
    assert u[..|a|] == (u + v)[..|a|] == (a + b)[..|a|] == a;
    assert b == (a + b)[|a|..] == (u + v)[|a|..] == u[|a|..] + v;
  }

  /** A line feed of a text ends one of its lines. */
  lemma {:induction false} LineStart(lines: seq<Line>, u: string, v: string) returns (j: nat)
    requires AllPlain(lines) && Text(lines) == u + v && u != [] && u[|u| - 1] == '\n'
    ensures j <= |lines| && v == Text(lines[j..])
  {
    CutAfterFirst(lines, u, v);
    var n := |lines[0]| + 1;
    j := 1;
    if n < |u| {
      var k := LineStart(lines[1..], u[n..], v);
      j := k + 1;
      assert lines[j..] == lines[1..][k..];
    } else {
      assert u[n..] + v == v;
    }
  }

  lemma LinesUnfold(text: string)
    requires text != []
    ensures var n := LineEnd(text);
            Lines(text) == [text[..n]] + (if n == |text| then [] else Lines(text[n + 1..]))
  {
    hide LineEnd;
  }

  lemma LinesTail(text: string)
    requires |Lines(text)| > 1
    ensures var n := LineEnd(text);
            n < |text| && text[n] == '\n' && Lines(text) == [text[..n]] + Lines(text[n + 1..])
  {
    assert text != [];
    hide Lines;
    LinesUnfold(text);
  }

  lemma LinesHead(text: string)
    requires Lines(text) != []
    ensures Lines(text)[0] <= text
  {}

  /** Where line `i` starts in its text. */
  lemma {:induction false} LineOffset(text: string, i: nat) returns (q: nat)
    requires 0 < i < |Lines(text)|
    ensures 0 < q <= |text| && text[q - 1] == '\n'
    ensures Lines(text)[i] <= text[q..]
    decreases |text|
  {
    hide Lines;
    LinesTail(text);
    var n := LineEnd(text);
    var rest := text[n + 1..];
    if i == 1 {
      q := n + 1;
      LinesHead(rest);
    } else {
      var r := LineOffset(rest, i - 1);
      q := n + 1 + r;
      assert text[q..] == rest[r..];
      assert text[q - 1] == rest[r - 1];
    }
  }

  lemma NoBreakIn(line: Line)
    requires Plain(line)
    ensures forall i :: 0 <= i < |line| ==> line[i] != '\n'
  {}

  lemma NotBeyond(line: Line, first: Line, rest: string)
    requires Plain(line) && line <= first + ("\n" + rest)
    ensures line <= first
  {
    var text := first + ("\n" + rest);
    NoBreakIn(line);
    assert text[|first|] == '\n' && line == text[..|line|];
    assert text[..|line|] == first[..|line|];
  }

  /** A line that a text starts with is a prefix of the text's first line. */
  lemma FirstLineExtends(lines: seq<Line>, line: Line)
    requires Plain(line) && line != [] && line <= Text(lines)
    ensures lines != [] && line <= lines[0]
  {
    TextNotEmpty(lines);
    NotBeyond(line, lines[0], Text(lines[1..]));
  }

  lemma PrefixOfSlice(text: string, part: string, at: nat, q: nat, line: string)
    requires OccursAt(text, part, at) && q <= |part| && line <= part[q..]
    ensures at + q <= |text| && line <= text[at + q..]
    ensures q > 0 ==> text[..at + q] != [] && text[..at + q][|text[..at + q]| - 1] == part[q - 1]
  {}

  /** Line `i` of a part starts, in any text that holds the part, a line that it is a prefix of. */
  lemma PartLineIsThere(lines: seq<Line>, part: string, i: nat) returns (j: nat)
    requires AllPlain(lines) && Contains(Text(lines), part) && 0 < i < |Lines(part)| && Lines(part)[i] != []
    ensures j < |lines| && Lines(part)[i] <= lines[j]
  {
    hide Text, Lines;
    var text := Text(lines);
    var at: nat :| at <= |text| && OccursAt(text, part, at);
    var q := LineOffset(part, i);
    PrefixOfSlice(text, part, at, q, Lines(part)[i]);
    assert text == text[..at + q] + text[at + q..];
    j := LineStart(lines, text[..at + q], text[at + q..]);
    FirstLineExtends(lines[j..], Lines(part)[i]);
  }
}
