/** What applying changelog fragments keeps: all text outside Unreleased, and what every section holds. */
module ChangelogProperties {
  import opened Wrappers
  import opened ChangelogText
  import opened Changelog
  import Blank = PythonText

  // ----- a step only inserts, and only inside Unreleased -----

  /** One insertion inside the Unreleased part. */
  ghost predicate Inserts(lines: seq<Line>, after: seq<Line>, k: nat, more: seq<Line>) {
    && UnreleasedBounds(lines).Some?
    && UnreleasedBounds(lines).value.start <= k <= UnreleasedBounds(lines).value.end
    && after == Splice(lines, k, more)
  }

  lemma StepInserts(lines: seq<Line>, fragments: seq<Fragment>, section: Section, after: seq<Line>)
      returns (k: nat, more: seq<Line>)
    requires ApplySection(lines, fragments, section) == Ok(after)
    ensures after == lines || Inserts(lines, after, k, more)
  {
    hide FirstIn, Pending, Blocks, Gap;
    k, more := 0, [];
    var pending := Pending(lines, fragments, section, |fragments|).value;
    if pending != [] {
      var b := UnreleasedBounds(lines).value;
      match SectionBounds(lines, section).value
      case None =>
        k := FirstIn(lines, b.start, b.end, IsLater(section));
        more := Gap(lines[..k]) + HeadingLines(section) + Blocks(pending);
      case Some(own) =>
        k := own.end;
        more := Gap(lines[..k]) + Blocks(pending);
    }
  }

  /** The part before the Unreleased heading, with it, and the part from the next release on. */
  ghost predicate Outside(head: seq<Line>, tail: seq<Line>, lines: seq<Line>) {
    && |head| + |tail| <= |lines|
    && lines[..|head|] == head && lines[|lines| - |tail|..] == tail
    && UnreleasedBounds(lines).Some?
    && UnreleasedBounds(lines).value.start == |head|
    && UnreleasedBounds(lines).value.end <= |lines| - |tail|
  }

  lemma OwnOutside(lines: seq<Line>)
    requires UnreleasedBounds(lines).Some?
    ensures var b := UnreleasedBounds(lines).value;
            Outside(lines[..b.start], lines[b.end..], lines)
  {}

  lemma StartStays(lines: seq<Line>, k: nat, more: seq<Line>)
    requires UnreleasedBounds(lines).Some? && UnreleasedBounds(lines).value.start <= k <= |lines|
    ensures UnreleasedBounds(Splice(lines, k, more)).Some?
    ensures UnreleasedBounds(Splice(lines, k, more)).value.start == UnreleasedBounds(lines).value.start
  {}

  /** The next release heading is found again at the latest where it has moved to. */
  lemma EndStays(lines: seq<Line>, k: nat, more: seq<Line>)
    requires UnreleasedBounds(lines).Some?
    requires UnreleasedBounds(lines).value.start <= k <= UnreleasedBounds(lines).value.end
    ensures UnreleasedBounds(Splice(lines, k, more)).Some?
    ensures UnreleasedBounds(Splice(lines, k, more)).value.end <= UnreleasedBounds(lines).value.end + |more|
    ensures (forall i :: 0 <= i < |more| ==> !IsRelease(more[i])) ==>
              UnreleasedBounds(Splice(lines, k, more)).value.end == UnreleasedBounds(lines).value.end + |more|
  {
    hide FirstIn, IsRelease;
    StartStays(lines, k, more);
    var after, b := Splice(lines, k, more), UnreleasedBounds(lines).value;
    var end := b.end + |more|;
    assert end < |after| ==> after[end] == lines[b.end];
    if forall i :: 0 <= i < |more| ==> !IsRelease(more[i]) {
      forall j | b.start <= j < end ensures !IsRelease(after[j]) {
        assert after[j] == if j < k then lines[j] else if j < k + |more| then more[j - k] else lines[j - |more|];
      }
      FirstIs(after, b.start, |after|, IsRelease, end);
    }
  }

  lemma InsertKeepsOutside(head: seq<Line>, tail: seq<Line>, lines: seq<Line>, after: seq<Line>, k: nat,
                           more: seq<Line>)
    requires Outside(head, tail, lines) && Inserts(lines, after, k, more)
    ensures Outside(head, tail, after)
  {
    hide UnreleasedBounds, IsRelease;
    StartStays(lines, k, more);
    EndStays(lines, k, more);
    assert after[..|head|] == lines[..|head|];
    assert after[|after| - |tail|..] == lines[|lines| - |tail|..];
  }

  /** The successive insertions of a run. */
  datatype Insertion = Insertion(k: nat, more: seq<Line>)

  /** `after` is `lines` with these insertions, each between `head` and `tail`. */
  ghost predicate InsertedWithin(head: seq<Line>, tail: seq<Line>, lines: seq<Line>, steps: seq<Insertion>,
                                 after: seq<Line>)
    decreases |steps|, 1
  {
    if steps == [] then after == lines
    else exists before :: LastInsertion(head, tail, lines, steps, before, after)
  }

  ghost predicate LastInsertion(head: seq<Line>, tail: seq<Line>, lines: seq<Line>, steps: seq<Insertion>,
                                before: seq<Line>, after: seq<Line>)
    requires steps != []
    decreases |steps|, 0
  {
    var last := steps[|steps| - 1];
    && InsertedWithin(head, tail, lines, steps[..|steps| - 1], before)
    && |head| <= last.k && last.k + |tail| <= |before|
    && after == Splice(before, last.k, last.more)
  }

  lemma {:induction false} SectionsInsert(head: seq<Line>, tail: seq<Line>, lines: seq<Line>,
                                          fragments: seq<Fragment>, n: nat)
      returns (steps: seq<Insertion>)
    requires n <= |SECTIONS| && Outside(head, tail, lines) && ApplySections(lines, fragments, n).Ok?
    ensures var after := ApplySections(lines, fragments, n).value;
            Outside(head, tail, after) && InsertedWithin(head, tail, lines, steps, after)
  {
    hide ApplySection, UnreleasedBounds;
    steps := [];
    if n > 0 {
      var before, after := ApplySections(lines, fragments, n - 1).value, ApplySections(lines, fragments, n).value;
      steps := SectionsInsert(head, tail, lines, fragments, n - 1);
      var k, more := StepInserts(before, fragments, SECTIONS[n - 1], after);
      if after != before {
        InsertKeepsOutside(head, tail, before, after, k, more);
        var all := steps + [Insertion(k, more)];
        assert all[..|all| - 1] == steps;
        assert LastInsertion(head, tail, lines, all, before, after);
        steps := all;
      }
    }
  }

  /** Applying fragments, whatever they hold, only inserts lines, and only between the Unreleased
      heading and the next release: everything outside is unchanged. */
  lemma ApplyInsertsInsideUnreleased(lines: seq<Line>, fragments: seq<Fragment>) returns (steps: seq<Insertion>)
    requires UnreleasedBounds(lines).Some? && Apply(lines, fragments).Ok?
    ensures var b, after := UnreleasedBounds(lines).value, Apply(lines, fragments).value;
            && InsertedWithin(lines[..b.start], lines[b.end..], lines, steps, after)
            && Outside(lines[..b.start], lines[b.end..], after)
  {
    hide UnreleasedBounds;
    var b := UnreleasedBounds(lines).value;
    OwnOutside(lines);
    steps := SectionsInsert(lines[..b.start], lines[b.end..], lines, fragments, |SECTIONS|);
  }

  // ----- quiet entries -----

  predicate QuietLine(line: Line) { !IsHeading(line) && !IsRelease(line) }

  predicate Quiet(lines: seq<Line>) {
    forall i :: 0 <= i < |lines| ==> QuietLine(lines[i])
  }

  /** No line of the entry is a section or release heading. */
  predicate HeadingFree(content: string) { Quiet(Lines(content)) }

  lemma QuietAppend(a: seq<Line>, b: seq<Line>)
    requires Quiet(a) && Quiet(b)
    ensures Quiet(a + b)
  {}

  lemma BlankIsQuiet()
    ensures Quiet([[]])
  {}

  lemma BlockQuiet(content: string)
    requires HeadingFree(content)
    ensures Quiet(Block(content))
  {}

  ghost predicate AllHeadingFree(contents: seq<string>) {
    forall i :: 0 <= i < |contents| ==> HeadingFree(contents[i])
  }

  lemma {:induction false} BlocksQuiet(contents: seq<string>)
    requires AllHeadingFree(contents)
    ensures Quiet(Blocks(contents))
  {
    hide HeadingFree, Block, QuietLine;
    if contents != [] {
      BlocksQuiet(contents[..|contents| - 1]);
      BlockQuiet(contents[|contents| - 1]);
      QuietAppend(Blocks(contents[..|contents| - 1]), Block(contents[|contents| - 1]));
    }
  }

  lemma GapQuiet(before: seq<Line>)
    ensures Quiet(Gap(before))
  {}

  lemma StripRightKeeps(text: string)
    requires text != [] && !Blank.IsBlankChar(text[|text| - 1])
    ensures StripRight(text) == text
  {}

  lemma TitleEnds(section: Section)
    ensures Title(section) != [] && !Blank.IsBlankChar(Title(section)[|Title(section)| - 1])
  {}

  lemma TitlesDiffer()
    ensures forall a, b :: Title(a) == Title(b) ==> a == b
  {}

  lemma TitleParses(section: Section)
    ensures SectionOf("### " + Title(section)) == Some(section)
    ensures !IsRelease("### " + Title(section))
  {
    hide StripRight;
    var line := "### " + Title(section);
    assert line[4..] == Title(section);
    TitleEnds(section);
    StripRightKeeps(Title(section));
    TitlesDiffer();
    assert line[2] == '#';
    assert Title(Added) == "Added" && Title(Changed) == "Changed" && Title(Deprecated) == "Deprecated";
    assert Title(Removed) == "Removed" && Title(Fixed) == "Fixed" && Title(Security) == "Security";
  }

  // ----- one insertion and the sections around it -----

  ghost predicate Boundary(lines: seq<Line>, k: nat) {
    && UnreleasedBounds(lines).Some?
    && var b := UnreleasedBounds(lines).value;
       b.start <= k <= b.end && (k < b.end ==> IsHeading(lines[k]))
  }

  /** The section is still there, and what it held is the start of what it holds. */
  ghost predicate Grows(lines: seq<Line>, after: seq<Line>, section: Section) {
    SectionBounds(lines, section).Ok? && SectionBounds(lines, section).value.Some? ==>
      && SectionBounds(after, section).Ok? && SectionBounds(after, section).value.Some?
      && var b, c := SectionBounds(lines, section).value.value, SectionBounds(after, section).value.value;
         lines[b.start..b.end] <= after[c.start..c.end]
  }

  ghost predicate NoRelease(more: seq<Line>) {
    forall i :: 0 <= i < |more| ==> !IsRelease(more[i])
  }

  ghost predicate NoSection(more: seq<Line>, section: Section) {
    forall i :: 0 <= i < |more| ==> SectionOf(more[i]) != Some(section)
  }

  lemma BoundsShift(lines: seq<Line>, k: nat, more: seq<Line>)
    requires UnreleasedBounds(lines).Some? && NoRelease(more)
    requires UnreleasedBounds(lines).value.start <= k <= UnreleasedBounds(lines).value.end
    ensures var b := UnreleasedBounds(lines).value;
            UnreleasedBounds(Splice(lines, k, more)) == Some(Bounds(b.start, b.end + |more|))
  {
    hide UnreleasedBounds;
    StartStays(lines, k, more);
    EndStays(lines, k, more);
  }

  lemma SectionBoundsAre(lines: seq<Line>, section: Section, b: Bounds, heading: nat, end: nat)
    requires UnreleasedBounds(lines) == Some(b) && b.start <= heading < b.end
    requires FirstIn(lines, b.start, b.end, IsSection(section)) == heading
    requires FirstIn(lines, heading + 1, b.end, IsHeading) == end
    ensures SectionBounds(lines, section) == Ok(Some(Bounds(heading + 1, end)))
  {
    hide FirstIn, UnreleasedBounds, IsHeading, SectionOf, IsSection;
  }

  lemma SplicePrefix(lines: seq<Line>, k: nat, more: seq<Line>, low: nat, high: nat, later: nat)
    requires low <= high <= k <= |lines| && high <= later <= |lines| + |more|
    ensures lines[low..high] <= Splice(lines, k, more)[low..later]
  {}

  lemma SpliceSuffix(lines: seq<Line>, k: nat, more: seq<Line>, low: nat, high: nat)
    requires k <= low <= high <= |lines|
    ensures lines[low..high] == Splice(lines, k, more)[low + |more|..high + |more|]
  {}

  lemma BeforeGrows(lines: seq<Line>, k: nat, more: seq<Line>, section: Section, heading: nat)
    requires Boundary(lines, k) && NoRelease(more)
    requires var b := UnreleasedBounds(lines).value;
             b.start <= heading < k && heading == FirstIn(lines, b.start, b.end, IsSection(section))
    ensures Grows(lines, Splice(lines, k, more), section)
  {
    hide UnreleasedBounds, FirstIn, IsHeading, SectionOf, IsRelease, SectionBounds, Splice, IsSection;
    BoundsShift(lines, k, more);
    var after, b := Splice(lines, k, more), UnreleasedBounds(lines).value;
    FirstIs(after, b.start, b.end + |more|, IsSection(section), heading);
    var end := FirstIn(lines, heading + 1, b.end, IsHeading);
    var later := FirstIn(after, heading + 1, b.end + |more|, IsHeading);
    assert end <= k;
    assert end <= later;
    SectionBoundsAre(lines, section, b, heading, end);
    SectionBoundsAre(after, section, Bounds(b.start, b.end + |more|), heading, later);
    SplicePrefix(lines, k, more, heading + 1, end, later);
  }

  lemma BehindFirst(lines: seq<Line>, k: nat, more: seq<Line>, low: nat, high: nat, p: Line -> bool, i: nat)
    requires low <= k <= i <= high <= |lines| && i == FirstIn(lines, low, high, p)
    requires forall j :: 0 <= j < |more| ==> !p(more[j])
    ensures FirstIn(Splice(lines, k, more), low, high + |more|, p) == i + |more|
  {
    hide FirstIn, Splice;
    var after := Splice(lines, k, more);
    forall j | low <= j < i + |more| ensures !p(after[j]) {
      assert after[j] == if j < k then lines[j] else if j < k + |more| then more[j - k] else lines[j - |more|];
    }
    FirstIs(after, low, high + |more|, p, i + |more|);
  }

  lemma ShiftedFirst(lines: seq<Line>, k: nat, more: seq<Line>, low: nat, high: nat, p: Line -> bool)
    requires k <= low <= high <= |lines|
    ensures FirstIn(Splice(lines, k, more), low + |more|, high + |more|, p) == FirstIn(lines, low, high, p) + |more|
  {
    hide FirstIn, Splice;
    var after, i := Splice(lines, k, more), FirstIn(lines, low, high, p);
    assert forall j :: low <= j < high ==> after[j + |more|] == lines[j];
    forall j | low + |more| <= j < i + |more| ensures !p(after[j]) {
      assert after[j] == lines[j - |more|];
    }
    FirstIs(after, low + |more|, high + |more|, p, i + |more|);
  }

  lemma BehindGrows(lines: seq<Line>, k: nat, more: seq<Line>, section: Section, heading: nat)
    requires Boundary(lines, k) && NoRelease(more) && NoSection(more, section)
    requires var b := UnreleasedBounds(lines).value;
             k <= heading < b.end && heading == FirstIn(lines, b.start, b.end, IsSection(section))
    ensures Grows(lines, Splice(lines, k, more), section)
  {
    hide UnreleasedBounds, FirstIn, IsHeading, SectionOf, IsRelease, SectionBounds, Splice;
    BoundsShift(lines, k, more);
    var after, b := Splice(lines, k, more), UnreleasedBounds(lines).value;
    BehindFirst(lines, k, more, b.start, b.end, IsSection(section), heading);
    var end := FirstIn(lines, heading + 1, b.end, IsHeading);
    ShiftedFirst(lines, k, more, heading + 1, b.end, IsHeading);
    SectionBoundsAre(lines, section, b, heading, end);
    SectionBoundsAre(after, section, Bounds(b.start, b.end + |more|), heading + |more|, end + |more|);
    SpliceSuffix(lines, k, more, heading + 1, end);
  }

  lemma InsertionGrows(lines: seq<Line>, k: nat, more: seq<Line>, section: Section)
    requires Boundary(lines, k) && NoRelease(more) && NoSection(more, section)
    ensures Grows(lines, Splice(lines, k, more), section)
  {
    hide UnreleasedBounds, IsHeading, SectionOf, IsRelease, Grows;
    var b := UnreleasedBounds(lines).value;
    var heading := FirstIn(lines, b.start, b.end, IsSection(section));
    if heading < k {
      BeforeGrows(lines, k, more, section, heading);
    } else if heading < b.end {
      BehindGrows(lines, k, more, section, heading);
    } else {
      NothingGrows(lines, Splice(lines, k, more), section);
    }
  }

  lemma NothingGrows(lines: seq<Line>, after: seq<Line>, section: Section)
    requires UnreleasedBounds(lines).Some?
    requires var b := UnreleasedBounds(lines).value; FirstIn(lines, b.start, b.end, IsSection(section)) == b.end
    ensures Grows(lines, after, section)
  {}

  /** Appending quiet lines at the end of a section: the section gets them. */
  lemma AppendFills(lines: seq<Line>, section: Section, more: seq<Line>)
    requires SectionBounds(lines, section).Ok? && SectionBounds(lines, section).value.Some? && Quiet(more)
    ensures var own := SectionBounds(lines, section).value.value;
            && Boundary(lines, own.end)
            && SectionBounds(Splice(lines, own.end, more), section) == Ok(Some(Bounds(own.start, own.end + |more|)))
            && Splice(lines, own.end, more)[own.start..own.end + |more|] == lines[own.start..own.end] + more
  {
    hide UnreleasedBounds, FirstIn, IsHeading, SectionOf, IsRelease, IsSection;
    var own, b := SectionBounds(lines, section).value.value, UnreleasedBounds(lines).value;
    hide SectionBounds, Splice;
    BoundsShift(lines, own.end, more);
    var after, heading := Splice(lines, own.end, more), own.start - 1;
    FirstIs(after, b.start, b.end + |more|, IsSection(section), heading);
    BehindFirst(lines, own.end, more, heading + 1, b.end, IsHeading, own.end);
    SectionBoundsAre(after, section, Bounds(b.start, b.end + |more|), heading, own.end + |more|);
  }

  /** A new section holds the blank line after its heading and the entries. */
  lemma InsertFills(lines: seq<Line>, section: Section, k: nat, gap: seq<Line>, blocks: seq<Line>)
    requires SectionBounds(lines, section) == Ok(None) && Boundary(lines, k) && Quiet(gap) && Quiet(blocks)
    ensures var after := Splice(lines, k, gap + HeadingLines(section) + blocks);
            && SectionBounds(after, section) == Ok(Some(Bounds(k + |gap| + 1, k + |gap| + 2 + |blocks|)))
            && after[k + |gap| + 1..k + |gap| + 2 + |blocks|] == [[]] + blocks
  {
    hide UnreleasedBounds, FirstIn, IsHeading, IsRelease, SectionOf, SectionBounds, Splice, IsSection, Quiet, NoRelease,
         NoSection;
    var b, more := UnreleasedBounds(lines).value, gap + HeadingLines(section) + blocks;
    AbsentMeans(lines, section, b);
    var after, heading := Splice(lines, k, more), k + |gap|;
    HeadingIsNoRelease(gap, section, blocks);
    BoundsShift(lines, k, more);
    NewHeading(lines, section, k, gap, blocks, b);
    NewEnd(lines, section, k, gap, blocks, b);
    SectionBoundsAre(after, section, Bounds(b.start, b.end + |more|), heading, k + |more|);
    MoreAt(section, gap, blocks);
    SpliceMiddle(lines, k, more, |gap| + 1);
  }

  lemma AbsentMeans(lines: seq<Line>, section: Section, b: Bounds)
    requires UnreleasedBounds(lines) == Some(b) && SectionBounds(lines, section) == Ok(None)
    ensures FirstIn(lines, b.start, b.end, IsSection(section)) == b.end
  {}

  lemma SpliceMiddle(lines: seq<Line>, k: nat, more: seq<Line>, low: nat)
    requires k <= |lines| && low <= |more|
    ensures Splice(lines, k, more)[k + low..k + |more|] == more[low..]
  {}

  lemma MoreAt(section: Section, gap: seq<Line>, blocks: seq<Line>)
    ensures var more := gap + HeadingLines(section) + blocks;
            && more[|gap|] == "### " + Title(section)
            && (forall j :: 0 <= j < |gap| ==> more[j] == gap[j])
            && more[|gap| + 1..] == [[]] + blocks
  {}

  lemma NewHeading(lines: seq<Line>, section: Section, k: nat, gap: seq<Line>, blocks: seq<Line>, b: Bounds)
    requires b.start <= k <= b.end <= |lines| && Quiet(gap)
    requires FirstIn(lines, b.start, b.end, IsSection(section)) == b.end
    ensures var more := gap + HeadingLines(section) + blocks;
            FirstIn(Splice(lines, k, more), b.start, b.end + |more|, IsSection(section)) == k + |gap|
  {
    hide FirstIn, IsHeading, Splice, IsRelease, SectionOf;
    var more := gap + HeadingLines(section) + blocks;
    var after := Splice(lines, k, more);
    MoreAt(section, gap, blocks);
    TitleParses(section);
    assert after[k + |gap|] == more[|gap|];
    forall j | b.start <= j < k + |gap| ensures !IsSection(section)(after[j]) {
      assert after[j] == if j < k then lines[j] else more[j - k];
      assert j < k ==> !IsSection(section)(lines[j]);
    }
    FirstIs(after, b.start, b.end + |more|, IsSection(section), k + |gap|);
  }

  lemma NewEnd(lines: seq<Line>, section: Section, k: nat, gap: seq<Line>, blocks: seq<Line>, b: Bounds)
    requires b.start <= k <= b.end <= |lines| && Quiet(blocks) && (k < b.end ==> IsHeading(lines[k]))
    ensures var more := gap + HeadingLines(section) + blocks;
            FirstIn(Splice(lines, k, more), k + |gap| + 1, b.end + |more|, IsHeading) == k + |more|
  {
    hide FirstIn, IsHeading, Splice, IsRelease;
    var more := gap + HeadingLines(section) + blocks;
    var after, rest := Splice(lines, k, more), [[]] + blocks;
    MoreAt(section, gap, blocks);
    BlankIsQuiet();
    QuietAppend([[]], blocks);
    forall j | k + |gap| + 1 <= j < k + |more| ensures !IsHeading(after[j]) {
      assert after[j] == more[j - k] == more[|gap| + 1..][j - k - |gap| - 1];
      assert QuietLine(rest[j - k - |gap| - 1]);
    }
    assert k < b.end ==> after[k + |more|] == lines[k];
    FirstIs(after, k + |gap| + 1, b.end + |more|, IsHeading, k + |more|);
  }

  lemma HeadingIsNoRelease(gap: seq<Line>, section: Section, blocks: seq<Line>)
    requires Quiet(gap) && Quiet(blocks)
    ensures NoRelease(gap + HeadingLines(section) + blocks)
    ensures forall other :: other != section ==> NoSection(gap + HeadingLines(section) + blocks, other)
  {
    hide IsRelease, IsHeading;
    TitleParses(section);
    BlankIsQuiet();
    var more := gap + HeadingLines(section) + blocks;
    forall i | 0 <= i < |more|
      ensures !IsRelease(more[i]) && (forall other :: other != section ==> SectionOf(more[i]) != Some(other))
    {
      assert more[i] == if i < |gap| then gap[i] else if i == |gap| then "### " + Title(section)
                        else ([[]] + blocks)[i - |gap| - 1];
    }
  }

  // ----- entries stay, and are there afterwards -----

  /** The entry's section holds its text. */
  predicate Present(lines: seq<Line>, f: Fragment) {
    && SectionBounds(lines, f.section).Ok? && SectionBounds(lines, f.section).value.Some?
    && Contains(SectionText(lines, SectionBounds(lines, f.section).value.value), f.content)
  }

  lemma PresentStays(lines: seq<Line>, after: seq<Line>, f: Fragment)
    requires Present(lines, f) && Grows(lines, after, f.section)
    ensures Present(after, f)
  {
    hide SectionBounds, Contains, Text;
    var b, c := SectionBounds(lines, f.section).value.value, SectionBounds(after, f.section).value.value;
    var part, whole := lines[b.start..b.end], after[c.start..c.end];
    assert whole == part + whole[|part|..];
    TextAppend(part, whole[|part|..]);
    ContainsMore([], Text(part), Text(whole[|part|..]), f.content);
    assert [] + (Text(part) + Text(whole[|part|..])) == Text(whole);
  }

  lemma {:induction false} BlocksContain(contents: seq<string>, i: nat)
    requires i < |contents| && contents[i] != []
    ensures Contains(Text(Blocks(contents)), contents[i])
  {
    hide Text, Contains;
    var k := |contents| - 1;
    TextAppend(Blocks(contents[..k]), Block(contents[k]));
    if i == k {
      var rest := BlockStartsWith(contents[k]);
      ContainsMiddle(Text(Blocks(contents[..k])), contents[k], rest);
    } else {
      BlocksContain(contents[..k], i);
      ContainsMore([], Text(Blocks(contents[..k])), Text(Block(contents[k])), contents[i]);
      var whole := Text(Blocks(contents[..k])) + Text(Block(contents[k]));
      assert [] + whole == whole;
    }
  }

  lemma ContainsAtEnd(lines: seq<Line>, blocks: seq<Line>, content: string)
    requires Contains(Text(blocks), content)
    ensures Contains(Text(lines + blocks), content)
  {
    hide Text, Contains;
    TextAppend(lines, blocks);
    ContainsMore(Text(lines), Text(blocks), [], content);
    assert Text(lines) + (Text(blocks) + []) == Text(lines) + Text(blocks);
  }
}
