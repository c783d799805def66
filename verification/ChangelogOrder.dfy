/** The order of the sections, and exactly which entries keep it. */
module ChangelogOrder {
  import opened Wrappers
  import opened ChangelogText
  import opened Changelog
  import opened ChangelogProperties
  import opened ChangelogIdempotence
  import Json

  /** Two section headings in the order of the sections; other lines do not matter. */
  predicate InOrder(a: Line, b: Line) {
    SectionOf(a).Some? && SectionOf(b).Some? ==> Rank(SectionOf(a).value) <= Rank(SectionOf(b).value)
  }

  ghost predicate Ordered(lines: seq<Line>, low: nat, high: nat)
    requires low <= high <= |lines|
  {
    forall i, j :: low <= i < j < high ==> InOrder(lines[i], lines[j])
  }

  /** The known sections of Unreleased appear in their order. */
  ghost predicate SectionsOrdered(lines: seq<Line>) {
    UnreleasedBounds(lines).Some? &&
    Ordered(lines, UnreleasedBounds(lines).value.start, UnreleasedBounds(lines).value.end)
  }

  // ----- entries that keep the order -----

  predicate AtMost(line: Line, section: Section) {
    SectionOf(line).Some? ==> Rank(SectionOf(line).value) <= Rank(section)
  }

  predicate AtLeast(line: Line, section: Section) {
    SectionOf(line).Some? ==> Rank(section) <= Rank(SectionOf(line).value)
  }

  /** Every known section heading among the lines is `section`'s. */
  predicate Only(lines: seq<Line>, section: Section) {
    forall i :: 0 <= i < |lines| ==> AtMost(lines[i], section) && AtLeast(lines[i], section)
  }

  /** The known section headings among the lines are in order, from `section` on. */
  predicate Rising(lines: seq<Line>, section: Section) {
    && (forall i :: 0 <= i < |lines| ==> AtLeast(lines[i], section))
    && (forall i, j :: 0 <= i < j < |lines| ==> InOrder(lines[i], lines[j]))
  }

  /** The first release heading among the lines, or their number. */
  function ReleaseIn(lines: seq<Line>): (n: nat)
    ensures n <= |lines|
  {
    FirstIn(lines, 0, |lines|, IsRelease)
  }

  /** Without a release heading only headings of `section` itself; before a release heading, which
      ends Unreleased, headings in order from `section` on. */
  predicate Tame(lines: seq<Line>, section: Section) {
    var n := ReleaseIn(lines);
    if n == |lines| then Only(lines, section) else Rising(lines[..n], section)
  }

  predicate TameEntry(f: Fragment) { Tame(Lines(f.content), f.section) }

  ghost predicate AllTame(fragments: seq<Fragment>) {
    forall i :: 0 <= i < |fragments| ==> TameEntry(fragments[i])
  }

  // ----- tame lines together -----

  lemma ReleaseAppend(a: seq<Line>, b: seq<Line>)
    ensures ReleaseIn(a + b) == if ReleaseIn(a) < |a| then ReleaseIn(a) else |a| + ReleaseIn(b)
  {
    hide IsRelease, FirstIn;
    var n := if ReleaseIn(a) < |a| then ReleaseIn(a) else |a| + ReleaseIn(b);
    FirstIs(a + b, 0, |a + b|, IsRelease, n);
  }

  lemma OnlyThenRising(a: seq<Line>, b: seq<Line>, section: Section)
    requires Only(a, section) && Rising(b, section)
    ensures Rising(a + b, section)
  {
    hide SectionOf;
    var all := a + b;
    forall i, j | 0 <= i < j < |all| ensures InOrder(all[i], all[j]) {
      assert j >= |a| ==> all[j] == b[j - |a|];
      assert i >= |a| ==> InOrder(b[i - |a|], b[j - |a|]);
    }
  }

  lemma TameAppend(a: seq<Line>, b: seq<Line>, section: Section)
    requires Tame(a, section) && Tame(b, section)
    ensures Tame(a + b, section)
  {
    hide ReleaseIn, Rising, AtLeast, AtMost;
    ReleaseAppend(a, b);
    var n := ReleaseIn(b);
    if ReleaseIn(a) < |a| {
      assert (a + b)[..ReleaseIn(a)] == a[..ReleaseIn(a)];
    } else if n < |b| {
      OnlyThenRising(a, b[..n], section);
      assert (a + b)[..|a| + n] == a + b[..n];
    }
  }

  lemma QuietIsTame(lines: seq<Line>, section: Section)
    requires Quiet(lines)
    ensures Tame(lines, section)
  {
    hide IsHeading, IsRelease, FirstIn;
    assert forall i :: 0 <= i < |lines| ==> QuietLine(lines[i]) && SectionOf(lines[i]).None?;
    FirstIs(lines, 0, |lines|, IsRelease, |lines|);
  }

  lemma BlockIsTame(content: string, section: Section)
    requires Tame(Lines(content), section)
    ensures Tame(Block(content), section)
  {
    hide Tame, Lines;
    PaddedIs(Lines(content));
    BlankIsQuiet();
    QuietIsTame([[]], section);
    TameAppend(Lines(content), [[]], section);
  }

  lemma {:induction false} BlocksAreTame(contents: seq<string>, section: Section)
    requires forall i :: 0 <= i < |contents| ==> Tame(Lines(contents[i]), section)
    ensures Tame(Blocks(contents), section)
  {
    hide Tame, Lines, Block;
    if contents == [] {
      QuietIsTame([], section);
    } else {
      var k := |contents| - 1;
      BlocksAreTame(contents[..k], section);
      BlockIsTame(contents[k], section);
      TameAppend(Blocks(contents[..k]), Block(contents[k]), section);
    }
  }

  lemma HeadingIsTame(section: Section)
    ensures Tame(HeadingLines(section), section)
  {
    hide IsRelease, SectionOf, FirstIn;
    TitleParses(section);
    EmptyIsQuiet();
    var lines := HeadingLines(section);
    assert lines[0] == "### " + Title(section) && lines[1] == [];
    FirstIs(lines, 0, 2, IsRelease, 2);
  }

  // ----- inserting tame lines -----

  /** Between these lines headings of `section` are in order. */
  ghost predicate Slot(lines: seq<Line>, b: Bounds, k: nat, section: Section) {
    && b.start <= k <= b.end <= |lines|
    && (forall i :: b.start <= i < k ==> AtMost(lines[i], section))
    && (forall i :: k <= i < b.end ==> AtLeast(lines[i], section))
  }

  lemma LaterSlot(lines: seq<Line>, b: Bounds, section: Section)
    requires b.start <= b.end <= |lines| && Ordered(lines, b.start, b.end)
    ensures Slot(lines, b, FirstIn(lines, b.start, b.end, IsLater(section)), section)
  {
    hide SectionOf, FirstIn;
    var k := FirstIn(lines, b.start, b.end, IsLater(section));
    forall i | b.start <= i < k ensures AtMost(lines[i], section) {
      assert !IsLater(section)(lines[i]);
    }
    forall i | k <= i < b.end ensures AtLeast(lines[i], section) {
      assert IsLater(section)(lines[k]);
      assert k < i ==> InOrder(lines[k], lines[i]);
    }
  }

  lemma OwnSlot(lines: seq<Line>, section: Section)
    requires SectionsOrdered(lines) && SectionBounds(lines, section).Ok? && SectionBounds(lines, section).value.Some?
    ensures Slot(lines, UnreleasedBounds(lines).value, SectionBounds(lines, section).value.value.end, section)
  {
    hide UnreleasedBounds, FirstIn, SectionOf;
    var b, own := UnreleasedBounds(lines).value, SectionBounds(lines, section).value.value;
    var heading := own.start - 1;
    assert IsSection(section)(lines[heading]);
    forall i | b.start <= i < own.end ensures AtMost(lines[i], section) {
      assert i < heading ==> InOrder(lines[i], lines[heading]);
      assert i > heading ==> !IsHeading(lines[i]);
    }
    forall i | own.end <= i < b.end ensures AtLeast(lines[i], section) {
      assert InOrder(lines[heading], lines[i]);
    }
  }

  lemma AllStaysOrdered(lines: seq<Line>, b: Bounds, k: nat, section: Section, more: seq<Line>)
    requires Slot(lines, b, k, section) && Ordered(lines, b.start, b.end) && Only(more, section)
    ensures Ordered(Splice(lines, k, more), b.start, b.end + |more|)
  {
    hide SectionOf, Splice;
    var after := Splice(lines, k, more);
    forall i, j | b.start <= i < j < b.end + |more| ensures InOrder(after[i], after[j]) {
      assert i < k ==> AtMost(lines[i], section);
      assert k <= i < k + |more| ==> AtMost(more[i - k], section);
      assert k <= j < k + |more| ==> AtLeast(more[j - k], section);
      assert k + |more| <= j ==> AtLeast(lines[j - |more|], section);
      if j < k {
        assert InOrder(lines[i], lines[j]);
      } else if k + |more| <= i {
        assert InOrder(lines[i - |more|], lines[j - |more|]);
      }
    }
  }

  lemma StartStaysOrdered(lines: seq<Line>, b: Bounds, k: nat, section: Section, more: seq<Line>, n: nat)
    requires Slot(lines, b, k, section) && Ordered(lines, b.start, b.end) && n <= |more| && Rising(more[..n], section)
    ensures Ordered(Splice(lines, k, more), b.start, k + n)
  {
    hide SectionOf, Splice;
    var after := Splice(lines, k, more);
    forall i, j | b.start <= i < j < k + n ensures InOrder(after[i], after[j]) {
      assert j >= k ==> after[j] == more[..n][j - k];
      if j < k {
        assert InOrder(lines[i], lines[j]);
      } else if i < k {
        assert AtMost(lines[i], section) && AtLeast(more[..n][j - k], section);
      } else {
        assert InOrder(more[..n][i - k], more[..n][j - k]);
      }
    }
  }

  /** A release heading among the inserted lines is where Unreleased now ends. */
  lemma EndsInside(lines: seq<Line>, k: nat, more: seq<Line>)
    requires UnreleasedBounds(lines).Some? && ReleaseIn(more) < |more|
    requires UnreleasedBounds(lines).value.start <= k <= UnreleasedBounds(lines).value.end
    ensures UnreleasedBounds(Splice(lines, k, more))
         == Some(Bounds(UnreleasedBounds(lines).value.start, k + ReleaseIn(more)))
  {
    hide FirstIn, IsRelease, Splice;
    StartStays(lines, k, more);
    var after, b, n := Splice(lines, k, more), UnreleasedBounds(lines).value, ReleaseIn(more);
    assert after[k + n] == more[n];
    forall j | b.start <= j < k + n ensures !IsRelease(after[j]) {
      assert after[j] == if j < k then lines[j] else more[j - k];
    }
    FirstIs(after, b.start, |after|, IsRelease, k + n);
  }

  lemma InsertKeepsOrder(lines: seq<Line>, k: nat, section: Section, more: seq<Line>)
    requires SectionsOrdered(lines) && Slot(lines, UnreleasedBounds(lines).value, k, section) && Tame(more, section)
    ensures SectionsOrdered(Splice(lines, k, more))
  {
    hide UnreleasedBounds, SectionOf, Splice, FirstIn, Only, Rising, IsRelease, AtMost, AtLeast, InOrder;
    var b, n := UnreleasedBounds(lines).value, ReleaseIn(more);
    if n == |more| {
      assert NoRelease(more);
      BoundsShift(lines, k, more);
      AllStaysOrdered(lines, b, k, section, more);
    } else {
      EndsInside(lines, k, more);
      StartStaysOrdered(lines, b, k, section, more, n);
    }
  }

  // ----- applying fragments -----

  lemma PendingIsTame(contents: seq<string>, fragments: seq<Fragment>, section: Section)
    requires FromFragments(contents, fragments, section) && AllTame(fragments)
    ensures Tame(Blocks(contents), section)
  {
    hide Tame, Lines;
    forall k | 0 <= k < |contents| ensures Tame(Lines(contents[k]), section) {
      assert EntryOf(contents[k], fragments, section);
      var i :| 0 <= i < |fragments| && fragments[i].section == section && fragments[i].content == contents[k];
      assert TameEntry(fragments[i]);
    }
    BlocksAreTame(contents, section);
  }

  lemma SectionKeepsOrder(lines: seq<Line>, fragments: seq<Fragment>, section: Section)
    requires ApplySection(lines, fragments, section).Ok? && AllTame(fragments) && SectionsOrdered(lines)
    ensures SectionsOrdered(ApplySection(lines, fragments, section).value)
  {
    hide Pending, FirstIn, Blocks, Gap, Ordered, Tame, TameEntry, Slot, Quiet, HeadingLines;
    var pending := Pending(lines, fragments, section, |fragments|).value;
    if pending != [] {
      var b, blocks := UnreleasedBounds(lines).value, Blocks(pending);
      PendingIs(lines, fragments, section, |fragments|);
      PendingIsTame(pending, fragments, section);
      match SectionBounds(lines, section).value
      case None =>
        var k := FirstIn(lines, b.start, b.end, IsLater(section));
        var gap, heading := Gap(lines[..k]), HeadingLines(section);
        GapQuiet(lines[..k]);
        QuietIsTame(gap, section);
        HeadingIsTame(section);
        TameAppend(gap, heading, section);
        TameAppend(gap + heading, blocks, section);
        LaterSlot(lines, b, section);
        InsertKeepsOrder(lines, k, section, gap + heading + blocks);
      case Some(own) =>
        GapQuiet(lines[..own.end]);
        QuietIsTame(Gap(lines[..own.end]), section);
        TameAppend(Gap(lines[..own.end]), blocks, section);
        OwnSlot(lines, section);
        InsertKeepsOrder(lines, own.end, section, Gap(lines[..own.end]) + blocks);
    }
  }

  lemma {:induction false} SectionsKeepOrder(lines: seq<Line>, fragments: seq<Fragment>, n: nat)
    requires n <= |SECTIONS| && ApplySections(lines, fragments, n).Ok? && AllTame(fragments) && SectionsOrdered(lines)
    ensures SectionsOrdered(ApplySections(lines, fragments, n).value)
  {
    hide ApplySection, SectionsOrdered, TameEntry;
    if n > 0 {
      SectionsKeepOrder(lines, fragments, n - 1);
      SectionKeepsOrder(ApplySections(lines, fragments, n - 1).value, fragments, SECTIONS[n - 1]);
    }
  }

  /** Known sections that were in order stay in order, whatever tame entries are applied. */
  lemma ApplyKeepsOrder(lines: seq<Line>, fragments: seq<Fragment>)
    requires Apply(lines, fragments).Ok? && AllTame(fragments) && SectionsOrdered(lines)
    ensures SectionsOrdered(Apply(lines, fragments).value)
  {
    hide ApplySections, SectionsOrdered, TameEntry;
    SectionsKeepOrder(lines, fragments, |SECTIONS|);
  }

  // ----- every other entry breaks the order of some changelog -----

  /** A changelog in which the section appears twice, in order. */
  function Twice(section: Section): seq<Line> {
    ["## [Unreleased]", "### " + Title(section), "### " + Title(section)]
  }

  lemma TwiceIs(section: Section)
    ensures UnreleasedBounds(Twice(section)) == Some(Bounds(1, 3)) && SectionsOrdered(Twice(section))
    ensures SectionBounds(Twice(section), section) == Ok(Some(Bounds(2, 2)))
  {
    hide SectionOf, FirstIn;
    var lines := Twice(section);
    TitleParses(section);
    assert IsUnreleased(lines[0]);
    FirstIs(lines, 0, 3, IsUnreleased, 0);
    FirstIs(lines, 1, 3, IsRelease, 3);
    FirstIs(lines, 1, 3, IsSection(section), 1);
    FirstIs(lines, 2, 3, IsHeading, 2);
  }

  lemma TwiceAfter(f: Fragment)
    requires f.content != []
    ensures Apply(Twice(f.section), [f]) == Ok(Splice(Twice(f.section), 2, [[]] + Block(f.content)))
  {
    hide Apply, Block, Splice, UnreleasedBounds, SectionBounds;
    var lines := Twice(f.section);
    TwiceIs(f.section);
    assert SectionText(lines, Bounds(2, 2)) == [];
    assert Decide(lines, f) == Ok(true);
    ApplyOne(lines, f);
    assert lines[..2][1] != [];
    OneBlock(f.content);
  }

  lemma OneBlock(content: string)
    ensures Blocks([content]) == Block(content)
  {
    hide Block;
    assert [content][..0] == [] && Blocks([]) == [];
  }

  /** Lines in order behind a heading of the section, and before another unless a release heading
      cuts that off, are tame. */
  lemma BetweenIsTame(after: seq<Line>, entry: seq<Line>, section: Section, end: nat)
    requires |after| >= 4 + |entry| && forall i :: 0 <= i < |entry| ==> after[3 + i] == entry[i]
    requires SectionOf(after[1]) == SectionOf(after[|after| - 1]) == Some(section)
    requires end == if ReleaseIn(entry) < |entry| then 3 + ReleaseIn(entry) else |after|
    requires Ordered(after, 1, end)
    ensures Tame(entry, section)
  {
    hide SectionOf, ReleaseIn;
    var n := ReleaseIn(entry);
    forall i | 0 <= i < n ensures AtLeast(entry[i], section) {
      assert InOrder(after[1], after[3 + i]);
    }
    if n == |entry| {
      forall i | 0 <= i < n ensures AtMost(entry[i], section) {
        assert InOrder(after[3 + i], after[|after| - 1]);
      }
    } else {
      forall i, j | 0 <= i < j < n ensures InOrder(entry[i], entry[j]) {
        assert InOrder(after[3 + i], after[3 + j]);
      }
    }
  }

  lemma OrderedTwiceIsTame(f: Fragment)
    requires SectionsOrdered(Splice(Twice(f.section), 2, [[]] + Block(f.content)))
    ensures TameEntry(f)
  {
    hide SectionOf, UnreleasedBounds, Lines, ReleaseIn, Ordered, Tame;
    TwiceAround(f);
    EndAround(f);
    var after := Splice(Twice(f.section), 2, [[]] + Block(f.content));
    hide Splice, Twice, Block;
    BetweenIsTame(after, Lines(f.content), f.section, UnreleasedBounds(after).value.end);
  }

  lemma TwiceAround(f: Fragment)
    ensures var after := Splice(Twice(f.section), 2, [[]] + Block(f.content));
            && |after| == 4 + |Block(f.content)|
            && SectionOf(after[1]) == SectionOf(after[|after| - 1]) == Some(f.section)
            && |Lines(f.content)| <= |Block(f.content)|
            && forall i :: 0 <= i < |Lines(f.content)| ==> after[3 + i] == Lines(f.content)[i]
  {
    hide SectionOf, Lines;
    TitleParses(f.section);
  }

  lemma EndAround(f: Fragment)
    ensures var after, entry := Splice(Twice(f.section), 2, [[]] + Block(f.content)), Lines(f.content);
            && UnreleasedBounds(after).Some? && UnreleasedBounds(after).value.start == 1
            && UnreleasedBounds(after).value.end
               == if ReleaseIn(entry) < |entry| then 3 + ReleaseIn(entry) else |after|
  {
    hide UnreleasedBounds, Lines, FirstIn, IsRelease, Splice;
    var lines, entry, more := Twice(f.section), Lines(f.content), [[]] + Block(f.content);
    TwiceIs(f.section);
    PaddedIs(entry);
    BlankIsQuiet();
    NoReleaseIn([[]]);
    ReleaseAppend(entry, [[]]);
    ReleaseAppend([[]], Block(f.content));
    if ReleaseIn(more) < |more| {
      EndsInside(lines, 2, more);
    } else {
      assert NoRelease(more);
      BoundsShift(lines, 2, more);
    }
  }

  lemma NoReleaseIn(lines: seq<Line>)
    requires Quiet(lines)
    ensures ReleaseIn(lines) == |lines|
  {
    hide FirstIn, IsRelease;
    assert forall i :: 0 <= i < |lines| ==> QuietLine(lines[i]);
    FirstIs(lines, 0, |lines|, IsRelease, |lines|);
  }

  /** An entry keeps the order of every changelog if and only if it is tame. */
  lemma EntryKeepsOrderIff(f: Fragment)
    ensures (forall lines :: SectionsOrdered(lines) && Apply(lines, [f]).Ok?
               ==> SectionsOrdered(Apply(lines, [f]).value))
       <==> TameEntry(f)
  {
    hide SectionsOrdered, Apply, Tame, Splice;
    if TameEntry(f) {
      forall lines | SectionsOrdered(lines) && Apply(lines, [f]).Ok? ensures SectionsOrdered(Apply(lines, [f]).value) {
        ApplyKeepsOrder(lines, [f]);
      }
    } else {
      if f.content == [] {
        QuietIsTame([], f.section);
      }
      TwiceIs(f.section);
      TwiceAfter(f);
      if SectionsOrdered(Splice(Twice(f.section), 2, [[]] + Block(f.content))) {
        OrderedTwiceIsTame(f);
      }
    }
  }

  /** A list of entries keeps the order, whichever of them are applied, together or after one another,
      to whatever changelog, if and only if each of them is tame. */
  lemma EntriesKeepOrderIff(fragments: seq<Fragment>)
    ensures (forall lines, rest :: (forall f: Fragment :: f in rest ==> f in fragments)
                                   && SectionsOrdered(lines) && Apply(lines, rest).Ok?
                                   ==> SectionsOrdered(Apply(lines, rest).value))
       <==> AllTame(fragments)
  {
    hide SectionsOrdered, Apply, TameEntry;
    if AllTame(fragments) {
      forall lines, rest | (forall f: Fragment :: f in rest ==> f in fragments)
                           && SectionsOrdered(lines) && Apply(lines, rest).Ok?
        ensures SectionsOrdered(Apply(lines, rest).value)
      {
        assert forall i :: 0 <= i < |rest| ==> rest[i] in fragments;
        ApplyKeepsOrder(lines, rest);
      }
    } else {
      var i :| 0 <= i < |fragments| && !TameEntry(fragments[i]);
      EntryKeepsOrderIff(fragments[i]);
      var lines :| SectionsOrdered(lines) && Apply(lines, [fragments[i]]).Ok?
                   && !SectionsOrdered(Apply(lines, [fragments[i]]).value);
      assert forall f: Fragment :: f in [fragments[i]] ==> f in fragments;
    }
  }

  // ----- such an entry -----

  const MISPLACED := Fragment(1, Fixed, "- #1\n### Added")

  lemma MisplacedLines()
    ensures Lines(MISPLACED.content) == ["- #1", "### Added"]
  {
    hide Lines, LineEnd;
    var text, first, rest := MISPLACED.content, "- #1", "### Added";
    assert text == first + ("\n" + rest);
    assert Plain(first) && Plain(rest);
    CutLine(first, rest);
    OneLine(rest);
  }

  lemma MisplacedIsValid()
    ensures ValidFragment(MISPLACED) && Mentions(MISPLACED.content, MISPLACED.number)
  {
    assert Json.Digits(1) == "1";
    assert MentionsAt(MISPLACED.content, 1, 2);
  }

  /** Two lines of Unreleased that are out of order. */
  lemma OutOfOrder(lines: seq<Line>, i: nat, j: nat)
    requires UnreleasedBounds(lines) == Some(Bounds(1, |lines|)) && 1 <= i < j < |lines| && !InOrder(lines[i], lines[j])
    ensures !SectionsOrdered(lines)
  {}

  const DISORDERED: seq<Line> := ["## [Unreleased]", [], "### Fixed", [], "- #1", "### Added", []]

  lemma MisplacedAfter()
    ensures Apply(BARE, [MISPLACED]) == Ok(DISORDERED)
  {
    hide Apply, Lines, FirstIn, Contains, Mentions, SectionText, SectionOf;
    MisplacedLines();
    BareHasNoSections(Fixed);
    ApplyOne(BARE, MISPLACED);
    OneBlock(MISPLACED.content);
    assert BARE[..1] + ([[]] + ["### Fixed", []] + ["- #1", "### Added", []]) + BARE[1..] == DISORDERED;
    assert Block(MISPLACED.content) == ["- #1", "### Added", []];
    FirstIs(BARE, 1, 1, IsLater(Fixed), 1);
    assert "### " + Title(Fixed) == "### Fixed";
    assert Gap(BARE[..1]) == [[]];
    assert HeadingLines(Fixed) == ["### Fixed", []];
    assert InsertSection(BARE, Bounds(1, 1), Fixed, [MISPLACED.content])
        == Splice(BARE, 1, [[]] + ["### Fixed", []] + ["- #1", "### Added", []]) == DISORDERED;
    assert AddEntries(BARE, Fixed, [MISPLACED.content]) == Ok(DISORDERED);
  }

  lemma DisorderedIs()
    ensures !SectionsOrdered(DISORDERED)
  {
    hide FirstIn, SectionOf, SectionsOrdered;
    TitleParses(Fixed);
    TitleParses(Added);
    assert "### Fixed" == "### " + Title(Fixed) && "### Added" == "### " + Title(Added);
    FirstIs(DISORDERED, 0, 7, IsUnreleased, 0);
    FirstIs(DISORDERED, 1, 7, IsRelease, 7);
    OutOfOrder(DISORDERED, 2, 5);
  }

  /** Why entries must be tame: this one passes validation and puts Added behind Fixed. */
  lemma HeadingBreaksOrder()
    ensures ValidFragment(MISPLACED) && Mentions(MISPLACED.content, MISPLACED.number)
    ensures SectionsOrdered(BARE) && Apply(BARE, [MISPLACED]).Ok?
    ensures !SectionsOrdered(Apply(BARE, [MISPLACED]).value)
  {
    hide Apply, FirstIn, Mentions;
    BareHasNoSections(Fixed);
    MisplacedIsValid();
    MisplacedAfter();
    DisorderedIs();
  }
}
