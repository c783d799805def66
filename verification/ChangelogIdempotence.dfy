/** Applying changelog fragments twice: exactly when the second time does nothing. */
module ChangelogIdempotence {
  import opened Wrappers
  import opened ChangelogText
  import opened Changelog
  import opened ChangelogProperties

  /** What validation leaves of a fragment: an entry that starts a list item. */
  predicate ValidFragment(f: Fragment) { "- " <= f.content }

  ghost predicate AllValidated(fragments: seq<Fragment>) {
    forall i :: 0 <= i < |fragments| ==> ValidFragment(fragments[i])
  }

  ghost predicate AllQuiet(fragments: seq<Fragment>) {
    forall i :: 0 <= i < |fragments| ==> HeadingFree(fragments[i].content)
  }

  ghost predicate AllPresent(lines: seq<Line>, fragments: seq<Fragment>) {
    forall i :: 0 <= i < |fragments| ==> Present(lines, fragments[i])
  }

  // ----- one section -----

  lemma DecideCases(lines: seq<Line>, f: Fragment)
    ensures Decide(lines, f) == Ok(false) <==> Present(lines, f)
    ensures Decide(lines, f) == Ok(false) ==>
              SectionBounds(lines, f.section).Ok? && SectionBounds(lines, f.section).value.Some?
  {}

  ghost predicate FromFragments(contents: seq<string>, fragments: seq<Fragment>, section: Section) {
    forall k :: 0 <= k < |contents| ==> EntryOf(contents[k], fragments, section)
  }

  ghost predicate EntryOf(content: string, fragments: seq<Fragment>, section: Section) {
    exists i :: 0 <= i < |fragments| && fragments[i].section == section && fragments[i].content == content
  }

  /** Pending are entries of the section, and every other one is present already. */
  lemma {:induction false} PendingIs(lines: seq<Line>, fragments: seq<Fragment>, section: Section, n: nat)
    requires n <= |fragments| && Pending(lines, fragments, section, n).Ok?
    ensures var pending := Pending(lines, fragments, section, n).value;
            && FromFragments(pending, fragments, section)
            && forall i :: 0 <= i < n && fragments[i].section == section ==>
                 fragments[i].content in pending || Present(lines, fragments[i])
  {
    hide Decide, Present;
    if n > 0 {
      PendingIs(lines, fragments, section, n - 1);
      DecideCases(lines, fragments[n - 1]);
    }
  }

  lemma PendingIsQuiet(contents: seq<string>, fragments: seq<Fragment>, section: Section)
    requires FromFragments(contents, fragments, section) && AllQuiet(fragments) && AllValidated(fragments)
    ensures AllHeadingFree(contents)
    ensures forall k :: 0 <= k < |contents| ==> contents[k] != []
  {}

  lemma SameGrows(lines: seq<Line>, section: Section)
    ensures Grows(lines, lines, section)
  {}

  /** Entries added to a section they were pending for: they are there, and every section has grown. */
  lemma AddedArePresent(lines: seq<Line>, section: Section, contents: seq<string>)
    requires AddEntries(lines, section, contents).Ok? && AllHeadingFree(contents)
    requires forall k :: 0 <= k < |contents| ==> contents[k] != []
    ensures var after := AddEntries(lines, section, contents).value;
            && (forall s: Section :: Grows(lines, after, s))
            && SectionBounds(after, section).Ok? && SectionBounds(after, section).value.Some?
            && forall k :: 0 <= k < |contents| ==>
                 Contains(SectionText(after, SectionBounds(after, section).value.value), contents[k])
  {
    hide Contains, Text, Grows, HeadingFree, FirstIn, IsHeading;
    BlocksQuiet(contents);
    var b, blocks := UnreleasedBounds(lines).value, Blocks(contents);
    hide Blocks, UnreleasedBounds;
    match SectionBounds(lines, section).value
    case Some(own) => AppendedArePresent(lines, section, contents);
    case None =>
      var k := FirstIn(lines, b.start, b.end, IsLater(section));
      LaterIsBoundary(lines, section, b);
      InsertedArePresent(lines, section, contents, k);
  }

  lemma LaterIsBoundary(lines: seq<Line>, section: Section, b: Bounds)
    requires UnreleasedBounds(lines) == Some(b)
    ensures Boundary(lines, FirstIn(lines, b.start, b.end, IsLater(section)))
  {}

  lemma AllContained(part: seq<Line>, contents: seq<string>, k: nat)
    requires k < |contents| && contents[k] != []
    ensures Contains(Text(part + Blocks(contents)), contents[k])
  {
    hide Text, Contains, Blocks;
    BlocksContain(contents, k);
    ContainsAtEnd(part, Blocks(contents), contents[k]);
  }

  lemma AllGrow(lines: seq<Line>, k: nat, more: seq<Line>, except: Option<Section>)
    requires Boundary(lines, k) && NoRelease(more)
    requires forall s: Section :: Some(s) != except ==> NoSection(more, s)
    requires except.Some? ==> SectionBounds(lines, except.value) == Ok(None)
    ensures forall s: Section :: Grows(lines, Splice(lines, k, more), s)
  {
    hide Grows, Splice, UnreleasedBounds, NoSection, NoRelease, SectionBounds, IsHeading;
    forall s: Section ensures Grows(lines, Splice(lines, k, more), s) {
      if Some(s) == except {
        AbsentGrows(lines, Splice(lines, k, more), s);
      } else {
        InsertionGrows(lines, k, more, s);
      }
    }
  }

  /** The section of `after` ends with the blocks of the entries. */
  lemma FilledContains(after: seq<Line>, section: Section, b: Bounds, part: seq<Line>, contents: seq<string>)
    requires SectionBounds(after, section) == Ok(Some(b)) && b.start <= b.end <= |after|
    requires after[b.start..b.end] == part + Blocks(contents)
    requires forall k :: 0 <= k < |contents| ==> contents[k] != []
    ensures forall k :: 0 <= k < |contents| ==>
              Contains(SectionText(after, SectionBounds(after, section).value.value), contents[k])
  {
    hide Contains, Text, Blocks, SectionBounds;
    forall k | 0 <= k < |contents| ensures Contains(SectionText(after, b), contents[k]) {
      AllContained(part, contents, k);
    }
  }

  lemma AppendedArePresent(lines: seq<Line>, section: Section, contents: seq<string>)
    requires SectionBounds(lines, section).Ok? && SectionBounds(lines, section).value.Some?
    requires Quiet(Blocks(contents)) && forall k :: 0 <= k < |contents| ==> contents[k] != []
    ensures var after := AppendAt(lines, SectionBounds(lines, section).value.value.end, contents);
            && (forall s: Section :: Grows(lines, after, s))
            && SectionBounds(after, section).Ok? && SectionBounds(after, section).value.Some?
            && forall k :: 0 <= k < |contents| ==>
                 Contains(SectionText(after, SectionBounds(after, section).value.value), contents[k])
  {
    hide Contains, SectionText, Blocks, Grows, SectionBounds, Splice, Boundary, Quiet, Gap, NoRelease, NoSection;
    var own := SectionBounds(lines, section).value.value;
    var gap, more := Gap(lines[..own.end]), Gap(lines[..own.end]) + Blocks(contents);
    GapQuiet(lines[..own.end]);
    QuietAppend(gap, Blocks(contents));
    AppendFills(lines, section, more);
    QuietHasNone(more);
    AllGrow(lines, own.end, more, None);
    var part := lines[own.start..own.end];
    assert part + more == (part + gap) + Blocks(contents);
    FilledContains(Splice(lines, own.end, more), section, Bounds(own.start, own.end + |more|), part + gap, contents);
  }

  lemma QuietHasNone(more: seq<Line>)
    requires Quiet(more)
    ensures NoRelease(more) && forall s: Section :: NoSection(more, s)
  {}

  lemma InsertedArePresent(lines: seq<Line>, section: Section, contents: seq<string>, k: nat)
    requires SectionBounds(lines, section) == Ok(None) && Boundary(lines, k)
    requires Quiet(Blocks(contents)) && forall i :: 0 <= i < |contents| ==> contents[i] != []
    ensures var after := Splice(lines, k, Gap(lines[..k]) + HeadingLines(section) + Blocks(contents));
            && (forall s: Section :: Grows(lines, after, s))
            && SectionBounds(after, section).Ok? && SectionBounds(after, section).value.Some?
            && forall k :: 0 <= k < |contents| ==>
                 Contains(SectionText(after, SectionBounds(after, section).value.value), contents[k])
  {
    hide Contains, SectionText, Blocks, Grows, SectionBounds, Splice, UnreleasedBounds, IsHeading, Quiet, Gap,
         NoRelease, NoSection;
    var gap, blocks := Gap(lines[..k]), Blocks(contents);
    var more := gap + HeadingLines(section) + blocks;
    GapQuiet(lines[..k]);
    InsertFills(lines, section, k, gap, blocks);
    HeadingIsNoRelease(gap, section, blocks);
    AllGrow(lines, k, more, Some(section));
    FilledContains(Splice(lines, k, more), section, Bounds(k + |gap| + 1, k + |gap| + 2 + |blocks|), [[]], contents);
  }

  lemma AbsentGrows(lines: seq<Line>, after: seq<Line>, section: Section)
    requires SectionBounds(lines, section) == Ok(None)
    ensures Grows(lines, after, section)
  {}

  lemma SectionStep(lines: seq<Line>, fragments: seq<Fragment>, section: Section)
    requires ApplySection(lines, fragments, section).Ok? && AllQuiet(fragments) && AllValidated(fragments)
    ensures var after := ApplySection(lines, fragments, section).value;
            && (forall s: Section :: Grows(lines, after, s))
            && forall i :: 0 <= i < |fragments| && fragments[i].section == section ==> Present(after, fragments[i])
  {
    hide Pending, AddEntries, Contains, SectionText, Grows, SectionBounds, ValidFragment, HeadingFree;
    var pending := Pending(lines, fragments, section, |fragments|).value;
    var after := ApplySection(lines, fragments, section).value;
    PendingIs(lines, fragments, section, |fragments|);
    PendingIsQuiet(pending, fragments, section);
    if pending == [] {
      forall s: Section ensures Grows(lines, after, s) {
        SameGrows(lines, s);
      }
    } else {
      AddedArePresent(lines, section, pending);
    }
    forall i | 0 <= i < |fragments| && fragments[i].section == section ensures Present(after, fragments[i]) {
      if fragments[i].content in pending {
        var k :| 0 <= k < |pending| && pending[k] == fragments[i].content;
        assert Contains(SectionText(after, SectionBounds(after, section).value.value), pending[k]);
      } else {
        PresentStays(lines, after, fragments[i]);
      }
    }
  }

  // ----- all sections -----

  lemma {:induction false} SectionsDone(lines: seq<Line>, fragments: seq<Fragment>, n: nat)
    requires n <= |SECTIONS| && ApplySections(lines, fragments, n).Ok? && AllQuiet(fragments) && AllValidated(fragments)
    ensures var after := ApplySections(lines, fragments, n).value;
            forall i :: 0 <= i < |fragments| && Rank(fragments[i].section) < n ==> Present(after, fragments[i])
  {
    hide ApplySection, Present, Grows, ValidFragment, HeadingFree;
    if n > 0 {
      var before, after := ApplySections(lines, fragments, n - 1).value, ApplySections(lines, fragments, n).value;
      SectionsDone(lines, fragments, n - 1);
      SectionStep(before, fragments, SECTIONS[n - 1]);
      forall i | 0 <= i < |fragments| && Rank(fragments[i].section) < n ensures Present(after, fragments[i]) {
        if Rank(fragments[i].section) < n - 1 {
          PresentStays(before, after, fragments[i]);
        }
      }
    }
  }

  /** After applying heading-free fragments every one of them is in its section. */
  lemma ApplyMakesPresent(lines: seq<Line>, fragments: seq<Fragment>)
    requires Apply(lines, fragments).Ok? && AllQuiet(fragments) && AllValidated(fragments)
    ensures AllPresent(Apply(lines, fragments).value, fragments)
  {
    hide Present, ApplySections, ValidFragment, HeadingFree;
    SectionsDone(lines, fragments, |SECTIONS|);
  }

  lemma {:induction false} NothingPending(lines: seq<Line>, fragments: seq<Fragment>, section: Section, n: nat)
    requires n <= |fragments| && AllPresent(lines, fragments)
    ensures Pending(lines, fragments, section, n) == Ok([])
  {
    hide Decide, Present, SectionBounds;
    if n > 0 {
      NothingPending(lines, fragments, section, n - 1);
      assert Present(lines, fragments[n - 1]);
      DecideCases(lines, fragments[n - 1]);
    }
  }

  lemma {:induction false} PresentChangesNothing(lines: seq<Line>, fragments: seq<Fragment>, n: nat)
    requires n <= |SECTIONS| && AllPresent(lines, fragments)
    ensures ApplySections(lines, fragments, n) == Ok(lines)
  {
    hide Pending, AddEntries, Present;
    if n > 0 {
      PresentChangesNothing(lines, fragments, n - 1);
      NothingPending(lines, fragments, SECTIONS[n - 1], |fragments|);
    }
  }

  // the other way round: where nothing changes, everything was there

  lemma SectionNeverShrinks(lines: seq<Line>, fragments: seq<Fragment>, section: Section)
    requires ApplySection(lines, fragments, section).Ok?
    ensures var after := ApplySection(lines, fragments, section).value;
            && |lines| <= |after|
            && (|lines| == |after| ==> after == lines && Pending(lines, fragments, section, |fragments|) == Ok([]))
  {
    hide Pending, FirstIn, Gap;
    var pending := Pending(lines, fragments, section, |fragments|).value;
    if pending != [] {
      BlocksNotEmpty(pending);
    }
  }

  lemma BlocksNotEmpty(contents: seq<string>)
    requires contents != []
    ensures |Blocks(contents)| > 0
  {}

  lemma {:induction false} UnchangedSections(lines: seq<Line>, fragments: seq<Fragment>, n: nat, section: Section)
    requires n <= |SECTIONS| && ApplySections(lines, fragments, n).Ok?
    ensures |lines| <= |ApplySections(lines, fragments, n).value|
    ensures |lines| == |ApplySections(lines, fragments, n).value| ==>
              && ApplySections(lines, fragments, n).value == lines
              && (Rank(section) < n ==> Pending(lines, fragments, section, |fragments|) == Ok([]))
  {
    hide ApplySection, Pending;
    if n > 0 {
      var before := ApplySections(lines, fragments, n - 1).value;
      UnchangedSections(lines, fragments, n - 1, section);
      SectionNeverShrinks(before, fragments, SECTIONS[n - 1]);
    }
  }

  lemma {:induction false} NonePendingIsPresent(lines: seq<Line>, fragments: seq<Fragment>, section: Section,
                                                n: nat, i: nat)
    requires i < n <= |fragments| && Pending(lines, fragments, section, n) == Ok([]) && fragments[i].section == section
    ensures Present(lines, fragments[i])
  {
    hide Decide, Present;
    DecideCases(lines, fragments[n - 1]);
    if i < n - 1 {
      NonePendingIsPresent(lines, fragments, section, n - 1, i);
    }
  }

  /** Applying fragments changes nothing exactly when every entry is in its section already. */
  lemma FixedPointIff(lines: seq<Line>, fragments: seq<Fragment>)
    ensures Apply(lines, fragments) == Ok(lines) <==> AllPresent(lines, fragments)
  {
    hide Present, Pending, ApplySections;
    if AllPresent(lines, fragments) {
      PresentChangesNothing(lines, fragments, |SECTIONS|);
    }
    if Apply(lines, fragments) == Ok(lines) {
      forall i | 0 <= i < |fragments| ensures Present(lines, fragments[i]) {
        UnchangedSections(lines, fragments, |SECTIONS|, fragments[i].section);
        NonePendingIsPresent(lines, fragments, fragments[i].section, |fragments|, i);
      }
    }
  }

  // ----- a heading inside an entry is never inside a section -----

  lemma SectionIsQuiet(lines: seq<Line>, section: Section)
    requires SectionBounds(lines, section).Ok? && SectionBounds(lines, section).value.Some?
    ensures var b := SectionBounds(lines, section).value.value; Quiet(lines[b.start..b.end])
  {}

  lemma PrefixIsQuiet(line: Line, longer: Line)
    requires line <= longer && QuietLine(longer)
    ensures QuietLine(line)
  {}

  lemma ListItemIsQuiet(content: string)
    requires "- " <= content
    ensures Lines(content) != [] && QuietLine(Lines(content)[0])
  {
    assert content[0] == '-';
    var n := LineEnd(content);
    assert n > 0;
    assert Lines(content)[0] == content[..n];
    assert Lines(content)[0][0] == '-';
  }

  lemma PresentIsHeadingFree(lines: seq<Line>, f: Fragment)
    requires AllPlain(lines) && ValidFragment(f) && Present(lines, f)
    ensures HeadingFree(f.content)
  {
    hide SectionBounds, Contains, Text, Lines, QuietLine;
    var b := SectionBounds(lines, f.section).value.value;
    var part := lines[b.start..b.end];
    SectionIsQuiet(lines, f.section);
    ListItemIsQuiet(f.content);
    forall i | 0 <= i < |Lines(f.content)| ensures QuietLine(Lines(f.content)[i]) {
      if Lines(f.content)[i] == [] {
        EmptyIsQuiet();
      } else if i > 0 {
        var j := PartLineIsThere(part, f.content, i);
        PrefixIsQuiet(Lines(f.content)[i], part[j]);
      }
    }
  }

  lemma EmptyIsQuiet()
    ensures QuietLine([])
  {}

  // ----- the second application -----

  lemma SplicePlain(lines: seq<Line>, k: nat, more: seq<Line>)
    requires k <= |lines| && AllPlain(lines) && AllPlain(more)
    ensures AllPlain(Splice(lines, k, more))
  {}

  lemma {:induction false} BlocksPlain(contents: seq<string>)
    ensures AllPlain(Blocks(contents))
  {
    if contents != [] {
      BlocksPlain(contents[..|contents| - 1]);
    }
  }

  lemma SectionPlain(lines: seq<Line>, fragments: seq<Fragment>, section: Section)
    requires AllPlain(lines) && ApplySection(lines, fragments, section).Ok?
    ensures AllPlain(ApplySection(lines, fragments, section).value)
  {
    hide Pending, FirstIn, Blocks;
    var pending := Pending(lines, fragments, section, |fragments|).value;
    if pending != [] {
      BlocksPlain(pending);
      var b := UnreleasedBounds(lines).value;
      match SectionBounds(lines, section).value
      case None =>
        var k := FirstIn(lines, b.start, b.end, IsLater(section));
        HeadingPlain(section);
        SplicePlain(lines, k, Gap(lines[..k]) + HeadingLines(section) + Blocks(pending));
      case Some(own) => SplicePlain(lines, own.end, Gap(lines[..own.end]) + Blocks(pending));
    }
  }

  lemma HeadingPlain(section: Section)
    ensures AllPlain(HeadingLines(section))
  {
    match section
    case Added => assert Plain("### Added");
    case Changed => assert Plain("### Changed");
    case Deprecated => assert Plain("### Deprecated");
    case Removed => assert Plain("### Removed");
    case Fixed => assert Plain("### Fixed");
    case Security => assert Plain("### Security");
  }

  lemma {:induction false} ApplyPlain(lines: seq<Line>, fragments: seq<Fragment>, n: nat)
    requires n <= |SECTIONS| && AllPlain(lines) && ApplySections(lines, fragments, n).Ok?
    ensures AllPlain(ApplySections(lines, fragments, n).value)
  {
    hide ApplySection, Plain;
    if n > 0 {
      ApplyPlain(lines, fragments, n - 1);
      SectionPlain(ApplySections(lines, fragments, n - 1).value, fragments, SECTIONS[n - 1]);
    }
  }

  /** A second application, of all the fragments or of those a crash left behind, is a no-op; of all
      of them it is one if and only if no entry holds a line that is a section or release heading. */
  lemma SecondApplicationIff(lines: seq<Line>, fragments: seq<Fragment>)
    requires AllPlain(lines) && AllValidated(fragments) && Apply(lines, fragments).Ok?
    ensures var after := Apply(lines, fragments).value;
            Apply(after, fragments) == Ok(after) <==> AllQuiet(fragments)
    ensures AllQuiet(fragments) ==>
              forall rest :: (forall f: Fragment :: f in rest ==> f in fragments) ==>
                var after := Apply(lines, fragments).value; Apply(after, rest) == Ok(after)
  {
    hide Apply, Present, HeadingFree, ValidFragment, Plain;
    var after := Apply(lines, fragments).value;
    FixedPointIff(after, fragments);
    if AllQuiet(fragments) {
      ApplyMakesPresent(lines, fragments);
      forall rest | forall f: Fragment :: f in rest ==> f in fragments ensures Apply(after, rest) == Ok(after) {
        SomePresent(after, fragments, rest);
        FixedPointIff(after, rest);
      }
    }
    if AllPresent(after, fragments) {
      ApplyIsPlain(lines, fragments);
      forall i | 0 <= i < |fragments| ensures HeadingFree(fragments[i].content) {
        PresentIsHeadingFree(after, fragments[i]);
      }
    }
  }

  lemma ApplyIsPlain(lines: seq<Line>, fragments: seq<Fragment>)
    requires AllPlain(lines) && Apply(lines, fragments).Ok?
    ensures AllPlain(Apply(lines, fragments).value)
  {
    hide Plain, ApplySections;
    ApplyPlain(lines, fragments, |SECTIONS|);
  }

  lemma SomePresent(lines: seq<Line>, fragments: seq<Fragment>, rest: seq<Fragment>)
    requires AllPresent(lines, fragments) && forall f: Fragment :: f in rest ==> f in fragments
    ensures AllPresent(lines, rest)
  {
    hide Present;
    forall i | 0 <= i < |rest| ensures Present(lines, rest[i]) {
      assert rest[i] in rest;
      var k :| 0 <= k < |fragments| && fragments[k] == rest[i];
    }
  }

  // ----- an entry with a heading in it -----

  const BARE: seq<Line> := ["## [Unreleased]"]

  const WITH_HEADING := Fragment(1, Fixed, "- #1\n### N")

  lemma BareHasNoSections(section: Section)
    ensures UnreleasedBounds(BARE) == Some(Bounds(1, 1))
    ensures SectionBounds(BARE, section) == Ok(None)
  {}

  /** One fragment that is to be inserted changes the changelog in the turn of its section only. */
  lemma {:induction false} OneSection(lines: seq<Line>, f: Fragment, n: nat)
    requires n <= |SECTIONS| && Decide(lines, f) == Ok(true) && AddEntries(lines, f.section, [f.content]).Ok?
    ensures ApplySections(lines, [f], n)
         == if n <= Rank(f.section) then Ok(lines) else AddEntries(lines, f.section, [f.content])
  {
    hide Decide, AddEntries;
    if n > 0 {
      OneSection(lines, f, n - 1);
      var so, section := ApplySections(lines, [f], n - 1).value, SECTIONS[n - 1];
      assert Pending(so, [f], section, 0) == Ok([]);
      assert [] + [f.content] == [f.content];
      assert Pending(so, [f], section, 1) == Ok(if section == f.section then [f.content] else []);
    }
  }

  lemma ApplyOne(lines: seq<Line>, f: Fragment)
    requires Decide(lines, f) == Ok(true) && AddEntries(lines, f.section, [f.content]).Ok?
    ensures Apply(lines, [f]) == AddEntries(lines, f.section, [f.content])
  {
    hide Decide, AddEntries, ApplySections;
    OneSection(lines, f, |SECTIONS|);
  }

  lemma CutLine(first: Line, rest: string)
    requires Plain(first)
    ensures Lines(first + ("\n" + rest)) == [first] + Lines(rest)
  {
    hide Lines, LineEnd;
    var text := first + ("\n" + rest);
    FirstBreakAt(text, |first|);
    LinesUnfold(text);
    assert text[..|first|] == first && text[|first| + 1..] == rest;
  }

  lemma HeadingInside()
    ensures ValidFragment(WITH_HEADING) && !HeadingFree(WITH_HEADING.content)
  {
    hide Lines, LineEnd;
    var text, first, rest := WITH_HEADING.content, "- #1", "### N";
    assert text == first + ("\n" + rest);
    assert "- " <= text;
    assert Plain(first) && Plain(rest);
    CutLine(first, rest);
    OneLine(rest);
    assert Lines(text)[1] == Lines(rest)[0];
    assert rest[..4] == "### ";
  }

  lemma {:induction false} FirstBreakAt(text: string, n: nat)
    requires n < |text| && text[n] == '\n' && forall i :: 0 <= i < n ==> text[i] != '\n'
    ensures LineEnd(text) == n
  {}

  /** Why entries must be free of headings: here is one whose second application is not a no-op. */
  lemma HeadingBreaksRerun()
    ensures AllPlain(BARE) && AllValidated([WITH_HEADING])
    ensures Apply(BARE, [WITH_HEADING]).Ok?
    ensures var after := Apply(BARE, [WITH_HEADING]).value;
            Apply(after, [WITH_HEADING]) != Ok(after)
  {
    hide Lines, HeadingFree, FirstIn, Blocks, Contains, Mentions, SectionText, Apply;
    var fragments := [WITH_HEADING];
    HeadingInside();
    BareHasNoSections(Fixed);
    ApplyOne(BARE, WITH_HEADING);
    BarePlain();
    SecondApplicationIff(BARE, fragments);
    assert !HeadingFree(fragments[0].content);
  }

  lemma BarePlain()
    ensures AllPlain(BARE)
  {}
}
