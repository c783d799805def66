/** Assembling changelog fragments: where the sections of `## [Unreleased]` are, where new entries
    go, and what applying all fragments of a release does to the file.

    A changelog is the list of its lines. */
module Changelog {
  import opened Wrappers
  import opened PythonText
  import opened ChangelogText
  import Json

  datatype Section = Added | Changed | Deprecated | Removed | Fixed | Security

  const SECTIONS: seq<Section> := [Added, Changed, Deprecated, Removed, Fixed, Security]

  function Rank(section: Section): (r: nat)
    ensures r < |SECTIONS| && SECTIONS[r] == section
  {
    match section
    case Added => 0
    case Changed => 1
    case Deprecated => 2
    case Removed => 3
    case Fixed => 4
    case Security => 5
  }

  function Title(section: Section): string {
    match section
    case Added => "Added"
    case Changed => "Changed"
    case Deprecated => "Deprecated"
    case Removed => "Removed"
    case Fixed => "Fixed"
    case Security => "Security"
  }

  datatype Fragment = Fragment(number: nat, section: Section, content: string)

  datatype ChangelogError = MissingUnreleased | NumberExists(number: nat)

  // ----- headings -----

  predicate IsUnreleased(line: Line) { "## [Unreleased]" <= line }

  predicate IsRelease(line: Line) { "## [" <= line }

  /** `### ` and at least one more character. */
  predicate IsHeading(line: Line) { |line| > 4 && "### " <= line }

  /** All but the white space at the end, never less than one character. */
  function StripRight(text: string): string {
    if |text| > 1 && IsBlankChar(text[|text| - 1]) then StripRight(text[..|text| - 1]) else text
  }

  function SectionOf(line: Line): (r: Option<Section>)
    ensures r.Some? ==> IsHeading(line)
  {
    if !IsHeading(line) then None
    else
      var title := StripRight(line[4..]);
      if title == "Added" then Some(Added)
      else if title == "Changed" then Some(Changed)
      else if title == "Deprecated" then Some(Deprecated)
      else if title == "Removed" then Some(Removed)
      else if title == "Fixed" then Some(Fixed)
      else if title == "Security" then Some(Security)
      else None
  }

  // ----- searching -----

  /** The first line of `[low, high)` that satisfies `p`, or `high`. */
  function FirstIn(lines: seq<Line>, low: nat, high: nat, p: Line -> bool): (i: nat)
    requires low <= high <= |lines|
    ensures low <= i <= high
    ensures forall j :: low <= j < i ==> !p(lines[j])
    ensures i < high ==> p(lines[i])
    decreases high - low
  {
    if low == high || p(lines[low]) then low else FirstIn(lines, low + 1, high, p)
  }

  lemma FirstIs(lines: seq<Line>, low: nat, high: nat, p: Line -> bool, i: nat)
    requires low <= i <= high <= |lines|
    requires forall j :: low <= j < i ==> !p(lines[j])
    requires i < high ==> p(lines[i])
    ensures FirstIn(lines, low, high, p) == i
  {}

  datatype Bounds = Bounds(start: nat, end: nat)

  /** `_unreleased_bounds`. */
  function UnreleasedBounds(lines: seq<Line>): (r: Option<Bounds>)
    ensures r.Some? ==> 0 < r.value.start <= r.value.end <= |lines|
  {
    var heading := FirstIn(lines, 0, |lines|, IsUnreleased);
    if heading == |lines| then None
    else Some(Bounds(heading + 1, FirstIn(lines, heading + 1, |lines|, IsRelease)))
  }

  function IsSection(section: Section): Line -> bool { line => SectionOf(line) == Some(section) }

  /** `_section_bounds`. */
  function SectionBounds(lines: seq<Line>, section: Section): (r: Result<Option<Bounds>, ChangelogError>)
    ensures r.Ok? && r.value.Some? ==> r.value.value.start <= r.value.value.end <= |lines|
  {
    match UnreleasedBounds(lines)
    case None => Err(MissingUnreleased)
    case Some(b) =>
      var heading := FirstIn(lines, b.start, b.end, IsSection(section));
      if heading == b.end then Ok(None)
      else Ok(Some(Bounds(heading + 1, FirstIn(lines, heading + 1, b.end, IsHeading))))
  }

  // ----- inserting -----

  function Splice(lines: seq<Line>, k: nat, more: seq<Line>): (r: seq<Line>)
    requires k <= |lines|
    ensures |r| == |lines| + |more|
    ensures forall j :: 0 <= j < k ==> r[j] == lines[j]
    ensures forall j :: k <= j < k + |more| ==> r[j] == more[j - k]
    ensures forall j :: k + |more| <= j < |r| ==> r[j] == lines[j - |more|]
  {
    lines[..k] + more + lines[k..]
  }

  /** The blank line that separates what follows from `before`. */
  function Gap(before: seq<Line>): seq<Line> {
    if before != [] && before[|before| - 1] == [] then [] else [[]]
  }

  /** `_append_to_section`. */
  function AppendAt(lines: seq<Line>, end: nat, contents: seq<string>): seq<Line>
    requires end <= |lines|
  {
    Splice(lines, end, Gap(lines[..end]) + Blocks(contents))
  }

  function HeadingLines(section: Section): seq<Line> { ["### " + Title(section), []] }

  predicate LaterSection(section: Section, line: Line) {
    SectionOf(line).Some? && Rank(SectionOf(line).value) > Rank(section)
  }

  function IsLater(section: Section): Line -> bool { line => LaterSection(section, line) }

  /** `_insert_section`: before the first section that comes later. */
  function InsertSection(lines: seq<Line>, b: Bounds, section: Section, contents: seq<string>): seq<Line>
    requires b.start <= b.end <= |lines|
  {
    var at := FirstIn(lines, b.start, b.end, IsLater(section));
    Splice(lines, at, Gap(lines[..at]) + HeadingLines(section) + Blocks(contents))
  }

  lemma TextOfFour(a: seq<Line>, b: seq<Line>, c: seq<Line>, d: seq<Line>)
    ensures Text(a + (b + (c + d))) == Text(a) + (Text(b) + (Text(c) + Text(d)))
  {
    hide Text;
    TextAppend(a, b + (c + d));
    TextAppend(b, c + d);
    TextAppend(c, d);
  }

  lemma AppendParts(lines: seq<Line>, end: nat, contents: seq<string>)
    requires end <= |lines|
    ensures AppendAt(lines, end, contents) == lines[..end] + (Gap(lines[..end]) + (Blocks(contents) + lines[end..]))
  {
    hide Blocks, Gap;
  }

  /** The insertion is, character for character, the separator, the payload and its separator. */
  lemma AppendIsVerbatim(lines: seq<Line>, end: nat, contents: seq<string>)
    requires end <= |lines| && AllPlain(lines) && contents != []
    requires end > 0 && (end > 1 || lines[0] != [])
    requires forall i :: 0 <= i < |contents| ==> contents[i] != [] && contents[i] != "\n"
    ensures var prefix, payload := Text(lines[..end]), JoinVerbatim(contents);
            Text(AppendAt(lines, end, contents))
            == prefix + (Separator(prefix) + ((payload + Separator(payload)) + Text(lines[end..])))
  {
    hide Text, JoinVerbatim, Blocks, Gap, Separator, AppendAt;
    BlocksAreVerbatim(contents);
    GapIsSeparator(lines[..end]);
    AppendParts(lines, end, contents);
    TextOfFour(lines[..end], Gap(lines[..end]), Blocks(contents), lines[end..]);
  }

  lemma GapIsSeparator(before: seq<Line>)
    requires before != [] && AllPlain(before) && (|before| > 1 || before[0] != [])
    ensures Text(Gap(before)) == Separator(Text(before))
  {
    hide Text;
    BlankEnd(before);
    TextEnds(before);
    TextOne([]);
    assert ([] + "\n") == "\n";
    NoText();
  }

  lemma NoText()
    ensures Text([]) == ""
  {}

  // ----- applying the fragments -----

  /** `(?<!\d)#n(?!\d)` at position `i`. */
  predicate MentionsAt(text: string, number: nat, i: nat) {
    && i < |text| && text[i] == '#' && (i == 0 || !Json.IsDigit(text[i - 1]))
    && OccursAt(text, Json.Digits(number), i + 1)
    && var j := i + 1 + |Json.Digits(number)|; j == |text| || !Json.IsDigit(text[j])
  }

  predicate Mentions(text: string, number: nat) {
    exists i: nat :: i < |text| && MentionsAt(text, number, i)
  }

  function SectionText(lines: seq<Line>, b: Bounds): string
    requires b.start <= b.end <= |lines|
  {
    Text(lines[b.start..b.end])
  }

  /** What to do with one fragment: nothing, insert it, or refuse. */
  function Decide(lines: seq<Line>, f: Fragment): Result<bool, ChangelogError> {
    var bounds :- SectionBounds(lines, f.section);
    if bounds.None? then Ok(true)
    else if Contains(SectionText(lines, bounds.value), f.content) then Ok(false)
    else if Mentions(SectionText(lines, bounds.value), f.number) then Err(NumberExists(f.number))
    else Ok(true)
  }

  /** The entries of a section that are not there yet, of the first `n` fragments. */
  function Pending(lines: seq<Line>, fragments: seq<Fragment>, section: Section, n: nat)
    : Result<seq<string>, ChangelogError>
    requires n <= |fragments|
  {
    if n == 0 then Ok([])
    else
      var pending :- Pending(lines, fragments, section, n - 1);
      var f := fragments[n - 1];
      if f.section != section then Ok(pending)
      else
        var add :- Decide(lines, f);
        Ok(if add then pending + [f.content] else pending)
  }

  function AddEntries(lines: seq<Line>, section: Section, contents: seq<string>): Result<seq<Line>, ChangelogError> {
    match UnreleasedBounds(lines)
    case None => Err(MissingUnreleased)
    case Some(b) =>
      var bounds :- SectionBounds(lines, section);
      match bounds
      case None => Ok(InsertSection(lines, b, section, contents))
      case Some(own) => Ok(AppendAt(lines, own.end, contents))
  }

  function ApplySection(lines: seq<Line>, fragments: seq<Fragment>, section: Section)
    : Result<seq<Line>, ChangelogError>
  {
    var pending :- Pending(lines, fragments, section, |fragments|);
    if pending == [] then Ok(lines) else AddEntries(lines, section, pending)
  }

  /** The changelog after the first `n` sections. */
  function ApplySections(lines: seq<Line>, fragments: seq<Fragment>, n: nat): Result<seq<Line>, ChangelogError>
    requires n <= |SECTIONS|
  {
    if n == 0 then Ok(lines)
    else
      var so :- ApplySections(lines, fragments, n - 1);
      ApplySection(so, fragments, SECTIONS[n - 1])
  }

  /** `_apply_fragments`. */
  function Apply(lines: seq<Line>, fragments: seq<Fragment>): Result<seq<Line>, ChangelogError> {
    ApplySections(lines, fragments, |SECTIONS|)
  }

  lemma {:induction false} PendingErrorStays(lines: seq<Line>, fragments: seq<Fragment>, section: Section, n: nat)
    requires n <= |fragments| && Pending(lines, fragments, section, n).Err?
    ensures Pending(lines, fragments, section, |fragments|) == Pending(lines, fragments, section, n)
    decreases |fragments| - n
  {
    hide Decide;
    if n < |fragments| {
      PendingErrorStays(lines, fragments, section, n + 1);
    }
  }

  lemma {:induction false} SectionErrorStays(lines: seq<Line>, fragments: seq<Fragment>, n: nat)
    requires n <= |SECTIONS| && ApplySections(lines, fragments, n).Err?
    ensures Apply(lines, fragments) == ApplySections(lines, fragments, n)
    decreases |SECTIONS| - n
  {
    hide ApplySection;
    if n < |SECTIONS| {
      SectionErrorStays(lines, fragments, n + 1);
    }
  }

  /** The loops of `_apply_fragments`. */
  method ApplyFragments(original: seq<Line>, fragments: seq<Fragment>) returns (r: Result<seq<Line>, ChangelogError>)
    ensures r == Apply(original, fragments)
  {
    hide SectionBounds, AppendAt, InsertSection, Mentions, Contains, AddEntries;
    var changelog := original;
    for s := 0 to |SECTIONS|
      invariant ApplySections(original, fragments, s) == Ok(changelog)
    {
      var section := SECTIONS[s];
      var pending: seq<string> := [];
      for i := 0 to |fragments|
        invariant Pending(changelog, fragments, section, i) == Ok(pending)
      {
        var fragment := fragments[i];
        if fragment.section == section {
          var add := Decide(changelog, fragment);
          if add.Err? {
            PendingErrorStays(changelog, fragments, section, i + 1);
            SectionErrorStays(original, fragments, s + 1);
            return Err(add.error);
          }
          if add.value {
            pending := pending + [fragment.content];
          }
        }
      }
      if pending != [] {
        var added := AddEntries(changelog, section, pending);
        if added.Err? {
          SectionErrorStays(original, fragments, s + 1);
          return Err(added.error);
        }
        changelog := added.value;
      }
    }
    return Ok(changelog);
  }
}
