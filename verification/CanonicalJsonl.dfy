/** `soup-jsonl-c14n-v1`: ordered JSON objects, one canonical line each.

    Text is a sequence of Unicode scalar values; UTF-8 encodes it one to one. */
module CanonicalJsonl {
  import opened Wrappers
  import opened Json
  import opened JsonRoundTrip
  import JsonExtension
  import opened PythonText

  datatype JsonlError = BlankRow(line: nat) | InvalidRow(line: nat) | NotAnObject(line: nat)

  // ----- splitlines -----

  /** The ends of line of `bytes.splitlines`. */
  predicate ByteBreak(c: char) { c == '\n' || c == '\r' }

  /** The ends of line of `str.splitlines`: also four controls and three characters beyond ASCII. */
  predicate TextBreak(c: char) {
    || ByteBreak(c) || WideBreak(c)
    || 0x0B <= c as int <= 0x0C || 0x1C <= c as int <= 0x1E
  }

  /** The line breaks of Unicode that a JSON string may hold unescaped. */
  predicate WideBreak(c: char) {
    c as int == 0x85 || 0x2028 <= c as int <= 0x2029
  }

  function FirstBreak(isBreak: char -> bool, s: string): (i: nat)
    ensures i <= |s|
    ensures forall k :: 0 <= k < i ==> !isBreak(s[k])
    ensures i < |s| ==> isBreak(s[i])
  {
    if s == [] || isBreak(s[0]) then 0 else 1 + FirstBreak(isBreak, s[1..])
  }

  function BreakLen(s: string, i: nat): (n: nat)
    requires i < |s|
    ensures 1 <= n && i + n <= |s|
  {
    if s[i] == '\r' && i + 1 < |s| && s[i + 1] == '\n' then 2 else 1
  }

  function SplitLines(isBreak: char -> bool, s: string): seq<string>
    decreases |s|
  {
    if s == [] then []
    else
      var i := FirstBreak(isBreak, s);
      if i == |s| then [s] else [s[..i]] + SplitLines(isBreak, s[i + BreakLen(s, i)..])
  }

  // ----- canonicalize_jsonl_bytes -----

  predicate IsBlank(line: string) { forall c <- line :: IsBlankChar(c) }

  /** `decode("utf-8-sig")`: one leading byte order mark is dropped. */
  function DropMark(text: string): string {
    if text != [] && text[0] == 0xFEFF as char then text[1..] else text
  }

  function RowOf(fl: Floats, text: string, line: nat): Result<Value, JsonlError> {
    if IsBlank(text) then Err(BlankRow(line))
    else
      match Loads(fl, text)
      case None => Err(InvalidRow(line))
      case Some(v) => if v.Obj? then Ok(v) else Err(NotAnObject(line))
  }

  function RowResults(fl: Floats, lines: seq<string>): seq<Result<Value, JsonlError>> {
    seq(|lines|, i requires 0 <= i < |lines| => RowOf(fl, lines[i], i + 1))
  }

  /** The ordered logical rows a source holds; the first bad line decides the error. */
  function Rows(fl: Floats, text: string): Result<seq<Value>, JsonlError> {
    Sequence(RowResults(fl, SplitLines(TextBreak, DropMark(text))))
  }

  function PrintAll(rows: seq<Value>): seq<string> {
    if rows == [] then [] else [Print(rows[0])] + PrintAll(rows[1..])
  }

  /** Every line ended by a line feed. */
  function FrameLines(lines: seq<string>): string {
    if lines == [] then [] else lines[0] + ("\n" + FrameLines(lines[1..]))
  }

  /** One printed row per line. */
  function Frame(rows: seq<Value>): string { FrameLines(PrintAll(rows)) }

  function Canonicalize(fl: Floats, text: string): Result<string, JsonlError> {
    var rows :- Rows(fl, text);
    Ok(Frame(rows))
  }

  lemma {:induction false} UniqueObjectPrefix(pairs: seq<(string, Value)>, n: nat)
    requires n <= |pairs|
    ensures UniqueObject(pairs[..n]).None? ==> UniqueObject(pairs).None?
    decreases |pairs| - n
  {
    if n < |pairs| {
      assert pairs[..n + 1][..n] == pairs[..n];
      UniqueObjectPrefix(pairs, n + 1);
    } else {
      assert pairs[..n] == pairs;
    }
  }

  /** The hook `unique_object`. */
  method BuildUniqueObject(pairs: seq<(string, Value)>) returns (r: Option<map<string, Value>>)
    ensures r == UniqueObject(pairs)
  {
    var fields: map<string, Value> := map[];
    for i := 0 to |pairs|
      invariant UniqueObject(pairs[..i]) == Some(fields)
    {
      assert pairs[..i + 1][..i] == pairs[..i];
      if pairs[i].0 in fields {
        UniqueObjectPrefix(pairs, i + 1);
        return None;
      }
      fields := fields[pairs[i].0 := pairs[i].1];
    }
    assert pairs[..|pairs|] == pairs;
    return Some(fields);
  }

  lemma {:induction false} FrameLinesAppend(a: seq<string>, b: seq<string>)
    ensures FrameLines(a + b) == FrameLines(a) + FrameLines(b)
  {
    if a == [] {
      assert a + b == b;
    } else {
      assert (a + b)[1..] == a[1..] + b && (a + b)[0] == a[0];
      FrameLinesAppend(a[1..], b);
      Assoc("\n", FrameLines(a[1..]), FrameLines(b));
      Assoc(a[0], "\n" + FrameLines(a[1..]), FrameLines(b));
    }
  }

  lemma {:induction false} PrintAllAppend(a: seq<Value>, b: seq<Value>)
    ensures PrintAll(a + b) == PrintAll(a) + PrintAll(b)
  {
    if a == [] {
      assert a + b == b;
    } else {
      assert (a + b)[1..] == a[1..] + b && (a + b)[0] == a[0];
      PrintAllAppend(a[1..], b);
    }
  }

  lemma FrameAppend(a: seq<Value>, b: seq<Value>)
    ensures Frame(a + b) == Frame(a) + Frame(b)
  {
    PrintAllAppend(a, b);
    FrameLinesAppend(PrintAll(a), PrintAll(b));
  }

  /** `canonicalize_jsonl_bytes`. */
  method CanonicalizeJsonl(fl: Floats, text: string) returns (r: Result<string, JsonlError>)
    ensures r == Canonicalize(fl, text)
  {
    var lines := SplitLines(TextBreak, DropMark(text));
    var canonicalRows := [];
    ghost var results := RowResults(fl, lines);
    ghost var rows: seq<Value> := [];
    for index := 0 to |lines|
      invariant Sequence(results[..index]) == Ok(rows)
      invariant canonicalRows == Frame(rows)
    {
      var row := RowOf(fl, lines[index], index + 1);
      assert row == results[index];
      SequenceStep(results, index);
      if row.Err? {
        return Err(row.error);
      }
      FrameAppend(rows, [row.value]);
      assert Frame([row.value]) == Print(row.value) + "\n" by { assert [row.value][1..] == []; }
      canonicalRows := canonicalRows + (Print(row.value) + "\n");
      rows := rows + [row.value];
    }
    assert results[..|lines|] == results;
    return Ok(canonicalRows);
  }

  // ----- the characters of printed text -----

  /** No string of the value, and no key, holds a wide line break. */
  predicate Clean(v: Value)
    decreases v, if v.Obj? then |v.fields| + 1 else 0
  {
    KeysCount(v);
    match v
    case Str(s) => CleanText(s)
    case Arr(items) => AllClean(items)
    case Obj(fields) => CleanFields(v, SortedKeys(fields.Keys))
    case _ => true
  }

  predicate AllClean(items: seq<Value>) {
    items == [] || (Clean(items[0]) && AllClean(items[1..]))
  }

  predicate CleanFields(v: Value, keys: seq<string>)
    requires v.Obj? && forall k <- keys :: k in v.fields
    decreases v, |keys|
  {
    keys == [] || (CleanText(keys[0]) && Clean(v.fields[keys[0]]) && CleanFields(v, keys[1..]))
  }

  predicate CleanText(s: string) { forall i :: 0 <= i < |s| ==> !WideBreak(s[i]) }

  predicate Printable(s: string) { forall i :: 0 <= i < |s| ==> s[i] >= ' ' }

  /** Printed text holds no control character, and a wide break only where a string does. */
  predicate Faithful(s: string, clean: bool) { Printable(s) && (CleanText(s) <==> clean) }

  lemma FaithfulConcat(a: string, b: string, x: bool, y: bool)
    requires Faithful(a, x) && Faithful(b, y)
    ensures Faithful(a + b, x && y)
  {
    var s := a + b;
    assert forall i :: 0 <= i < |a| ==> s[i] == a[i];
    assert forall i :: 0 <= i < |b| ==> s[|a| + i] == b[i];
    if CleanText(s) {
      forall i | 0 <= i < |b| ensures !WideBreak(b[i]) {
        assert s[|a| + i] == b[i];
      }
    }
  }

  lemma EscapeCharFaithful(c: char)
    ensures Faithful(EscapeChar(c), !WideBreak(c))
  {
    var escaped := EscapeChar(c);
    if |escaped| == 1 {
      assert escaped[0] == c;
    } else {
      HexFaithful(c as int % 16);
      if c < ' ' {
        HexFaithful(c as int / 16);
      }
    }
  }

  lemma HexFaithful(d: nat)
    requires d < 16
    ensures ' ' <= HexChar(d) <= 'f'
  {}

  lemma {:induction false} EscapeFaithful(s: string)
    ensures Faithful(Escape(s), CleanText(s))
  {
    if s != [] {
      EscapeCharFaithful(s[0]);
      EscapeFaithful(s[1..]);
      FaithfulConcat(EscapeChar(s[0]), Escape(s[1..]), !WideBreak(s[0]), CleanText(s[1..]));
      assert s == [s[0]] + s[1..];
    }
  }

  lemma QuoteFaithful(s: string)
    ensures Faithful(Quote(s), CleanText(s))
  {
    EscapeFaithful(s);
    FaithfulConcat(Escape(s), "\"", CleanText(s), true);
    FaithfulConcat("\"", Escape(s) + "\"", true, CleanText(s));
  }

  lemma NumberTextFaithful(s: string)
    requires MatchNumber(s).end == |s|
    ensures Faithful(s, true)
  {
    if s != [] {
      var m := MatchNumber(s);
      forall i | 0 <= i < |s| ensures ' ' <= s[i] <= 'e' {
        if m.fraction <= i {
          assert IsDigit(s[i]) || i <= m.fraction + 1;
        } else if m.whole < i {
          assert IsDigit(s[i]);
        }
      }
    }
  }

  lemma NumberFaithful(fl: Floats, v: Value)
    requires v.Int? || (v.Float? && fl.Canonical(v.text))
    ensures Faithful(Print(v), true)
  {
    NumberStarts(fl, v);
    NumberTextFaithful(Print(v));
  }

  lemma {:induction false} PrintFaithful(fl: Floats, v: Value)
    requires Valid(fl, v)
    ensures Faithful(Print(v), Clean(v))
    decreases v, if v.Obj? then |v.fields| + 1 else 0
  {
    match v
    case Null =>
    case Bool(b) =>
    case Int(n) => NumberFaithful(fl, v);
    case Float(text) => NumberFaithful(fl, v);
    case Str(s) => QuoteFaithful(s);
    case Arr(items) =>
      ItemsFaithful(fl, items);
      ArrayFaithful(v);
    case Obj(fields) =>
      KeysCount(v);
      FieldsFaithful(fl, v, SortedKeys(fields.Keys));
      ObjectFaithful(v);
  }

  lemma ArrayFaithful(v: Value)
    requires v.Arr? && Faithful(PrintItems(v.items), AllClean(v.items))
    ensures Faithful(Print(v), Clean(v))
  {
    Enclosed("[", PrintItems(v.items), "]", AllClean(v.items));
  }

  lemma ObjectFaithful(v: Value)
    requires v.Obj?
    requires var keys := SortedKeys(v.fields.Keys);
             Faithful(PrintFields(v, keys), CleanFields(v, keys))
    ensures Faithful(Print(v), Clean(v))
  {
    var keys := SortedKeys(v.fields.Keys);
    Enclosed("{", PrintFields(v, keys), "}", CleanFields(v, keys));
  }

  lemma Enclosed(open: string, text: string, close: string, clean: bool)
    requires Faithful(open, true) && Faithful(text, clean) && Faithful(close, true)
    ensures Faithful(open + (text + close), clean)
  {
    FaithfulConcat(text, close, clean, true);
    FaithfulConcat(open, text + close, true, clean);
  }

  lemma {:induction false} ItemsFaithful(fl: Floats, items: seq<Value>)
    requires ValidAll(fl, items)
    ensures Faithful(PrintItems(items), AllClean(items))
    decreases items
  {
    if items != [] {
      PrintFaithful(fl, items[0]);
      if |items| > 1 {
        var rest := items[1..];
        ItemsFaithful(fl, rest);
        FaithfulConcat(",", PrintItems(rest), true, AllClean(rest));
        FaithfulConcat(Print(items[0]), "," + PrintItems(rest), Clean(items[0]), AllClean(rest));
      }
    }
  }

  lemma MemberFaithful(key: string, text: string, next: string, clean: bool, restClean: bool)
    requires Faithful(text, clean) && Faithful(next, restClean)
    ensures Faithful(Quote(key) + (":" + (text + next)), CleanText(key) && clean && restClean)
  {
    QuoteFaithful(key);
    FaithfulConcat(text, next, clean, restClean);
    FaithfulConcat(":", text + next, true, clean && restClean);
    FaithfulConcat(Quote(key), ":" + (text + next), CleanText(key), clean && restClean);
  }

  lemma {:induction false} FieldsFaithful(fl: Floats, v: Value, keys: seq<string>)
    requires v.Obj? && Valid(fl, v) && forall k <- keys :: k in v.fields
    ensures Faithful(PrintFields(v, keys), CleanFields(v, keys))
    decreases v, |keys|
  {
    if keys != [] {
      var member, rest := v.fields[keys[0]], keys[1..];
      PrintFaithful(fl, member);
      FieldsFaithful(fl, v, rest);
      var next := if |keys| == 1 then "" else "," + PrintFields(v, rest);
      if |keys| > 1 {
        FaithfulConcat(",", PrintFields(v, rest), true, CleanFields(v, rest));
      }
      MemberFaithful(keys[0], Print(member), next, Clean(member), CleanFields(v, rest));
    }
  }

  // ----- framing -----

  ghost predicate ValidRows(fl: Floats, rows: seq<Value>) {
    forall row <- rows :: row.Obj? && Valid(fl, row)
  }

  predicate Unbroken(isBreak: char -> bool, line: string) {
    forall i :: 0 <= i < |line| ==> !isBreak(line[i])
  }

  ghost predicate CutsAtNewlines(isBreak: char -> bool) { isBreak('\n') && isBreak('\r') }

  predicate AllUnbroken(isBreak: char -> bool, lines: seq<string>) {
    forall i :: 0 <= i < |lines| ==> Unbroken(isBreak, lines[i])
  }

  lemma SplitLinesAt(isBreak: char -> bool, s: string, i: nat, n: nat)
    requires i < |s| && isBreak(s[i]) && forall k :: 0 <= k < i ==> !isBreak(s[k])
    requires n == BreakLen(s, i)
    ensures SplitLines(isBreak, s) == [s[..i]] + SplitLines(isBreak, s[i + n..])
  {
    hide FirstBreak;
    assert FirstBreak(isBreak, s) == i;
  }

  lemma Parts(a: string, b: string, c: string)
    ensures var s := a + (b + c);
            && |s| == |a| + |b| + |c| && s[..|a|] == a && s[|a| + |b|..] == c
            && (forall k :: 0 <= k < |a| ==> s[k] == a[k])
            && (forall k :: 0 <= k < |b| ==> s[|a| + k] == b[k])
  {}

  lemma SplitAtBreakOf(isBreak: char -> bool, s: string, row: string, n: nat, rest: string)
    requires CutsAtNewlines(isBreak) && |row| + n <= |s| && n > 0
    requires Unbroken(isBreak, row) && s[..|row|] == row && s[|row| + n..] == rest
    requires isBreak(s[|row|]) && BreakLen(s, |row|) == n
    ensures SplitLines(isBreak, s) == [row] + SplitLines(isBreak, rest)
  {
    forall k | 0 <= k < |row| ensures !isBreak(s[k]) {
      assert s[k] == row[k];
    }
    SplitLinesAt(isBreak, s, |row|, n);
  }

  /** A line that ends at `end`, then the lines of the rest. */
  lemma SplitAtBreak(isBreak: char -> bool, row: string, end: string, rest: string)
    requires CutsAtNewlines(isBreak) && Unbroken(isBreak, row)
    requires end == "\r\n" || (|end| == 1 && isBreak(end[0]) && end[0] != '\r')
    ensures SplitLines(isBreak, row + (end + rest)) == [row] + SplitLines(isBreak, rest)
  {
    Parts(row, end, rest);
    var s := row + (end + rest);
    assert s[|row| + 0] == end[0];
    assert |end| == 2 ==> s[|row| + 1] == end[1];
    SplitAtBreakOf(isBreak, s, row, |end|, rest);
  }

  lemma SplitFirstLine(isBreak: char -> bool, row: string, rest: string)
    requires CutsAtNewlines(isBreak) && Unbroken(isBreak, row)
    ensures SplitLines(isBreak, row + ("\n" + rest)) == [row] + SplitLines(isBreak, rest)
  {
    SplitAtBreak(isBreak, row, "\n", rest);
  }

  lemma {:induction false} SplitFrameLines(isBreak: char -> bool, lines: seq<string>, tail: string)
    requires CutsAtNewlines(isBreak) && AllUnbroken(isBreak, lines)
    ensures SplitLines(isBreak, FrameLines(lines) + tail) == lines + SplitLines(isBreak, tail)
  {
    if lines == [] {
      assert FrameLines(lines) + tail == tail;
    } else {
      SplitFrameLines(isBreak, lines[1..], tail);
      FrameFirst(lines, tail);
      SplitFirstOf(isBreak, lines, FrameLines(lines[1..]) + tail, SplitLines(isBreak, tail));
    }
  }

  lemma SplitFirstOf(isBreak: char -> bool, lines: seq<string>, rest: string, more: seq<string>)
    requires CutsAtNewlines(isBreak) && lines != [] && Unbroken(isBreak, lines[0])
    requires SplitLines(isBreak, rest) == lines[1..] + more
    ensures SplitLines(isBreak, lines[0] + ("\n" + rest)) == lines + more
  {
    hide SplitLines, Unbroken;
    SplitFirstLine(isBreak, lines[0], rest);
    FirstThenMore(lines, more);
  }

  lemma FirstThenMore(lines: seq<string>, more: seq<string>)
    requires lines != []
    ensures [lines[0]] + (lines[1..] + more) == lines + more
  {}

  lemma FrameFirst(lines: seq<string>, tail: string)
    requires lines != []
    ensures FrameLines(lines) + tail == lines[0] + ("\n" + (FrameLines(lines[1..]) + tail))
  {}

  lemma RowHasNoBreak(fl: Floats, isBreak: char -> bool, v: Value)
    requires Valid(fl, v)
    requires isBreak == ByteBreak || (isBreak == TextBreak && Clean(v))
    ensures Unbroken(isBreak, Print(v))
  {
    PrintFaithful(fl, v);
  }

  lemma {:induction false} AllCleanAt(rows: seq<Value>, i: nat)
    requires AllClean(rows) && i < |rows|
    ensures Clean(rows[i])
  {
    if i > 0 {
      AllCleanAt(rows[1..], i - 1);
    }
  }

  /** No canonical row holds a line feed or a carriage return, so the byte lines of the framed
      text are exactly the rows, whatever their strings hold. The text lines are too when clean. */
  lemma SplitFrame(fl: Floats, isBreak: char -> bool, rows: seq<Value>, tail: string)
    requires ValidRows(fl, rows)
    requires isBreak == ByteBreak || (isBreak == TextBreak && AllClean(rows))
    ensures SplitLines(isBreak, Frame(rows) + tail) == PrintAll(rows) + SplitLines(isBreak, tail)
  {
    var lines := PrintAll(rows);
    PrintAllAt(rows);
    forall i | 0 <= i < |lines| ensures Unbroken(isBreak, lines[i]) {
      if AllClean(rows) {
        AllCleanAt(rows, i);
      }
      RowHasNoBreak(fl, isBreak, rows[i]);
    }
    SplitFrameLines(isBreak, lines, tail);
  }

  lemma SplitWholeFrame(fl: Floats, isBreak: char -> bool, rows: seq<Value>)
    requires ValidRows(fl, rows)
    requires isBreak == ByteBreak || (isBreak == TextBreak && AllClean(rows))
    ensures SplitLines(isBreak, Frame(rows)) == PrintAll(rows)
  {
    SplitFrame(fl, isBreak, rows, []);
    assert Frame(rows) + [] == Frame(rows);
    assert PrintAll(rows) + [] == PrintAll(rows);
  }

  lemma RowOfPrint(fl: Floats, v: Value, line: nat)
    requires v.Obj? && Valid(fl, v)
    ensures RowOf(fl, Print(v), line) == Ok(v)
  {
    LoadsPrint(fl, v);
    ObjectStarts(v);
    assert !IsBlankChar(Print(v)[0]);
    assert Print(v)[0] in Print(v);
  }

  lemma RowsOfPrintAll(fl: Floats, rows: seq<Value>)
    requires ValidRows(fl, rows)
    ensures Sequence(RowResults(fl, PrintAll(rows))) == Ok(rows)
  {
    PrintAllAt(rows);
    forall i | 0 <= i < |rows| ensures RowResults(fl, PrintAll(rows))[i] == Ok(rows[i]) {
      RowResultAt(fl, PrintAll(rows), i);
      RowOfPrint(fl, rows[i], i + 1);
    }
    SequenceIs(RowResults(fl, PrintAll(rows)), rows);
  }

  lemma RowResultAt(fl: Floats, lines: seq<string>, i: nat)
    requires i < |lines|
    ensures RowResults(fl, lines)[i] == RowOf(fl, lines[i], i + 1)
  {}

  lemma {:induction false} PrintAllAt(rows: seq<Value>)
    ensures |PrintAll(rows)| == |rows|
    ensures forall i :: 0 <= i < |rows| ==> PrintAll(rows)[i] == Print(rows[i])
  {
    if rows != [] {
      PrintAllAt(rows[1..]);
    }
  }

  lemma FrameHasNoMark(rows: seq<Value>)
    requires forall row <- rows :: row.Obj?
    ensures DropMark(Frame(rows)) == Frame(rows)
  {
    if rows != [] {
      ObjectStarts(rows[0]);
      assert Frame(rows)[0] == Print(rows[0])[0];
    }
  }

  lemma ObjectStarts(v: Value)
    requires v.Obj?
    ensures Print(v) != [] && Print(v)[0] == '{'
  {}

  /** A row whose text lines are cut inside a string is refused at the cut. */
  lemma CutRowRefused(fl: Floats, v: Value, rest: string)
    requires v.Obj? && Valid(fl, v) && !Clean(v)
    ensures var lines := SplitLines(TextBreak, Print(v) + ("\n" + rest));
            lines != [] && Refused(fl, lines[0])
  {
    PrintFaithful(fl, v);
    ObjectStarts(v);
    CutInside(Print(v), "\n" + rest);
    var i := FirstBreak(TextBreak, Print(v) + ("\n" + rest));
    JsonExtension.ObjectPrefixRefused(fl, v, Print(v)[..i], Print(v)[i..]);
  }

  /** A wide break inside `text` ends the first line before the end of `text`. */
  lemma CutInside(text: string, rest: string)
    requires text != [] && text[0] == '{' && !CleanText(text)
    ensures var i := FirstBreak(TextBreak, text + rest);
            && 0 < i < |text|
            && text == text[..i] + text[i..]
            && (text + rest)[..i] == text[..i]
  {
    var s := text + rest;
    var i := FirstBreak(TextBreak, s);
    var c :| c in text && WideBreak(c);
    var k :| 0 <= k < |text| && text[k] == c;
    assert s[k] == c && s[0] == '{';
  }

  ghost predicate Refused(fl: Floats, text: string) {
    forall line :: RowOf(fl, text, line).Err?
  }

  lemma {:induction false} FirstDirty(rows: seq<Value>) returns (j: nat)
    requires !AllClean(rows)
    ensures j < |rows| && AllClean(rows[..j]) && !Clean(rows[j])
  {
    if Clean(rows[0]) {
      j := FirstDirty(rows[1..]);
      assert rows[..j + 1][1..] == rows[1..][..j];
      j := j + 1;
    } else {
      j := 0;
    }
  }

  lemma DirtyLine(fl: Floats, rows: seq<Value>, j: nat)
    requires ValidRows(fl, rows)
    requires j < |rows| && AllClean(rows[..j]) && !Clean(rows[j])
    ensures var lines := SplitLines(TextBreak, Frame(rows));
            j < |lines| && Refused(fl, lines[j])
  {
    var before, after := rows[..j], rows[j..];
    assert rows == before + after;
    FrameAppend(before, after);
    SplitFrame(fl, TextBreak, before, Frame(after));
    PrintAllAt(before);
    assert Frame(after) == Print(rows[j]) + ("\n" + Frame(after[1..]));
    CutRowRefused(fl, rows[j], Frame(after[1..]));
  }

  // ----- what the canonical form promises -----

  /** Canonical output is canonical input exactly when no string of it holds U+0085, U+2028 or
      U+2029; otherwise `splitlines` cuts the row and canonicalization refuses its own output. */
  lemma FrameCanonicalIff(fl: Floats, rows: seq<Value>)
    requires ValidRows(fl, rows)
    ensures AllClean(rows) ==> Rows(fl, Frame(rows)) == Ok(rows)
    ensures Canonicalize(fl, Frame(rows)) == Ok(Frame(rows)) <==> AllClean(rows)
    ensures Canonicalize(fl, Frame(rows)).Err? <==> !AllClean(rows)
  {
    FrameHasNoMark(rows);
    if AllClean(rows) {
      SplitWholeFrame(fl, TextBreak, rows);
      RowsOfPrintAll(fl, rows);
    } else {
      var k := FirstDirty(rows);
      DirtyLine(fl, rows, k);
      var lines := SplitLines(TextBreak, Frame(rows));
      RowResultAt(fl, lines, k);
      SequenceOkIff(RowResults(fl, lines));
    }
  }

  lemma RowsValid(fl: Floats, text: string)
    requires fl.Lawful() && Rows(fl, text).Ok?
    ensures ValidRows(fl, Rows(fl, text).value)
  {
    var lines := SplitLines(TextBreak, DropMark(text));
    var results, rows := RowResults(fl, lines), Rows(fl, text).value;
    SequenceOkIff(results);
    forall i | 0 <= i < |rows| ensures rows[i].Obj? && Valid(fl, rows[i]) {
      assert results[i] == RowOf(fl, lines[i], i + 1);
      ParsedIsValid(fl, SkipSpace(lines[i]));
    }
  }

  /** Canonicalizing twice is canonicalizing once, exactly for clean rows. */
  lemma CanonicalizeIdempotentIff(fl: Floats, text: string)
    requires fl.Lawful() && Rows(fl, text).Ok?
    ensures Canonicalize(fl, Canonicalize(fl, text).value) == Canonicalize(fl, text)
       <==> AllClean(Rows(fl, text).value)
  {
    RowsValid(fl, text);
    FrameCanonicalIff(fl, Rows(fl, text).value);
  }

  /** A concrete source whose canonical form is refused: `{"":"\u2028"}`, spelled with the escape. */
  lemma IdempotenceFails(fl: Floats)
    ensures var text := "{\"\":\"\\u2028\"}" + ("\n" + []);
            && Canonicalize(fl, text).Ok?
            && Canonicalize(fl, Canonicalize(fl, text).value).Err?
  {
    var line, v := "{\"\":\"\\u2028\"}", Obj(map["" := Str([0x2028 as char])]);
    EscapedRowIsDirty(fl);
    EscapedLineLoads(fl);
    EscapedLineUnbroken();
    OneLine(fl, line, v);
    FrameCanonicalIff(fl, [v]);
    assert v in [v];
  }

  lemma EscapedLineUnbroken()
    ensures Unbroken(TextBreak, "{\"\":\"\\u2028\"}")
  {}

  lemma OneLine(fl: Floats, line: string, v: Value)
    requires line != [] && line[0] == '{' && Unbroken(TextBreak, line)
    requires Loads(fl, line) == Some(v) && v.Obj?
    ensures Rows(fl, line + ("\n" + [])) == Ok([v])
  {
    assert DropMark(line + ("\n" + [])) == line + ("\n" + []);
    assert line[0] in line && !IsBlankChar(line[0]);
    SplitFirstLine(TextBreak, line, []);
    assert [line] + [] == [line];
    RowResultAt(fl, [line], 0);
    SequenceIs(RowResults(fl, [line]), [v]);
  }

  lemma EscapedRowIsDirty(fl: Floats)
    ensures var v := Obj(map["" := Str([0x2028 as char])]); Valid(fl, v) && !Clean(v)
  {
    var wide := [0x2028 as char];
    assert wide[0] in wide && !CleanText(wide);
    var fields := map["" := Str(wide)];
    assert fields[""] == Str(wide) && !Clean(Str(wide));
  }

  lemma EscapedStringScans()
    ensures ScanString("\\u2028\"}") == Some(([0x2028 as char], "}"))
  {
    var escape, close := "\\u2028\"}", "\"}";
    assert close[1..] == "}" && escape[6..] == close;
    assert ScanString(close) == Some(([], "}"));
    var code := escape[2..];
    assert code[0] == '2' && code[1] == '0' && code[2] == '2' && code[3] == '8';
    assert Hex4(code) == Some(0x2028);
    assert [0x2028 as char] + [] == [0x2028 as char];
  }

  lemma EscapedLineLoads(fl: Floats)
    ensures Loads(fl, "{\"\":\"\\u2028\"}") == Some(Obj(map["" := Str([0x2028 as char])]))
  {
    var v := Str([0x2028 as char]);
    var member, line := "\"\":\"\\u2028\"}", "{\"\":\"\\u2028\"}";
    EscapedMemberLoads(fl);
    assert line[1..] == member;
    OneMember(fl, line, member, "", v);
  }

  lemma EscapedMemberLoads(fl: Floats)
    ensures ParseMember(fl, "\"\":\"\\u2028\"}") == Some(("", Str([0x2028 as char]), "}"))
  {
    hide ParseMember, ParseValue, Quote;
    var text, next := "\"\\u2028\"", "}";
    var value := "\"\\u2028\"}";
    assert text + next == value;
    EscapedValueParses(fl, value);
    MemberStep(fl, "", text, Str([0x2028 as char]), next);
    EmptyKeyText(value);
  }

  lemma EmptyKeyText(value: string)
    requires value == "\"\\u2028\"}"
    ensures Quote("") + (":" + value) == "\"\":\"\\u2028\"}"
  {
    assert Quote("") == "\"\"";
  }

  lemma EscapedValueParses(fl: Floats, value: string)
    requires value == "\"\\u2028\"}"
    ensures ParseValue(fl, value) == Some((Str([0x2028 as char]), "}"))
  {
    EscapedStringScans();
    assert value[1..] == "\\u2028\"}";
  }

  lemma OneMember(fl: Floats, line: string, member: string, key: string, v: Value)
    requires line != [] && line[0] == '{' && line[1..] == member
    requires member != [] && member[0] == '\"' && ParseMember(fl, member) == Some((key, v, "}"))
    ensures Loads(fl, line) == Some(Obj(map[key := v]))
  {
    var pairs := [(key, v)];
    assert "}"[1..] == [] && pairs[..0] == [];
    assert ParseMembers(fl, member) == Some((pairs, []));
    assert UniqueObject(pairs) == Some(map[key := v]);
    ObjectCase(fl, line, member);
    assert SkipSpace(line) == line;
  }

  /** Canonical bytes are equal exactly when the ordered logical rows are. */
  lemma FrameInjective(fl: Floats, a: seq<Value>, b: seq<Value>)
    requires ValidRows(fl, a) && ValidRows(fl, b)
    ensures Frame(a) == Frame(b) <==> a == b
  {
    SplitWholeFrame(fl, ByteBreak, a);
    SplitWholeFrame(fl, ByteBreak, b);
    RowsOfPrintAll(fl, a);
    RowsOfPrintAll(fl, b);
  }

  lemma CanonicalEqualIff(fl: Floats, x: string, y: string)
    requires fl.Lawful() && Rows(fl, x).Ok? && Rows(fl, y).Ok?
    ensures Canonicalize(fl, x) == Canonicalize(fl, y) <==> Rows(fl, x) == Rows(fl, y)
  {
    RowsValid(fl, x);
    RowsValid(fl, y);
    FrameInjective(fl, Rows(fl, x).value, Rows(fl, y).value);
  }

  // ----- newline style and byte order mark -----

  /** Every CRLF and every lone carriage return as a line feed. */
  function Unix(s: string): string
    decreases |s|
  {
    if s == [] then []
    else if s[0] == '\r' then "\n" + Unix(s[BreakLen(s, 0)..])
    else [s[0]] + Unix(s[1..])
  }

  lemma {:induction false} UnixPrefix(a: string, b: string)
    requires '\r' !in a
    ensures Unix(a + b) == a + Unix(b)
  {
    if a == [] {
      assert a + b == b;
    } else {
      assert (a + b)[1..] == a[1..] + b && (a + b)[0] == a[0];
      assert a[0] in a && forall c <- a[1..] :: c in a;
      UnixPrefix(a[1..], b);
      assert a == [a[0]] + a[1..];
    }
  }

  lemma NoBreakNoReturn(isBreak: char -> bool, s: string)
    requires isBreak('\r')
    ensures '\r' !in s[..FirstBreak(isBreak, s)] && Unbroken(isBreak, s[..FirstBreak(isBreak, s)])
  {}

  lemma UnixAtBreak(s: string, i: nat)
    requires i < |s|
    ensures i + BreakLen(s, i) <= |s|
    ensures s[i] == '\r' ==> Unix(s[i..]) == "\n" + Unix(s[i + BreakLen(s, i)..])
    ensures s[i] != '\r' ==> Unix(s[i..]) == [s[i]] + Unix(s[i + BreakLen(s, i)..])
  {
    var rest := s[i..];
    assert BreakLen(rest, 0) == BreakLen(s, i);
    assert rest[BreakLen(rest, 0)..] == s[i + BreakLen(s, i)..] && rest[1..] == s[i + 1..];
  }

  /** Whatever mixture of line ends a text has, its lines are those with line feeds instead. */
  lemma {:induction false} SplitUnix(isBreak: char -> bool, s: string)
    requires CutsAtNewlines(isBreak)
    ensures SplitLines(isBreak, Unix(s)) == SplitLines(isBreak, s)
    decreases |s|
  {
    hide Unix, SplitLines, FirstBreak;
    var i := FirstBreak(isBreak, s);
    var row := s[..i];
    NoBreakNoReturn(isBreak, s);
    assert s == row + s[i..];
    UnixPrefix(row, s[i..]);
    if i == |s| {
      UnixOfNothing();
      assert s[i..] == [] && row + [] == s;
    } else {
      var n := BreakLen(s, i);
      UnixAtBreak(s, i);
      SplitLinesAt(isBreak, s, i, n);
      SplitUnix(isBreak, s[i + n..]);
      SplitAtBreak(isBreak, row, if s[i] == '\r' then "\n" else [s[i]], Unix(s[i + n..]));
    }
  }

  lemma UnixOfNothing()
    ensures Unix([]) == []
  {}

  lemma UnixKeepsMark(s: string)
    ensures DropMark(Unix(s)) == Unix(DropMark(s))
  {}

  /** Sources that differ in nothing but their newline styles have the same rows and the same digest,
      and a byte order mark changes neither. */
  lemma CanonicalizeIgnoresNewlineStyle(fl: Floats, a: string, b: string)
    requires Unix(a) == Unix(b)
    ensures Canonicalize(fl, a) == Canonicalize(fl, b)
    ensures a == [] || a[0] != 0xFEFF as char ==> Canonicalize(fl, [0xFEFF as char] + a) == Canonicalize(fl, a)
  {
    hide Unix, SplitLines;
    UnixKeepsMark(a);
    UnixKeepsMark(b);
    SplitUnix(TextBreak, DropMark(a));
    SplitUnix(TextBreak, DropMark(b));
    assert ([0xFEFF as char] + a)[1..] == a;
  }

  /** A text with other line ends. */
  function WithEnds(s: string, end: string): string {
    if s == [] then []
    else (if s[0] == '\n' then end else [s[0]]) + WithEnds(s[1..], end)
  }

  lemma WithEndsStarts(s: string, end: string)
    requires end == "\r"
    ensures WithEnds(s, end) != [] ==> WithEnds(s, end)[0] != '\n'
  {}

  /** The usual three line ends are such styles. */
  lemma {:induction false} NewlineStyles(s: string, end: string)
    requires '\r' !in s && end in {"\n", "\r\n", "\r"}
    ensures Unix(WithEnds(s, end)) == s
  {
    if s != [] {
      var rest := WithEnds(s[1..], end);
      assert s[0] in s && forall c <- s[1..] :: c in s;
      NewlineStyles(s[1..], end);
      assert s == [s[0]] + s[1..];
      var first := if s[0] == '\n' then end else [s[0]];
      var text := first + rest;
      assert text[|first|..] == rest && text[0] == first[0];
      if end == "\r" {
        WithEndsStarts(s[1..], end);
      }
    }
  }
}
