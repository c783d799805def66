/** The one-pass check of the rows of a capture payload. */
module CaptureRows {
  import opened Wrappers
  import opened CaptureContract

  /** What the plan fixes about every row. */
  datatype Limits<N> = Limits(vocabSize: nat, temperature: N, topK: nat, maxSequenceLength: nat)

  datatype ScanError =
    | NoRows
    | NotTeacherExpert
    | VocabularyMismatch
    | TemperatureMismatch
    | TopKMismatch
    | ContextTooLong
    | ExamplesNotContiguous
    | PositionsNotContiguous

  /** The loop variables of `_capture_payload`. */
  datatype Scan = Scan(closed: set<string>, current: Option<string>, expected: nat)

  const START := Scan({}, None, 0)

  function RowError<N(==)>(limits: Limits<N>, row: CaptureToken<N>): Option<ScanError> {
    if !row.kind.TeacherExpert? then Some(NotTeacherExpert)
    else if row.vocabSize != limits.vocabSize then Some(VocabularyMismatch)
    else if row.temperature != limits.temperature then Some(TemperatureMismatch)
    else if |row.topK| != limits.topK then Some(TopKMismatch)
    else if |row.context| > limits.maxSequenceLength then Some(ContextTooLong)
    else None
  }

  /** One turn of the scan on the row's example and position. */
  function Step(s: Scan, id: string, position: nat): Result<Scan, ScanError> {
    if Some(id) != s.current && id in s.closed then Err(ExamplesNotContiguous)
    else
      var t :=
        if Some(id) == s.current then s
        else Scan(if s.current.Some? then s.closed + {s.current.value} else s.closed, Some(id), 0);
      if position != t.expected then Err(PositionsNotContiguous)
      else Ok(t.(expected := t.expected + 1))
  }

  function Check<N(==)>(limits: Limits<N>, rows: seq<CaptureToken<N>>): Result<Scan, ScanError> {
    if rows == [] then Ok(START)
    else
      var row := rows[|rows| - 1];
      var s :- Check(limits, rows[..|rows| - 1]);
      if RowError(limits, row).Some? then Err(RowError(limits, row).value)
      else Step(s, row.exampleId, row.position)
  }

  /** The checks of `_capture_payload`. */
  function ScanRows<N(==)>(limits: Limits<N>, rows: seq<CaptureToken<N>>): Result<Scan, ScanError> {
    if rows == [] then Err(NoRows) else Check(limits, rows)
  }

  lemma {:induction false} CheckErrorStays<N>(limits: Limits<N>, rows: seq<CaptureToken<N>>, i: nat)
    requires i <= |rows| && Check(limits, rows[..i]).Err?
    ensures Check(limits, rows) == Check(limits, rows[..i])
  {
    if i == |rows| {
      assert rows[..i] == rows;
    } else {
      var init := rows[..|rows| - 1];
      assert init[..i] == rows[..i];
      CheckErrorStays(limits, init, i);
    }
  }

  /** The loop of `_capture_payload`. */
  method ScanPayloadRows<N(==)>(limits: Limits<N>, rows: seq<CaptureToken<N>>)
    returns (r: Result<Scan, ScanError>)
    ensures r == ScanRows(limits, rows)
  {
    if rows == [] {
      return Err(NoRows);
    }
    var closedExamples: set<string> := {};
    var currentExample: Option<string> := None;
    var expectedPosition := 0;
    for i := 0 to |rows|
      invariant Check(limits, rows[..i]) == Ok(Scan(closedExamples, currentExample, expectedPosition))
    {
      var row := rows[i];
      assert rows[..i + 1][..i] == rows[..i];
      ghost var next := Check(limits, rows[..i + 1]);
      var problem := RowError(limits, row);
      if problem.Some? {
        CheckErrorStays(limits, rows, i + 1);
        return Err(problem.value);
      }
      if Some(row.exampleId) != currentExample {
        if row.exampleId in closedExamples {
          CheckErrorStays(limits, rows, i + 1);
          return Err(ExamplesNotContiguous);
        }
        if currentExample.Some? {
          closedExamples := closedExamples + {currentExample.value};
        }
        currentExample := Some(row.exampleId);
        expectedPosition := 0;
      }
      if row.position != expectedPosition {
        CheckErrorStays(limits, rows, i + 1);
        return Err(PositionsNotContiguous);
      }
      expectedPosition := expectedPosition + 1;
    }
    assert rows[..|rows|] == rows;
    return Ok(Scan(closedExamples, currentExample, expectedPosition));
  }

  // ----- what the scan accepts -----

  /** What the scan looks at in a row. */
  datatype Label = Label(id: string, position: nat)

  /** One example with its number of rows. */
  datatype Block = Block(id: string, rows: nat)

  /** The labels of one block: its id with positions 0, 1, ... */
  function BlockLabels(b: Block): seq<Label>
    decreases b.rows
  {
    if b.rows == 0 then [] else BlockLabels(Block(b.id, b.rows - 1)) + [Label(b.id, b.rows - 1)]
  }

  function Expand(blocks: seq<Block>): seq<Label> {
    if blocks == [] then [] else Expand(blocks[..|blocks| - 1]) + BlockLabels(blocks[|blocks| - 1])
  }

  function Labels<N>(rows: seq<CaptureToken<N>>): (r: seq<Label>)
    ensures |r| == |rows|
  {
    if rows == [] then []
    else
      var row := rows[|rows| - 1];
      Labels(rows[..|rows| - 1]) + [Label(row.exampleId, row.position)]
  }

  function Ids(blocks: seq<Block>): set<string> {
    if blocks == [] then {} else Ids(blocks[..|blocks| - 1]) + {blocks[|blocks| - 1].id}
  }

  /** Blocks with distinct example ids, each with at least one row. */
  predicate Grouped(blocks: seq<Block>) {
    blocks == [] ||
    var init, last := blocks[..|blocks| - 1], blocks[|blocks| - 1];
    Grouped(init) && last.rows > 0 && last.id !in Ids(init)
  }

  /** The scan variables after a list of blocks. */
  function ScanOf(blocks: seq<Block>): Scan {
    if blocks == [] then START
    else
      var last := blocks[|blocks| - 1];
      Scan(Ids(blocks[..|blocks| - 1]), Some(last.id), last.rows)
  }

  /** The facts about `init + [last]` in terms of its two parts. */
  lemma Snoc(init: seq<Block>, last: Block)
    ensures var blocks := init + [last];
            && Expand(blocks) == Expand(init) + BlockLabels(last)
            && Ids(blocks) == Ids(init) + {last.id}
            && ScanOf(blocks) == Scan(Ids(init), Some(last.id), last.rows)
            && (Grouped(blocks) <==> Grouped(init) && last.rows > 0 && last.id !in Ids(init))
  {}

  /** One more accepted row continues the last block or opens a new one; nothing else is accepted. */
  lemma StepExtends(blocks: seq<Block>, id: string, position: nat) returns (more: seq<Block>)
    requires Grouped(blocks) && Step(ScanOf(blocks), id, position).Ok?
    ensures Grouped(more) && ScanOf(more) == Step(ScanOf(blocks), id, position).value
    ensures Expand(more) == Expand(blocks) + [Label(id, position)]
  {
    if blocks != [] && blocks[|blocks| - 1].id == id {
      more := LongerBlock(blocks[..|blocks| - 1], blocks[|blocks| - 1], position);
      assert blocks == blocks[..|blocks| - 1] + [blocks[|blocks| - 1]];
    } else {
      more := blocks + [Block(id, 1)];
      Snoc(blocks, Block(id, 1));
      assert BlockLabels(Block(id, 0)) == [];
      if blocks != [] {
        Snoc(blocks[..|blocks| - 1], blocks[|blocks| - 1]);
      }
    }
  }

  lemma LongerBlock(init: seq<Block>, last: Block, position: nat) returns (more: seq<Block>)
    requires Grouped(init + [last]) && position == last.rows
    ensures Grouped(more) && ScanOf(more) == Scan(Ids(init), Some(last.id), last.rows + 1)
    ensures Expand(more) == Expand(init + [last]) + [Label(last.id, position)]
  {
    var longer := Block(last.id, last.rows + 1);
    Snoc(init, last);
    Snoc(init, longer);
    more := init + [longer];
    assert BlockLabels(longer) == BlockLabels(last) + [Label(last.id, position)];
  }

  /** The blocks `init + [last]` without their last row. */
  function Fewer(init: seq<Block>, last: Block): seq<Block>
    requires last.rows > 0
  {
    if last.rows == 1 then init else init + [Block(last.id, last.rows - 1)]
  }

  /** From the blocks without their last row the scan accepts that row and arrives at the blocks. */
  lemma FewerSteps(init: seq<Block>, last: Block)
    requires Grouped(init + [last]) && last.rows > 0
    ensures Grouped(Fewer(init, last))
    ensures Expand(init + [last]) == Expand(Fewer(init, last)) + [Label(last.id, last.rows - 1)]
    ensures Step(ScanOf(Fewer(init, last)), last.id, last.rows - 1) == Ok(ScanOf(init + [last]))
  {
    if last.rows == 1 {
      FirstRowOpens(init, last);
    } else {
      var shorter := Block(last.id, last.rows - 1);
      Snoc(init, last);
      Snoc(init, shorter);
      var added := [Label(last.id, last.rows - 1)];
      assert Expand(init) + (BlockLabels(shorter) + added) == (Expand(init) + BlockLabels(shorter)) + added;
    }
  }

  lemma FirstRowOpens(init: seq<Block>, last: Block)
    requires Grouped(init + [last]) && last.rows == 1
    ensures Grouped(init) && Expand(init + [last]) == Expand(init) + [Label(last.id, 0)]
    ensures Step(ScanOf(init), last.id, 0) == Ok(ScanOf(init + [last]))
  {
    hide Expand, Grouped, Ids, ScanOf, BlockLabels;
    Snoc(init, last);
    OneLabel(last);
    ScanBefore(init);
  }

  lemma OneLabel(block: Block)
    requires block.rows == 1
    ensures BlockLabels(block) == [Label(block.id, 0)]
  {
    assert BlockLabels(Block(block.id, 0)) == [];
  }

  /** The ids of the blocks are those the scan has closed, and the current one. */
  lemma ScanBefore(blocks: seq<Block>)
    ensures var s := ScanOf(blocks);
            && s.closed <= Ids(blocks) && (s.current.Some? ==> s.current.value in Ids(blocks))
            && Ids(blocks) == if s.current.Some? then s.closed + {s.current.value} else s.closed
  {
    if blocks != [] {
      hide Expand, Grouped, ScanOf, Ids;
      Snoc(blocks[..|blocks| - 1], blocks[|blocks| - 1]);
      assert blocks == blocks[..|blocks| - 1] + [blocks[|blocks| - 1]];
    }
  }

  ghost predicate RowsFit<N>(limits: Limits<N>, rows: seq<CaptureToken<N>>) {
    forall i :: 0 <= i < |rows| ==> RowError(limits, rows[i]).None?
  }

  lemma {:induction false} CheckedIsGrouped<N>(limits: Limits<N>, rows: seq<CaptureToken<N>>)
      returns (blocks: seq<Block>)
    requires Check(limits, rows).Ok?
    ensures RowsFit(limits, rows) && Grouped(blocks) && Expand(blocks) == Labels(rows)
    ensures Check(limits, rows).value == ScanOf(blocks)
  {
    if rows == [] {
      blocks := [];
    } else {
      var init, row := rows[..|rows| - 1], rows[|rows| - 1];
      blocks := CheckedIsGrouped(limits, init);
      blocks := StepExtends(blocks, row.exampleId, row.position);
      LabelsSnoc(rows);
      FitSnoc(limits, rows);
    }
  }

  lemma FitSnoc<N>(limits: Limits<N>, rows: seq<CaptureToken<N>>)
    requires rows != []
    ensures RowsFit(limits, rows)
       <==> RowsFit(limits, rows[..|rows| - 1]) && RowError(limits, rows[|rows| - 1]).None?
  {}

  lemma CheckStep<N>(limits: Limits<N>, rows: seq<CaptureToken<N>>, s: Scan)
    requires rows != [] && Check(limits, rows[..|rows| - 1]) == Ok(s)
    requires RowError(limits, rows[|rows| - 1]).None?
    ensures Check(limits, rows) == Step(s, rows[|rows| - 1].exampleId, rows[|rows| - 1].position)
  {}

  lemma {:induction false} GroupedIsChecked<N>(limits: Limits<N>, rows: seq<CaptureToken<N>>, blocks: seq<Block>)
    requires RowsFit(limits, rows) && Grouped(blocks) && Expand(blocks) == Labels(rows)
    ensures Check(limits, rows) == Ok(ScanOf(blocks))
    decreases |rows|
  {
    ExpandEmpty(blocks);
    if rows != [] {
      var before, last := blocks[..|blocks| - 1], blocks[|blocks| - 1];
      assert blocks == before + [last];
      FewerLabels(rows, before, last);
      FitSnoc(limits, rows);
      GroupedIsChecked(limits, rows[..|rows| - 1], Fewer(before, last));
      CheckStep(limits, rows, ScanOf(Fewer(before, last)));
    }
  }

  lemma FewerLabels<N>(rows: seq<CaptureToken<N>>, before: seq<Block>, last: Block)
    requires rows != [] && last.rows > 0 && Grouped(before + [last]) && Expand(before + [last]) == Labels(rows)
    ensures var k := |rows| - 1;
            && Grouped(Fewer(before, last)) && Expand(Fewer(before, last)) == Labels(rows[..k])
            && Step(ScanOf(Fewer(before, last)), rows[k].exampleId, rows[k].position)
               == Ok(ScanOf(before + [last]))
  {
    FewerSteps(before, last);
    LabelsSnoc(rows);
    SnocInjective(Expand(Fewer(before, last)), Labels(rows[..|rows| - 1]), Label(last.id, last.rows - 1),
                  Label(rows[|rows| - 1].exampleId, rows[|rows| - 1].position));
  }

  lemma ExpandEmpty(blocks: seq<Block>)
    requires Grouped(blocks)
    ensures Expand(blocks) == [] <==> blocks == []
  {}

  lemma LabelsSnoc<N>(rows: seq<CaptureToken<N>>)
    requires rows != []
    ensures var k := |rows| - 1;
            Labels(rows) == Labels(rows[..k]) + [Label(rows[k].exampleId, rows[k].position)]
  {}

  lemma SnocInjective<T>(a: seq<T>, b: seq<T>, x: T, y: T)
    requires a + [x] == b + [y]
    ensures a == b && x == y
  {
    assert |a + [x]| == |b + [y]|;
    assert a == (a + [x])[..|a|] && b == (b + [y])[..|b|];
    assert x == (a + [x])[|a|] && y == (b + [y])[|b|];
  }

  /** The one-pass scan accepts exactly the rows that fit the plan and are a non-empty run of
      blocks with distinct example ids, each block counting its positions up from zero. */
  lemma ScanAcceptsIff<N>(limits: Limits<N>, rows: seq<CaptureToken<N>>)
    ensures ScanRows(limits, rows).Ok?
       <==> rows != [] && RowsFit(limits, rows)
            && exists blocks :: Grouped(blocks) && Expand(blocks) == Labels(rows)
  {
    if rows != [] {
      if Check(limits, rows).Ok? {
        var blocks := CheckedIsGrouped(limits, rows);
      }
      if RowsFit(limits, rows) && exists blocks :: Grouped(blocks) && Expand(blocks) == Labels(rows) {
        var blocks :| Grouped(blocks) && Expand(blocks) == Labels(rows);
        GroupedIsChecked(limits, rows, blocks);
      }
    }
  }
}
