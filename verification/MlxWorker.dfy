/** The capture worker: one causal forward per example where it fits, else one per position. */
module MlxWorker {
  import opened Wrappers
  import opened Reals
  import opened CaptureContract
  import opened Capture
  import opened CaptureRows
  import opened CaptureTrajectory

  /** The logits a model returns for a sequence of token ids: a list of rows. */
  type Model = seq<nat> -> seq<seq<real>>

  /** Row `i` of a causal model depends on the tokens up to `i` alone. */
  ghost predicate Causal(model: Model, vocabSize: nat) {
    && (forall tokens :: |model(tokens)| == |tokens|)
    && (forall tokens, i :: 0 <= i < |model(tokens)| ==> |model(tokens)[i]| == vocabSize)
    && forall a, b, i :: 0 <= i < |model(a)| && i < |model(b)| && i < |a| && i < |b| && a[..i + 1] == b[..i + 1] ==>
         model(a)[i] == model(b)[i]
  }

  /** `_logit_row`: the shape is checked before the row is taken. */
  function LogitRow(output: seq<seq<real>>, contextLength: nat, index: nat, vocabSize: nat)
    : Result<seq<real>, CaptureError>
    requires index < contextLength
  {
    if |output| != contextLength || exists i :: 0 <= i < |output| && |output[i]| != vocabSize then Err(LogitsShape)
    else Ok(output[index])
  }

  function FinalContext(example: Example): seq<nat>
    requires example.targets != []
  {
    example.prompt + example.targets[..|example.targets| - 1]
  }

  /** What the schema of a bound example demands. */
  predicate ValidExample(example: Example) { example.prompt != [] && example.targets != [] }

  predicate OneForward(example: Example, settings: Settings)
    requires ValidExample(example)
  {
    |FinalContext(example)| <= settings.maxSequenceLength
  }

  /** The row one target position gets, in whichever branch its example takes. */
  function WorkerRow(m: Math, model: Model, example: Example, settings: Settings, position: nat)
    : Result<Row, CaptureError>
    requires settings.policy.Valid() && settings.maxSequenceLength > 0
    requires ValidExample(example) && position < |example.targets|
  {
    var context :- Context(example, position, settings);
    var logits :-
      if OneForward(example, settings) then
        LogitRow(model(FinalContext(example)), |FinalContext(example)|, |example.prompt| - 1 + position,
                 settings.vocabSize)
      else
        LogitRow(model(context), |context|, |context| - 1, settings.vocabSize);
    BuildToken(m, example.exampleId, position, context, example.targets[position], logits,
               settings.vocabSize, settings.policy)
  }

  function WorkerRows(m: Math, model: Model, example: Example, settings: Settings, n: nat)
    : Result<seq<Row>, CaptureError>
    requires settings.policy.Valid() && settings.maxSequenceLength > 0
    requires ValidExample(example) && n <= |example.targets|
  {
    if n == 0 then Ok([])
    else
      var rows :- WorkerRows(m, model, example, settings, n - 1);
      var row :- WorkerRow(m, model, example, settings, n - 1);
      Ok(rows + [row])
  }

  predicate AllValid(examples: seq<Example>) {
    forall i :: 0 <= i < |examples| ==> ValidExample(examples[i])
  }

  /** The captures of the examples in order, or the first error. */
  function Captures(m: Math, model: Model, examples: seq<Example>, settings: Settings): Result<seq<Row>, CaptureError>
    requires settings.policy.Valid() && settings.maxSequenceLength > 0 && AllValid(examples)
  {
    if examples == [] then Ok([])
    else
      var init, last := examples[..|examples| - 1], examples[|examples| - 1];
      var rows :- Captures(m, model, init, settings);
      var more :- WorkerRows(m, model, last, settings, |last.targets|);
      Ok(rows + more)
  }

  lemma {:induction false} RowErrorStays(m: Math, model: Model, example: Example, settings: Settings, n: nat)
    requires settings.policy.Valid() && settings.maxSequenceLength > 0
    requires ValidExample(example) && n <= |example.targets|
    requires WorkerRows(m, model, example, settings, n).Err?
    ensures WorkerRows(m, model, example, settings, |example.targets|) == WorkerRows(m, model, example, settings, n)
    decreases |example.targets| - n
  {
    hide WorkerRow;
    if n < |example.targets| {
      RowErrorStays(m, model, example, settings, n + 1);
    }
  }

  lemma NoWorkerRows(m: Math, model: Model, example: Example, settings: Settings)
    requires settings.policy.Valid() && settings.maxSequenceLength > 0 && ValidExample(example)
    ensures WorkerRows(m, model, example, settings, 0) == Ok([])
  {}

  lemma RowStep(m: Math, model: Model, example: Example, settings: Settings, n: nat, rows: seq<Row>)
    requires settings.policy.Valid() && settings.maxSequenceLength > 0
    requires ValidExample(example) && n < |example.targets|
    requires WorkerRows(m, model, example, settings, n) == Ok(rows)
    ensures var row := WorkerRow(m, model, example, settings, n);
            && (row.Ok? ==> WorkerRows(m, model, example, settings, n + 1) == Ok(rows + [row.value]))
            && (row.Err? ==> WorkerRows(m, model, example, settings, |example.targets|) == Err(row.error))
  {
    hide WorkerRow;
    if WorkerRow(m, model, example, settings, n).Err? {
      RowErrorStays(m, model, example, settings, n + 1);
    }
  }

  lemma {:induction false} ExampleErrorStays(m: Math, model: Model, examples: seq<Example>, settings: Settings, i: nat)
    requires settings.policy.Valid() && settings.maxSequenceLength > 0 && AllValid(examples)
    requires i <= |examples| && AllValid(examples[..i]) && Captures(m, model, examples[..i], settings).Err?
    ensures Captures(m, model, examples, settings) == Captures(m, model, examples[..i], settings)
  {
    hide WorkerRows;
    if i == |examples| {
      assert examples[..i] == examples;
    } else {
      var init := examples[..|examples| - 1];
      assert init[..i] == examples[..i];
      ExampleErrorStays(m, model, init, settings, i);
    }
  }

  /** The branch that reads every row from one forward over the whole example. */
  method CaptureInOneForward(m: Math, model: Model, example: Example, settings: Settings)
    returns (r: Result<seq<Row>, CaptureError>)
    requires settings.policy.Valid() && settings.maxSequenceLength > 0
    requires ValidExample(example) && OneForward(example, settings)
    ensures r == WorkerRows(m, model, example, settings, |example.targets|)
  {
    hide BuildToken, LogitRow, WorkerRows;
    var finalContext := FinalContext(example);
    var output := model(finalContext);
    var captures: seq<Row> := [];
    NoWorkerRows(m, model, example, settings);
    for position := 0 to |example.targets|
      invariant WorkerRows(m, model, example, settings, position) == Ok(captures)
    {
      RowStep(m, model, example, settings, position, captures);
      var context := Context(example, position, settings).value;
      var row := LogitRow(output, |finalContext|, |example.prompt| - 1 + position, settings.vocabSize);
      if row.Err? {
        return Err(row.error);
      }
      var token := BuildToken(m, example.exampleId, position, context, example.targets[position], row.value,
                              settings.vocabSize, settings.policy);
      if token.Err? {
        return Err(token.error);
      }
      captures := captures + [token.value];
    }
    return Ok(captures);
  }

  /** The branch with one forward over the context of each position. */
  method CapturePerPosition(m: Math, model: Model, example: Example, settings: Settings)
    returns (r: Result<seq<Row>, CaptureError>)
    requires settings.policy.Valid() && settings.maxSequenceLength > 0
    requires ValidExample(example) && !OneForward(example, settings)
    ensures r == WorkerRows(m, model, example, settings, |example.targets|)
  {
    hide BuildToken, LogitRow, WorkerRows;
    var captures: seq<Row> := [];
    NoWorkerRows(m, model, example, settings);
    for position := 0 to |example.targets|
      invariant WorkerRows(m, model, example, settings, position) == Ok(captures)
    {
      RowStep(m, model, example, settings, position, captures);
      var context := Context(example, position, settings);
      if context.Err? {
        return Err(context.error);
      }
      var output := model(context.value);
      var row := LogitRow(output, |context.value|, |context.value| - 1, settings.vocabSize);
      if row.Err? {
        return Err(row.error);
      }
      var token := BuildToken(m, example.exampleId, position, context.value, example.targets[position], row.value,
                              settings.vocabSize, settings.policy);
      if token.Err? {
        return Err(token.error);
      }
      captures := captures + [token.value];
    }
    return Ok(captures);
  }

  /** The loop of `_capture_examples_with_mlx`. */
  method CaptureExamples(m: Math, model: Model, examples: seq<Example>, settings: Settings)
    returns (r: Result<seq<Row>, CaptureError>)
    requires settings.policy.Valid() && settings.maxSequenceLength > 0 && AllValid(examples)
    ensures r == Captures(m, model, examples, settings)
  {
    hide WorkerRows;
    var captures: seq<Row> := [];
    for i := 0 to |examples|
      invariant Captures(m, model, examples[..i], settings) == Ok(captures)
    {
      var example := examples[i];
      assert examples[..i + 1][..i] == examples[..i];
      var canUseOneForward := OneForward(example, settings);
      var rows;
      if canUseOneForward {
        rows := CaptureInOneForward(m, model, example, settings);
      } else {
        rows := CapturePerPosition(m, model, example, settings);
      }
      if rows.Err? {
        ExampleErrorStays(m, model, examples, settings, i + 1);
        return Err(rows.error);
      }
      captures := captures + rows.value;
    }
    assert examples[..|examples|] == examples;
    return Ok(captures);
  }

  // ----- both branches are the plain trajectory -----

  /** The last logit row of a forward over the context of a position. */
  function ReferenceRow(model: Model, example: Example, settings: Settings, position: nat): seq<real>
    requires position < |example.targets|
  {
    match Context(example, position, settings)
    case Err(_) => []
    case Ok(context) => if model(context) == [] then [] else model(context)[|model(context)| - 1]
  }

  /** The per-context logits handed to the plain trajectory. */
  function ReferenceLogits(model: Model, example: Example, settings: Settings): (r: seq<seq<real>>)
    ensures |r| == |example.targets|
    ensures forall p :: 0 <= p < |r| ==> r[p] == ReferenceRow(model, example, settings, p)
  {
    seq(|example.targets|, p requires 0 <= p < |example.targets| => ReferenceRow(model, example, settings, p))
  }

  lemma CausalRow(model: Model, vocabSize: nat, whole: seq<nat>, context: seq<nat>)
    requires Causal(model, vocabSize) && context != [] && |context| <= |whole| && whole[..|context|] == context
    ensures LogitRow(model(whole), |whole|, |context| - 1, vocabSize) == Ok(model(context)[|context| - 1])
    ensures LogitRow(model(context), |context|, |context| - 1, vocabSize) == Ok(model(context)[|context| - 1])
  {}

  lemma BranchRow(m: Math, model: Model, example: Example, settings: Settings, position: nat)
    requires Causal(model, settings.vocabSize) && settings.policy.Valid() && settings.maxSequenceLength > 0
    requires ValidExample(example) && position < |example.targets|
    ensures WorkerRow(m, model, example, settings, position)
         == TrajectoryRow(m, example, ReferenceLogits(model, example, settings), settings, position)
  {
    hide BuildToken, LogitRow, Causal;
    var plain := example.prompt + example.targets[..position];
    var whole := FinalContext(example);
    assert whole[..|plain|] == plain;
    if OneForward(example, settings) {
      CausalRow(model, settings.vocabSize, whole, plain);
      CausalShape(model, settings.vocabSize, plain);
    } else if Context(example, position, settings).Ok? {
      var context := Context(example, position, settings).value;
      CausalRow(model, settings.vocabSize, context, context);
      CausalShape(model, settings.vocabSize, context);
    }
  }

  lemma CausalShape(model: Model, vocabSize: nat, tokens: seq<nat>)
    requires Causal(model, vocabSize)
    ensures |model(tokens)| == |tokens|
  {}

  lemma {:induction false} BranchRows(m: Math, model: Model, example: Example, settings: Settings, n: nat)
    requires Causal(model, settings.vocabSize) && settings.policy.Valid() && settings.maxSequenceLength > 0
    requires ValidExample(example) && n <= |example.targets|
    ensures WorkerRows(m, model, example, settings, n)
         == TrajectoryRows(m, example, ReferenceLogits(model, example, settings), settings, n)
  {
    hide WorkerRow, TrajectoryRow, Causal;
    if n > 0 {
      BranchRows(m, model, example, settings, n - 1);
      BranchRow(m, model, example, settings, n - 1);
    }
  }

  /** For a causal model both branches give, for every example in the vocabulary, exactly the rows or
      the refusal that the plain trajectory gives on the logits of each context. */
  lemma WorkerIsTrajectory(m: Math, model: Model, example: Example, settings: Settings)
    requires Causal(model, settings.vocabSize) && settings.policy.Valid() && settings.maxSequenceLength > 0
    requires ValidExample(example)
    requires InVocabulary(example.prompt, settings.vocabSize) && InVocabulary(example.targets, settings.vocabSize)
    ensures Captures(m, model, [example], settings)
         == Trajectory(m, example, ReferenceLogits(model, example, settings), settings)
  {
    hide WorkerRows, TrajectoryRows, Causal;
    BranchRows(m, model, example, settings, |example.targets|);
    assert [example][..0] == [];
    assert Captures(m, model, [], settings) == Ok([]);
    if WorkerRows(m, model, example, settings, |example.targets|).Ok? {
      var rows := WorkerRows(m, model, example, settings, |example.targets|).value;
      assert [] + rows == rows;
    }
  }

  // ----- the rows of any slice pass the payload scan -----

  predicate InRange(example: Example, vocabSize: nat) {
    InVocabulary(example.prompt, vocabSize) && InVocabulary(example.targets, vocabSize)
  }

  function LimitsOf(settings: Settings): Limits<real> {
    Limits(settings.vocabSize, settings.policy.temperature, settings.policy.topK, settings.maxSequenceLength)
  }

  /** One block per example, as long as its targets. */
  function Blocks(examples: seq<Example>): seq<Block> {
    if examples == [] then []
    else
      var last := examples[|examples| - 1];
      Blocks(examples[..|examples| - 1]) + [Block(last.exampleId, |last.targets|)]
  }

  lemma BuiltRowFits(m: Math, exampleId: string, position: nat, context: seq<nat>, target: nat, logits: seq<real>,
                     settings: Settings)
    requires m.Lawful() && settings.policy.Valid() && |context| <= settings.maxSequenceLength
    requires BuildToken(m, exampleId, position, context, target, logits, settings.vocabSize, settings.policy).Ok?
    ensures var row := BuildToken(m, exampleId, position, context, target, logits, settings.vocabSize,
                                  settings.policy).value;
            && RowError(LimitsOf(settings), row).None?
            && row.exampleId == exampleId && row.position == position
  {
    hide Contract;
    RowTopK(m, exampleId, position, context, target, logits, settings.vocabSize, settings.policy);
  }

  lemma WorkerRowFits(m: Math, model: Model, example: Example, settings: Settings, position: nat)
    requires m.Lawful() && settings.policy.Valid() && settings.maxSequenceLength > 0
    requires ValidExample(example) && position < |example.targets|
    requires WorkerRow(m, model, example, settings, position).Ok?
    ensures var row := WorkerRow(m, model, example, settings, position).value;
            && RowError(LimitsOf(settings), row).None?
            && row.exampleId == example.exampleId && row.position == position
  {
    hide BuildToken, LogitRow, RowError;
    var context := Context(example, position, settings).value;
    var logits :=
      if OneForward(example, settings) then
        LogitRow(model(FinalContext(example)), |FinalContext(example)|, |example.prompt| - 1 + position,
                 settings.vocabSize)
      else LogitRow(model(context), |context|, |context| - 1, settings.vocabSize);
    BuiltRowFits(m, example.exampleId, position, context, example.targets[position], logits.value, settings);
  }

  lemma {:induction false} WorkerRowsAreABlock(m: Math, model: Model, example: Example, settings: Settings, n: nat)
    requires m.Lawful() && settings.policy.Valid() && settings.maxSequenceLength > 0
    requires ValidExample(example) && n <= |example.targets|
    requires WorkerRows(m, model, example, settings, n).Ok?
    ensures var rows := WorkerRows(m, model, example, settings, n).value;
            && RowsFit(LimitsOf(settings), rows)
            && Labels(rows) == BlockLabels(Block(example.exampleId, n))
  {
    hide WorkerRow, RowError;
    if n > 0 {
      WorkerRowsAreABlock(m, model, example, settings, n - 1);
      WorkerRowFits(m, model, example, settings, n - 1);
      var rows := WorkerRows(m, model, example, settings, n).value;
      assert rows[..|rows| - 1] == WorkerRows(m, model, example, settings, n - 1).value;
      LabelsSnoc(rows);
      FitSnoc(LimitsOf(settings), rows);
    }
  }

  lemma {:induction false} LabelsAppend(a: seq<Row>, b: seq<Row>)
    ensures Labels(a + b) == Labels(a) + Labels(b)
  {
    if b == [] {
      assert a + b == a;
    } else {
      var init := b[..|b| - 1];
      assert (a + b)[..|a + b| - 1] == a + init;
      LabelsAppend(a, init);
      LabelsSnoc(b);
      LabelsSnoc(a + b);
      assert Labels(a) + (Labels(init) + Labels(b)[|b| - 1..]) == (Labels(a) + Labels(init)) + Labels(b)[|b| - 1..];
    }
  }

  lemma FitAppend(limits: Limits<real>, a: seq<Row>, b: seq<Row>)
    requires RowsFit(limits, a) && RowsFit(limits, b)
    ensures RowsFit(limits, a + b)
  {}

  lemma {:induction false} CapturesAreBlocks(m: Math, model: Model, examples: seq<Example>, settings: Settings)
    requires m.Lawful() && settings.policy.Valid() && settings.maxSequenceLength > 0 && AllValid(examples)
    requires Captures(m, model, examples, settings).Ok?
    ensures var rows := Captures(m, model, examples, settings).value;
            RowsFit(LimitsOf(settings), rows) && Labels(rows) == Expand(Blocks(examples))
  {
    hide WorkerRows, RowError;
    if examples != [] {
      var init, last := examples[..|examples| - 1], examples[|examples| - 1];
      CapturesAreBlocks(m, model, init, settings);
      WorkerRowsAreABlock(m, model, last, settings, |last.targets|);
      var rows := Captures(m, model, init, settings).value;
      var more := WorkerRows(m, model, last, settings, |last.targets|).value;
      LabelsAppend(rows, more);
      FitAppend(LimitsOf(settings), rows, more);
      Snoc(Blocks(init), Block(last.exampleId, |last.targets|));
    }
  }

  predicate DistinctIds(examples: seq<Example>) {
    forall i, j :: 0 <= i < j < |examples| ==> examples[i].exampleId != examples[j].exampleId
  }

  lemma {:induction false} BlocksAreGrouped(examples: seq<Example>)
    requires DistinctIds(examples) && AllValid(examples)
    ensures Grouped(Blocks(examples))
    ensures forall id :: id in Ids(Blocks(examples)) <==> exists i :: 0 <= i < |examples| && examples[i].exampleId == id
  {
    if examples != [] {
      var init, last := examples[..|examples| - 1], examples[|examples| - 1];
      BlocksAreGrouped(init);
      Snoc(Blocks(init), Block(last.exampleId, |last.targets|));
      forall id
        ensures id in Ids(Blocks(examples)) <==> exists i :: 0 <= i < |examples| && examples[i].exampleId == id
      {
        if i :| 0 <= i < |examples| && examples[i].exampleId == id {
          assert i < |init| ==> init[i].exampleId == id;
        }
        if i :| 0 <= i < |init| && init[i].exampleId == id {
          assert examples[i].exampleId == id;
        }
      }
    }
  }

  /** Whatever the model, the rows the worker captures from valid examples with distinct ids form a
      payload the publisher accepts, one row per target. */
  lemma CapturesPassScan(m: Math, model: Model, examples: seq<Example>, settings: Settings)
    requires m.Lawful() && settings.policy.Valid() && settings.maxSequenceLength > 0
    requires examples != [] && AllValid(examples) && DistinctIds(examples)
    requires Captures(m, model, examples, settings).Ok?
    ensures ScanRows(LimitsOf(settings), Captures(m, model, examples, settings).value).Ok?
  {
    hide Captures, RowError, Step, Check;
    var rows := Captures(m, model, examples, settings).value;
    CapturesAreBlocks(m, model, examples, settings);
    BlocksAreGrouped(examples);
    ExpandEmpty(Blocks(examples));
    ScanAcceptsIff(LimitsOf(settings), rows);
  }
}
