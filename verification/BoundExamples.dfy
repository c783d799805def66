/** The examples a capture request selects from the bound dataset, and what capturing them yields. */
module BoundExamples {
  import opened Wrappers
  import opened Reals
  import opened Json
  import opened JsonRoundTrip
  import opened CanonicalJsonl
  import opened CaptureContract
  import opened Capture
  import opened CaptureRows
  import opened CapturePayload
  import opened CaptureTrajectory
  import opened MlxWorker

  const EXAMPLE_SCHEMA := "soup.autodistill.tokenized-teacher-example.v1"

  const MAX_CAPTURE_ROWS := 1_000_000

  datatype LoadError =
    | NotAnExample
    | EmptyDataset
    | DuplicateExampleId
    | TokenCountMismatch
    | RangeOutsideDataset
    | RowCapExceeded
    | OutsideVocabulary

  /** The request fields that choose the slice, with the plan fields it is checked against. */
  datatype Request = Request(start: nat, end: Option<nat>, plannedTokenCount: nat, vocabSize: nat) {
    predicate Valid() { end.Some? ==> start < end.value }
  }

  // ----- reading an example -----

  /** `[A-Za-z0-9_.:-]+`, up to 128 characters; unlike a row's id it may start with any of them. */
  predicate IsExampleId(s: string) {
    1 <= |s| <= 128 && forall i :: 0 <= i < |s| ==> IsArtifactIdChar(s[i])
  }

  /** `TokenizedTeacherExample.model_validate`; the schema field goes by its alias or its name. */
  function ExampleFromJson(v: Value): Option<Example> {
    if !v.Obj? then None
    else
      var tag := if "schema" in v.fields then "schema" else "schema_id";
      if v.fields.Keys != {tag, "example_id", "prompt_token_ids", "target_token_ids"} then None
      else if v.fields[tag] != Str(EXAMPLE_SCHEMA) then None
      else
        var exampleId :- AsText(v.fields["example_id"]);
        var prompt :- AsNats(v.fields["prompt_token_ids"]);
        var targets :- AsNats(v.fields["target_token_ids"]);
        if IsExampleId(exampleId) && prompt != [] && targets != [] then Some(Example(exampleId, prompt, targets))
        else None
  }

  function DecodeExample(fl: Floats, line: string): (r: Result<Example, LoadError>)
    ensures r.Ok? ==> ValidExample(r.value)
  {
    match Loads(fl, line)
    case None => Err(NotAnExample)
    case Some(v) => if ExampleFromJson(v).Some? then Ok(ExampleFromJson(v).value) else Err(NotAnExample)
  }

  function DecodeExamples(fl: Floats, lines: seq<string>): (r: seq<Result<Example, LoadError>>)
    ensures |r| == |lines| && forall i :: 0 <= i < |r| ==> r[i] == DecodeExample(fl, lines[i])
  {
    seq(|lines|, i requires 0 <= i < |lines| => DecodeExample(fl, lines[i]))
  }

  // ----- choosing the slice -----

  function TargetTokens(examples: seq<Example>): nat {
    if examples == [] then 0
    else TargetTokens(examples[..|examples| - 1]) + |examples[|examples| - 1].targets|
  }

  predicate AllInRange(examples: seq<Example>, vocabSize: nat) {
    forall i :: 0 <= i < |examples| ==> InRange(examples[i], vocabSize)
  }

  function Select(examples: seq<Example>, request: Request): Result<seq<Example>, LoadError>
    requires request.Valid()
  {
    if examples == [] then Err(EmptyDataset)
    else if !DistinctIds(examples) then Err(DuplicateExampleId)
    else if TargetTokens(examples) != request.plannedTokenCount then Err(TokenCountMismatch)
    else
      var end := if request.end.None? then |examples| else request.end.value;
      if request.start >= |examples| || end > |examples| then Err(RangeOutsideDataset)
      else if TargetTokens(examples[request.start..end]) > MAX_CAPTURE_ROWS then Err(RowCapExceeded)
      else if !AllInRange(examples, request.vocabSize) then Err(OutsideVocabulary)
      else Ok(examples[request.start..end])
  }

  /** `_load_bound_examples`, from the bytes of the verified dataset. */
  function LoadBoundExamples(fl: Floats, payload: string, request: Request): Result<seq<Example>, LoadError>
    requires request.Valid()
  {
    var examples :- Sequence(DecodeExamples(fl, SplitLines(ByteBreak, payload)));
    Select(examples, request)
  }

  /** What the loader hands to the capture loop. */
  ghost predicate Bound(examples: seq<Example>, vocabSize: nat) {
    && examples != [] && AllValid(examples) && DistinctIds(examples) && AllInRange(examples, vocabSize)
    && TargetTokens(examples) <= MAX_CAPTURE_ROWS
  }

  lemma LoadedIsBound(fl: Floats, payload: string, request: Request)
    requires request.Valid() && LoadBoundExamples(fl, payload, request).Ok?
    ensures Bound(LoadBoundExamples(fl, payload, request).value, request.vocabSize)
  {
    hide DecodeExample, SplitLines, TargetTokens, InRange;
    var results := DecodeExamples(fl, SplitLines(ByteBreak, payload));
    SequenceOkIff(results);
    var all, chosen := Sequence(results).value, LoadBoundExamples(fl, payload, request).value;
    forall i | 0 <= i < |all| ensures ValidExample(all[i]) {
      assert results[i] == Ok(all[i]);
    }
    forall i | 0 <= i < |chosen|
      ensures ValidExample(chosen[i]) && InRange(chosen[i], request.vocabSize)
      ensures forall j :: i < j < |chosen| ==> chosen[i].exampleId != chosen[j].exampleId
    {
      assert chosen[i] == all[request.start + i];
      forall j | i < j < |chosen| ensures chosen[i].exampleId != chosen[j].exampleId {
        assert chosen[j] == all[request.start + j];
      }
    }
  }

  // ----- a dataset written from examples -----

  /** `model_dump(mode="json", by_alias=True)` of an example. */
  function ExampleRow(e: Example): Value {
    Obj(map["schema" := Str(EXAMPLE_SCHEMA), "example_id" := Str(e.exampleId),
            "prompt_token_ids" := Arr(NatValues(e.prompt)), "target_token_ids" := Arr(NatValues(e.targets))])
  }

  function ExampleRows(examples: seq<Example>): (r: seq<Value>)
    ensures |r| == |examples| && forall i :: 0 <= i < |r| ==> r[i] == ExampleRow(examples[i])
  {
    seq(|examples|, i requires 0 <= i < |examples| => ExampleRow(examples[i]))
  }

  /** What the schema of an example asks for. */
  predicate WellFormed(e: Example) { ValidExample(e) && IsExampleId(e.exampleId) }

  lemma ExampleRoundTrip(e: Example)
    requires WellFormed(e)
    ensures ExampleFromJson(ExampleRow(e)) == Some(e)
  {
    NatsRoundTrip(e.prompt);
    NatsRoundTrip(e.targets);
    assert ExampleRow(e).fields.Keys == {"schema", "example_id", "prompt_token_ids", "target_token_ids"};
  }

  lemma ExampleRowIsValid(fl: Floats, e: Example)
    ensures ExampleRow(e).Obj? && Valid(fl, ExampleRow(e))
  {
    forall ids: seq<nat> ensures Valid(fl, Arr(NatValues(ids))) {}
  }

  lemma PrintedExampleDecodes(fl: Floats, e: Example)
    requires WellFormed(e)
    ensures DecodeExample(fl, Print(ExampleRow(e))) == Ok(e)
  {
    hide Print, Loads, Valid, ExampleFromJson;
    ExampleRowIsValid(fl, e);
    LoadsPrint(fl, ExampleRow(e));
    ExampleRoundTrip(e);
  }

  /** Reading a written dataset gives its examples back: the loader then only has to choose. */
  lemma WrittenExamplesLoad(fl: Floats, examples: seq<Example>, request: Request)
    requires request.Valid() && forall i :: 0 <= i < |examples| ==> WellFormed(examples[i])
    ensures LoadBoundExamples(fl, Frame(ExampleRows(examples)), request) == Select(examples, request)
  {
    hide Print, Loads, Valid, Select, SplitLines, Frame, DecodeExample, ExampleRow, WellFormed;
    var rows := ExampleRows(examples);
    forall i | 0 <= i < |rows| ensures rows[i].Obj? && Valid(fl, rows[i]) {
      ExampleRowIsValid(fl, examples[i]);
    }
    SplitWholeFrame(fl, ByteBreak, rows);
    PrintAllAt(rows);
    var results := DecodeExamples(fl, PrintAll(rows));
    forall i | 0 <= i < |results| ensures results[i] == Ok(examples[i]) {
      PrintedExampleDecodes(fl, examples[i]);
    }
    SequenceIs(results, examples);
  }

  // ----- which examples can be captured -----

  /** The example fits, or may be cut; its id may name a row; the vocabulary has `top_k` ids. */
  predicate Capturable(example: Example, settings: Settings)
    requires ValidExample(example)
  {
    && (OneForward(example, settings) || !settings.truncation.Untruncated?)
    && IsArtifactId(example.exampleId)
    && settings.policy.topK <= settings.vocabSize
  }

  lemma ContextInVocabulary(example: Example, position: nat, settings: Settings)
    requires ValidExample(example) && InRange(example, settings.vocabSize) && position < |example.targets|
    ensures Context(example, position, settings).Ok? ==>
              InVocabulary(Context(example, position, settings).value, settings.vocabSize)
    ensures Context(example, position, settings).Ok? <==>
              |example.prompt| + position <= settings.maxSequenceLength || !settings.truncation.Untruncated?
  {}

  lemma ReferenceLength(model: Model, example: Example, position: nat, settings: Settings)
    requires Causal(model, settings.vocabSize) && ValidExample(example) && settings.maxSequenceLength > 0
    requires position < |example.targets| && Context(example, position, settings).Ok?
    ensures |ReferenceRow(model, example, settings, position)| == settings.vocabSize
  {}

  lemma RowOkIff(m: Math, model: Model, example: Example, settings: Settings, position: nat)
    requires m.Lawful() && Causal(model, settings.vocabSize)
    requires settings.policy.Valid() && settings.maxSequenceLength > 0
    requires ValidExample(example) && InRange(example, settings.vocabSize) && position < |example.targets|
    ensures WorkerRow(m, model, example, settings, position).Ok? <==>
              && (|example.prompt| + position <= settings.maxSequenceLength || !settings.truncation.Untruncated?)
              && IsArtifactId(example.exampleId) && settings.policy.topK <= settings.vocabSize
  {
    hide BuildToken, Causal, WorkerRow, Context, ReferenceRow, IsArtifactId;
    BranchRow(m, model, example, settings, position);
    ContextInVocabulary(example, position, settings);
    if Context(example, position, settings).Ok? {
      ReferenceLength(model, example, position, settings);
      BuildAcceptsIff(m, example.exampleId, position, Context(example, position, settings).value,
                      example.targets[position], ReferenceRow(model, example, settings, position),
                      settings.vocabSize, settings.policy);
    }
  }

  lemma {:induction false} RowsOkIff(m: Math, model: Model, example: Example, settings: Settings, n: nat)
    requires m.Lawful() && Causal(model, settings.vocabSize)
    requires settings.policy.Valid() && settings.maxSequenceLength > 0
    requires ValidExample(example) && InRange(example, settings.vocabSize) && 0 < n <= |example.targets|
    ensures WorkerRows(m, model, example, settings, n).Ok? <==>
              && (|example.prompt| + n - 1 <= settings.maxSequenceLength || !settings.truncation.Untruncated?)
              && IsArtifactId(example.exampleId) && settings.policy.topK <= settings.vocabSize
  {
    hide WorkerRow, Causal, IsArtifactId;
    RowOkIff(m, model, example, settings, n - 1);
    if n > 1 {
      RowsOkIff(m, model, example, settings, n - 1);
    }
  }

  ghost predicate AllCapturable(examples: seq<Example>, settings: Settings)
    requires AllValid(examples)
  {
    forall i :: 0 <= i < |examples| ==> Capturable(examples[i], settings)
  }

  lemma CapturableSnoc(examples: seq<Example>, settings: Settings)
    requires examples != [] && AllValid(examples)
    ensures AllValid(examples[..|examples| - 1])
    ensures AllCapturable(examples, settings) <==>
              AllCapturable(examples[..|examples| - 1], settings) && Capturable(examples[|examples| - 1], settings)
  {}

  /** Capturing examples of the vocabulary with a causal model succeeds exactly when each of them is
      capturable: no row is refused for its numbers. */
  lemma {:induction false} CapturesOkIff(m: Math, model: Model, examples: seq<Example>, settings: Settings)
    requires m.Lawful() && Causal(model, settings.vocabSize)
    requires settings.policy.Valid() && settings.maxSequenceLength > 0
    requires AllValid(examples) && AllInRange(examples, settings.vocabSize)
    ensures Captures(m, model, examples, settings).Ok? <==> AllCapturable(examples, settings)
  {
    hide WorkerRows, Causal, IsArtifactId, InRange;
    if examples != [] {
      var last := examples[|examples| - 1];
      CapturesOkIff(m, model, examples[..|examples| - 1], settings);
      RowsOkIff(m, model, last, settings, |last.targets|);
      CapturableSnoc(examples, settings);
    }
  }

  lemma {:induction false} WorkerRowCount(m: Math, model: Model, example: Example, settings: Settings, n: nat)
    requires settings.policy.Valid() && settings.maxSequenceLength > 0
    requires ValidExample(example) && n <= |example.targets| && WorkerRows(m, model, example, settings, n).Ok?
    ensures |WorkerRows(m, model, example, settings, n).value| == n
  {
    hide WorkerRow;
    if n > 0 {
      WorkerRowCount(m, model, example, settings, n - 1);
    }
  }

  lemma {:induction false} CaptureCount(m: Math, model: Model, examples: seq<Example>, settings: Settings)
    requires settings.policy.Valid() && settings.maxSequenceLength > 0
    requires AllValid(examples) && Captures(m, model, examples, settings).Ok?
    ensures |Captures(m, model, examples, settings).value| == TargetTokens(examples)
  {
    hide WorkerRows;
    if examples != [] {
      var last := examples[|examples| - 1];
      CaptureCount(m, model, examples[..|examples| - 1], settings);
      WorkerRowCount(m, model, last, settings, |last.targets|);
    }
  }

  /** The rows captured from any slice a request can select are one per target token, at most the
      cap, and always pass the publisher's scan. */
  lemma SlicePublishes(m: Math, fl: Floats, model: Model, payload: string, request: Request, settings: Settings)
    requires m.Lawful() && settings.policy.Valid() && settings.maxSequenceLength > 0
    requires request.Valid() && request.vocabSize == settings.vocabSize
    requires LoadBoundExamples(fl, payload, request).Ok?
    requires var examples := LoadBoundExamples(fl, payload, request).value;
             AllValid(examples) && Captures(m, model, examples, settings).Ok?
    ensures var examples := LoadBoundExamples(fl, payload, request).value;
            var rows := Captures(m, model, examples, settings).value;
            && ScanRows(LimitsOf(settings), rows).Ok?
            && |rows| == TargetTokens(examples) <= MAX_CAPTURE_ROWS
  {
    hide LoadBoundExamples, Captures, ScanRows;
    LoadedIsBound(fl, payload, request);
    var examples := LoadBoundExamples(fl, payload, request).value;
    CapturesPassScan(m, model, examples, settings);
    CaptureCount(m, model, examples, settings);
  }

  // ----- an example that is bound and then refused -----

  const UNDERSCORED := Example("_a", [0], [0])

  lemma UnderscoredIds()
    ensures WellFormed(UNDERSCORED) && !IsArtifactId("_a") && IsArtifactId("a")
  {
    assert IsArtifactIdChar('_') && IsArtifactIdChar('a');
  }

  /** Why `Capturable` asks for the id: a dataset of this one example is bound, and capturing it
      fails at its first row; under the id "a" it would be captured. */
  lemma BoundThenRefused(m: Math, fl: Floats, model: Model, settings: Settings)
    requires m.Lawful() && Causal(model, settings.vocabSize) && settings.policy.Valid()
    requires settings.maxSequenceLength > 0 && 0 < settings.policy.topK <= settings.vocabSize
    ensures LoadBoundExamples(fl, Frame(ExampleRows([UNDERSCORED])), Request(0, None, 1, settings.vocabSize))
            == Ok([UNDERSCORED])
    ensures Captures(m, model, [UNDERSCORED], settings).Err?
    ensures Captures(m, model, [UNDERSCORED.(exampleId := "a")], settings).Ok?
  {
    hide LoadBoundExamples, Captures, Frame, Causal, IsArtifactId, WellFormed;
    var renamed := UNDERSCORED.(exampleId := "a");
    UnderscoredIds();
    WrittenExamplesLoad(fl, [UNDERSCORED], Request(0, None, 1, settings.vocabSize));
    assert [UNDERSCORED][..0] == [] && TargetTokens([UNDERSCORED]) == 1;
    assert [UNDERSCORED][0..1] == [UNDERSCORED];
    CapturesOkIff(m, model, [UNDERSCORED], settings);
    CapturesOkIff(m, model, [renamed], settings);
    assert !Capturable([UNDERSCORED][0], settings);
  }
}
