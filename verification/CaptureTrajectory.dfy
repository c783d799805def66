/** One row per target position of a tokenized example, each with its exact inference context. */
module CaptureTrajectory {
  import opened Wrappers
  import opened Reals
  import opened CaptureContract
  import opened Capture

  datatype Truncation = Left | Right | Untruncated

  datatype Example = Example(exampleId: string, prompt: seq<nat>, targets: seq<nat>)

  datatype Settings = Settings(vocabSize: nat, maxSequenceLength: nat, truncation: Truncation, policy: Policy)

  type Row = CaptureToken<real>

  /** The prompt and the targets before `position`, cut to the maximum length. */
  function Context(example: Example, position: nat, settings: Settings): (r: Result<seq<nat>, CaptureError>)
    requires position <= |example.targets|
    ensures r.Ok? ==> |r.value| <= settings.maxSequenceLength
    ensures var plain := example.prompt + example.targets[..position];
            && (|plain| <= settings.maxSequenceLength ==> r == Ok(plain))
            && (|plain| > settings.maxSequenceLength ==>
                  && (r.Err? <==> settings.truncation.Untruncated?)
                  && (r.Ok? ==> |r.value| == settings.maxSequenceLength)
                  && (settings.truncation.Left? ==> exists cut :: plain == cut + r.value)
                  && (settings.truncation.Right? ==> r.value <= plain))
    ensures r.Ok? && example.prompt != [] && settings.maxSequenceLength > 0 ==> r.value != []
  {
    var context := example.prompt + example.targets[..position];
    var maximum := settings.maxSequenceLength;
    if |context| <= maximum then Ok(context)
    else if settings.truncation.Untruncated? then Err(ContextTooLong)
    else if settings.truncation.Left? then
      assert context == context[..|context| - maximum] + context[|context| - maximum..];
      Ok(context[|context| - maximum..])
    else Ok(context[..maximum])
  }

  function TrajectoryRow(m: Math, example: Example, logits: seq<seq<real>>, settings: Settings, position: nat)
    : Result<Row, CaptureError>
    requires settings.policy.Valid() && position < |example.targets| == |logits|
  {
    var context :- Context(example, position, settings);
    BuildToken(m, example.exampleId, position, context, example.targets[position], logits[position],
               settings.vocabSize, settings.policy)
  }

  /** The rows of the first `n` positions, or the first error among them. */
  function TrajectoryRows(m: Math, example: Example, logits: seq<seq<real>>, settings: Settings, n: nat)
    : Result<seq<Row>, CaptureError>
    requires settings.policy.Valid() && n <= |example.targets| == |logits|
  {
    if n == 0 then Ok([])
    else
      var rows :- TrajectoryRows(m, example, logits, settings, n - 1);
      var row :- TrajectoryRow(m, example, logits, settings, n - 1);
      Ok(rows + [row])
  }

  /** The checks before the loop of `capture_teacher_expert_trajectory`. */
  function ArgumentError(example: Example, logits: seq<seq<real>>, settings: Settings): Option<CaptureError> {
    if settings.maxSequenceLength == 0 then Some(MaximumLengthNotPositive)
    else if !InVocabulary(example.prompt, settings.vocabSize) then Some(PromptOutsideVocabulary)
    else if example.targets == [] then Some(NoTargets)
    else if !InVocabulary(example.targets, settings.vocabSize) then Some(TargetOutsideVocabulary)
    else if |logits| != |example.targets| then Some(LogitCount)
    else None
  }

  /** `capture_teacher_expert_trajectory`. */
  function Trajectory(m: Math, example: Example, logits: seq<seq<real>>, settings: Settings)
    : Result<seq<Row>, CaptureError>
    requires settings.policy.Valid()
  {
    var error := ArgumentError(example, logits, settings);
    if error.Some? then Err(error.value)
    else TrajectoryRows(m, example, logits, settings, |example.targets|)
  }

  lemma {:induction false} TrajectoryErrorStays(m: Math, example: Example, logits: seq<seq<real>>, settings: Settings,
                                                n: nat)
    requires settings.policy.Valid() && n <= |example.targets| == |logits|
    requires TrajectoryRows(m, example, logits, settings, n).Err?
    ensures TrajectoryRows(m, example, logits, settings, |example.targets|)
         == TrajectoryRows(m, example, logits, settings, n)
    decreases |example.targets| - n
  {
    hide TrajectoryRow;
    if n < |example.targets| {
      TrajectoryErrorStays(m, example, logits, settings, n + 1);
    }
  }

  lemma TrajectoryStep(m: Math, example: Example, logits: seq<seq<real>>, settings: Settings, n: nat, rows: seq<Row>)
    requires settings.policy.Valid() && n < |example.targets| == |logits|
    requires TrajectoryRows(m, example, logits, settings, n) == Ok(rows)
    ensures var row := TrajectoryRow(m, example, logits, settings, n);
            && (row.Ok? ==> TrajectoryRows(m, example, logits, settings, n + 1) == Ok(rows + [row.value]))
            && (row.Err? ==> TrajectoryRows(m, example, logits, settings, |example.targets|) == Err(row.error))
  {
    hide TrajectoryRow;
    if TrajectoryRow(m, example, logits, settings, n).Err? {
      TrajectoryErrorStays(m, example, logits, settings, n + 1);
    }
  }

  /** `capture_teacher_expert_trajectory`, with its loop. */
  method CaptureTrajectory(m: Math, example: Example, logits: seq<seq<real>>, settings: Settings)
    returns (r: Result<seq<Row>, CaptureError>)
    requires settings.policy.Valid()
    ensures r == Trajectory(m, example, logits, settings)
  {
    hide BuildToken, TrajectoryRows;
    var error := ArgumentError(example, logits, settings);
    if error.Some? {
      return Err(error.value);
    }
    var captures: seq<Row> := [];
    var maximum := settings.maxSequenceLength;
    NoTrajectoryRows(m, example, logits, settings);
    for position := 0 to |example.targets|
      invariant TrajectoryRows(m, example, logits, settings, position) == Ok(captures)
    {
      TrajectoryStep(m, example, logits, settings, position, captures);
      var context := example.prompt + example.targets[..position];
      if |context| > maximum {
        if settings.truncation.Untruncated? {
          return Err(ContextTooLong);
        }
        if settings.truncation.Left? {
          context := context[|context| - maximum..];
        } else {
          context := context[..maximum];
        }
      }
      var row := BuildToken(m, example.exampleId, position, context, example.targets[position], logits[position],
                            settings.vocabSize, settings.policy);
      if row.Err? {
        return Err(row.error);
      }
      captures := captures + [row.value];
    }
    return Ok(captures);
  }

  lemma NoTrajectoryRows(m: Math, example: Example, logits: seq<seq<real>>, settings: Settings)
    requires settings.policy.Valid() && |example.targets| == |logits|
    ensures TrajectoryRows(m, example, logits, settings, 0) == Ok([])
  {}
}
