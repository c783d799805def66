/** The plan estimate against the rows the capture worker writes: each of them stores its target,
    whether or not the plan allows for a forced id. */
module CaptureEstimate {
  import opened Wrappers
  import opened Reals
  import opened CaptureContract
  import opened Capture
  import opened CaptureTrajectory
  import opened MlxWorker
  import opened BoundExamples
  import opened Estimate
  import Ranking

  // ----- every captured row forces one id -----

  /** The row of a planned capture with at most one forced id. */
  ghost predicate OneForced(m: Math, settings: Settings, row: Row) {
    Planned(m, Exact, settings.vocabSize, settings.policy.topK, 1, row)
  }

  lemma BuiltIsPlanned(m: Math, exampleId: string, position: nat, context: seq<nat>, target: nat, logits: seq<real>,
                       settings: Settings)
    requires settings.policy.Valid()
    requires BuildToken(m, exampleId, position, context, target, logits, settings.vocabSize, settings.policy).Ok?
    ensures OneForced(m, settings, BuildToken(m, exampleId, position, context, target, logits, settings.vocabSize,
                                              settings.policy).value)
  {
    BuiltRow(m, exampleId, position, context, target, logits, settings.vocabSize, settings.policy);
    RowShape(m, exampleId, position, context, target, LogProbabilities(m, logits, settings.policy.temperature),
             settings.policy);
  }

  lemma WorkerRowIsPlanned(m: Math, model: Model, example: Example, settings: Settings, position: nat)
    requires settings.policy.Valid() && settings.maxSequenceLength > 0
    requires ValidExample(example) && position < |example.targets|
    requires WorkerRow(m, model, example, settings, position).Ok?
    ensures OneForced(m, settings, WorkerRow(m, model, example, settings, position).value)
  {
    hide BuildToken, LogitRow, OneForced;
    var context := Context(example, position, settings).value;
    var logits :=
      if OneForward(example, settings) then
        LogitRow(model(FinalContext(example)), |FinalContext(example)|, |example.prompt| - 1 + position,
                 settings.vocabSize)
      else LogitRow(model(context), |context|, |context| - 1, settings.vocabSize);
    BuiltIsPlanned(m, example.exampleId, position, context, example.targets[position], logits.value, settings);
  }

  ghost predicate AllOneForced(m: Math, settings: Settings, rows: seq<Row>) {
    forall i :: 0 <= i < |rows| ==> OneForced(m, settings, rows[i])
  }

  lemma {:induction false} WorkerRowsArePlanned(m: Math, model: Model, example: Example, settings: Settings, n: nat)
    requires settings.policy.Valid() && settings.maxSequenceLength > 0
    requires ValidExample(example) && n <= |example.targets|
    requires WorkerRows(m, model, example, settings, n).Ok?
    ensures AllOneForced(m, settings, WorkerRows(m, model, example, settings, n).value)
  {
    hide WorkerRow, OneForced;
    if n > 0 {
      WorkerRowsArePlanned(m, model, example, settings, n - 1);
      WorkerRowIsPlanned(m, model, example, settings, n - 1);
    }
  }

  /** Whatever the model and the examples, each captured row forces exactly its target. */
  lemma {:induction false} CapturesArePlanned(m: Math, model: Model, examples: seq<Example>, settings: Settings)
    requires settings.policy.Valid() && settings.maxSequenceLength > 0 && AllValid(examples)
    requires Captures(m, model, examples, settings).Ok?
    ensures AllOneForced(m, settings, Captures(m, model, examples, settings).value)
  {
    hide WorkerRows, OneForced;
    if examples != [] {
      var last := examples[|examples| - 1];
      CapturesArePlanned(m, model, examples[..|examples| - 1], settings);
      WorkerRowsArePlanned(m, model, last, settings, |last.targets|);
    }
  }

  // ----- an example whose target is not among the top ids -----

  function Zeros(n: nat): (r: seq<real>)
    ensures |r| == n && forall i :: 0 <= i < n ==> r[i] == 0.0
  {
    seq(n, _ => 0.0)
  }

  function ZeroRows(rows: nat, n: nat): (r: seq<seq<real>>)
    ensures |r| == rows && forall i :: 0 <= i < rows ==> r[i] == Zeros(n)
  {
    seq(rows, _ => Zeros(n))
  }

  /** A model that prefers no token. */
  function Indifferent(vocabSize: nat): Model {
    (tokens: seq<nat>) => ZeroRows(|tokens|, vocabSize)
  }

  /** One position whose target is the last id, which loses every tie. */
  function LastIdExample(vocabSize: nat): Example
    requires vocabSize > 0
  {
    Example("a", [0], [vocabSize - 1])
  }

  lemma LastLosesTies(logs: seq<real>, j: nat)
    requires j < |logs| && logs[j] == logs[|logs| - 1]
    ensures !Ranking.Before(logs, |logs| - 1, j)
  {}

  lemma LastIsNotTop(logs: seq<real>, k: nat)
    requires 0 < k < |logs| && forall i, j :: 0 <= i < j < |logs| ==> logs[i] == logs[j]
    ensures |logs| - 1 !in Ranking.Top(logs, k)
  {
    var top, last := Ranking.Top(logs, k), |logs| - 1;
    Ranking.TopPrecedes(logs, k);
    if last in top {
      FullSelection(top, |logs|);
      var j :| j in Range(|logs|) && j !in top;
      LastLosesTies(logs, j);
      assert false;
    }
  }

  lemma EvenLogs(m: Math, n: nat, temperature: real)
    requires n > 0 && temperature > 0.0
    ensures var logs := LogProbabilities(m, Zeros(n), temperature);
            |logs| == n && forall i, j :: 0 <= i < j < n ==> logs[i] == logs[j]
  {}

  /** The row of that example stores one id more than its top ids. */
  lemma LastIdRow(m: Math, exampleId: string, context: seq<nat>, settings: Settings)
    requires settings.policy.Valid() && 0 < settings.policy.topK < settings.vocabSize
    requires BuildToken(m, exampleId, 0, context, settings.vocabSize - 1, Zeros(settings.vocabSize),
                        settings.vocabSize, settings.policy).Ok?
    ensures |BuildToken(m, exampleId, 0, context, settings.vocabSize - 1, Zeros(settings.vocabSize),
                        settings.vocabSize, settings.policy).value.selected| == settings.policy.topK + 1
  {
    hide BuildToken, RowFrom, LogProbabilities, Ranking.Top;
    var n, policy := settings.vocabSize, settings.policy;
    var logs := LogProbabilities(m, Zeros(n), policy.temperature);
    BuiltRow(m, exampleId, 0, context, n - 1, Zeros(n), n, policy);
    EvenLogs(m, n, policy.temperature);
    LastIsNotTop(logs, policy.topK);
    Ranking.TopPrecedes(logs, policy.topK);
    RowShape(m, exampleId, 0, context, n - 1, logs, policy);
  }

  lemma IndifferentIsCausal(vocabSize: nat)
    ensures Causal(Indifferent(vocabSize), vocabSize)
  {}

  lemma OnlyRow(m: Math, settings: Settings)
    requires m.Lawful() && settings.policy.Valid() && settings.maxSequenceLength > 0
    requires 0 < settings.policy.topK < settings.vocabSize
    ensures var row := BuildToken(m, "a", 0, [0], settings.vocabSize - 1, Zeros(settings.vocabSize),
                                  settings.vocabSize, settings.policy);
            && row.Ok?
            && Captures(m, Indifferent(settings.vocabSize), [LastIdExample(settings.vocabSize)], settings)
               == Ok([row.value])
  {
    hide BuildToken, Causal;
    var example, model := LastIdExample(settings.vocabSize), Indifferent(settings.vocabSize);
    assert FinalContext(example) == [0] && example.prompt + example.targets[..0] == [0];
    assert IsArtifactId("a");
    BuildAcceptsIff(m, "a", 0, [0], settings.vocabSize - 1, Zeros(settings.vocabSize), settings.vocabSize,
                    settings.policy);
    var row := WorkerRow(m, model, example, settings, 0);
    assert WorkerRows(m, model, example, settings, 0) == Ok([]);
    assert WorkerRows(m, model, example, settings, 1) == Ok([] + [row.value]);
    assert [example][..0] == [] && Captures(m, model, [], settings) == Ok([]);
    assert [] + ([] + [row.value]) == [row.value];
  }

  /** What the plan estimates for so many rows. */
  function Estimated(settings: Settings, maxForced: nat, w: Widths, rows: nat): Result<PlanEstimate, EstimateError> {
    BuildEstimate(rows, settings.vocabSize, settings.policy.topK, maxForced, w, None)
  }

  predicate Positive(w: Widths) { w.tokenId > 0 && w.logProbability > 0 && w.tailMass > 0 && w.entropy > 0 }

  /** A plan without forced ids, which the plan contract accepts, underestimates this capture of one row. */
  lemma UnplannedTarget(m: Math, settings: Settings, w: Widths)
    requires m.Lawful() && settings.policy.Valid() && settings.maxSequenceLength > 0 && Positive(w)
    requires 0 < settings.policy.topK < settings.vocabSize
    ensures var model, example := Indifferent(settings.vocabSize), LastIdExample(settings.vocabSize);
            var rows := Captures(m, model, [example], settings);
            && Causal(model, settings.vocabSize)
            && Capturable(example, settings) && InRange(example, settings.vocabSize)
            && rows.Ok? && |rows.value| == 1
            && Estimated(settings, 0, w, 1).Ok?
            && PayloadBytes(w, rows.value) > Estimated(settings, 0, w, 1).value.sparseBytes
  {
    hide BuildToken, Causal, Captures;
    IndifferentIsCausal(settings.vocabSize);
    OnlyRow(m, settings);
    LastIdRow(m, "a", [0], settings);
    var row := BuildToken(m, "a", 0, [0], settings.vocabSize - 1, Zeros(settings.vocabSize), settings.vocabSize,
                          settings.policy).value;
    assert [row][..0] == [];
    assert PayloadBytes(w, [row]) == PositionBytes(w, settings.policy.topK + 1);
    MoreIdsMoreBytes(w, settings.policy.topK, settings.policy.topK + 1);
    assert FinalContext(LastIdExample(settings.vocabSize)) == [0];
    assert IsArtifactId("a");
  }

  // ----- exactly when the estimate holds -----

  /** The rows of a capture take no more than the plan estimates for their number. */
  predicate Fits(settings: Settings, maxForced: nat, w: Widths, rows: seq<Row>) {
    rows == [] || (Estimated(settings, maxForced, w, |rows|).Ok?
                   && PayloadBytes(w, rows) <= Estimated(settings, maxForced, w, |rows|).value.sparseBytes)
  }

  lemma PlannedFits(m: Math, settings: Settings, maxForced: nat, w: Widths, rows: seq<Row>)
    requires settings.policy.Valid() && Positive(w) && 0 < settings.policy.topK <= settings.vocabSize
    requires maxForced > 0 || settings.policy.topK == settings.vocabSize
    requires AllOneForced(m, settings, rows)
    ensures Fits(settings, maxForced, w, rows)
  {
    hide PositionBytes, Planned;
    var n, k := settings.vocabSize, settings.policy.topK;
    assert AllPlanned(m, Exact, n, k, 1, rows);
    PayloadWithinEstimate(m, Exact, n, k, 1, w, rows);
    MoreIdsMoreBytes(w, SelectedBound(n, k, 1), SelectedBound(n, k, maxForced));
    MoreOfEach(|rows|, PositionBytes(w, SelectedBound(n, k, 1)), PositionBytes(w, SelectedBound(n, k, maxForced)));
  }

  lemma MoreOfEach(n: nat, a: nat, b: nat)
    requires a <= b
    ensures n * a <= n * b
  {}

  /** The estimated sparse size bounds everything the worker captures, from any causal model and any
      examples of the vocabulary, if and only if the plan allows for a forced id or keeps the whole
      vocabulary anyway. */
  lemma CapturesFitIff(m: Math, settings: Settings, maxForced: nat, w: Widths)
    requires m.Lawful() && settings.policy.Valid() && settings.maxSequenceLength > 0 && Positive(w)
    requires 0 < settings.policy.topK <= settings.vocabSize
    ensures (forall model, examples ::
               Causal(model, settings.vocabSize) && AllValid(examples) && AllInRange(examples, settings.vocabSize)
               && Captures(m, model, examples, settings).Ok?
               ==> Fits(settings, maxForced, w, Captures(m, model, examples, settings).value))
       <==> maxForced > 0 || settings.policy.topK == settings.vocabSize
  {
    hide Captures, Causal, Fits, OneForced, InRange;
    if maxForced > 0 || settings.policy.topK == settings.vocabSize {
      forall model, examples |
        Causal(model, settings.vocabSize) && AllValid(examples) && AllInRange(examples, settings.vocabSize)
        && Captures(m, model, examples, settings).Ok?
        ensures Fits(settings, maxForced, w, Captures(m, model, examples, settings).value)
      {
        CapturesArePlanned(m, model, examples, settings);
        PlannedFits(m, settings, maxForced, w, Captures(m, model, examples, settings).value);
      }
    } else {
      var model, examples := Indifferent(settings.vocabSize), [LastIdExample(settings.vocabSize)];
      UnplannedTarget(m, settings, w);
      TooBig(settings, w, Captures(m, model, examples, settings).value);
      assert AllValid(examples) && AllInRange(examples, settings.vocabSize);
    }
  }

  lemma TooBig(settings: Settings, w: Widths, rows: seq<Row>)
    requires |rows| == 1 && Estimated(settings, 0, w, 1).Ok?
    requires PayloadBytes(w, rows) > Estimated(settings, 0, w, 1).value.sparseBytes
    ensures !Fits(settings, 0, w, rows)
  {}
}
