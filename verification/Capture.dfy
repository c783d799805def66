/** Sparse teacher rows from logits: softmax, top-k union the target, residual tail, entropy. */
module Capture {
  import opened Wrappers
  import opened Reals
  import opened CaptureContract
  import opened TailKl
  import Ranking

  /** The fields of `ProbabilityPolicy` that reach a row; both are checked when it is built. */
  datatype Policy = Policy(topK: nat, temperature: real) {
    predicate Valid() { topK > 0 && temperature > 0.0 }
  }

  datatype CaptureError =
    | VocabularyEmpty
    | TopKExceedsVocabulary
    | ContextOutsideVocabulary
    | TargetOutsideVocabulary
    | LogitsLength
    | ContractViolated
    | MaximumLengthNotPositive
    | PromptOutsideVocabulary
    | NoTargets
    | LogitCount
    | ContextTooLong
    | LogitsShape

  // ----- log-probabilities -----

  function Scaled(logits: seq<real>, temperature: real): (r: seq<real>)
    requires temperature > 0.0
    ensures |r| == |logits| && forall i :: 0 <= i < |r| ==> r[i] == logits[i] / temperature
  {
    seq(|logits|, i requires 0 <= i < |logits| => logits[i] / temperature)
  }

  function Maximum(xs: seq<real>): (r: real)
    requires xs != []
    ensures r in xs && forall i :: 0 <= i < |xs| ==> xs[i] <= r
  {
    if |xs| == 1 then xs[0]
    else
      var rest := Maximum(xs[..|xs| - 1]);
      var last := xs[|xs| - 1];
      if rest < last then last else rest
  }

  function Minus(xs: seq<real>, c: real): (r: seq<real>)
    ensures |r| == |xs| && forall i :: 0 <= i < |r| ==> r[i] == xs[i] - c
  {
    seq(|xs|, i requires 0 <= i < |xs| => xs[i] - c)
  }

  /** The log of the sum of exponentials, shifted by the maximum. */
  function LogNormalizer(m: Math, scaled: seq<real>): real
    requires scaled != []
  {
    Maximum(scaled) + m.ln(Sum(Exps(m, Minus(scaled, Maximum(scaled)))))
  }

  function Normalize(m: Math, scaled: seq<real>): (r: seq<real>)
    requires scaled != []
    ensures |r| == |scaled|
  {
    Minus(scaled, LogNormalizer(m, scaled))
  }

  /** `_teacher_log_probabilities`. */
  function LogProbabilities(m: Math, logits: seq<real>, temperature: real): (r: seq<real>)
    requires logits != [] && temperature > 0.0
    ensures |r| == |logits|
  {
    Normalize(m, Scaled(logits, temperature))
  }

  lemma ExpsShift(m: Math, xs: seq<real>, c: real)
    requires m.Lawful()
    ensures Sum(Exps(m, xs)) == m.exp(c) * Sum(Exps(m, Minus(xs, c)))
  {
    ExpsScaled(m, xs, c);
    SumScale(Exps(m, Minus(xs, c)), Exps(m, xs), m.exp(c));
  }

  lemma ExpsScaled(m: Math, xs: seq<real>, c: real)
    requires m.Lawful()
    ensures IsScaled(Exps(m, xs), m.exp(c), Exps(m, Minus(xs, c)))
  {
    forall i | 0 <= i < |xs| ensures m.exp(xs[i]) == m.exp(c) * m.exp(xs[i] - c) {
      ExpShift(m, xs[i], c);
    }
  }

  lemma ExpShift(m: Math, x: real, c: real)
    requires m.Lawful()
    ensures m.exp(x) == m.exp(c) * m.exp(x - c)
  {
    var d := x - c;
    ExpSum(m, c, d);
    assert c + d == x;
  }

  lemma {:induction false} ExpsPositive(m: Math, xs: seq<real>)
    requires m.Lawful()
    ensures Sum(Exps(m, xs)) >= 0.0 && (xs != [] ==> Sum(Exps(m, xs)) > 0.0)
  {
    if xs != [] {
      var k := |xs| - 1;
      ExpsPositive(m, xs[..k]);
      assert Exps(m, xs)[..k] == Exps(m, xs[..k]);
    }
  }

  /** The shifted sum `z` and the plain sum `total` of the same exponentials. */
  lemma ShiftedTotal(m: Math, xs: seq<real>, c: real) returns (z: real, total: real)
    requires m.Lawful() && xs != []
    ensures z == Sum(Exps(m, Minus(xs, c))) && total == Sum(Exps(m, xs))
    ensures z > 0.0 && total > 0.0 && total == m.exp(c) * z
    ensures c + m.ln(z) == m.ln(total)
  {
    ExpsShift(m, xs, c);
    ExpsPositive(m, Minus(xs, c));
    z, total := Sum(Exps(m, Minus(xs, c))), Sum(Exps(m, xs));
    ShiftedLn(m, c, z, total);
  }

  lemma ShiftedLn(m: Math, c: real, z: real, total: real)
    requires m.Lawful() && z > 0.0 && total == m.exp(c) * z
    ensures total > 0.0 && c + m.ln(z) == m.ln(total)
  {
    LnProduct(m, m.exp(c), z);
    LnOfProduct(m, total, m.exp(c), z);
  }

  /** The maximum shift changes nothing: the normalizer is the plain log-sum-exp. */
  lemma LogNormalizerIsPlain(m: Math, scaled: seq<real>)
    requires m.Lawful() && scaled != []
    ensures LogNormalizer(m, scaled) == m.ln(Sum(Exps(m, scaled)))
  {
    var z, total := ShiftedTotal(m, scaled, Maximum(scaled));
  }

  /** Subtracting the log of the total leaves a distribution. */
  lemma NormalizedMass(m: Math, xs: seq<real>)
    requires m.Lawful() && xs != []
    ensures Sum(Exps(m, xs)) > 0.0
    ensures Sum(Exps(m, Minus(xs, m.ln(Sum(Exps(m, xs)))))) == 1.0
  {
    hide Exps, Sum, Minus;
    ExpsPositive(m, xs);
    var z, total := ShiftedTotal(m, xs, m.ln(Sum(Exps(m, xs))));
    UnitRate(m, z, total);
  }

  lemma UnitRate(m: Math, z: real, total: real)
    requires m.Lawful() && total > 0.0 && total == m.exp(m.ln(total)) * z
    ensures z == 1.0
  {
    Unit(m.exp(m.ln(total)), z, total);
  }

  lemma Unit(rate: real, z: real, total: real)
    requires total > 0.0 && rate == total && total == rate * z
    ensures z == 1.0
  {
    DivideFactor(rate, z, total);
    assert total / rate == 1.0;
  }

  lemma ShiftedExp(m: Math, x: real, total: real)
    requires m.Lawful() && total > 0.0
    ensures m.exp(x - m.ln(total)) == m.exp(x) / total
  {
    var norm := m.ln(total);
    ExpSum(m, norm, x - norm);
    DivideFactor(total, m.exp(x - norm), m.exp(x));
  }

  /** Each stored log-probability is the logarithm of the plain softmax, and they sum to one. */
  lemma SoftmaxIsPlain(m: Math, logits: seq<real>, temperature: real)
    requires m.Lawful() && logits != [] && temperature > 0.0
    ensures var total := Sum(Exps(m, Scaled(logits, temperature)));
            && total > 0.0
            && Distribution(m, LogProbabilities(m, logits, temperature))
            && forall i :: 0 <= i < |logits| ==>
                 m.exp(LogProbabilities(m, logits, temperature)[i]) == m.exp(logits[i] / temperature) / total
  {
    var scaled := Scaled(logits, temperature);
    LogNormalizerIsPlain(m, scaled);
    NormalizedMass(m, scaled);
    NormalizedExps(m, scaled, Sum(Exps(m, scaled)));
  }

  lemma NormalizedExps(m: Math, xs: seq<real>, total: real)
    requires m.Lawful() && total > 0.0
    ensures forall i :: 0 <= i < |xs| ==> m.exp(Minus(xs, m.ln(total))[i]) == m.exp(xs[i]) / total
  {
    forall i | 0 <= i < |xs| ensures m.exp(xs[i] - m.ln(total)) == m.exp(xs[i]) / total {
      ShiftedExp(m, xs[i], total);
    }
  }

  lemma DivideFactor(a: real, b: real, product: real)
    requires a > 0.0 && product == a * b
    ensures b == product / a
  {}

  // ----- one row -----

  function EntropyTerm(m: Math, log: real): real { -m.exp(log) * log }

  function EntropyTerms(m: Math, logs: seq<real>): (r: seq<real>)
    ensures |r| == |logs| && forall i :: 0 <= i < |r| ==> r[i] == EntropyTerm(m, logs[i])
  {
    seq(|logs|, i requires 0 <= i < |logs| => EntropyTerm(m, logs[i]))
  }

  /** `set(ranked_ids[:top_k]) | {target}`. */
  function SelectedIds(logs: seq<real>, topK: nat, target: nat): set<nat>
    requires topK <= |logs|
  {
    Ranking.Top(logs, topK) + {target}
  }

  /** The row built from the teacher's log-probabilities, before the contract checks it. */
  function RowFrom(m: Math, exampleId: string, position: nat, context: seq<nat>, target: nat,
                   logs: seq<real>, policy: Policy): CaptureToken<real>
    requires policy.topK <= |logs|
  {
    var n, top := |logs|, Ranking.Top(logs, policy.topK);
    var selected := Ascending(SelectedIds(logs, policy.topK, target), n);
    CaptureToken(
      exampleId, TeacherExpert, position, n, context, Some(target), None,
      Ascending(top, n), [target], selected, Pick(logs, selected),
      TailMass(m, logs, SelectedIds(logs, policy.topK, target)),
      Sum(EntropyTerms(m, logs)),
      policy.temperature)
  }

  function Exact(x: real): real { x }

  /** `build_teacher_expert_capture_token`. */
  function BuildToken(m: Math, exampleId: string, position: nat, context: seq<nat>, target: nat,
                      logits: seq<real>, vocabSize: nat, policy: Policy)
    : Result<CaptureToken<real>, CaptureError>
    requires policy.Valid()
  {
    if vocabSize == 0 then Err(VocabularyEmpty)
    else if policy.topK > vocabSize then Err(TopKExceedsVocabulary)
    else if !InVocabulary(context, vocabSize) then Err(ContextOutsideVocabulary)
    else if target >= vocabSize then Err(TargetOutsideVocabulary)
    else if |logits| != vocabSize then Err(LogitsLength)
    else
      var row := RowFrom(m, exampleId, position, context, target,
                         LogProbabilities(m, logits, policy.temperature), policy);
      if Contract(m, Exact, row) then Ok(row) else Err(ContractViolated)
  }

  // ----- what a row promises -----

  /** Entropy lies between zero and `ln n`. */
  lemma EntropyRange(m: Math, logs: seq<real>)
    requires m.Lawful() && Distribution(m, logs)
    ensures 0.0 <= Sum(EntropyTerms(m, logs)) <= m.ln(|logs| as real)
  {
    LogsNonPositive(m, logs);
    EntropyNonNegative(m, logs);
    EntropyAgainstUniform(m, logs, m.ln(|logs| as real));
    assert m.exp(-m.ln(|logs| as real)) * (|logs| as real) == 1.0 by {
      ExpSum(m, -m.ln(|logs| as real), m.ln(|logs| as real));
      LnOne(m);
    }
  }

  lemma {:induction false} EntropyNonNegative(m: Math, logs: seq<real>)
    requires m.Lawful() && NonPositive(logs)
    ensures Sum(EntropyTerms(m, logs)) >= 0.0
  {
    if logs != [] {
      var k := |logs| - 1;
      EntropyNonNegative(m, logs[..k]);
      assert EntropyTerms(m, logs)[..k] == EntropyTerms(m, logs[..k]);
      assert -m.exp(logs[k]) * logs[k] >= 0.0;
    }
  }

  /** `-sum p ln p <= c sum p + n exp(-c) - sum p` for every `c`: Gibbs against the constant. */
  lemma {:induction false} EntropyAgainstUniform(m: Math, logs: seq<real>, c: real)
    requires m.Lawful()
    ensures Sum(EntropyTerms(m, logs))
         <= c * Sum(Exps(m, logs)) + m.exp(-c) * (|logs| as real) - Sum(Exps(m, logs))
  {
    if logs != [] {
      var k := |logs| - 1;
      EntropyAgainstUniform(m, logs[..k], c);
      assert EntropyTerms(m, logs)[..k] == EntropyTerms(m, logs[..k]);
      assert Exps(m, logs)[..k] == Exps(m, logs[..k]);
      EntropyStep(m, logs[k], c);
      EntropyAdds(c, m.exp(-c), Sum(Exps(m, logs[..k])), m.exp(logs[k]), k);
    }
  }

  lemma EntropyStep(m: Math, log: real, c: real)
    requires m.Lawful()
    ensures EntropyTerm(m, log) <= c * m.exp(log) + m.exp(-c) - m.exp(log)
  {
    GibbsTerm(m, log, -c);
    var p := m.exp(log);
    assert p * (log - (-c)) == p * log + c * p;
    assert -p * log == -(p * log);
  }

  lemma EntropyAdds(c: real, rate: real, mass: real, p: real, k: nat)
    ensures c * (mass + p) + rate * ((k + 1) as real) - (mass + p)
         == (c * mass + rate * (k as real) - mass) + (c * p + rate - p)
  {}

  lemma ExpMonotone(m: Math, a: real, b: real)
    requires m.Lawful() && a <= b
    ensures m.exp(a) <= m.exp(b)
  {
    var d := b - a;
    ExpSum(m, a, d);
    assert a + d == b;
    var low, growth := m.exp(a), m.exp(d);
    assert d == m.ln(growth) <= growth - 1.0;
    var high := Grow(low, growth);
    assert m.exp(a + d) == high;
  }

  lemma Grow(a: real, factor: real) returns (b: real)
    requires a > 0.0 && factor >= 1.0
    ensures b == a * factor && b >= a
  {
    b := a * factor;
    assert b - a == a * (factor - 1.0) >= 0.0;
  }

  lemma ElementsOfAscending(ids: set<nat>, n: nat)
    requires forall i :: i in ids ==> i < n
    ensures Ranking.Elements(Ascending(ids, n)) == ids
  {
    AscendingSorts(ids, n);
  }

  lemma AscendingLength(ids: set<nat>, n: nat)
    requires forall i :: i in ids ==> i < n
    ensures |Ascending(ids, n)| == |ids|
  {
    AscendingSorts(ids, n);
    Ranking.DistinctSize(Ascending(ids, n));
    ElementsOfAscending(ids, n);
  }

  lemma RowShape(m: Math, exampleId: string, position: nat, context: seq<nat>, target: nat,
                 logs: seq<real>, policy: Policy)
    requires policy.topK <= |logs| && target < |logs|
    ensures var t := RowFrom(m, exampleId, position, context, target, logs, policy);
            && |t.topK| == policy.topK
            && UniqueAndSorted(t.topK) && InVocabulary(t.topK, |logs|)
            && UniqueAndSorted(t.selected) && InVocabulary(t.selected, |logs|)
            && t.selected == Ascending(Ranking.Elements(t.topK) + Ranking.Elements(t.forced), |logs|)
            && target in t.selected && |t.selected| == |SelectedIds(logs, policy.topK, target)|
  {
    var top, selected := Ranking.Top(logs, policy.topK), SelectedIds(logs, policy.topK, target);
    Ranking.TopPrecedes(logs, policy.topK);
    AscendingSorts(top, |logs|);
    AscendingSorts(selected, |logs|);
    AscendingLength(top, |logs|);
    AscendingLength(selected, |logs|);
    ElementsOfAscending(top, |logs|);
    assert Ranking.Elements([target]) == {target};
  }

  lemma RowNumbers(m: Math, exampleId: string, position: nat, context: seq<nat>, target: nat,
                   logs: seq<real>, policy: Policy)
    requires m.Lawful() && Distribution(m, logs) && policy.topK <= |logs| && target < |logs|
    ensures var t := RowFrom(m, exampleId, position, context, target, logs, policy);
            && t.logProbabilities != [] && NonPositive(t.logProbabilities)
            && Sum(Exps(m, t.logProbabilities)) + t.tailMass == 1.0
            && 0.0 <= t.tailMass <= 1.0
            && (t.tailMass > 0.0 <==> |SelectedIds(logs, policy.topK, target)| < |logs|)
            && 0.0 <= t.entropy <= m.ln(|logs| as real)
  {
    var selected := SelectedIds(logs, policy.topK, target);
    Ranking.TopPrecedes(logs, policy.topK);
    SelectionMass(m, logs, selected);
    MassSplit(m, logs, selected);
    FullSelection(selected, |logs|);
    EntropyRange(m, logs);
  }

  /** The contract accepts every row built from a distribution with the target in range. */
  lemma RowMeetsContract(m: Math, exampleId: string, position: nat, context: seq<nat>, target: nat,
                         logs: seq<real>, policy: Policy)
    requires m.Lawful() && Distribution(m, logs) && policy.Valid() && policy.topK <= |logs|
    requires IsArtifactId(exampleId) && InVocabulary(context, |logs|) && target < |logs|
    ensures Contract(m, Exact, RowFrom(m, exampleId, position, context, target, logs, policy))
  {
    RowShape(m, exampleId, position, context, target, logs, policy);
    RowNumbers(m, exampleId, position, context, target, logs, policy);
    var row := RowFrom(m, exampleId, position, context, target, logs, policy);
    assert Values(Exact, row.logProbabilities) == row.logProbabilities;
  }

  /** A row is refused exactly for bad input, and the contract check at the end never fires: over
      exact reals every valid input yields a row the contract accepts. */
  lemma BuildAcceptsIff(m: Math, exampleId: string, position: nat, context: seq<nat>, target: nat,
                        logits: seq<real>, vocabSize: nat, policy: Policy)
    requires m.Lawful() && policy.Valid()
    ensures BuildToken(m, exampleId, position, context, target, logits, vocabSize, policy).Ok?
       <==> && IsArtifactId(exampleId) && 0 < policy.topK <= vocabSize == |logits|
            && InVocabulary(context, vocabSize) && target < vocabSize
  {
    if 0 < policy.topK <= vocabSize == |logits| && InVocabulary(context, vocabSize) && target < vocabSize {
      SoftmaxIsPlain(m, logits, policy.temperature);
      if IsArtifactId(exampleId) {
        RowMeetsContract(m, exampleId, position, context, target,
                         LogProbabilities(m, logits, policy.temperature), policy);
      }
    }
  }

  lemma BuiltRow(m: Math, exampleId: string, position: nat, context: seq<nat>, target: nat,
                 logits: seq<real>, vocabSize: nat, policy: Policy)
    requires policy.Valid()
    requires BuildToken(m, exampleId, position, context, target, logits, vocabSize, policy).Ok?
    ensures var logs := LogProbabilities(m, logits, policy.temperature);
            && 0 < policy.topK <= |logs| == vocabSize == |logits| && target < vocabSize
            && BuildToken(m, exampleId, position, context, target, logits, vocabSize, policy).value
               == RowFrom(m, exampleId, position, context, target, logs, policy)
  {
    hide Contract, RowFrom;
  }

  /** Nothing is lost or renormalized: the stored mass and the tail make one, the tail is positive
      exactly when ids are omitted, the target is stored, and entropy lies in `[0, ln n]`. */
  lemma RowMass(m: Math, exampleId: string, position: nat, context: seq<nat>, target: nat,
                logits: seq<real>, vocabSize: nat, policy: Policy)
    requires m.Lawful() && policy.Valid()
    requires BuildToken(m, exampleId, position, context, target, logits, vocabSize, policy).Ok?
    ensures var t := BuildToken(m, exampleId, position, context, target, logits, vocabSize, policy).value;
            && Sum(Exps(m, t.logProbabilities)) + t.tailMass == 1.0
            && (t.tailMass > 0.0 <==> |t.selected| < vocabSize)
            && target in t.selected
            && 0.0 <= t.entropy <= m.ln(vocabSize as real)
  {
    var logs := LogProbabilities(m, logits, policy.temperature);
    SoftmaxIsPlain(m, logits, policy.temperature);
    BuiltRow(m, exampleId, position, context, target, logits, vocabSize, policy);
    hide Exps, Distribution, BuildToken, RowFrom, LogProbabilities;
    RowShape(m, exampleId, position, context, target, logs, policy);
    RowNumbers(m, exampleId, position, context, target, logs, policy);
  }

  /** The top-k ids are the k most probable with ties to the lower id, so no id left out of them is
      more probable than one among them, and the stored mass is at least k/n. */
  lemma RowTopK(m: Math, exampleId: string, position: nat, context: seq<nat>, target: nat,
                logits: seq<real>, vocabSize: nat, policy: Policy)
    requires m.Lawful() && policy.Valid()
    requires BuildToken(m, exampleId, position, context, target, logits, vocabSize, policy).Ok?
    ensures var t := BuildToken(m, exampleId, position, context, target, logits, vocabSize, policy).value;
            var logs := LogProbabilities(m, logits, policy.temperature);
            && |t.topK| == policy.topK
            && (forall i :: i in t.topK ==> i < vocabSize)
            && (forall i, j :: i in t.topK && 0 <= j < vocabSize && j !in t.topK ==>
                  MoreProbable(m, logs, i, j))
            && Sum(Exps(m, t.logProbabilities)) >= (policy.topK as real) / (vocabSize as real)
  {
    var logs := LogProbabilities(m, logits, policy.temperature);
    SoftmaxIsPlain(m, logits, policy.temperature);
    BuiltRow(m, exampleId, position, context, target, logits, vocabSize, policy);
    RowLists(m, exampleId, position, context, target, logs, policy);
    hide Exps, Distribution, BuildToken, LogProbabilities, RowFrom, Ranking.Top, MoreProbable, SelectedIds, Ascending,
         Pick;
    TopIsListed(m, logs, policy.topK);
    SelectedShare(m, logs, policy.topK, target);
  }

  /** The same of the listed ids. */
  lemma TopIsListed(m: Math, logs: seq<real>, k: nat)
    requires m.Lawful() && k <= |logs|
    ensures var ids := Ascending(Ranking.Top(logs, k), |logs|);
            && |ids| == k && (forall i :: i in ids ==> i < |logs|)
            && forall i, j :: i in ids && 0 <= j < |logs| && j !in ids ==> MoreProbable(m, logs, i, j)
  {
    hide Ranking.Top, MoreProbable, Ascending;
    Ranking.TopPrecedes(logs, k);
    AscendingSorts(Ranking.Top(logs, k), |logs|);
    AscendingLength(Ranking.Top(logs, k), |logs|);
    TopIsMoreProbable(m, logs, k);
  }

  lemma RowLists(m: Math, exampleId: string, position: nat, context: seq<nat>, target: nat,
                 logs: seq<real>, policy: Policy)
    requires policy.topK <= |logs|
    ensures var t := RowFrom(m, exampleId, position, context, target, logs, policy);
            && t.topK == Ascending(Ranking.Top(logs, policy.topK), |logs|)
            && t.logProbabilities == Pick(logs, Ascending(SelectedIds(logs, policy.topK, target), |logs|))
  {}

  lemma TopIsMoreProbable(m: Math, logs: seq<real>, k: nat)
    requires m.Lawful() && k <= |logs|
    ensures forall i, j :: i in Ranking.Top(logs, k) && 0 <= j < |logs| && j !in Ranking.Top(logs, k) ==>
              MoreProbable(m, logs, i, j)
  {
    var top := Ranking.Top(logs, k);
    Ranking.TopPrecedes(logs, k);
    forall i, j | i in top && 0 <= j < |logs| && j !in top ensures MoreProbable(m, logs, i, j) {
      assert Ranking.Before(logs, i, j);
      SameOrder(m, logs[i], logs[j]);
    }
  }

  /** Id `i` is more probable than `j`, or as probable with a lower id. */
  ghost predicate MoreProbable(m: Math, logs: seq<real>, i: nat, j: nat) {
    && i < |logs| && j < |logs|
    && (m.exp(logs[i]) > m.exp(logs[j]) || (m.exp(logs[i]) == m.exp(logs[j]) && i < j))
  }

  lemma SameOrder(m: Math, a: real, b: real)
    requires m.Lawful()
    ensures a > b ==> m.exp(a) > m.exp(b)
    ensures a == b ==> m.exp(a) == m.exp(b)
  {
    if a > b {
      ExpMonotone(m, b, a);
      assert m.ln(m.exp(a)) == a && m.ln(m.exp(b)) == b;
    }
  }

  lemma FullSelection(ids: set<nat>, n: nat)
    requires forall i :: i in ids ==> i < n
    ensures |ids| < n <==> !(Range(n) <= ids)
  {
    if Range(n) <= ids {
      Ranking.SubsetCardinality(Range(n), ids);
    } else {
      var i :| i in Range(n) && i !in ids;
      Ranking.SubsetSize(ids, Range(n), i);
    }
  }

  /** Ranking by log-probability is ranking by probability. */
  lemma SelectedShare(m: Math, logs: seq<real>, k: nat, target: nat)
    requires m.Lawful() && Distribution(m, logs) && 0 < k <= |logs| && target < |logs|
    ensures var ids := Ascending(SelectedIds(logs, k, target), |logs|);
            Sum(Exps(m, Pick(logs, ids))) >= (k as real) / (|logs| as real)
  {
    var ps, n := Exps(m, logs), |logs|;
    var top, selected := Ranking.Top(logs, k), SelectedIds(logs, k, target);
    var ids := Ascending(selected, n);
    SumAscending(ps, selected, n, Exps(m, Pick(logs, ids)));
    Ranking.TopPrecedes(logs, k);
    MoreIsMore(ps, top, selected, n);
    TopOfExps(m, logs, k);
    Ranking.TopIsMaximal(ps, k, top);
    Ranking.TopShare(ps, k);
    ShareQuotient(SumIn(ps, top, n), k, n);
  }

  /** The top ids by log-probability carry the greatest probability mass of their number. */
  lemma TopOfExps(m: Math, logs: seq<real>, k: nat)
    requires m.Lawful() && 0 < k <= |logs|
    ensures SumIn(Exps(m, logs), Ranking.Top(logs, k), |logs|)
         == SumIn(Exps(m, logs), Ranking.Top(Exps(m, logs), k), |logs|)
  {
    var ps, top := Exps(m, logs), Ranking.Top(logs, k);
    Ranking.TopPrecedes(logs, k);
    forall i: nat, j: nat | i in top && j < |logs| && j !in top ensures Ranking.Before(ps, i, j) {
      assert Ranking.Before(logs, i, j);
      ExpMonotone(m, logs[j], logs[i]);
      if ps[i] == ps[j] {
        assert m.ln(ps[i]) == logs[i] && m.ln(ps[j]) == logs[j];
      }
    }
    Ranking.TopUnique(ps, k, top);
  }

  lemma {:induction false} MoreIsMore(xs: seq<real>, a: set<nat>, b: set<nat>, n: nat)
    requires n <= |xs| && a <= b && forall i :: 0 <= i < n ==> xs[i] >= 0.0
    ensures SumIn(xs, a, n) <= SumIn(xs, b, n)
  {
    if n > 0 {
      MoreIsMore(xs, a, b, n - 1);
    }
  }

  lemma ShareQuotient(share: real, k: nat, n: nat)
    requires 0 < k <= n && Times(share, n) >= Times(1.0, k)
    ensures share >= (k as real) / (n as real)
  {
    TimesIsProduct(share, n);
    TimesIsProduct(1.0, k);
    Divide(share, k as real, n as real);
  }

  lemma Divide(share: real, k: real, n: real)
    requires n > 0.0 && share * n >= k
    ensures share >= k / n
  {}

  // ----- shift invariance -----

  lemma {:induction false} MaximumShift(xs: seq<real>, c: real)
    requires xs != []
    ensures Maximum(Minus(xs, c)) == Maximum(xs) - c
  {}

  lemma ScaledShift(logits: seq<real>, c: real, temperature: real)
    requires temperature > 0.0
    ensures Scaled(Minus(logits, c), temperature) == Minus(Scaled(logits, temperature), c / temperature)
  {
    forall i | 0 <= i < |logits|
      ensures (logits[i] - c) / temperature == logits[i] / temperature - c / temperature
    {
      QuotientMinus(logits[i], c, temperature);
    }
  }

  lemma QuotientMinus(a: real, b: real, c: real)
    requires c > 0.0
    ensures (a - b) / c == a / c - b / c
  {}

  /** Adding a constant to every logit leaves the log-probabilities, hence the row, unchanged. */
  lemma ShiftInvariant(m: Math, exampleId: string, position: nat, context: seq<nat>, target: nat,
                       logits: seq<real>, vocabSize: nat, policy: Policy, c: real)
    requires policy.Valid()
    ensures BuildToken(m, exampleId, position, context, target, Minus(logits, c), vocabSize, policy)
         == BuildToken(m, exampleId, position, context, target, logits, vocabSize, policy)
  {
    if logits != [] {
      LogProbabilitiesShift(m, logits, c, policy.temperature);
    }
  }

  lemma NormalizerShift(m: Math, scaled: seq<real>, shift: real)
    requires scaled != []
    ensures LogNormalizer(m, Minus(scaled, shift)) == LogNormalizer(m, scaled) - shift
  {
    hide Maximum, Exps, Sum;
    MaximumShift(scaled, shift);
    assert Minus(Minus(scaled, shift), Maximum(scaled) - shift) == Minus(scaled, Maximum(scaled));
  }

  lemma NormalizeShift(m: Math, scaled: seq<real>, shift: real)
    requires scaled != []
    ensures Normalize(m, Minus(scaled, shift)) == Normalize(m, scaled)
  {
    NormalizerShift(m, scaled, shift);
  }

  lemma LogProbabilitiesShift(m: Math, logits: seq<real>, c: real, temperature: real)
    requires logits != [] && temperature > 0.0
    ensures LogProbabilities(m, Minus(logits, c), temperature) == LogProbabilities(m, logits, temperature)
  {
    ScaledShift(logits, c, temperature);
    NormalizeShift(m, Scaled(logits, temperature), c / temperature);
  }
}
