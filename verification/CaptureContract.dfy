/** The capture row and the contract every stored row meets.

    `N` is the type of the row's numbers: exact reals when a row is computed, the printed text of
    a float when it is stored. `val` reads such a number. */
module CaptureContract {
  import opened Wrappers
  import opened Reals
  import Ranking

  datatype View = TeacherExpert | StudentRollout

  datatype CaptureToken<N> = CaptureToken(
    exampleId: string,
    kind: View,
    position: nat,
    vocabSize: nat,
    context: seq<nat>,
    target: Option<nat>,
    sampled: Option<nat>,
    topK: seq<nat>,
    forced: seq<nat>,
    selected: seq<nat>,
    logProbabilities: seq<N>,
    tailMass: N,
    entropy: N,
    temperature: N)

  const TOLERANCE: real := 0.000000001

  predicate IsClose(a: real, b: real) { -TOLERANCE <= a - b <= TOLERANCE }

  // ----- identifiers: [A-Za-z0-9][-A-Za-z0-9_.:]{0,127} -----

  predicate IsAlphanumeric(c: char) {
    'A' <= c <= 'Z' || 'a' <= c <= 'z' || '0' <= c <= '9'
  }

  predicate IsArtifactIdChar(c: char) {
    IsAlphanumeric(c) || c == '-' || c == '_' || c == '.' || c == ':'
  }

  predicate IsArtifactId(s: string) {
    && 1 <= |s| <= 128 && IsAlphanumeric(s[0])
    && forall i :: 0 <= i < |s| ==> IsArtifactIdChar(s[i])
  }

  // ----- probabilities -----

  function Exps(m: Math, logs: seq<real>): (r: seq<real>)
    ensures |r| == |logs| && forall i :: 0 <= i < |r| ==> r[i] == m.exp(logs[i])
  {
    seq(|logs|, i requires 0 <= i < |logs| => m.exp(logs[i]))
  }

  function Values<N>(val: N -> real, xs: seq<N>): (r: seq<real>)
    ensures |r| == |xs| && forall i :: 0 <= i < |r| ==> r[i] == val(xs[i])
  {
    seq(|xs|, i requires 0 <= i < |xs| => val(xs[i]))
  }

  /** The log-probabilities of the listed ids. */
  function Pick(logs: seq<real>, ids: seq<nat>): (r: seq<real>)
    requires forall i :: 0 <= i < |ids| ==> ids[i] < |logs|
    ensures |r| == |ids| && forall i :: 0 <= i < |r| ==> r[i] == logs[ids[i]]
  {
    seq(|ids|, i requires 0 <= i < |ids| => logs[ids[i]])
  }

  predicate UniqueAndSorted(ids: seq<nat>) {
    forall i, j :: 0 <= i < j < |ids| ==> ids[i] < ids[j]
  }

  predicate InVocabulary(ids: seq<nat>, vocabSize: nat) {
    forall i :: 0 <= i < |ids| ==> ids[i] < vocabSize
  }

  /** `_probability_contract`, with the field bounds checked before it. */
  predicate Contract<N>(m: Math, val: N -> real, t: CaptureToken<N>) {
    && IsArtifactId(t.exampleId)
    && t.vocabSize > 0
    && t.topK != [] && t.selected != [] && t.logProbabilities != []
    && 0.0 <= val(t.tailMass) <= 1.0
    && val(t.entropy) >= 0.0
    && val(t.temperature) > 0.0
    && InVocabulary(t.context, t.vocabSize)
    && UniqueAndSorted(t.topK) && InVocabulary(t.topK, t.vocabSize)
    && UniqueAndSorted(t.forced) && InVocabulary(t.forced, t.vocabSize)
    && UniqueAndSorted(t.selected) && InVocabulary(t.selected, t.vocabSize)
    && (t.target.Some? ==> t.target.value < t.vocabSize)
    && (t.sampled.Some? ==> t.sampled.value < t.vocabSize)
    && (t.kind.TeacherExpert? ==> t.target.Some? && t.target.value in t.forced)
    && (t.kind.StudentRollout? ==> t.sampled.Some? && t.sampled.value in t.forced)
    && t.selected == Ascending(Ranking.Elements(t.topK) + Ranking.Elements(t.forced), t.vocabSize)
    && |t.logProbabilities| == |t.selected|
    && (forall i :: 0 <= i < |t.logProbabilities| ==> val(t.logProbabilities[i]) <= 0.0)
    && (|t.selected| < t.vocabSize ==> val(t.tailMass) > 0.0)
    && IsClose(Sum(Exps(m, Values(val, t.logProbabilities))) + val(t.tailMass), 1.0)
  }
}
