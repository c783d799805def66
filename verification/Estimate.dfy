/** The payload and runtime estimate of a plan, against the rows and rates it is an estimate of. */
module Estimate {
  import opened Wrappers
  import opened Reals
  import opened CaptureContract
  import Ranking

  datatype Widths = Widths(tokenId: nat, logProbability: nat, tailMass: nat, entropy: nat)

  /** A measured throughput range, in tokens per second. */
  datatype Profile = Profile(slowest: real, fastest: real) {
    predicate Valid() { 0.0 < slowest <= fastest }
  }

  datatype Runtime = Unknown | Profiled(secondsMin: real, secondsMax: real)

  datatype PlanEstimate = PlanEstimate(tokenCount: nat, denseBytes: nat, sparseBytes: nat, runtime: Runtime)

  datatype EstimateError = NotPositive | TopKExceedsVocabulary

  /** At most this many ids are stored for one position. */
  function SelectedBound(vocabSize: nat, topK: nat, maxForced: nat): nat {
    if vocabSize <= topK + maxForced then vocabSize else topK + maxForced
  }

  function PositionBytes(w: Widths, selected: nat): nat {
    selected * (w.tokenId + w.logProbability) + w.tailMass + w.entropy
  }

  function RuntimeOf(tokenCount: nat, profile: Option<Profile>): Runtime
    requires profile.Some? ==> profile.value.Valid()
  {
    match profile
    case None => Unknown
    case Some(p) => Profiled(tokenCount as real / p.fastest, tokenCount as real / p.slowest)
  }

  /** `build_plan_estimate`. */
  function BuildEstimate(tokenCount: nat, vocabSize: nat, topK: nat, maxForced: nat, w: Widths,
                         profile: Option<Profile>)
    : Result<PlanEstimate, EstimateError>
    requires profile.Some? ==> profile.value.Valid()
  {
    if tokenCount == 0 || vocabSize == 0 || topK == 0 then Err(NotPositive)
    else if w.tokenId == 0 || w.logProbability == 0 || w.tailMass == 0 || w.entropy == 0 then Err(NotPositive)
    else if topK > vocabSize then Err(TopKExceedsVocabulary)
    else
      Ok(PlanEstimate(
        tokenCount,
        tokenCount * vocabSize * w.logProbability,
        tokenCount * PositionBytes(w, SelectedBound(vocabSize, topK, maxForced)),
        RuntimeOf(tokenCount, profile)))
  }

  // ----- the rows it is an estimate of -----

  /** What the rows of a payload store, without container metadata. */
  function PayloadBytes<N>(w: Widths, rows: seq<CaptureToken<N>>): nat {
    if rows == [] then 0
    else PayloadBytes(w, rows[..|rows| - 1]) + PositionBytes(w, |rows[|rows| - 1].selected|)
  }

  ghost predicate Planned<N>(m: Math, val: N -> real, vocabSize: nat, topK: nat, maxForced: nat, t: CaptureToken<N>) {
    Contract(m, val, t) && t.vocabSize == vocabSize && |t.topK| == topK && |t.forced| <= maxForced
  }

  ghost predicate AllPlanned<N>(m: Math, val: N -> real, vocabSize: nat, topK: nat, maxForced: nat,
                                rows: seq<CaptureToken<N>>) {
    forall i :: 0 <= i < |rows| ==> Planned(m, val, vocabSize, topK, maxForced, rows[i])
  }

  lemma {:induction false} ElementsSize(ids: seq<nat>)
    ensures |Ranking.Elements(ids)| <= |ids|
  {
    if ids != [] {
      ElementsSize(ids[..|ids| - 1]);
      assert Ranking.Elements(ids) == Ranking.Elements(ids[..|ids| - 1]) + {ids[|ids| - 1]};
    }
  }

  lemma {:induction false} AscendingFits(ids: set<nat>, n: nat)
    ensures |Ascending(ids, n)| <= n
    ensures |Ascending(ids, n)| <= |ids|
  {
    if n > 0 {
      AscendingFits(ids, n - 1);
      if n - 1 in ids {
        AscendingFits(ids - {n - 1}, n - 1);
        AscendingWithout(ids, n - 1, n - 1);
      }
    }
  }

  lemma {:induction false} AscendingWithout(ids: set<nat>, k: nat, n: nat)
    requires n <= k
    ensures Ascending(ids - {k}, n) == Ascending(ids, n)
  {
    if n > 0 {
      AscendingWithout(ids, k, n - 1);
    }
  }

  lemma SelectedWithinBound<N>(m: Math, val: N -> real, vocabSize: nat, topK: nat, maxForced: nat, t: CaptureToken<N>)
    requires Planned(m, val, vocabSize, topK, maxForced, t)
    ensures |t.selected| <= SelectedBound(vocabSize, topK, maxForced)
  {
    var top, forced := Ranking.Elements(t.topK), Ranking.Elements(t.forced);
    ElementsSize(t.topK);
    ElementsSize(t.forced);
    AscendingFits(top + forced, vocabSize);
    assert |top + forced| <= |top| + |forced|;
  }

  lemma MoreIdsMoreBytes(w: Widths, a: nat, b: nat)
    requires a <= b
    ensures PositionBytes(w, a) <= PositionBytes(w, b)
    ensures w.tokenId > 0 && a < b ==> PositionBytes(w, a) < PositionBytes(w, b)
  {}

  ghost predicate AllFull<N>(rows: seq<CaptureToken<N>>, bound: nat) {
    forall i :: 0 <= i < |rows| ==> |rows[i].selected| == bound
  }

  lemma FullSnoc<N>(rows: seq<CaptureToken<N>>, bound: nat)
    requires rows != []
    ensures AllFull(rows, bound) <==>
              AllFull(rows[..|rows| - 1], bound) && |rows[|rows| - 1].selected| == bound
  {}

  lemma PlannedInit<N>(m: Math, val: N -> real, vocabSize: nat, topK: nat, maxForced: nat, rows: seq<CaptureToken<N>>)
    requires rows != [] && AllPlanned(m, val, vocabSize, topK, maxForced, rows)
    ensures AllPlanned(m, val, vocabSize, topK, maxForced, rows[..|rows| - 1])
  {}

  lemma OneMore(n: nat, each: nat)
    ensures (n + 1) * each == n * each + each
  {}

  /** No payload of planned rows is larger than the estimate, and one is as large exactly when every
      row stores as many ids as the plan allows for. */
  lemma {:induction false} PayloadWithinEstimate<N>(m: Math, val: N -> real, vocabSize: nat, topK: nat, maxForced: nat,
                                                    w: Widths, rows: seq<CaptureToken<N>>)
    requires AllPlanned(m, val, vocabSize, topK, maxForced, rows) && w.tokenId > 0
    ensures var bound := SelectedBound(vocabSize, topK, maxForced);
            && PayloadBytes(w, rows) <= |rows| * PositionBytes(w, bound)
            && (PayloadBytes(w, rows) == |rows| * PositionBytes(w, bound) <==> AllFull(rows, bound))
  {
    hide Planned, PositionBytes;
    if rows != [] {
      var bound, last := SelectedBound(vocabSize, topK, maxForced), rows[|rows| - 1];
      PlannedInit(m, val, vocabSize, topK, maxForced, rows);
      PayloadWithinEstimate(m, val, vocabSize, topK, maxForced, w, rows[..|rows| - 1]);
      SelectedWithinBound(m, val, vocabSize, topK, maxForced, last);
      MoreIdsMoreBytes(w, |last.selected|, bound);
      OneMore(|rows| - 1, PositionBytes(w, bound));
      FullSnoc(rows, bound);
    }
  }

  /** The estimate bounds every payload of the planned rows, and the time of a run at any rate inside
      the profile lies in the reported range. */
  lemma EstimateHolds<N>(m: Math, val: N -> real, vocabSize: nat, topK: nat, maxForced: nat, w: Widths,
                         profile: Option<Profile>, rows: seq<CaptureToken<N>>, rate: real)
    requires AllPlanned(m, val, vocabSize, topK, maxForced, rows)
    requires profile.Some? ==> profile.value.Valid() && profile.value.slowest <= rate <= profile.value.fastest
    requires BuildEstimate(|rows|, vocabSize, topK, maxForced, w, profile).Ok?
    ensures var e := BuildEstimate(|rows|, vocabSize, topK, maxForced, w, profile).value;
            && PayloadBytes(w, rows) <= e.sparseBytes
            && (profile.Some? ==> && e.runtime.Profiled? && 0.0 < e.runtime.secondsMin
                                  && e.runtime.secondsMin <= |rows| as real / rate <= e.runtime.secondsMax)
  {
    hide AllPlanned, PositionBytes;
    PayloadWithinEstimate(m, val, vocabSize, topK, maxForced, w, rows);
    if profile.Some? {
      FasterIsSooner(|rows| as real, rate, profile.value.fastest);
      FasterIsSooner(|rows| as real, profile.value.slowest, rate);
    }
  }

  lemma FasterIsSooner(tokens: real, slow: real, fast: real)
    requires tokens > 0.0 && 0.0 < slow <= fast
    ensures 0.0 < tokens / fast <= tokens / slow
  {}
}
