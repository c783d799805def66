/** The count accumulation of the MoE probe: every step is reduced at once into each layer's totals. */
module MoeMeasure {
  import opened Reals
  import opened MoeStatistics
  import Ranking

  /** The experts the tokens of one forward picked in one layer, flattened. */
  type Picks = seq<nat>

  /** How often `e` occurs. */
  function Occurrences(picks: Picks, e: nat): nat {
    if picks == [] then 0
    else Occurrences(picks[..|picks| - 1], e) + if picks[|picks| - 1] == e then 1 else 0
  }

  /** `torch.bincount(flat, minlength=n)` for picks below `n`. */
  function BinCount(picks: Picks, n: nat): (r: Counts)
    ensures |r| == n && forall e :: 0 <= e < n ==> r[e] == Occurrences(picks, e)
  {
    seq(n, e requires 0 <= e < n => Occurrences(picks, e))
  }

  function Pointwise(a: Counts, b: Counts): (r: Counts)
    requires |a| == |b|
    ensures |r| == |a| && forall e :: 0 <= e < |r| ==> r[e] == a[e] + b[e]
  {
    seq(|a|, e requires 0 <= e < |a| => a[e] + b[e])
  }

  predicate Wide(steps: seq<Counts>, n: nat) {
    forall s :: 0 <= s < |steps| ==> |steps[s]| == n
  }

  /** The pointwise sum of the per-step counts. */
  function Totals(steps: seq<Counts>, n: nat): (r: Counts)
    requires Wide(steps, n)
    ensures |r| == n
  {
    if steps == [] then seq(n, _ => 0)
    else Pointwise(Totals(steps[..|steps| - 1], n), steps[|steps| - 1])
  }

  function Coverage(counted: Counts): real {
    if counted == [] then 0.0 else (|UsedSet(counted)| as real) / (|counted| as real)
  }

  class LayerStats {
    const layer: int
    var counts: Counts
    var coverage: seq<real>
    var perStepHot: seq<set<nat>>
    var perStepCounts: seq<Counts>

    constructor (layer: int, nExperts: nat)
      ensures this.layer == layer
      ensures counts == seq(nExperts, _ => 0) && coverage == [] && perStepHot == [] && perStepCounts == []
    {
      this.layer := layer;
      counts := seq(nExperts, _ => 0);
      coverage, perStepHot, perStepCounts := [], [], [];
    }

    /** The totals are the pointwise sum of the steps, and every step has its coverage and hot set. */
    ghost predicate Valid(nExperts: nat)
      reads this
    {
      && Wide(perStepCounts, nExperts)
      && counts == Totals(perStepCounts, nExperts)
      && |coverage| == |perStepHot| == |perStepCounts|
      && forall s :: 0 <= s < |perStepCounts| ==>
           coverage[s] == Coverage(perStepCounts[s]) && perStepHot[s] == HotSet(perStepCounts[s], 0.25)
    }

    /** One step of one layer in `measure_shape`. */
    method Record(picks: Picks, nExperts: nat)
      requires Valid(nExperts) && nExperts > 0
      requires forall i :: 0 <= i < |picks| ==> picks[i] < nExperts
      modifies this
      ensures Valid(nExperts)
      ensures perStepCounts == old(perStepCounts) + [BinCount(picks, nExperts)]
      ensures counts == Pointwise(old(counts), BinCount(picks, nExperts))
      ensures coverage == old(coverage) + [Coverage(BinCount(picks, nExperts))]
      ensures perStepHot == old(perStepHot) + [HotSet(BinCount(picks, nExperts), 0.25)]
    {
      hide HotSet, Coverage, Occurrences;
      ghost var before := counts;
      var counted := BinCount(picks, nExperts);
      coverage := coverage + [Coverage(counted)];
      perStepHot := perStepHot + [HotSet(counted, 0.25)];
      perStepCounts := perStepCounts + [counted];
      for expert := 0 to |counted|
        invariant |counts| == nExperts
        invariant forall e :: 0 <= e < expert ==> counts[e] == before[e] + counted[e]
        invariant forall e :: expert <= e < nExperts ==> counts[e] == before[e]
        invariant coverage == old(coverage) + [Coverage(counted)]
        invariant perStepHot == old(perStepHot) + [HotSet(counted, 0.25)]
        invariant perStepCounts == old(perStepCounts) + [counted]
      {
        counts := counts[expert := counts[expert] + counted[expert]];
      }
      assert counts == Pointwise(before, counted);
      assert perStepCounts[..|perStepCounts| - 1] == old(perStepCounts);
    }
  }

  // ----- one run -----

  /** What every layer's router picked in every step. */
  predicate Routed(picks: seq<seq<Picks>>, layers: nat, nExperts: nat) {
    forall s :: 0 <= s < |picks| ==>
      && |picks[s]| == layers
      && forall l, i :: 0 <= l < layers && 0 <= i < |picks[s][l]| ==> picks[s][l][i] < nExperts
  }

  /** The counts of one layer, step by step. */
  function StepCounts(picks: seq<seq<Picks>>, layer: nat, nExperts: nat): (r: seq<Counts>)
    requires forall s :: 0 <= s < |picks| ==> layer < |picks[s]|
    ensures |r| == |picks| && forall s :: 0 <= s < |r| ==> r[s] == BinCount(picks[s][layer], nExperts)
  {
    seq(|picks|, s requires 0 <= s < |picks| => BinCount(picks[s][layer], nExperts))
  }

  ghost predicate Separate(stats: seq<LayerStats>) {
    forall j, k :: 0 <= j < k < |stats| ==> stats[j] != stats[k]
  }

  /** Every layer has seen these steps. */
  ghost predicate Seen(stats: seq<LayerStats>, steps: seq<seq<Picks>>, nExperts: nat)
    requires forall s :: 0 <= s < |steps| ==> |steps[s]| == |stats|
    reads stats
  {
    forall k :: 0 <= k < |stats| ==>
      stats[k].Valid(nExperts) && stats[k].perStepCounts == StepCounts(steps, k, nExperts)
  }

  lemma StepCountsSnoc(steps: seq<seq<Picks>>, more: seq<Picks>, layer: nat, nExperts: nat)
    requires (forall s :: 0 <= s < |steps| ==> layer < |steps[s]|) && layer < |more|
    ensures StepCounts(steps + [more], layer, nExperts)
         == StepCounts(steps, layer, nExperts) + [BinCount(more[layer], nExperts)]
  {}

  /** One step over all hooks. */
  method RecordStep(stats: seq<LayerStats>, ghost before: seq<seq<Picks>>, picks: seq<Picks>, nExperts: nat)
    requires nExperts > 0 && Separate(stats) && |picks| == |stats|
    requires forall l, i :: 0 <= l < |picks| && 0 <= i < |picks[l]| ==> picks[l][i] < nExperts
    requires forall s :: 0 <= s < |before| ==> |before[s]| == |stats|
    requires Seen(stats, before, nExperts)
    modifies stats
    ensures forall s :: 0 <= s < |before + [picks]| ==> |(before + [picks])[s]| == |stats|
    ensures Seen(stats, before + [picks], nExperts)
  {
    hide HotSet, Coverage, Totals, Occurrences;
    for l := 0 to |stats|
      invariant forall k :: 0 <= k < |stats| ==> stats[k].Valid(nExperts)
      invariant forall k :: 0 <= k < l ==> stats[k].perStepCounts == StepCounts(before + [picks], k, nExperts)
      invariant forall k :: l <= k < |stats| ==> stats[k].perStepCounts == StepCounts(before, k, nExperts)
    {
      stats[l].Record(picks[l], nExperts);
      StepCountsSnoc(before, picks, l, nExperts);
    }
  }

  /** The loops of `measure_shape` over steps and hooks. */
  method MeasureShape(picks: seq<seq<Picks>>, layers: nat, nExperts: nat)
    returns (stats: seq<LayerStats>, usedSteps: nat)
    requires Routed(picks, layers, nExperts) && nExperts > 0
    ensures |stats| == layers && usedSteps == |picks|
    ensures Seen(stats, picks, nExperts)
  {
    hide HotSet, Coverage, Totals, Occurrences;
    stats := [];
    for l := 0 to layers
      invariant |stats| == l && Separate(stats)
      invariant forall k :: 0 <= k < l ==> fresh(stats[k])
      invariant Seen(stats, [], nExperts)
    {
      var entry := new LayerStats(l, nExperts);
      NoSteps(nExperts);
      stats := stats + [entry];
    }
    usedSteps := 0;
    for step := 0 to |picks|
      invariant |stats| == layers && usedSteps == step && Separate(stats)
      invariant forall k :: 0 <= k < layers ==> fresh(stats[k])
      invariant Seen(stats, picks[..step], nExperts)
    {
      assert picks[..step + 1] == picks[..step] + [picks[step]];
      RecordStep(stats, picks[..step], picks[step], nExperts);
      usedSteps := usedSteps + 1;
    }
    assert picks[..|picks|] == picks;
  }

  lemma NoSteps(n: nat)
    ensures Totals([], n) == seq(n, _ => 0)
  {}

  // ----- conservation -----

  lemma {:induction false} TotalZero(n: nat)
    ensures Total(seq(n, _ => 0)) == 0
  {
    if n > 0 {
      assert (seq(n, _ => 0))[1..] == seq(n - 1, _ => 0);
      TotalZero(n - 1);
    }
  }

  lemma {:induction false} TotalPointwise(a: Counts, b: Counts)
    requires |a| == |b|
    ensures Total(Pointwise(a, b)) == Total(a) + Total(b)
  {
    if a != [] {
      TotalPointwise(a[1..], b[1..]);
      assert Pointwise(a, b)[1..] == Pointwise(a[1..], b[1..]);
    }
  }

  function Single(n: nat, e: nat): Counts { seq(n, k => if k == e then 1 else 0) }

  lemma {:induction false} TotalSingle(n: nat, e: nat)
    requires e < n
    ensures Total(Single(n, e)) == 1
  {
    if e == 0 {
      assert Single(n, e)[1..] == seq(n - 1, _ => 0);
      TotalZero(n - 1);
    } else {
      assert Single(n, e)[1..] == Single(n - 1, e - 1);
      TotalSingle(n - 1, e - 1);
    }
  }

  /** Every pick is counted exactly once. */
  lemma {:induction false} BinCountTotal(picks: Picks, n: nat)
    requires forall i :: 0 <= i < |picks| ==> picks[i] < n
    ensures Total(BinCount(picks, n)) == |picks|
  {
    if picks == [] {
      assert BinCount(picks, n) == seq(n, _ => 0);
      TotalZero(n);
    } else {
      var init, last := picks[..|picks| - 1], picks[|picks| - 1];
      BinCountTotal(init, n);
      assert BinCount(picks, n) == Pointwise(BinCount(init, n), Single(n, last));
      TotalPointwise(BinCount(init, n), Single(n, last));
      TotalSingle(n, last);
    }
  }

  lemma OneMoreStep(n: nat, each: nat)
    ensures (n + 1) * each == n * each + each
  {}

  lemma {:induction false} TotalsTotal(steps: seq<Counts>, n: nat, each: nat)
    requires Wide(steps, n) && forall s :: 0 <= s < |steps| ==> Total(steps[s]) == each
    ensures Total(Totals(steps, n)) == |steps| * each
  {
    if steps == [] {
      TotalZero(n);
    } else {
      var init, last := steps[..|steps| - 1], steps[|steps| - 1];
      TotalsTotal(init, n, each);
      TotalPointwise(Totals(init, n), last);
      OneMoreStep(|init|, each);
    }
  }

  /** Over any run the counts of a layer sum to steps times tokens times `top_k`, and the coverage of a
      step lies between 0 and 1. */
  lemma CountsAreConserved(picks: seq<seq<Picks>>, layer: nat, layers: nat, nExperts: nat, tokens: nat, topK: nat)
    requires Routed(picks, layers, nExperts) && layer < layers
    requires forall s :: 0 <= s < |picks| ==> |picks[s][layer]| == tokens * topK
    ensures Total(Totals(StepCounts(picks, layer, nExperts), nExperts)) == |picks| * (tokens * topK)
    ensures forall s :: 0 <= s < |picks| ==> 0.0 <= Coverage(StepCounts(picks, layer, nExperts)[s]) <= 1.0
  {
    hide Coverage, Total;
    var steps := StepCounts(picks, layer, nExperts);
    forall s | 0 <= s < |steps| ensures Total(steps[s]) == tokens * topK && 0.0 <= Coverage(steps[s]) <= 1.0 {
      BinCountTotal(picks[s][layer], nExperts);
      CoverageRange(steps[s]);
    }
    TotalsTotal(steps, nExperts, tokens * topK);
  }

  lemma CoverageRange(counted: Counts)
    ensures 0.0 <= Coverage(counted) <= 1.0
  {
    if counted != [] {
      Ranking.SubsetCardinality(UsedSet(counted), Range(|counted|));
      CompareFractions(|UsedSet(counted)| as real, |counted| as real, |counted| as real);
      Whole(|counted| as real);
    }
  }

  lemma Whole(n: real)
    requires n > 0.0
    ensures n / n == 1.0
  {}
}
