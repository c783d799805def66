/** The routing statistics of the MoE probe: inequality of the expert counts, and how much traffic
    the busiest experts take. */
module MoeStatistics {
  import opened Sorting
  import opened Reals
  import Ranking

  type Counts = seq<nat>

  function Total(counts: Counts): nat {
    if counts == [] then 0 else counts[0] + Total(counts[1..])
  }

  predicate Le(a: nat, b: nat) { a <= b }

  lemma LeOrder()
    ensures TotalOrder(Le)
  {}

  // ----- gini -----

  /** The sum of `(k + i) * ordered[i]`. */
  function Weighted(ordered: Counts, k: nat): nat {
    if ordered == [] then 0 else k * ordered[0] + Weighted(ordered[1..], k + 1)
  }

  function ClosedIndex(weighted: nat, n: nat, total: nat): real
    requires n > 0 && total > 0
  {
    Positive(n, total);
    2.0 * (weighted as real) / ((n * total) as real) - ((n + 1) as real) / (n as real)
  }

  /** `gini`, over exact reals. */
  function Gini(counts: Counts): real {
    if Total(counts) == 0 || |counts| < 2 then 0.0
    else ClosedIndex(Weighted(Sort(Le, counts), 1), |counts|, Total(counts))
  }

  lemma Positive(a: nat, b: nat)
    requires a > 0 && b > 0
    ensures a * b > 0
  {}

  /** A sum over pairs as a share of `n total`. */
  function Share(pairs: nat, n: nat, total: nat): real
    requires n > 0 && total > 0
  {
    Positive(n, total);
    (pairs as real) / ((n * total) as real)
  }

  function Abs(x: int): nat { if x < 0 then -x else x }

  /** The sum of `|x - y|` over the list. */
  function Dist(x: nat, counts: Counts): nat {
    if counts == [] then 0 else Abs(x - counts[0]) + Dist(x, counts[1..])
  }

  /** The sum of `|x - y|` over all unordered pairs of positions. */
  function Pairs(counts: Counts): nat {
    if counts == [] then 0 else Dist(counts[0], counts[1..]) + Pairs(counts[1..])
  }

  /** The sum of `|x - y|` for `x` in one list and `y` in the other. */
  function Spread(xs: Counts, ys: Counts): nat {
    if xs == [] then 0 else Dist(xs[0], ys) + Spread(xs[1..], ys)
  }

  lemma {:induction false} DistAppend(x: nat, ys: Counts, y: nat)
    ensures Dist(x, [y] + ys) == Abs(x - y) + Dist(x, ys)
  {
    assert ([y] + ys)[1..] == ys;
  }

  lemma {:induction false} SpreadFirst(xs: Counts, y: nat, ys: Counts)
    ensures Spread(xs, [y] + ys) == Dist(y, xs) + Spread(xs, ys)
  {
    if xs != [] {
      SpreadFirst(xs[1..], y, ys);
      DistAppend(xs[0], ys, y);
    }
  }

  /** All ordered pairs count every unordered pair twice. */
  lemma {:induction false} SpreadIsTwicePairs(xs: Counts)
    ensures Spread(xs, xs) == 2 * Pairs(xs)
  {
    if xs != [] {
      var x, rest := xs[0], xs[1..];
      assert xs == [x] + rest;
      SpreadIsTwicePairs(rest);
      DistAppend(x, rest, x);
      SpreadFirst(rest, x, rest);
    }
  }

  // sorting changes none of the sums

  lemma {:induction false} InsertSums(x: nat, s: Counts, y: nat)
    ensures Dist(y, Insert(Le, x, s)) == Abs(y - x) + Dist(y, s)
    ensures Total(Insert(Le, x, s)) == x + Total(s)
  {
    if s == [] || x <= s[0] {
      assert ([x] + s)[1..] == s;
    } else {
      InsertSums(x, s[1..], y);
      assert ([s[0]] + Insert(Le, x, s[1..]))[1..] == Insert(Le, x, s[1..]);
    }
  }

  lemma {:induction false} InsertPairs(x: nat, s: Counts)
    ensures Pairs(Insert(Le, x, s)) == Dist(x, s) + Pairs(s)
  {
    if s == [] || x <= s[0] {
      assert ([x] + s)[1..] == s;
    } else {
      var rest := Insert(Le, x, s[1..]);
      InsertPairs(x, s[1..]);
      InsertSums(x, s[1..], s[0]);
      assert ([s[0]] + rest)[1..] == rest;
    }
  }

  lemma {:induction false} SortDist(s: Counts, y: nat)
    ensures Dist(y, Sort(Le, s)) == Dist(y, s) && Total(Sort(Le, s)) == Total(s)
  {
    if s != [] {
      SortDist(s[1..], y);
      InsertSums(s[0], Sort(Le, s[1..]), y);
    }
  }

  lemma {:induction false} SortPairs(s: Counts)
    ensures Pairs(Sort(Le, s)) == Pairs(s)
  {
    if s != [] {
      SortPairs(s[1..]);
      InsertPairs(s[0], Sort(Le, s[1..]));
      SortDist(s[1..], s[0]);
    }
  }

  // the closed form on a sorted list

  lemma {:induction false} WeightedShift(s: Counts, k: nat)
    ensures Weighted(s, k + 1) == Weighted(s, k) + Total(s)
  {
    if s != [] {
      WeightedShift(s[1..], k + 1);
      assert (k + 1) * s[0] == k * s[0] + s[0];
    }
  }

  lemma {:induction false} DistBelow(x: nat, s: Counts)
    requires forall i :: 0 <= i < |s| ==> x <= s[i]
    ensures Dist(x, s) == Total(s) - |s| * x
  {
    if s != [] {
      DistBelow(x, s[1..]);
      assert |s| * x == (|s| - 1) * x + x;
    }
  }

  lemma {:induction false} ClosedForm(s: Counts)
    requires Sorted(Le, s)
    ensures Pairs(s) == 2 * Weighted(s, 1) - (|s| + 1) * Total(s)
  {
    if s != [] {
      var x, rest := s[0], s[1..];
      ClosedForm(rest);
      WeightedShift(rest, 1);
      assert forall i :: 0 <= i < |rest| ==> Le(s[0], s[i + 1]) && rest[i] == s[i + 1];
      DistBelow(x, rest);
      ClosedStep(x, |rest|, Total(rest), Weighted(rest, 1), Pairs(rest));
    }
  }

  lemma ClosedStep(x: nat, n: nat, total: nat, weighted: nat, pairs: int)
    requires pairs == 2 * weighted - (n + 1) * total
    ensures total - n * x + pairs == 2 * (x + weighted + total) - (n + 2) * (x + total)
  {
    assert (n + 2) * (x + total) == n * x + 2 * x + (n + 1) * total + total;
  }

  lemma WeightedSum(counts: Counts)
    ensures Pairs(counts) == 2 * Weighted(Sort(Le, counts), 1) - (|counts| + 1) * Total(counts)
  {
    LeOrder();
    SortSorted(Le, counts);
    SortPermutes(Le, counts);
    SortPairs(counts);
    SortDist(counts, 0);
    ClosedForm(Sort(Le, counts));
  }

  lemma Quotient(weighted: nat, pairs: nat, n: nat, total: nat)
    requires n > 0 && total > 0 && pairs == 2 * weighted - (n + 1) * total
    ensures ClosedIndex(weighted, n, total) == Share(pairs, n, total)
  {
    var w, p, t, k := weighted as real, pairs as real, total as real, n as real;
    assert (n * total) as real == k * t;
    assert p == 2.0 * w - (k + 1.0) * t;
    RealQuotient(w, t, k);
  }

  lemma RealQuotient(w: real, t: real, k: real)
    requires k > 0.0 && t > 0.0
    ensures k * t > 0.0
    ensures 2.0 * w / (k * t) - (k + 1.0) / k == (2.0 * w - (k + 1.0) * t) / (k * t)
  {
    var d := k * t;
    assert (k + 1.0) / k == ((k + 1.0) * t) / d by { CancelRight(k + 1.0, k, t); }
    SameDenominator(2.0 * w, (k + 1.0) * t, d);
  }

  lemma CancelRight(a: real, k: real, t: real)
    requires k > 0.0 && t > 0.0
    ensures k * t > 0.0 && a / k == (a * t) / (k * t)
  {
    var q := a / k;
    assert q * k == a;
    assert q * (k * t) == a * t;
  }

  lemma SameDenominator(a: real, b: real, d: real)
    requires d > 0.0
    ensures a / d - b / d == (a - b) / d
  {}

  lemma GiniIsPairs(counts: Counts)
    requires |counts| >= 2 && Total(counts) > 0
    ensures Gini(counts) == Share(Pairs(counts), |counts|, Total(counts))
  {
    hide ClosedIndex, Share;
    WeightedSum(counts);
    Quotient(Weighted(Sort(Le, counts), 1), Pairs(counts), |counts|, Total(counts));
  }

  lemma Doubled(a: nat, d: nat, e: nat, n: nat, total: nat)
    requires d == n * total > 0 && e == 2 * n * total
    ensures e == 2 * d
    ensures ((2 * a) as real) / (e as real) == (a as real) / (d as real)
  {
    Halves(a, d);
  }

  /** The sorted closed form is the mean difference: the sum of `|x - y|` over all pairs of positions,
      divided by `2 n total`. */
  lemma GiniIsMeanDifference(counts: Counts)
    requires |counts| >= 2 && Total(counts) > 0
    ensures 2 * |counts| * Total(counts) > 0
    ensures Gini(counts) == (Spread(counts, counts) as real) / ((2 * |counts| * Total(counts)) as real)
  {
    hide Gini, Pairs, Spread, Total;
    GiniIsPairs(counts);
    SpreadIsTwicePairs(counts);
    Positive(|counts|, Total(counts));
    var d, e := |counts| * Total(counts), 2 * |counts| * Total(counts);
    Doubled(Pairs(counts), d, e, |counts|, Total(counts));
  }

  lemma Halves(a: nat, d: nat)
    requires d > 0
    ensures ((2 * a) as real) / ((2 * d) as real) == (a as real) / (d as real)
  {
    CancelRight(a as real, d as real, 2.0);
  }

  /** The order of the counts does not matter. */
  lemma GiniPermutes(a: Counts, b: Counts)
    requires multiset(a) == multiset(b)
    ensures Gini(a) == Gini(b)
  {
    LeOrder();
    SortSorted(Le, a);
    SortSorted(Le, b);
    SortPermutes(Le, a);
    SortPermutes(Le, b);
    SortedUnique(Le, Sort(Le, a), Sort(Le, b));
    SortDist(a, 0);
    SortDist(b, 0);
    SameMembers(a, b);
  }

  // range and extremes

  predicate AllEqual(counts: Counts) {
    forall i, j :: 0 <= i < j < |counts| ==> counts[i] == counts[j]
  }

  /** At most one expert takes anything. */
  predicate OneTakesAll(counts: Counts) {
    forall i, j :: 0 <= i < j < |counts| ==> counts[i] == 0 || counts[j] == 0
  }

  lemma {:induction false} DistRange(x: nat, s: Counts)
    ensures Dist(x, s) <= |s| * x + Total(s)
    ensures Dist(x, s) == 0 <==> forall i :: 0 <= i < |s| ==> s[i] == x
    ensures Dist(x, s) == |s| * x + Total(s) <==> forall i :: 0 <= i < |s| ==> x == 0 || s[i] == 0
  {
    if s != [] {
      DistRange(x, s[1..]);
      assert |s| * x == (|s| - 1) * x + x;
      ForallFirst(s, y => y == x);
      ForallFirst(s, y => x == 0 || y == 0);
    }
  }

  lemma ForallFirst(s: Counts, p: nat -> bool)
    requires s != []
    ensures (forall i :: 0 <= i < |s| ==> p(s[i])) <==> p(s[0]) && forall i :: 0 <= i < |s[1..]| ==> p(s[1..][i])
  {
    if p(s[0]) && forall i :: 0 <= i < |s[1..]| ==> p(s[1..][i]) {
      forall i | 0 <= i < |s| ensures p(s[i]) {
        assert i > 0 ==> s[i] == s[1..][i - 1];
      }
    }
    if forall i :: 0 <= i < |s| ==> p(s[i]) {
      forall i | 0 <= i < |s[1..]| ensures p(s[1..][i]) {
        assert s[1..][i] == s[i + 1];
      }
    }
  }

  lemma PairwiseFirst(s: Counts)
    requires s != []
    ensures AllEqual(s) <==> AllEqual(s[1..]) && forall i :: 0 <= i < |s[1..]| ==> s[1..][i] == s[0]
    ensures OneTakesAll(s) <==> OneTakesAll(s[1..]) && forall i :: 0 <= i < |s[1..]| ==> s[0] == 0 || s[1..][i] == 0
  {
    var x, rest := s[0], s[1..];
    assert forall i :: 0 <= i < |rest| ==> rest[i] == s[i + 1];
    assert forall i :: 0 < i < |s| ==> s[i] == rest[i - 1];
  }

  lemma {:induction false} PairsRange(s: Counts)
    requires s != []
    ensures Pairs(s) <= (|s| - 1) * Total(s)
    ensures Pairs(s) == 0 <==> AllEqual(s)
    ensures Pairs(s) == (|s| - 1) * Total(s) <==> OneTakesAll(s)
  {
    DistRange(s[0], s[1..]);
    PairwiseFirst(s);
    if |s| > 1 {
      PairsRange(s[1..]);
      RangeStep(s[0], |s| - 1, Total(s[1..]));
    }
  }

  lemma RangeStep(x: nat, n: nat, total: nat)
    requires n > 0
    ensures n * x + total + (n - 1) * total == n * (x + total)
  {}

  lemma TopShareOf(n: nat, total: nat)
    requires n > 0 && total > 0
    ensures Share((n - 1) * total, n, total) == ((n - 1) as real) / (n as real)
  {
    CancelRight((n - 1) as real, n as real, total as real);
    assert (n * total) as real == (n as real) * (total as real);
    assert ((n - 1) * total) as real == ((n - 1) as real) * (total as real);
  }

  lemma SharesCompare(p: nat, q: nat, n: nat, total: nat)
    requires n > 0 && total > 0
    ensures p <= q ==> Share(p, n, total) <= Share(q, n, total)
    ensures Share(p, n, total) == Share(q, n, total) <==> p == q
    ensures Share(p, n, total) >= 0.0
    ensures Share(p, n, total) == 0.0 <==> p == 0
  {
    Positive(n, total);
    CompareFractions(p as real, q as real, (n * total) as real);
  }

  lemma Fraction(p: nat, n: nat, total: nat)
    requires n > 0 && total > 0
    ensures p <= (n - 1) * total ==> 0.0 <= Share(p, n, total) <= ((n - 1) as real) / (n as real)
    ensures Share(p, n, total) == 0.0 <==> p == 0
    ensures Share(p, n, total) == ((n - 1) as real) / (n as real) <==> p == (n - 1) * total
  {
    hide Share;
    TopShareOf(n, total);
    SharesCompare(p, (n - 1) * total, n, total);
  }

  lemma CompareFractions(a: real, b: real, d: real)
    requires d > 0.0
    ensures a <= b ==> a / d <= b / d
    ensures a / d == b / d <==> a == b
    ensures a >= 0.0 ==> a / d >= 0.0
    ensures a / d == 0.0 <==> a == 0.0
  {
    var p, q := a / d, b / d;
    assert p * d == a && q * d == b;
    if p > q {
      assert p * d > q * d;
    }
    if p < 0.0 {
      assert p * d < 0.0;
    }
  }

  /** The index lies between 0 and (n - 1)/n: 0 exactly when all experts take an equal share, and
      (n - 1)/n, never 1, exactly when one expert takes it all. */
  lemma GiniRange(counts: Counts)
    requires |counts| >= 2 && Total(counts) > 0
    ensures 0.0 <= Gini(counts) <= ((|counts| - 1) as real) / (|counts| as real) < 1.0
    ensures Gini(counts) == 0.0 <==> AllEqual(counts)
    ensures Gini(counts) == ((|counts| - 1) as real) / (|counts| as real) <==> OneTakesAll(counts)
  {
    hide Gini, Share, Pairs;
    GiniIsPairs(counts);
    PairsRange(counts);
    Fraction(Pairs(counts), |counts|, Total(counts));
    BelowOne(|counts|);
  }

  /** One of two experts takes it all, and the index is not 1 but 1/2. */
  lemma GiniOfOneTakesAll()
    ensures OneTakesAll([0, 1]) && Gini([0, 1]) == 0.5
  {
    hide Gini;
    assert [0, 1][1..] == [1] && Total([1]) == 1 && Total([0, 1]) == 1;
    GiniRange([0, 1]);
  }

  lemma BelowOne(n: nat)
    requires n > 0
    ensures ((n - 1) as real) / (n as real) < 1.0
  {}

  // ----- the busiest experts -----

  /** Python's `round`: halves go to the even neighbour. */
  function RoundHalfEven(x: real): (r: int)
    ensures -0.5 <= x - (r as real) <= 0.5
    ensures x - (r as real) in {-0.5, 0.5} ==> r % 2 == 0
  {
    var low := x.Floor;
    var rest := x - (low as real);
    if rest < 0.5 then low else if rest > 0.5 then low + 1 else if low % 2 == 0 then low else low + 1
  }

  /** How many experts the busiest `fraction` of them is: at least one, at most all. */
  function Keep(counts: Counts, fraction: real): (k: nat)
    ensures k <= |counts| && (counts != [] ==> k > 0)
  {
    var rounded := RoundHalfEven(|counts| as real * fraction);
    var keep := if rounded < 1 then 1 else rounded;
    if keep > |counts| then |counts| else keep
  }

  function Traffic(counts: Counts): (r: seq<real>)
    ensures |r| == |counts| && forall i :: 0 <= i < |r| ==> r[i] == counts[i] as real
  {
    seq(|counts|, i requires 0 <= i < |counts| => counts[i] as real)
  }

  predicate Ge(a: real, b: real) { a >= b }

  /** `top_share`. */
  function TopShare(counts: Counts, fraction: real): real {
    if Total(counts) == 0 then 0.0
    else
      SortPermutes(Ge, Traffic(counts));
      Sum(Sort(Ge, Traffic(counts))[..Keep(counts, fraction)]) / (Total(counts) as real)
  }

  /** `hot_set`. */
  function HotSet(counts: Counts, fraction: real): set<nat> {
    Ranking.Top(Traffic(counts), Keep(counts, fraction))
  }

  /** `traffic_hit_rate`. */
  function TrafficHitRate(counts: Counts, prefetched: set<nat>): real {
    if Total(counts) == 0 then 1.0
    else SumIn(Traffic(counts), prefetched, |counts|) / (Total(counts) as real)
  }

  /** `used_set`. */
  function UsedSet(counts: Counts): (r: set<nat>)
    ensures forall e: nat :: e in r <==> e < |counts| && counts[e] > 0
  {
    set e: nat | e < |counts| && counts[e] > 0
  }

  lemma {:induction false} TrafficTotal(counts: Counts)
    ensures Sum(Traffic(counts)) == Total(counts) as real
    decreases |counts|
  {
    if counts != [] {
      var init, last := counts[..|counts| - 1], counts[|counts| - 1];
      TrafficTotal(init);
      assert Traffic(counts)[..|counts| - 1] == Traffic(init);
      assert counts == init + [last];
      TotalAppend(init, [last]);
    }
  }

  lemma {:induction false} TotalAppend(a: Counts, b: Counts)
    ensures Total(a + b) == Total(a) + Total(b)
  {
    if a == [] {
      assert a + b == b;
    } else {
      assert (a + b)[1..] == a[1..] + b;
      TotalAppend(a[1..], b);
    }
  }

  // the busiest experts in the order of the hot set are the busiest in sorted order

  function Scores(keys: seq<Ranking.Key>): (r: seq<real>)
    ensures |r| == |keys| && forall i :: 0 <= i < |r| ==> r[i] == -keys[i].score
  {
    seq(|keys|, i requires 0 <= i < |keys| => -keys[i].score)
  }

  /** Inserting a key below all ids there inserts its value. */
  lemma {:induction false} InsertScore(key: Ranking.Key, keys: seq<Ranking.Key>)
    requires forall i :: 0 <= i < |keys| ==> key.id < keys[i].id
    ensures Scores(Insert(Ranking.KeyLe, key, keys)) == Insert(Ge, -key.score, Scores(keys))
  {
    if keys == [] || Ranking.KeyLe(key, keys[0]) {
      assert Scores([key] + keys) == [-key.score] + Scores(keys);
    } else {
      var rest := Insert(Ranking.KeyLe, key, keys[1..]);
      InsertScore(key, keys[1..]);
      assert Scores(keys)[1..] == Scores(keys[1..]);
      assert Scores([keys[0]] + rest) == [-keys[0].score] + Scores(rest);
    }
  }

  lemma ScoresFirst(keys: seq<Ranking.Key>)
    requires keys != []
    ensures Scores(keys) != [] && Scores(keys)[0] == -keys[0].score && Scores(keys)[1..] == Scores(keys[1..])
  {}

  lemma SortFirst<T>(le: (T, T) -> bool, s: seq<T>)
    requires s != []
    ensures Sort(le, s) == Insert(le, s[0], Sort(le, s[1..]))
  {}

  lemma RisingTail(keys: seq<Ranking.Key>)
    requires keys != [] && forall i, j :: 0 <= i < j < |keys| ==> keys[i].id < keys[j].id
    ensures var sorted := Sort(Ranking.KeyLe, keys[1..]);
            forall i :: 0 <= i < |sorted| ==> keys[0].id < sorted[i].id
  {
    hide Sort;
    var sorted := Sort(Ranking.KeyLe, keys[1..]);
    SortPermutes(Ranking.KeyLe, keys[1..]);
    SameMembers(sorted, keys[1..]);
    forall i | 0 <= i < |sorted| ensures keys[0].id < sorted[i].id {
      assert sorted[i] in keys[1..];
    }
  }

  /** Sorting keys with rising ids sorts their values. */
  lemma {:induction false} SortScores(keys: seq<Ranking.Key>)
    requires forall i, j :: 0 <= i < j < |keys| ==> keys[i].id < keys[j].id
    ensures Scores(Sort(Ranking.KeyLe, keys)) == Sort(Ge, Scores(keys))
  {
    if keys == [] {
      assert Scores(keys) == [];
    } else {
      hide Sort, Insert, Scores;
      SortScores(keys[1..]);
      RisingTail(keys);
      InsertScore(keys[0], Sort(Ranking.KeyLe, keys[1..]));
      ScoresFirst(keys);
      SortFirst(Ranking.KeyLe, keys);
      SortFirst(Ge, Scores(keys));
    }
  }

  lemma RankedScores(xs: seq<real>)
    ensures Sort(Ge, xs) == Scores(Sort(Ranking.KeyLe, Ranking.Keys(xs)))
  {
    hide Sort;
    SortScores(Ranking.Keys(xs));
    assert Scores(Ranking.Keys(xs)) == xs;
  }

  /** The values of the ranked indices, largest first. */
  lemma RankedValues(xs: seq<real>)
    ensures |Sort(Ge, xs)| == |xs| == |Ranking.Ranked(xs)|
    ensures forall i :: 0 <= i < |xs| ==> Ranking.Ranked(xs)[i] < |xs| && Sort(Ge, xs)[i] == xs[Ranking.Ranked(xs)[i]]
  {
    hide Sort;
    var keys := Sort(Ranking.KeyLe, Ranking.Keys(xs));
    Ranking.SortedKeys(xs);
    RankedScores(xs);
    forall i | 0 <= i < |xs| ensures Ranking.Ranked(xs)[i] < |xs| && Sort(Ge, xs)[i] == xs[Ranking.Ranked(xs)[i]] {
      assert keys[i] in keys;
      assert keys[i] in Ranking.Keys(xs);
    }
  }

  lemma {:induction false} SumInAdd(xs: seq<real>, ids: set<nat>, extra: nat, n: nat)
    requires n <= |xs| && extra !in ids && extra < |xs|
    ensures SumIn(xs, ids + {extra}, n) == SumIn(xs, ids, n) + if extra < n then xs[extra] else 0.0
  {
    if n > 0 {
      SumInAdd(xs, ids, extra, n - 1);
    }
  }

  /** Summing a list of distinct indices is summing over their set. */
  lemma {:induction false} SumOfDistinct(xs: seq<real>, ids: seq<nat>, values: seq<real>)
    requires |values| == |ids|
    requires forall i :: 0 <= i < |ids| ==> ids[i] < |xs| && values[i] == xs[ids[i]]
    requires forall i, j :: 0 <= i < j < |ids| ==> ids[i] != ids[j]
    ensures Sum(values) == SumIn(xs, Ranking.Elements(ids), |xs|)
  {
    if ids == [] {
      Ranking.SurplusEmpty(xs, 0.0, |xs|);
      SumInNone(xs, Ranking.Elements(ids), |xs|);
    } else {
      var init, last := ids[..|ids| - 1], ids[|ids| - 1];
      SumOfDistinct(xs, init, values[..|ids| - 1]);
      assert ids == init + [last];
      assert Ranking.Elements(ids) == Ranking.Elements(init) + {last};
      SumInAdd(xs, Ranking.Elements(init), last, |xs|);
    }
  }

  lemma {:induction false} SumInNone(xs: seq<real>, ids: set<nat>, n: nat)
    requires n <= |xs| && ids == {}
    ensures SumIn(xs, ids, n) == 0.0
  {
    if n > 0 {
      SumInNone(xs, ids, n - 1);
    }
  }

  lemma HotSum(xs: seq<real>, k: nat)
    requires k <= |xs|
    ensures |Sort(Ge, xs)| == |xs|
    ensures Sum(Sort(Ge, xs)[..k]) == SumIn(xs, Ranking.Top(xs, k), |xs|)
  {
    RankedValues(xs);
    Ranking.RankedSorts(xs);
    var ranked := Ranking.Ranked(xs);
    forall i, j | 0 <= i < j < k ensures ranked[..k][i] != ranked[..k][j] {
      assert Ranking.Before(xs, ranked[i], ranked[j]);
    }
    SumOfDistinct(xs, ranked[..k], Sort(Ge, xs)[..k]);
  }

  /** Top sums as shares of a total: the top one is the greatest and at least `k/n`. */
  lemma HotShares(xs: seq<real>, k: nat, other: set<nat>) returns (top: real)
    requires 0 < k <= |xs| && Sum(xs) > 0.0
    requires |other| == k && forall e :: e in other ==> e < |xs|
    ensures top == SumIn(xs, Ranking.Top(xs, k), |xs|)
    ensures SumIn(xs, other, |xs|) / Sum(xs) <= top / Sum(xs)
    ensures top / Sum(xs) >= (k as real) / (|xs| as real)
  {
    hide Sum, SumIn, Ranking.Top, Times;
    top := SumIn(xs, Ranking.Top(xs, k), |xs|);
    Ranking.TopIsMaximal(xs, k, other);
    Ranking.TopShare(xs, k);
    CompareFractions(SumIn(xs, other, |xs|), top, Sum(xs));
    TimesCompare(top, Sum(xs), k, |xs|);
  }

  lemma TimesCompare(top: real, total: real, k: nat, n: nat)
    requires total > 0.0 && n > 0 && Times(top, n) >= Times(total, k)
    ensures top / total >= (k as real) / (n as real)
  {
    TimesIsProduct(top, n);
    TimesIsProduct(total, k);
    ShareOfTotal(top, total, k as real, n as real);
  }

  lemma ShareOfTotal(top: real, total: real, k: real, n: real)
    requires total > 0.0 && n > 0.0 && top * n >= total * k
    ensures top / total >= k / n
  {
    CancelRight(k, n, total);
    CancelRight(top, total, n);
    CompareFractions(k * total, top * n, n * total);
  }

  /** Prefetching the hot set catches exactly the top share of the traffic; no other set of as many
      experts catches more, and it is at least the share of experts prefetched. */
  lemma HotSetIsOptimal(counts: Counts, fraction: real, other: set<nat>)
    requires Total(counts) > 0
    requires |other| == |HotSet(counts, fraction)| && forall e :: e in other ==> e < |counts|
    ensures |HotSet(counts, fraction)| == Keep(counts, fraction)
    ensures TrafficHitRate(counts, HotSet(counts, fraction)) == TopShare(counts, fraction)
    ensures TrafficHitRate(counts, other) <= TopShare(counts, fraction)
    ensures TopShare(counts, fraction) >= (Keep(counts, fraction) as real) / (|counts| as real)
  {
    hide Keep, SumIn, Sum, Ranking.Top;
    var xs, k := Traffic(counts), Keep(counts, fraction);
    HotSum(xs, k);
    TrafficTotal(counts);
    Ranking.TopPrecedes(xs, k);
    var top := HotShares(xs, k, other);
  }
}
