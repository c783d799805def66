/** The k largest entries of a list, ties to the lower index: the selection shared by the
    teacher's top-k tokens and by the hot experts of a layer. */
module Ranking {
  import opened Sorting
  import opened Reals

  /** The sort key `(-value, index)`. */
  datatype Key = Key(score: real, id: nat)

  predicate KeyLe(a: Key, b: Key) {
    a.score < b.score || (a.score == b.score && a.id <= b.id)
  }

  lemma KeyLeOrder()
    ensures TotalOrder(KeyLe)
  {}

  function Keys(xs: seq<real>): seq<Key> {
    seq(|xs|, i requires 0 <= i < |xs| => Key(-xs[i], i))
  }

  function Ids(keys: seq<Key>): (r: seq<nat>)
    ensures |r| == |keys| && forall i :: 0 <= i < |r| ==> r[i] == keys[i].id
  {
    seq(|keys|, i requires 0 <= i < |keys| => keys[i].id)
  }

  /** `sorted(range(n), key=lambda i: (-xs[i], i))`. */
  function Ranked(xs: seq<real>): seq<nat> { Ids(Sort(KeyLe, Keys(xs))) }

  /** Entry `i` precedes entry `j`: it is larger, or equal with a lower index. */
  predicate Before(xs: seq<real>, i: nat, j: nat)
    requires i < |xs| && j < |xs|
  {
    xs[i] > xs[j] || (xs[i] == xs[j] && i < j)
  }

  lemma SortedKeys(xs: seq<real>)
    ensures var keys := Sort(KeyLe, Keys(xs));
            && |keys| == |xs| && Sorted(KeyLe, keys)
            && multiset(keys) == multiset(Keys(xs))
            && forall k :: k in keys <==> k in Keys(xs)
  {
    KeyLeOrder();
    SortPermutes(KeyLe, Keys(xs));
    SortSorted(KeyLe, Keys(xs));
    SameMembers(Sort(KeyLe, Keys(xs)), Keys(xs));
  }

  lemma KeysDistinct(xs: seq<real>)
    ensures var keys := Sort(KeyLe, Keys(xs));
            forall i, j :: 0 <= i < j < |keys| ==> keys[i] != keys[j]
  {
    SortedKeys(xs);
    var keys := Sort(KeyLe, Keys(xs));
    forall i, j | 0 <= i < j < |keys| ensures keys[i] != keys[j] {
      if keys[i] == keys[j] {
        TwiceInMultiset(keys, i, j);
        OnceInMultiset(xs, keys[i]);
      }
    }
  }

  lemma TwiceInMultiset(keys: seq<Key>, i: nat, j: nat)
    requires i < j < |keys| && keys[i] == keys[j]
    ensures multiset(keys)[keys[i]] >= 2
  {
    assert keys == keys[..j] + [keys[j]] + keys[j + 1..];
    assert keys[..j][i] == keys[i];
    assert keys[i] in multiset(keys[..j]);
  }

  lemma OnceInMultiset(xs: seq<real>, key: Key)
    ensures multiset(Keys(xs))[key] <= 1
  {
    if key in multiset(Keys(xs)) {
      var keys := Keys(xs);
      assert key in keys;
      var at :| 0 <= at < |keys| && keys[at] == key;
      assert keys == keys[..at] + [key] + keys[at + 1..];
      assert key !in keys[..at] && key !in keys[at + 1..];
      assert key !in multiset(keys[..at]) && key !in multiset(keys[at + 1..]);
    }
  }

  /** The ranking lists every index once, each before all later ones. */
  lemma RankedSorts(xs: seq<real>)
    ensures |Ranked(xs)| == |xs|
    ensures forall a :: 0 <= a < |xs| ==> Ranked(xs)[a] < |xs|
    ensures forall a, b :: 0 <= a < b < |xs| ==> Before(xs, Ranked(xs)[a], Ranked(xs)[b])
    ensures forall i: nat :: i < |xs| ==> i in Ranked(xs)
  {
    SortedKeys(xs);
    KeysDistinct(xs);
    var keys := Sort(KeyLe, Keys(xs));
    forall a | 0 <= a < |xs| ensures Ranked(xs)[a] < |xs| && keys[a] == Key(-xs[Ranked(xs)[a]], Ranked(xs)[a]) {
      assert keys[a] in Keys(xs);
    }
    forall a, b | 0 <= a < b < |xs| ensures Before(xs, Ranked(xs)[a], Ranked(xs)[b]) {
      assert KeyLe(keys[a], keys[b]) && keys[a] != keys[b];
    }
    forall i: nat | i < |xs| ensures i in Ranked(xs) {
      assert Keys(xs)[i] in keys;
      var a :| 0 <= a < |keys| && keys[a] == Keys(xs)[i];
      assert Ranked(xs)[a] == i;
    }
  }

  /** `set(ranked[:k])`. */
  function Top(xs: seq<real>, k: nat): set<nat>
    requires k <= |xs|
  {
    RankedSorts(xs);
    Elements(Ranked(xs)[..k])
  }

  function Elements(s: seq<nat>): (r: set<nat>)
    ensures forall x :: x in r <==> x in s
  {
    set x | x in s
  }

  lemma {:induction false} DistinctSize(s: seq<nat>)
    requires forall i, j :: 0 <= i < j < |s| ==> s[i] != s[j]
    ensures |Elements(s)| == |s|
  {
    if s == [] {
      assert Elements(s) == {};
    } else {
      var init, last := s[..|s| - 1], s[|s| - 1];
      DistinctSize(init);
      assert s == init + [last];
      assert Elements(s) == Elements(init) + {last};
    }
  }

  /** The top set holds exactly `k` in-range indices and every one of them precedes every index
      left out; so no value left out exceeds one taken, and a tie goes to the lower index. */
  lemma TopPrecedes(xs: seq<real>, k: nat)
    requires k <= |xs|
    ensures |Top(xs, k)| == k && forall i :: i in Top(xs, k) ==> i < |xs|
    ensures forall i: nat, j: nat :: i in Top(xs, k) && j < |xs| && j !in Top(xs, k) ==> Before(xs, i, j)
  {
    RankedSorts(xs);
    var ranked := Ranked(xs);
    DistinctSize(ranked[..k]);
    forall i: nat, j: nat | i in Top(xs, k) && j < |xs| && j !in Top(xs, k)
      ensures Before(xs, i, j)
    {
      assert i in ranked[..k] && j in ranked && j !in ranked[..k];
      var a :| 0 <= a < k && ranked[a] == i;
      var b :| 0 <= b < |ranked| && ranked[b] == j;
      assert forall c :: 0 <= c < k ==> ranked[c] == ranked[..k][c];
    }
  }

  lemma BeforeBoth(xs: seq<real>, i: nat, j: nat)
    requires i < |xs| && j < |xs| && Before(xs, i, j)
    ensures !Before(xs, j, i)
  {}

  /** The top set is the only set of `k` indices that precedes the rest. */
  lemma TopUnique(xs: seq<real>, k: nat, other: set<nat>)
    requires k <= |xs| && |other| == k && forall i :: i in other ==> i < |xs|
    requires forall i: nat, j: nat :: i in other && j < |xs| && j !in other ==> Before(xs, i, j)
    ensures other == Top(xs, k)
  {
    TopPrecedes(xs, k);
    var top := Top(xs, k);
    if other != top {
      if !(other <= top) {
        var i :| i in other && i !in top;
        if top <= other {
          SubsetSize(top, other, i);
        } else {
          var j :| j in top && j !in other;
          BeforeBoth(xs, i, j);
        }
      } else {
        var j :| j in top && j !in other;
        SubsetSize(other, top, j);
      }
    }
  }

  lemma SubsetSize(a: set<nat>, b: set<nat>, extra: nat)
    requires a <= b && extra in b && extra !in a
    ensures |a| < |b|
  {
    assert a <= b - {extra};
    SubsetCardinality(a, b - {extra});
  }

  lemma {:induction false} SubsetCardinality(a: set<nat>, b: set<nat>)
    requires a <= b
    ensures |a| <= |b|
  {
    if x :| x in a {
      SubsetCardinality(a - {x}, b - {x});
    }
  }

  /** A value that separates the top set from the rest. */
  lemma Threshold(xs: seq<real>, k: nat) returns (m: real)
    requires 0 < k <= |xs|
    ensures forall i :: i in Top(xs, k) ==> i < |xs| && xs[i] >= m
    ensures forall i: nat :: i < |xs| && i !in Top(xs, k) ==> xs[i] <= m
    ensures exists i :: i in Top(xs, k) && i < |xs| && xs[i] == m
  {
    RankedSorts(xs);
    TopPrecedes(xs, k);
    var last := Ranked(xs)[k - 1];
    m := xs[last];
    assert Ranked(xs)[..k][k - 1] == last;
    assert last in Ranked(xs)[..k];
    forall i | i in Top(xs, k) ensures xs[i] >= m {
      assert i in Ranked(xs)[..k];
      var a :| 0 <= a < k && Ranked(xs)[a] == i;
      assert a < k - 1 ==> Before(xs, i, last);
    }
    forall i: nat | i < |xs| && i !in Top(xs, k) ensures xs[i] <= m {
      assert Before(xs, last, i);
    }
  }

  /** How far the selected entries exceed a threshold, in all. */
  function Surplus(xs: seq<real>, m: real, ids: set<nat>, n: nat): real
    requires n <= |xs|
  {
    if n == 0 then 0.0
    else Surplus(xs, m, ids, n - 1) + (if n - 1 in ids then xs[n - 1] - m else 0.0)
  }

  lemma {:induction false} SurplusIs(xs: seq<real>, m: real, ids: set<nat>, n: nat)
    requires n <= |xs|
    ensures Surplus(xs, m, ids, n) == SumIn(xs, ids, n) - Times(m, CountIn(ids, n))
  {
    if n > 0 {
      SurplusIs(xs, m, ids, n - 1);
    }
  }

  /** No selection has a greater surplus than all the entries above the threshold. */
  lemma {:induction false} SurplusLe(xs: seq<real>, m: real, a: set<nat>, top: set<nat>, n: nat)
    requires n <= |xs|
    requires forall i :: 0 <= i < n && i in top ==> xs[i] >= m
    requires forall i :: 0 <= i < n && i !in top ==> xs[i] <= m
    ensures Surplus(xs, m, a, n) <= Surplus(xs, m, top, n)
  {
    if n > 0 {
      SurplusLe(xs, m, a, top, n - 1);
    }
  }

  lemma SurplusOfSize(xs: seq<real>, m: real, ids: set<nat>)
    requires forall i :: i in ids ==> i < |xs|
    ensures Surplus(xs, m, ids, |xs|) == SumIn(xs, ids, |xs|) - Times(m, |ids|)
  {
    SurplusIs(xs, m, ids, |xs|);
    CountInSize(ids, |xs|);
  }

  /** The top set has the greatest sum of all sets of its size. */
  lemma TopIsMaximal(xs: seq<real>, k: nat, other: set<nat>)
    requires 0 < k <= |xs| && |other| == k && forall i :: i in other ==> i < |xs|
    ensures SumIn(xs, other, |xs|) <= SumIn(xs, Top(xs, k), |xs|)
  {
    var m := Threshold(xs, k);
    TopPrecedes(xs, k);
    SurplusOfSize(xs, m, other);
    SurplusOfSize(xs, m, Top(xs, k));
    SurplusLe(xs, m, other, Top(xs, k), |xs|);
  }

  lemma TopSurplus(xs: seq<real>, k: nat) returns (m: real)
    requires 0 < k <= |xs|
    ensures Sum(xs) - Times(m, |xs|) <= SumIn(xs, Top(xs, k), |xs|) - Times(m, k)
    ensures 0.0 <= SumIn(xs, Top(xs, k), |xs|) - Times(m, k)
  {
    m := Threshold(xs, k);
    var top, all := Top(xs, k), Range(|xs|);
    TopPrecedes(xs, k);
    SurplusOfSize(xs, m, top);
    SurplusOfSize(xs, m, all);
    SumInAll(xs, all, |xs|);
    assert xs[..|xs|] == xs;
    SurplusLe(xs, m, all, top, |xs|);
    SurplusLe(xs, m, {}, top, |xs|);
    SurplusEmpty(xs, m, |xs|);
  }

  /** The top k of n entries hold at least the share k/n of the total. */
  lemma TopShare(xs: seq<real>, k: nat)
    requires 0 < k <= |xs|
    ensures Times(SumIn(xs, Top(xs, k), |xs|), |xs|) >= Times(Sum(xs), k)
  {
    var m := TopSurplus(xs, k);
    ShareFromSurplus(SumIn(xs, Top(xs, k), |xs|), Sum(xs), m, k, |xs|);
  }

  lemma {:induction false} SurplusEmpty(xs: seq<real>, m: real, n: nat)
    requires n <= |xs|
    ensures Surplus(xs, m, {}, n) == 0.0
  {
    if n > 0 {
      SurplusEmpty(xs, m, n - 1);
    }
  }

  lemma ShareFromSurplus(top: real, total: real, m: real, k: nat, n: nat)
    requires 0 < k <= n
    requires total - Times(m, n) <= top - Times(m, k) && 0.0 <= top - Times(m, k)
    ensures Times(top, n) >= Times(total, k)
  {
    TimesIsProduct(m, k);
    TimesIsProduct(m, n);
    TimesIsProduct(top, n);
    TimesIsProduct(total, k);
    ShareArithmetic(top, total, m, k as real, n as real);
  }

  lemma ShareArithmetic(top: real, total: real, m: real, k: real, n: real)
    requires 0.0 < k <= n
    requires total - m * n <= top - m * k && 0.0 <= top - m * k
    ensures n * top >= k * total
  {
    var surplus := top - m * k;
    assert (n - k) * surplus >= 0.0;
    assert k * (surplus - (total - m * n)) >= 0.0;
    assert n * top - k * total == (n - k) * surplus + k * (surplus - (total - m * n)) by {
      ShareIdentity(top, total, m, k, n);
    }
  }

  lemma ShareIdentity(top: real, total: real, m: real, k: real, n: real)
    ensures n * top - k * total
         == (n - k) * (top - m * k) + k * ((top - m * k) - (total - m * n))
  {
    assert (n - k) * (top - m * k) == n * top - n * (m * k) - k * top + k * (m * k);
    assert k * ((top - m * k) - (total - m * n)) == k * top - k * (m * k) - k * total + k * (m * n);
    assert n * (m * k) == k * (m * n);
  }
}
