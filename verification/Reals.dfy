/** Finite sums of reals, and the laws of `exp` and `ln` the probability formulas rest on.

    `math.fsum` is an exact sum here; `math.exp` and `math.log` are parameters known only by
    their laws. */
module Reals {
  /** Stated as a function so that the product law is used only where it is asked for. */
  function Product(a: real, b: real): real { a * b }

  datatype Math = Math(exponential: real -> real, logarithm: real -> real) {
    /** `math.exp`. */
    function exp(x: real): real { exponential(x) }

    /** `math.log`. */
    function ln(x: real): real { logarithm(x) }

    ghost predicate Lawful() {
      && (forall x {:trigger exp(x)} :: exp(x) > 0.0 && ln(exp(x)) == x)
      && (forall y {:trigger ln(y)} :: y > 0.0 ==> exp(ln(y)) == y && ln(y) <= y - 1.0)
      && (forall a, b {:trigger Product(a, b)} :: a > 0.0 && b > 0.0 ==>
            ln(Product(a, b)) == ln(a) + ln(b))
    }
  }

  // ----- exp and ln -----

  lemma LnProduct(m: Math, a: real, b: real)
    requires m.Lawful() && a > 0.0 && b > 0.0
    ensures a * b > 0.0 && m.ln(a * b) == m.ln(a) + m.ln(b)
  {
    assert Product(a, b) == a * b;
  }

  lemma LnOfProduct(m: Math, product: real, a: real, b: real)
    requires m.Lawful() && a > 0.0 && b > 0.0 && product == a * b
    ensures m.ln(product) == m.ln(a) + m.ln(b)
  {
    assert Product(a, b) == product;
  }

  lemma LnOne(m: Math)
    requires m.Lawful()
    ensures m.ln(1.0) == 0.0
  {
    LnProduct(m, 1.0, 1.0);
  }

  lemma LnQuotient(m: Math, a: real, b: real)
    requires m.Lawful() && a > 0.0 && b > 0.0
    ensures a / b > 0.0 && m.ln(a / b) == m.ln(a) - m.ln(b)
  {
    var q := a / b;
    assert q * b == a;
    assert q > 0.0 by { QuotientPositive(a, b); }
    LnProduct(m, q, b);
    assert Product(q, b) == a;
  }

  lemma QuotientPositive(a: real, b: real)
    requires a > 0.0 && b > 0.0
    ensures a / b > 0.0
  {}

  lemma ExpSum(m: Math, a: real, b: real)
    requires m.Lawful()
    ensures m.exp(a + b) == m.exp(a) * m.exp(b)
  {
    LnProduct(m, m.exp(a), m.exp(b));
    assert m.exp(m.ln(m.exp(a) * m.exp(b))) == m.exp(a) * m.exp(b);
  }

  /** `ln x = x - 1` only at one, from `ln x = 2 ln(sqrt x)`. */
  lemma LnStrict(m: Math, x: real)
    requires m.Lawful() && x > 0.0
    ensures m.ln(x) == x - 1.0 <==> x == 1.0
  {
    LnOne(m);
    var root := m.exp(m.ln(x) / 2.0);
    ExpSum(m, m.ln(x) / 2.0, m.ln(x) / 2.0);
    assert root * root == x;
    assert m.ln(x) == 2.0 * m.ln(root);
    assert m.ln(root) <= root - 1.0;
    SquareGap(root, x);
  }

  lemma PositiveProduct(a: real, b: real) returns (p: real)
    requires a > 0.0 && b > 0.0
    ensures p == a * b && p > 0.0
  {
    p := a * b;
  }

  lemma SquarePositive(d: real) returns (square: real)
    requires d != 0.0
    ensures square == d * d && square > 0.0
  {
    if d < 0.0 {
      square := PositiveProduct(-d, -d);
    } else {
      square := PositiveProduct(d, d);
    }
  }

  lemma Binomial(root: real)
    ensures root * root == 1.0 + 2.0 * (root - 1.0) + (root - 1.0) * (root - 1.0)
  {}

  lemma SquareGap(root: real, x: real)
    requires x == root * root
    ensures root == 1.0 ==> x == 1.0
    ensures root != 1.0 ==> 2.0 * (root - 1.0) < x - 1.0
  {
    if root == 1.0 {
      assert root * root == 1.0 * root;
    } else {
      Binomial(root);
      var square := SquarePositive(root - 1.0);
      assert x == 1.0 + 2.0 * (root - 1.0) + square;
    }
  }

  /** One term of a relative entropy: `p ln(p/q) >= p - q`, with equality only for `p = q`. */
  lemma GibbsTerm(m: Math, logP: real, logQ: real)
    requires m.Lawful()
    ensures m.exp(logP) * (logP - logQ) >= m.exp(logP) - m.exp(logQ)
    ensures m.exp(logP) * (logP - logQ) == m.exp(logP) - m.exp(logQ) <==> logP == logQ
  {
    var p, q := m.exp(logP), m.exp(logQ);
    var ratio := q / p;
    LnQuotient(m, q, p);
    assert m.ln(ratio) == logQ - logP;
    LnStrict(m, ratio);
    ScaleGap(p, q, logQ - logP, ratio);
    assert ratio == 1.0 ==> logP == logQ by { LnOne(m); }
    assert logP == logQ ==> ratio == 1.0;
  }

  lemma ScaleGap(p: real, q: real, l: real, ratio: real)
    requires p > 0.0 && ratio == q / p && l <= ratio - 1.0
    ensures p * (-l) >= p - q
    ensures p * (-l) == p - q <==> l == ratio - 1.0
  {
    var gap := ratio - 1.0 - l;
    assert p * ratio == q;
    assert p * (-l) - (p - q) == p * gap by { ExpandTerm(p, ratio, l); }
    assert p * gap >= 0.0;
    assert gap > 0.0 ==> p * gap > 0.0;
  }

  lemma ExpandTerm(p: real, ratio: real, l: real)
    ensures p * (ratio - 1.0 - l) == p * (-l) - (p - p * ratio)
  {}

  // ----- sums -----

  function Sum(xs: seq<real>): real {
    if xs == [] then 0.0 else Sum(xs[..|xs| - 1]) + xs[|xs| - 1]
  }

  /** The sum of the entries below `n` whose index is in `ids`. */
  function SumIn(xs: seq<real>, ids: set<nat>, n: nat): real
    requires n <= |xs|
  {
    if n == 0 then 0.0 else SumIn(xs, ids, n - 1) + (if n - 1 in ids then xs[n - 1] else 0.0)
  }

  function Range(n: nat): (r: set<nat>)
    ensures forall i: nat :: i in r <==> i < n
    ensures |r| == n
  {
    if n == 0 then {} else Range(n - 1) + {n - 1}
  }

  /** `tuple(sorted(ids))` for a set of ids below `n`. */
  function Ascending(ids: set<nat>, n: nat): (r: seq<nat>)
    ensures forall i :: 0 <= i < |r| ==> r[i] < n && r[i] in ids
  {
    if n == 0 then []
    else Ascending(ids, n - 1) + (if n - 1 in ids then [n - 1] else [])
  }

  lemma {:induction false} AscendingSorts(ids: set<nat>, n: nat)
    ensures forall i, j :: 0 <= i < j < |Ascending(ids, n)| ==> Ascending(ids, n)[i] < Ascending(ids, n)[j]
    ensures forall k: nat :: k < n && k in ids ==> k in Ascending(ids, n)
  {
    if n > 0 {
      AscendingSorts(ids, n - 1);
    }
  }

  /** Sums over the ids of a sorted tuple and over the set agree. */
  lemma {:induction false} SumAscending(xs: seq<real>, ids: set<nat>, n: nat, picked: seq<real>)
    requires n <= |xs|
    requires |picked| == |Ascending(ids, n)|
    requires forall i :: 0 <= i < |picked| ==> picked[i] == xs[Ascending(ids, n)[i]]
    ensures Sum(picked) == SumIn(xs, ids, n)
  {
    if n > 0 {
      if n - 1 in ids {
        var before, k := Ascending(ids, n - 1), |picked| - 1;
        assert Ascending(ids, n) == before + [n - 1];
        assert picked[k] == xs[n - 1];
        forall i | 0 <= i < k ensures picked[..k][i] == xs[before[i]] {
          assert Ascending(ids, n)[i] == before[i];
        }
        SumAscending(xs, ids, n - 1, picked[..k]);
      } else {
        SumAscending(xs, ids, n - 1, picked);
      }
    }
  }

  lemma {:induction false} SumInAll(xs: seq<real>, ids: set<nat>, n: nat)
    requires n <= |xs| && forall i :: 0 <= i < n ==> i in ids
    ensures SumIn(xs, ids, n) == Sum(xs[..n])
  {
    if n > 0 {
      SumInAll(xs, ids, n - 1);
      assert xs[..n][..n - 1] == xs[..n - 1];
    }
  }

  /** Selected and omitted entries make up the whole. */
  lemma {:induction false} SumInSplit(xs: seq<real>, a: set<nat>, b: set<nat>, n: nat)
    requires n <= |xs| && forall i :: 0 <= i < n ==> (i in a <==> i !in b)
    ensures SumIn(xs, a, n) + SumIn(xs, b, n) == Sum(xs[..n])
  {
    if n > 0 {
      SumInSplit(xs, a, b, n - 1);
      assert xs[..n][..n - 1] == xs[..n - 1];
    }
  }

  /** Termwise comparison; equal sums force equal terms. */
  lemma {:induction false} SumInLe(xs: seq<real>, ys: seq<real>, ids: set<nat>, n: nat)
    requires n <= |xs| && n <= |ys|
    requires forall i :: 0 <= i < n && i in ids ==> xs[i] <= ys[i]
    ensures SumIn(xs, ids, n) <= SumIn(ys, ids, n)
    ensures SumIn(xs, ids, n) == SumIn(ys, ids, n)
       <==> forall i :: 0 <= i < n && i in ids ==> xs[i] == ys[i]
  {
    if n > 0 {
      SumInLe(xs, ys, ids, n - 1);
    }
  }

  function CountIn(ids: set<nat>, n: nat): nat {
    if n == 0 then 0 else CountIn(ids, n - 1) + (if n - 1 in ids then 1 else 0)
  }

  lemma {:induction false} CountInSame(a: set<nat>, b: set<nat>, n: nat)
    requires forall i :: 0 <= i < n ==> (i in a <==> i in b)
    ensures CountIn(a, n) == CountIn(b, n)
  {
    if n > 0 {
      CountInSame(a, b, n - 1);
    }
  }

  lemma {:induction false} CountInSize(ids: set<nat>, n: nat)
    requires forall i :: i in ids ==> i < n
    ensures CountIn(ids, n) == |ids|
  {
    if n == 0 {
      assert ids == {};
    } else {
      var rest := ids - {n - 1};
      CountInSame(ids, rest, n - 1);
      CountInSize(rest, n - 1);
      assert n - 1 !in ids ==> rest == ids;
    }
  }

  /** `c + ... + c`, `k` times. */
  function Times(c: real, k: nat): real { if k == 0 then 0.0 else Times(c, k - 1) + c }

  lemma {:induction false} TimesIsProduct(c: real, k: nat)
    ensures Times(c, k) == c * (k as real)
  {
    if k > 0 {
      TimesIsProduct(c, k - 1);
    }
  }

  /** A sum of differences, scaled: `sum (a*xs - b*ys)`. */
  lemma {:induction false} SumInLinear(xs: seq<real>, ys: seq<real>, zs: seq<real>, a: real, b: real,
                                       ids: set<nat>, n: nat)
    requires n <= |xs| && n <= |ys| && n <= |zs|
    requires forall i :: 0 <= i < n && i in ids ==> zs[i] == a * xs[i] + b * ys[i]
    ensures SumIn(zs, ids, n) == a * SumIn(xs, ids, n) + b * SumIn(ys, ids, n)
  {
    if n > 0 {
      SumInLinear(xs, ys, zs, a, b, ids, n - 1);
      if n - 1 in ids {
        LinearStep(a, b, SumIn(xs, ids, n - 1), xs[n - 1], SumIn(ys, ids, n - 1), ys[n - 1]);
      }
    }
  }

  /** Names an index; facts about products are instantiated only there. */
  predicate At(i: int) { true }

  ghost predicate IsScaled(zs: seq<real>, a: real, xs: seq<real>) {
    |xs| == |zs| && forall i {:trigger At(i)} :: At(i) && 0 <= i < |xs| ==> zs[i] == a * xs[i]
  }

  lemma {:induction false} SumScale(xs: seq<real>, zs: seq<real>, a: real)
    requires IsScaled(zs, a, xs)
    ensures Sum(zs) == a * Sum(xs)
  {
    if xs != [] {
      var k := |xs| - 1;
      assert At(k);
      SumScale(xs[..k], zs[..k], a);
      LinearStep(a, 0.0, Sum(xs[..k]), xs[k], 0.0, 0.0);
    }
  }

  lemma LinearStep(a: real, b: real, x: real, dx: real, y: real, dy: real)
    ensures a * (x + dx) + b * (y + dy) == (a * x + b * y) + (a * dx + b * dy)
  {}

  lemma {:induction false} SumInPositive(xs: seq<real>, ids: set<nat>, n: nat)
    requires n <= |xs|
    requires forall i :: 0 <= i < n && i in ids ==> xs[i] > 0.0
    ensures SumIn(xs, ids, n) >= 0.0
    ensures SumIn(xs, ids, n) > 0.0 <==> exists i :: 0 <= i < n && i in ids
  {
    if n > 0 {
      SumInPositive(xs, ids, n - 1);
      if n - 1 in ids {
        assert 0 <= n - 1 < n && n - 1 in ids;
      }
    }
  }
}
