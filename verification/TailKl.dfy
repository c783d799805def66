/** Forward KL over selected ids plus one coarse tail bucket, against the dense divergence. */
module TailKl {
  import opened Wrappers
  import opened Reals
  import opened CaptureContract

  datatype Divergence = Finite(value: real) | Infinite

  datatype KlError =
    | Misaligned
    | NothingSelected
    | NotLogProbabilities
    | TailOutOfRange
    | TeacherMassNotOne
    | StudentMassNotOne

  function KlTerm(m: Math, teacherLog: real, studentLog: real): real {
    m.exp(teacherLog) * (teacherLog - studentLog)
  }

  /** The terms the sum runs over. */
  function KlTerms(m: Math, teacher: seq<real>, student: seq<real>): (r: seq<real>)
    requires |teacher| == |student|
    ensures |r| == |teacher|
    ensures forall i :: 0 <= i < |r| ==> r[i] == KlTerm(m, teacher[i], student[i])
  {
    seq(|teacher|, i requires 0 <= i < |teacher| => KlTerm(m, teacher[i], student[i]))
  }

  predicate NonPositive(logs: seq<real>) { forall i :: 0 <= i < |logs| ==> logs[i] <= 0.0 }

  /** The residual bucket's term. */
  function TailTerm(m: Math, t: real, s: real): real
    requires s != 0.0
  {
    t * m.ln(t / s)
  }

  /** `coarse_tail_forward_kl`. */
  function CoarseTailForwardKl(m: Math, teacher: seq<real>, student: seq<real>,
                               teacherTail: real, studentTail: real): Result<Divergence, KlError>
  {
    if |teacher| != |student| then Err(Misaligned)
    else if teacher == [] then Err(NothingSelected)
    else if !NonPositive(teacher) || !NonPositive(student) then Err(NotLogProbabilities)
    else if !(0.0 <= teacherTail <= 1.0) || !(0.0 <= studentTail <= 1.0) then Err(TailOutOfRange)
    else if !IsClose(Sum(Exps(m, teacher)) + teacherTail, 1.0) then Err(TeacherMassNotOne)
    else if !IsClose(Sum(Exps(m, student)) + studentTail, 1.0) then Err(StudentMassNotOne)
    else
      var divergence := Sum(KlTerms(m, teacher, student));
      if teacherTail > 0.0 then
        if studentTail == 0.0 then Ok(Infinite)
        else Ok(Finite(divergence + TailTerm(m, teacherTail, studentTail)))
      else Ok(Finite(divergence))
  }

  // ----- with masses only close to one -----

  lemma TermAtLeast(m: Math, teacherLog: real, studentLog: real)
    requires m.Lawful()
    ensures KlTerm(m, teacherLog, studentLog) >= m.exp(teacherLog) - m.exp(studentLog)
  {
    GibbsTerm(m, teacherLog, studentLog);
  }

  lemma {:induction false} SumGibbs(m: Math, teacher: seq<real>, student: seq<real>)
    requires m.Lawful() && |teacher| == |student|
    ensures Sum(KlTerms(m, teacher, student)) >= Sum(Exps(m, teacher)) - Sum(Exps(m, student))
  {
    hide KlTerm;
    if teacher != [] {
      var k := |teacher| - 1;
      SumGibbs(m, teacher[..k], student[..k]);
      DropLast(m, teacher, student);
      TermAtLeast(m, teacher[k], student[k]);
    }
  }

  lemma DropLast(m: Math, teacher: seq<real>, student: seq<real>)
    requires |teacher| == |student| && teacher != []
    ensures var k := |teacher| - 1;
            && KlTerms(m, teacher, student)[..k] == KlTerms(m, teacher[..k], student[..k])
            && Exps(m, teacher)[..k] == Exps(m, teacher[..k])
            && Exps(m, student)[..k] == Exps(m, student[..k])
  {}

  /** The tail bucket is one more term of the same kind. */
  lemma TailGibbs(m: Math, t: real, s: real)
    requires m.Lawful() && t > 0.0 && s > 0.0
    ensures TailTerm(m, t, s) >= t - s
  {
    LnQuotient(m, t, s);
    GibbsTerm(m, m.ln(t), m.ln(s));
  }

  /** Every finite result is at least `-2e-9`, although each mass is only checked to `1e-9` and a
      zero teacher tail drops its term; and the result is infinite exactly for a teacher tail
      over an empty student tail. */
  lemma KlRange(m: Math, teacher: seq<real>, student: seq<real>, teacherTail: real, studentTail: real)
    requires m.Lawful()
    requires CoarseTailForwardKl(m, teacher, student, teacherTail, studentTail).Ok?
    ensures var d := CoarseTailForwardKl(m, teacher, student, teacherTail, studentTail).value;
            && (d.Infinite? <==> teacherTail > 0.0 && studentTail == 0.0)
            && (d.Finite? ==> d.value >= -2.0 * TOLERANCE)
  {
    SumGibbs(m, teacher, student);
    if teacherTail > 0.0 && studentTail > 0.0 {
      TailGibbs(m, teacherTail, studentTail);
    }
  }

  // ----- against the dense divergence -----

  /** Log-probabilities of a distribution over the whole vocabulary. */
  ghost predicate Distribution(m: Math, logs: seq<real>) {
    logs != [] && Sum(Exps(m, logs)) == 1.0
  }

  /** The residual mass of the ids left out: `fsum(exp(logs[i]) for i in omitted)`. */
  function TailMass(m: Math, logs: seq<real>, selected: set<nat>): real {
    SumIn(Exps(m, logs), Range(|logs|) - selected, |logs|)
  }

  /** The dense forward KL over the vocabulary. */
  function DenseKl(m: Math, teacher: seq<real>, student: seq<real>): real
    requires |teacher| == |student|
  {
    Sum(KlTerms(m, teacher, student))
  }

  lemma MassSplit(m: Math, logs: seq<real>, selected: set<nat>)
    requires m.Lawful() && Distribution(m, logs)
    ensures SumIn(Exps(m, logs), selected, |logs|) + TailMass(m, logs, selected) == 1.0
    ensures 0.0 <= TailMass(m, logs, selected) <= 1.0
    ensures TailMass(m, logs, selected) > 0.0 <==> !(Range(|logs|) <= selected)
  {
    var ps, rest := Exps(m, logs), Range(|logs|) - selected;
    SumInSplit(ps, selected, rest, |logs|);
    assert ps[..|logs|] == ps;
    SumInPositive(ps, selected, |logs|);
    SumInPositive(ps, rest, |logs|);
    if Range(|logs|) <= selected {
      assert forall i :: 0 <= i < |logs| ==> i !in rest;
    } else {
      var i :| i in Range(|logs|) && i !in selected;
      assert 0 <= i < |logs| && i in rest;
    }
  }

  /** Probabilities of a distribution never exceed one. */
  lemma {:induction false} LogsNonPositive(m: Math, logs: seq<real>)
    requires m.Lawful() && Distribution(m, logs)
    ensures NonPositive(logs)
  {
    forall i | 0 <= i < |logs| ensures logs[i] <= 0.0 {
      MassSplit(m, logs, {i});
      SingleSum(Exps(m, logs), i, |logs|);
      assert m.ln(m.exp(logs[i])) <= m.exp(logs[i]) - 1.0;
    }
  }

  lemma {:induction false} SingleSum(xs: seq<real>, i: nat, n: nat)
    requires n <= |xs|
    ensures SumIn(xs, {i}, n) == if i < n then xs[i] else 0.0
  {
    if n > 0 {
      SingleSum(xs, i, n - 1);
    }
  }

  // The log-sum inequality, on vectors: p[i] = q[i] * exp(d[i]) and terms[i] = p[i] * d[i].

  ghost predicate Related(m: Math, p: seq<real>, q: seq<real>, d: seq<real>, terms: seq<real>) {
    && |p| == |q| == |d| == |terms|
    && forall i {:trigger At(i)} :: At(i) && 0 <= i < |p| ==> RelatedAt(m, p[i], q[i], d[i], terms[i])
  }

  ghost predicate RelatedAt(m: Math, p: real, q: real, d: real, term: real) {
    p > 0.0 && q > 0.0 && p == m.exp(d) * q && term == p * d
  }

  lemma ShiftedGibbs(m: Math, p: real, q: real, d: real, term: real, c: real)
    requires m.Lawful() && RelatedAt(m, p, q, d, term)
    ensures p - m.exp(c) * q <= term - c * p
    ensures p - m.exp(c) * q == term - c * p <==> d == c
  {
    var mass, log := ShiftedMass(m, q, c);
    var ratio := RatioLog(m, p, q, d);
    var gap := ratio - c;
    GibbsGap(m, p, mass, log, gap);
    Distribute(p, d, c, gap);
  }

  lemma ShiftedMass(m: Math, q: real, c: real) returns (mass: real, log: real)
    requires m.Lawful() && q > 0.0
    ensures mass == m.exp(c) * q && log == m.ln(q) + c && mass == m.exp(log)
  {
    log := m.ln(q) + c;
    mass := m.exp(log);
    ExpSum(m, c, m.ln(q));
    assert c + m.ln(q) == log;
  }

  lemma RatioLog(m: Math, p: real, q: real, d: real) returns (gap: real)
    requires m.Lawful() && q > 0.0 && p == m.exp(d) * q
    ensures p > 0.0 && gap == d && gap == m.ln(p) - m.ln(q)
  {
    gap := d;
    LnProduct(m, m.exp(d), q);
    LnOfProduct(m, p, m.exp(d), q);
  }

  lemma GibbsGap(m: Math, p: real, mass: real, log: real, gap: real)
    requires m.Lawful() && p > 0.0 && mass == m.exp(log) && gap == m.ln(p) - log
    ensures p * gap >= p - mass && (p * gap == p - mass <==> gap == 0.0)
  {
    GibbsTerm(m, m.ln(p), log);
    assert m.exp(m.ln(p)) == p;
  }

  lemma Distribute(p: real, d: real, c: real, gap: real)
    requires gap == d - c
    ensures p * gap == p * d - c * p
  {}

  ghost predicate IsMinus(zs: seq<real>, xs: seq<real>, a: real, ys: seq<real>) {
    && |zs| == |xs| == |ys|
    && forall i {:trigger At(i)} :: At(i) && 0 <= i < |zs| ==> zs[i] == xs[i] - a * ys[i]
  }

  lemma SumInMinus(xs: seq<real>, ys: seq<real>, a: real, ids: set<nat>, n: nat)
      returns (zs: seq<real>, total: real)
    requires n == |xs| == |ys|
    ensures IsMinus(zs, xs, a, ys)
    ensures total == SumIn(zs, ids, n) == SumIn(xs, ids, n) - a * SumIn(ys, ids, n)
  {
    zs := seq(|xs|, i requires 0 <= i < |xs| => xs[i] - a * ys[i]);
    SumInLinear(xs, ys, zs, 1.0, -a, ids, n);
    total := SumIn(zs, ids, n);
  }

  ghost predicate ConstantOn(d: seq<real>, ids: set<nat>, c: real) {
    forall i :: 0 <= i < |d| && i in ids ==> d[i] == c
  }

  ghost predicate Bounded(below: seq<real>, above: seq<real>, d: seq<real>, c: real) {
    && |below| == |above| == |d|
    && forall i {:trigger At(i)} :: At(i) && 0 <= i < |d| ==>
         below[i] <= above[i] && (below[i] == above[i] <==> d[i] == c)
  }

  lemma CompareSums(below: seq<real>, above: seq<real>, d: seq<real>, ids: set<nat>, c: real)
    requires Bounded(below, above, d, c)
    ensures SumIn(below, ids, |d|) <= SumIn(above, ids, |d|)
    ensures SumIn(below, ids, |d|) == SumIn(above, ids, |d|) <==> ConstantOn(d, ids, c)
  {
    forall i | 0 <= i < |d| ensures below[i] <= above[i] && (below[i] == above[i] <==> d[i] == c) {
      assert At(i);
    }
    SumInLe(below, above, ids, |d|);
    if ConstantOn(d, ids, c) {
      assert forall i :: 0 <= i < |d| && i in ids ==> below[i] == above[i];
    }
  }

  lemma ShiftedTerms(m: Math, p: seq<real>, q: seq<real>, d: seq<real>, terms: seq<real>, c: real,
                     below: seq<real>, above: seq<real>)
    requires m.Lawful() && Related(m, p, q, d, terms)
    requires IsMinus(below, p, m.exp(c), q) && IsMinus(above, terms, c, p)
    ensures Bounded(below, above, d, c)
  {
    forall i | 0 <= i < |d| ensures below[i] <= above[i] && (below[i] == above[i] <==> d[i] == c) {
      assert At(i);
      ShiftedGibbs(m, p[i], q[i], d[i], terms[i], c);
    }
  }

  /** `sum p d` over some ids, less `c` times their `p` mass, is at least the `p` mass less
      `exp(c)` times the `q` mass. */
  lemma ShiftedSum(m: Math, p: seq<real>, q: seq<real>, d: seq<real>, terms: seq<real>, c: real,
                   ids: set<nat>) returns (low: real, high: real)
    requires m.Lawful() && Related(m, p, q, d, terms)
    ensures low == SumIn(p, ids, |d|) - m.exp(c) * SumIn(q, ids, |d|)
    ensures high == SumIn(terms, ids, |d|) - c * SumIn(p, ids, |d|)
    ensures low <= high && (low == high <==> ConstantOn(d, ids, c))
  {
    var above, below;
    above, high := SumInMinus(terms, p, c, ids, |d|);
    below, low := SumInMinus(p, q, m.exp(c), ids, |d|);
    ShiftedTerms(m, p, q, d, terms, c, below, above);
    CompareSums(below, above, d, ids, c);
  }

  /** All the listed ids have the same ratio of teacher to student probability. */
  ghost predicate OneRatio(d: seq<real>, ids: set<nat>) {
    forall i, j :: 0 <= i < |d| && 0 <= j < |d| && i in ids && j in ids ==> d[i] == d[j]
  }

  /** A ratio shared by all of them is the ratio of their masses. */
  lemma MassRatio(m: Math, p: seq<real>, q: seq<real>, d: seq<real>, terms: seq<real>, c: real, ids: set<nat>,
                  t: real, s: real) returns (rate: real)
    requires Related(m, p, q, d, terms) && ConstantOn(d, ids, c)
    requires t == SumIn(p, ids, |d|) && s == SumIn(q, ids, |d|)
    ensures rate == m.exp(c) && t == rate * s
  {
    rate := m.exp(c);
    var differences, total := SumInMinus(p, q, rate, ids, |d|);
    ZeroDifferences(m, p, q, d, terms, c, ids, differences);
    SumInZero(differences, ids, |d|);
  }

  lemma ZeroDifferences(m: Math, p: seq<real>, q: seq<real>, d: seq<real>, terms: seq<real>, c: real,
                        ids: set<nat>, differences: seq<real>)
    requires Related(m, p, q, d, terms) && ConstantOn(d, ids, c) && IsMinus(differences, p, m.exp(c), q)
    ensures forall i :: 0 <= i < |d| && i in ids ==> differences[i] == 0.0
  {
    forall i | 0 <= i < |d| && i in ids ensures differences[i] == 0.0 {
      assert At(i);
    }
  }

  /** The log-sum inequality with its case of equality. */
  lemma LogSum(m: Math, p: seq<real>, q: seq<real>, d: seq<real>, terms: seq<real>, ids: set<nat>,
               t: real, s: real) returns (bound: real)
    requires m.Lawful() && Related(m, p, q, d, terms)
    requires t == SumIn(p, ids, |d|) > 0.0 && s == SumIn(q, ids, |d|) > 0.0
    ensures bound == TailTerm(m, t, s)
    ensures SumIn(terms, ids, |d|) >= bound
    ensures SumIn(terms, ids, |d|) == bound <==> OneRatio(d, ids)
  {
    var c := m.ln(t / s);
    bound := t * c;
    QuotientPositive(t, s);
    assert m.exp(c) * s == t;
    var low, high := ShiftedSum(m, p, q, d, terms, c, ids);
    if OneRatio(d, ids) {
      AllPositive(m, p, q, d, terms);
      SumInPositive(p, ids, |d|);
      var j :| 0 <= j < |d| && j in ids;
      var rate := MassRatio(m, p, q, d, terms, d[j], ids, t, s);
      SameExponent(m, d[j], c, rate, m.exp(c), s, t);
    }
  }

  lemma AllPositive(m: Math, p: seq<real>, q: seq<real>, d: seq<real>, terms: seq<real>)
    requires Related(m, p, q, d, terms)
    ensures forall i :: 0 <= i < |p| ==> p[i] > 0.0
  {
    forall i | 0 <= i < |p| ensures p[i] > 0.0 {
      assert At(i);
    }
  }

  lemma SameExponent(m: Math, a: real, b: real, rateA: real, rateB: real, s: real, t: real)
    requires m.Lawful() && s > 0.0 && rateA == m.exp(a) && rateB == m.exp(b)
    requires t == rateA * s && t == rateB * s
    ensures a == b
  {
    SameFactor(rateA, rateB, s, t);
    assert m.ln(rateA) == a && m.ln(rateB) == b;
  }

  lemma SameFactor(a: real, b: real, s: real, t: real)
    requires s > 0.0 && t == a * s && t == b * s
    ensures a == b
  {
    assert (a - b) * s == 0.0;
  }

  // ----- selecting ids of two distributions -----

  /** The logarithms of the probability ratios. */
  function LogRatios(teacher: seq<real>, student: seq<real>): (r: seq<real>)
    requires |teacher| == |student|
    ensures |r| == |teacher| && forall i :: 0 <= i < |r| ==> r[i] == teacher[i] - student[i]
  {
    seq(|teacher|, i requires 0 <= i < |teacher| => teacher[i] - student[i])
  }

  lemma LogsRelated(m: Math, teacher: seq<real>, student: seq<real>)
    requires m.Lawful() && |teacher| == |student|
    ensures Related(m, Exps(m, teacher), Exps(m, student), LogRatios(teacher, student),
                    KlTerms(m, teacher, student))
  {
    forall i | 0 <= i < |teacher|
      ensures RelatedAt(m, Exps(m, teacher)[i], Exps(m, student)[i], LogRatios(teacher, student)[i],
                        KlTerms(m, teacher, student)[i])
    {
      ExpSum(m, teacher[i] - student[i], student[i]);
    }
  }

  /** The stored logs are log-probabilities, and with the tail they carry the whole mass. */
  lemma SelectionMass(m: Math, logs: seq<real>, selected: set<nat>)
    requires m.Lawful() && Distribution(m, logs)
    requires selected != {} && forall i :: i in selected ==> i < |logs|
    ensures var ids := Ascending(selected, |logs|);
            && ids != [] && NonPositive(Pick(logs, ids))
            && Sum(Exps(m, Pick(logs, ids))) + TailMass(m, logs, selected) == 1.0
  {
    hide Exps, Pick, Ascending;
    var ids := Ascending(selected, |logs|);
    MassSplit(m, logs, selected);
    LogsNonPositive(m, logs);
    AscendingSorts(selected, |logs|);
    var some :| some in selected;
    assert some in ids;
    SumAscending(Exps(m, logs), selected, |logs|, Exps(m, Pick(logs, ids)));
  }

  lemma SelectionTerms(m: Math, teacher: seq<real>, student: seq<real>, selected: set<nat>)
    requires |teacher| == |student|
    ensures var ids := Ascending(selected, |teacher|);
            Sum(KlTerms(m, Pick(teacher, ids), Pick(student, ids)))
            + SumIn(KlTerms(m, teacher, student), Range(|teacher|) - selected, |teacher|)
            == DenseKl(m, teacher, student)
  {
    var ids, terms := Ascending(selected, |teacher|), KlTerms(m, teacher, student);
    SumAscending(terms, selected, |teacher|, KlTerms(m, Pick(teacher, ids), Pick(student, ids)));
    SumInSplit(terms, selected, Range(|teacher|) - selected, |teacher|);
    assert terms[..|teacher|] == terms;
  }

  /** The result for two selections whose masses and tails make up exactly one. */
  lemma KlOfExactMasses(m: Math, teacher: seq<real>, student: seq<real>, t: real, s: real)
      returns (divergence: real, tailTerm: real)
    requires |teacher| == |student| && teacher != [] && NonPositive(teacher) && NonPositive(student)
    requires 0.0 <= t <= 1.0 && 0.0 <= s <= 1.0 && (t > 0.0 ==> s > 0.0)
    requires Sum(Exps(m, teacher)) + t == 1.0 && Sum(Exps(m, student)) + s == 1.0
    ensures divergence == Sum(KlTerms(m, teacher, student))
    ensures tailTerm == if t > 0.0 then TailTerm(m, t, s) else 0.0
    ensures CoarseTailForwardKl(m, teacher, student, t, s) == Ok(Finite(divergence + tailTerm))
  {
    divergence := Sum(KlTerms(m, teacher, student));
    tailTerm := if t > 0.0 then TailTerm(m, t, s) else 0.0;
  }

  /** Coarse-graining never increases the divergence. Over any non-empty selection from two
      distributions the coarse result is finite and at most the dense forward KL; they are equal
      exactly when all omitted ids share one ratio of teacher to student probability, so in
      particular when none is omitted. */
  lemma CoarseAtMostDense(m: Math, teacher: seq<real>, student: seq<real>, selected: set<nat>)
    requires m.Lawful() && |teacher| == |student|
    requires Distribution(m, teacher) && Distribution(m, student)
    requires selected != {} && forall i :: i in selected ==> i < |teacher|
    ensures var ids := Ascending(selected, |teacher|);
            var t, s := TailMass(m, teacher, selected), TailMass(m, student, selected);
            var r := CoarseTailForwardKl(m, Pick(teacher, ids), Pick(student, ids), t, s);
            && r.Ok? && r.value.Finite?
            && r.value.value <= DenseKl(m, teacher, student)
            && (r.value.value == DenseKl(m, teacher, student)
                <==> OneRatio(LogRatios(teacher, student), Range(|teacher|) - selected))
            && (Range(|teacher|) <= selected ==> r.value.value == DenseKl(m, teacher, student))
  {
    var rest := Range(|teacher|) - selected;
    SelectionMass(m, teacher, selected);
    SelectionMass(m, student, selected);
    SelectionTerms(m, teacher, student, selected);
    MassSplit(m, teacher, selected);
    MassSplit(m, student, selected);
    var ids, terms := Ascending(selected, |teacher|), KlTerms(m, teacher, student);
    var divergence, tailTerm := KlOfExactMasses(m, Pick(teacher, ids), Pick(student, ids),
                                                TailMass(m, teacher, selected), TailMass(m, student, selected));
    if Range(|teacher|) <= selected {
      SumInZero(terms, rest, |teacher|);
    } else {
      LogsRelated(m, teacher, student);
      var bound := LogSum(m, Exps(m, teacher), Exps(m, student), LogRatios(teacher, student), terms,
                          rest, TailMass(m, teacher, selected), TailMass(m, student, selected));
    }
  }

  lemma {:induction false} SumInZero(xs: seq<real>, ids: set<nat>, n: nat)
    requires n <= |xs| && forall i :: 0 <= i < n && i in ids ==> xs[i] == 0.0
    ensures SumIn(xs, ids, n) == 0.0
  {
    if n > 0 {
      SumInZero(xs, ids, n - 1);
    }
  }

  /** With every id selected and no tail the function is the dense forward KL itself. */
  lemma FullSelectionIsDense(m: Math, teacher: seq<real>, student: seq<real>)
    requires m.Lawful() && |teacher| == |student|
    requires Distribution(m, teacher) && Distribution(m, student)
    ensures CoarseTailForwardKl(m, teacher, student, 0.0, 0.0) == Ok(Finite(DenseKl(m, teacher, student)))
    ensures DenseKl(m, teacher, student) >= 0.0
  {
    LogsNonPositive(m, teacher);
    LogsNonPositive(m, student);
    SumGibbs(m, teacher, student);
  }
}
