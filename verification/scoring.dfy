/** Per-dimension aggregation: the sum and count of each dimension's answers,
    and the dimension score, their mean rounded to two decimal places (0 for a
    dimension without questions). */
module Scoring {
  import opened Catalog
  import opened Answers
  import opened Rounding

  /** The sum of the answers to `ps`, a missing id counting as 0. */
  function SumOf(ps: seq<Question>, a: AnswerMap): int
    decreases |ps|
  {
    if |ps| == 0 then 0 else SumOf(ps[..|ps| - 1], a) + ValueOf(a, ps[|ps| - 1].id)
  }

  /** How many entries of `ps` use the identifier `id`. */
  function Occurrences(ps: seq<Question>, id: string): nat
    decreases |ps|
  {
    if |ps| == 0 then 0
    else Occurrences(ps[..|ps| - 1], id) + (if ps[|ps| - 1].id == id then 1 else 0)
  }

  /** The running total kept for one dimension. */
  datatype Tally = Tally(sum: int, count: nat)

  /** The tally of dimension `d`: the sum and the number of its questions. */
  function TallyOf(qs: seq<Question>, a: AnswerMap, d: DimensionKey): Tally {
    var ps := InDimension(qs, d);
    Tally(SumOf(ps, a), |ps|)
  }

  /** The score of a tally: within half a hundredth of the mean of its answers,
      and 0 when it counted nothing. */
  function Mean(t: Tally): (r: real)
    ensures t.count == 0 ==> r == 0.0
    ensures t.count > 0 ==>
      t.sum as real / t.count as real - 0.005 <= r <= t.sum as real / t.count as real + 0.005
    ensures OnCentGrid(r)
  {
    if t.count > 0 then Round2(t.sum as real / t.count as real) else 0.0
  }

  /** The score of dimension `d` under the answers `a`. */
  function Score(qs: seq<Question>, a: AnswerMap, d: DimensionKey): (r: real)
    ensures |InDimension(qs, d)| == 0 ==> r == 0.0
    ensures |InDimension(qs, d)| > 0 ==>
      var mean := SumOf(InDimension(qs, d), a) as real / |InDimension(qs, d)| as real;
      mean - 0.005 <= r <= mean + 0.005
    ensures OnCentGrid(r)
  {
    Mean(TallyOf(qs, a, d))
  }

  /** The five tallies, accumulated by one walk over the questions. */
  method Tallies(qs: seq<Question>, a: AnswerMap) returns (acc: map<DimensionKey, Tally>)
    ensures forall d :: d in acc && acc[d] == Tally(SumOf(InDimension(qs, d), a), |InDimension(qs, d)|)
  {
    acc := ForEachDimension(Tally(0, 0));
    var i := 0;
    while i < |qs|
      invariant 0 <= i <= |qs|
      invariant forall d :: d in acc && acc[d] == TallyOf(qs[..i], a, d)
    {
      var q := qs[i];
      var t := acc[q.dimension];
      acc := acc[q.dimension := Tally(t.sum + ValueOf(a, q.id), t.count + 1)];
      assert qs[..i + 1] == qs[..i] + [q];
      forall d ensures acc[d] == TallyOf(qs[..i + 1], a, d) {
        TallyStep(qs[..i], q, a, d);
      }
      i := i + 1;
    }
    assert qs[..|qs|] == qs;
  }

  /** Appending a question adds its answer to a sum. */
  lemma SumSnoc(ps: seq<Question>, q: Question, a: AnswerMap)
    ensures SumOf(ps + [q], a) == SumOf(ps, a) + ValueOf(a, q.id)
  {
    var qs := ps + [q];
    assert qs[..|qs| - 1] == ps;
  }

  /** Appending a question to a walk adds its answer and one to the tally of
      its own dimension and leaves the other tallies unchanged. */
  lemma TallyStep(ps: seq<Question>, q: Question, a: AnswerMap, d: DimensionKey)
    ensures TallyOf(ps + [q], a, d) ==
      if q.dimension == d then
        Tally(TallyOf(ps, a, d).sum + ValueOf(a, q.id), TallyOf(ps, a, d).count + 1)
      else TallyOf(ps, a, d)
  {
    var sel := InDimension(ps, d);
    var sel' := InDimension(ps + [q], d);
    InDimensionSnoc(ps, q, d);
    if q.dimension == d {
      assert sel' == sel + [q];
      SumSnoc(sel, q, a);
      assert SumOf(sel', a) == SumOf(sel, a) + ValueOf(a, q.id);
      assert |sel'| == |sel| + 1;
    } else {
      assert sel' == sel;
    }
  }

  /** The score of every dimension: the tallies first, then each non-empty
      tally's rounded mean, visiting the dimensions in display order. */
  method DimensionScores(qs: seq<Question>, a: AnswerMap) returns (scores: map<DimensionKey, real>)
    ensures forall d :: d in scores && scores[d] == Score(qs, a, d)
  {
    var acc := Tallies(qs, a);
    scores := ForEachDimension(0.0);
    DimensionOrderEnumerates();
    var i := 0;
    while i < |DimensionOrder|
      invariant 0 <= i <= |DimensionOrder|
      invariant forall d :: d in scores
      invariant forall d :: d in DimensionOrder[..i] ==> scores[d] == Score(qs, a, d)
      invariant forall d :: d !in DimensionOrder[..i] ==> scores[d] == 0.0
    {
      var dim := DimensionOrder[i];
      assert DimensionOrder[..i + 1] == DimensionOrder[..i] + [dim];
      assert dim !in DimensionOrder[..i];
      if acc[dim].count > 0 {
        scores := scores[dim := Round2(acc[dim].sum as real / acc[dim].count as real)];
      }
      i := i + 1;
    }
    assert DimensionOrder[..|DimensionOrder|] == DimensionOrder;
  }

  /** With every answer in the slider's range, a sum lies between one and five
      times the number of answers. */
  lemma {:induction false} SumBounds(ps: seq<Question>, a: AnswerMap)
    requires InRange(ps, a)
    ensures |ps| <= SumOf(ps, a) <= 5 * |ps|
    decreases |ps|
  {
    if |ps| > 0 {
      var init := ps[..|ps| - 1];
      assert forall q :: q in init ==> q in ps;
      SumBounds(init, a);
      assert ps[|ps| - 1] in ps;
    }
  }

  /** When every entry of `ps` is answered `c`, the sum is `c` times the count. */
  lemma {:induction false} SumOfConstant(ps: seq<Question>, a: AnswerMap, c: int)
    requires forall p :: p in ps ==> p.id in a && a[p.id] == c
    ensures SumOf(ps, a) == c * |ps|
    decreases |ps|
  {
    if |ps| > 0 {
      assert ps[|ps| - 1] in ps;
      assert forall p :: p in ps[..|ps| - 1] ==> p in ps;
      SumOfConstant(ps[..|ps| - 1], a, c);
    }
  }

  /** A dimension with questions all answered in range scores between 1 and 5;
      a dimension without questions scores 0. */
  lemma ScoreBounds(qs: seq<Question>, a: AnswerMap, d: DimensionKey)
    requires InRange(qs, a)
    ensures |InDimension(qs, d)| > 0 ==> 1.0 <= Score(qs, a, d) <= 5.0
    ensures |InDimension(qs, d)| == 0 ==> Score(qs, a, d) == 0.0
  {
    var ps := InDimension(qs, d);
    if |ps| > 0 {
      InDimensionMembers(qs, d);
      SumBounds(ps, a);
      var mean := SumOf(ps, a) as real / |ps| as real;
      MeanBounds(SumOf(ps, a), |ps|);
      Round2Monotone(1.0, mean);
      Round2Monotone(mean, 5.0);
      Round2Exact(1.0);
      Round2Exact(5.0);
    }
  }

  /** A sum between one and five times a positive count has its mean in [1, 5]. */
  lemma MeanBounds(sum: int, count: nat)
    requires 0 < count && count <= sum <= 5 * count
    ensures 1.0 <= sum as real / count as real <= 5.0
  {
    var c := count as real;
    assert sum as real / c * c == sum as real;
  }

  /** When the count divides 100 the mean already has two decimals, so
      rounding leaves it unchanged: the score is exactly sum / count. */
  lemma ScoreIsExactMean(t: Tally)
    requires t.count > 0 && 100 % t.count == 0
    ensures Mean(t) * t.count as real == t.sum as real
  {
    var c := t.count as real;
    var k := 100 / t.count;
    var mean := t.sum as real / c;
    assert k * t.count == 100;
    assert mean * 100.0 == (t.sum * k) as real by {
      assert mean * c == t.sum as real;
      assert 100.0 == k as real * c;
      calc {
        mean * 100.0;
        mean * (k as real * c);
        (mean * c) * k as real;
        t.sum as real * k as real;
      }
    }
    Round2Exact(mean);
  }

  /** A tally whose answers average to the integer `k` scores exactly `k`. */
  lemma MeanOfUniform(t: Tally, k: int)
    requires t.count > 0 && t.sum == k * t.count
    ensures Mean(t) == k as real
  {
    QuotientOfMultiple(t.sum, k, t.count);
    Round2Integer(k);
  }

  /** An exact multiple divided by its factor gives back the other factor. */
  lemma QuotientOfMultiple(s: int, k: int, n: nat)
    requires n > 0 && s == k * n
    ensures s as real / n as real == k as real
  {
    assert s as real == k as real * n as real;
  }

  /** Changing the answer of `id` moves a sum by the change times the number of
      entries that use `id`. */
  lemma {:induction false} SumAfterUpdate(ps: seq<Question>, a: AnswerMap, id: string, v: int)
    ensures SumOf(ps, a[id := v]) == SumOf(ps, a) + Occurrences(ps, id) * (v - ValueOf(a, id))
    decreases |ps|
  {
    if |ps| > 0 {
      SumAfterUpdate(ps[..|ps| - 1], a, id, v);
      var n := Occurrences(ps[..|ps| - 1], id);
      var delta := v - ValueOf(a, id);
      assert (n + 1) * delta == n * delta + delta;
    }
  }

  /** Only an identifier of some entry is ever counted. */
  lemma {:induction false} OccurrencesAbsent(ps: seq<Question>, id: string)
    requires forall p :: p in ps ==> p.id != id
    ensures Occurrences(ps, id) == 0
    decreases |ps|
  {
    if |ps| > 0 {
      assert ps[|ps| - 1] in ps;
      assert forall p :: p in ps[..|ps| - 1] ==> p in ps;
      OccurrencesAbsent(ps[..|ps| - 1], id);
    }
  }

  /** The identifier of an entry is counted at least once. */
  lemma {:induction false} OccurrencesPresent(ps: seq<Question>, q: Question)
    requires q in ps
    ensures Occurrences(ps, q.id) >= 1
    decreases |ps|
  {
    if ps[|ps| - 1] != q {
      assert ps == ps[..|ps| - 1] + [ps[|ps| - 1]];
      OccurrencesPresent(ps[..|ps| - 1], q);
    }
  }

  /** In a list with distinct identifiers each identifier is used at most once. */
  lemma {:induction false} OccurrencesDistinct(ps: seq<Question>, id: string)
    requires DistinctIds(ps)
    ensures Occurrences(ps, id) <= 1
    decreases |ps|
  {
    if |ps| > 0 {
      var init := ps[..|ps| - 1];
      assert DistinctIds(init);
      OccurrencesDistinct(init, id);
      if ps[|ps| - 1].id == id {
        forall p | p in init ensures p.id != id {
          var j :| 0 <= j < |init| && init[j] == p;
          assert ps[j] == p;
        }
        OccurrencesAbsent(init, id);
      }
    }
  }

  /** Selecting a dimension never adds uses of an identifier. */
  lemma {:induction false} OccurrencesInDimension(qs: seq<Question>, d: DimensionKey, id: string)
    ensures Occurrences(InDimension(qs, d), id) <= Occurrences(qs, id)
    decreases |qs|
  {
    if |qs| > 0 {
      var init := qs[..|qs| - 1];
      var last := qs[|qs| - 1];
      OccurrencesInDimension(init, d, id);
      if last.dimension == d {
        var sel := InDimension(init, d) + [last];
        assert InDimension(qs, d) == sel;
        assert sel[..|sel| - 1] == InDimension(init, d);
        assert sel[|sel| - 1] == last;
      } else {
        assert InDimension(qs, d) == InDimension(init, d);
      }
    }
  }

  /** In a catalog with distinct identifiers, a question's identifier is used
      exactly once among the questions of its dimension, and never among the
      questions of another dimension. */
  lemma OccurrencesOfQuestion(qs: seq<Question>, q: Question, d: DimensionKey)
    requires q in qs && DistinctIds(qs)
    ensures Occurrences(InDimension(qs, d), q.id) == (if d == q.dimension then 1 else 0)
  {
    InDimensionMembers(qs, d);
    OccurrencesInDimension(qs, d, q.id);
    OccurrencesDistinct(qs, q.id);
    if d == q.dimension {
      OccurrencesPresent(InDimension(qs, d), q);
    } else {
      assert forall p :: p in InDimension(qs, d) ==> p.id != q.id;
      OccurrencesAbsent(InDimension(qs, d), q.id);
    }
  }

  /** Moving one question's slider changes no other dimension's score. */
  lemma SetAnswerKeepsOtherScores(qs: seq<Question>, a: AnswerMap, q: Question, v: Likert, d: DimensionKey)
    requires q in qs && DistinctIds(qs)
    requires d != q.dimension
    ensures Score(qs, SetAnswer(a, q, v), d) == Score(qs, a, d)
  {
    OccurrencesOfQuestion(qs, q, d);
    SumAfterUpdate(InDimension(qs, d), a, q.id, v);
  }

  /** Moving one question's slider shifts its dimension's sum by exactly the
      change of that answer. */
  lemma SetAnswerShiftsSum(qs: seq<Question>, a: AnswerMap, q: Question, v: Likert)
    requires q in qs && DistinctIds(qs)
    ensures TallyOf(qs, SetAnswer(a, q, v), q.dimension).sum
         == TallyOf(qs, a, q.dimension).sum + (v - ValueOf(a, q.id))
    ensures TallyOf(qs, SetAnswer(a, q, v), q.dimension).count == TallyOf(qs, a, q.dimension).count
  {
    OccurrencesOfQuestion(qs, q, q.dimension);
    SumAfterUpdate(InDimension(qs, q.dimension), a, q.id, v);
  }

  /** Of two tallies over the same positive count, the larger sum never scores lower. */
  lemma MeanMonotone(t: Tally, u: Tally)
    requires t.count == u.count > 0 && t.sum <= u.sum
    ensures Mean(t) <= Mean(u)
  {
    var c := t.count as real;
    assert t.sum as real / c <= u.sum as real / c;
    Round2Monotone(t.sum as real / c, u.sum as real / c);
  }

  /** Of two tallies over the same count of at most 100, the larger sum scores
      strictly higher. */
  lemma MeanStrictlyMonotone(t: Tally, u: Tally)
    requires t.count == u.count && 0 < t.count <= 100 && t.sum < u.sum
    ensures Mean(t) < Mean(u)
  {
    var c := t.count as real;
    var x, y := t.sum as real / c, u.sum as real / c;
    assert (y - x) * c == (u.sum - t.sum) as real;
    AtLeastOneHundredth(y - x, c);
    Round2Separates(x, y);
  }

  /** A quantity that reaches 1 when multiplied by at most 100 is at least a hundredth. */
  lemma AtLeastOneHundredth(gap: real, c: real)
    requires 0.0 < c <= 100.0 && gap * c >= 1.0
    ensures gap >= 0.01
  {
  }

  /** Raising one answer, all others fixed, never lowers its dimension's score. */
  lemma RaisingAnswerNeverLowersScore(qs: seq<Question>, a: AnswerMap, q: Question, v: Likert)
    requires q in qs && DistinctIds(qs)
    requires ValueOf(a, q.id) <= v
    ensures Score(qs, a, q.dimension) <= Score(qs, SetAnswer(a, q, v), q.dimension)
  {
    SetAnswerShiftsSum(qs, a, q, v);
    InDimensionMembers(qs, q.dimension);
    assert q in InDimension(qs, q.dimension);
    MeanMonotone(TallyOf(qs, a, q.dimension), TallyOf(qs, SetAnswer(a, q, v), q.dimension));
  }

  /** Raising one answer, all others fixed, strictly raises its dimension's
      score, as long as the dimension has at most 100 questions (beyond that a
      one-point change can vanish in the rounding to hundredths). */
  lemma RaisingAnswerRaisesScore(qs: seq<Question>, a: AnswerMap, q: Question, v: Likert)
    requires q in qs && DistinctIds(qs)
    requires ValueOf(a, q.id) < v
    requires |InDimension(qs, q.dimension)| <= 100
    ensures Score(qs, a, q.dimension) < Score(qs, SetAnswer(a, q, v), q.dimension)
  {
    SetAnswerShiftsSum(qs, a, q, v);
    InDimensionMembers(qs, q.dimension);
    assert q in InDimension(qs, q.dimension);
    MeanStrictlyMonotone(TallyOf(qs, a, q.dimension), TallyOf(qs, SetAnswer(a, q, v), q.dimension));
  }

  /** In the catalog every score is exactly the sum of its dimension's four
      answers divided by four. */
  lemma CatalogScoreIsQuarterSum(a: AnswerMap, d: DimensionKey)
    ensures Score(Questions, a, d) * 4.0 == SumOf(InDimension(Questions, d), a) as real
  {
    CatalogShape();
    ScoreIsExactMean(TallyOf(Questions, a, d));
  }

  /** In the catalog, raising one answer strictly raises its dimension's score
      and leaves every other dimension's score as it was. */
  lemma CatalogSetAnswer(a: AnswerMap, q: Question, v: Likert)
    requires q in Questions
    ensures ValueOf(a, q.id) < v ==> Score(Questions, a, q.dimension) < Score(Questions, SetAnswer(a, q, v), q.dimension)
    ensures forall d :: d != q.dimension ==> Score(Questions, SetAnswer(a, q, v), d) == Score(Questions, a, d)
  {
    CatalogShape();
    if ValueOf(a, q.id) < v {
      RaisingAnswerRaisesScore(Questions, a, q, v);
    }
    forall d | d != q.dimension
      ensures Score(Questions, SetAnswer(a, q, v), d) == Score(Questions, a, d)
    {
      SetAnswerKeepsOtherScores(Questions, a, q, v, d);
    }
  }
}
