/** Whole-assessment behaviour of the catalog: the initial state, and two
    sequences of slider moves with the scores and levels they lead to. */
module Scenarios {
  import opened Catalog
  import opened Answers
  import opened Scoring
  import opened Levels

  /** In the initial state every dimension scores 3 and reads "Moderado". */
  lemma InitialState(d: DimensionKey)
    ensures Score(Questions, InitialAnswers(Questions), d) == 3.0
    ensures Classify(Score(Questions, InitialAnswers(Questions), d)) == Moderado
  {
    var a := InitialAnswers(Questions);
    InDimensionMembers(Questions, d);
    SumOfConstant(InDimension(Questions, d), a, 3);
    CatalogShape();
    CatalogScoreIsQuarterSum(a, d);
  }

  /** In every reachable state (exactly the catalog ids, each holding a slider
      value) every dimension scores between 1 and 5, so its badge is one of
      the five assessed levels and never "Por avaliar". */
  lemma ReachableScoresInRange(a: AnswerMap, d: DimensionKey)
    requires Valid(Questions, a)
    ensures 1.0 <= Score(Questions, a, d) <= 5.0
    ensures 1 <= Classify(Score(Questions, a, d)).Rank() <= 5
  {
    ValidInRange(Questions, a);
    CatalogCount(d);
    ScoreBounds(Questions, a, d);
    ClassifyAssessed(Score(Questions, a, d));
  }

  /** Moving any one slider to 1 from the initial state (S1, say): its
      dimension averages {1, 3, 3, 3} = 2.5, which reads "Fraco"; every other
      dimension stays at 3. */
  lemma LowerOneAnswer(q: Question, d: DimensionKey)
    requires q in Questions
    ensures var a := SetAnswer(InitialAnswers(Questions), q, 1);
      && Score(Questions, a, q.dimension) == 2.5
      && LevelLabel(Score(Questions, a, q.dimension)) == "Fraco"
      && (d != q.dimension ==> Score(Questions, a, d) == 3.0)
  {
    var init := InitialAnswers(Questions);
    var a := SetAnswer(init, q, 1);
    CatalogShape();
    InitialState(q.dimension);
    CatalogScoreIsQuarterSum(init, q.dimension);
    SetAnswerShiftsSum(Questions, init, q, 1);
    CatalogScoreIsQuarterSum(a, q.dimension);
    assert Score(Questions, a, q.dimension) == 2.5;
    if d != q.dimension {
      InitialState(d);
      SetAnswerKeepsOtherScores(Questions, init, q, 1, d);
    }
  }

  /** The answers after moving the sliders of `moves`, one after the other,
      to `v`: every moved question reads `v` and every other entry is kept. */
  function SetAnswers(a: AnswerMap, moves: seq<Question>, v: Likert): (r: AnswerMap)
    ensures forall q :: q in moves ==> q.id in r && r[q.id] == v
    ensures forall id :: id in a && id !in Ids(moves) ==> id in r && r[id] == a[id]
    ensures r.Keys == a.Keys + Ids(moves)
    decreases |moves|
  {
    if |moves| == 0 then a
    else
      var init := moves[..|moves| - 1];
      assert forall q :: q in init ==> q in moves;
      assert moves == init + [moves[|moves| - 1]];
      assert Ids(moves) == Ids(init) + {moves[|moves| - 1].id};
      SetAnswer(SetAnswers(a, init, v), moves[|moves| - 1], v)
  }

  /** A sequence of slider moves on catalog questions keeps the answers a
      reachable state. */
  lemma SetAnswersPreservesValid(a: AnswerMap, moves: seq<Question>, v: Likert)
    requires Valid(Questions, a)
    requires forall q :: q in moves ==> q in Questions
    ensures Valid(Questions, SetAnswers(a, moves, v))
  {
  }

  /** Starting from answers that are all `c`, after moving every slider of
      dimension `e` to `v`, each question reads `v` if it is of dimension `e`
      and `c` otherwise. */
  lemma AfterSettingDimension(qs: seq<Question>, a0: AnswerMap, c: int, e: DimensionKey, v: Likert, p: Question)
    requires DistinctIds(qs)
    requires forall q :: q in qs ==> q.id in a0 && a0[q.id] == c
    requires p in qs
    ensures var a := SetAnswers(a0, InDimension(qs, e), v);
      p.id in a && a[p.id] == if p.dimension == e then v as int else c
  {
    InDimensionMembers(qs, e);
  }

  /** Starting from answers that are all `c`, moving every slider of dimension
      `e` to `v` makes `e` score `v` and leaves every other non-empty dimension at `c`. */
  lemma SetWholeDimension(qs: seq<Question>, a0: AnswerMap, c: int, e: DimensionKey, v: Likert, d: DimensionKey)
    requires DistinctIds(qs)
    requires forall q :: q in qs ==> q.id in a0 && a0[q.id] == c
    requires 0 < |InDimension(qs, d)|
    ensures Score(qs, SetAnswers(a0, InDimension(qs, e), v), d) == (if d == e then v else c) as real
  {
    var a := SetAnswers(a0, InDimension(qs, e), v);
    var ps := InDimension(qs, d);
    var k := if d == e then v as int else c;
    InDimensionMembers(qs, d);
    forall p | p in ps ensures p.id in a && a[p.id] == k {
      AfterSettingDimension(qs, a0, c, e, v, p);
    }
    SumOfConstant(ps, a, k);
    MeanOfUniform(TallyOf(qs, a, d), k);
  }

  /** Moving the four sliders of one dimension (the product ones, say) to 5
      from the initial state: that dimension scores 5, and every other
      dimension still scores 3. */
  lemma RaiseWholeDimension(e: DimensionKey, d: DimensionKey)
    ensures var a := SetAnswers(InitialAnswers(Questions), InDimension(Questions, e), 5);
      && Score(Questions, a, e) == 5.0
      && (d != e ==> Score(Questions, a, d) == 3.0)
  {
    var a0 := InitialAnswers(Questions);
    CatalogShape();
    assert forall q :: q in Questions ==> q.id in a0 && a0[q.id] == 3;
    SetWholeDimension(Questions, a0, 3, e, 5, e);
    if d != e {
      SetWholeDimension(Questions, a0, 3, e, 5, d);
    }
  }

  /** After that move the raised dimension reads "Muito bom". */
  lemma RaiseWholeDimensionLevel(e: DimensionKey)
    ensures LevelLabel(Score(Questions, SetAnswers(InitialAnswers(Questions), InDimension(Questions, e), 5), e))
      == "Muito bom"
  {
    RaiseWholeDimension(e, e);
  }
}
