/** The answer map of the assessment: one slider value per question id, its
    initial state, and the update a slider move performs. */
module Answers {
  import opened Catalog

  /** Question id to the value chosen on its slider. */
  type AnswerMap = map<string, int>

  /** A value the slider can produce: an integer from 1 to 5 in steps of 1. */
  type Likert = v: int | 1 <= v <= 5 witness 3

  /** The value every question starts at. */
  const InitialValue: Likert := 3

  /** The value recorded for `id`, with a missing id counting as 0. */
  function ValueOf(a: AnswerMap, id: string): (v: int)
    ensures id in a ==> v == a[id]
    ensures id !in a ==> v == 0
  {
    if id in a then a[id] else 0
  }

  /** The answers of a reachable state: exactly the catalog ids, each holding a
      slider value. */
  predicate Valid(qs: seq<Question>, a: AnswerMap) {
    && a.Keys == Ids(qs)
    && forall id :: id in a ==> 1 <= a[id] <= 5
  }

  /** Every question of `qs` has an answer in the slider's range. */
  predicate InRange(qs: seq<Question>, a: AnswerMap) {
    forall q :: q in qs ==> q.id in a && 1 <= a[q.id] <= 5
  }

  /** The initial answers: each question in turn sets its id to the initial value. */
  function InitialAnswers(qs: seq<Question>): (a: AnswerMap)
    ensures a.Keys == Ids(qs)
    ensures forall id :: id in a ==> a[id] == InitialValue
    decreases |qs|
  {
    if |qs| == 0 then map[]
    else
      var init := qs[..|qs| - 1];
      var last := qs[|qs| - 1];
      assert qs == init + [last];
      assert Ids(qs) == Ids(init) + {last.id};
      InitialAnswers(init)[last.id := InitialValue]
  }

  /** The slider update for question `q`: the new map records `v` for `q.id`
      and keeps every other entry as it was. */
  function SetAnswer(prev: AnswerMap, q: Question, v: Likert): (a: AnswerMap)
    ensures a.Keys == prev.Keys + {q.id}
    ensures a[q.id] == v
    ensures forall id :: id in prev && id != q.id ==> a[id] == prev[id]
  {
    prev[q.id := v]
  }

  /** In a reachable state the fallback to 0 never applies to a catalog
      question: its value is the recorded slider value. */
  lemma ValueOfReachable(qs: seq<Question>, a: AnswerMap, q: Question)
    requires Valid(qs, a) && q in qs
    ensures ValueOf(a, q.id) == a[q.id]
    ensures 1 <= ValueOf(a, q.id) <= 5
  {
  }

  /** Reading after a slider move: the moved id reads the new value, every
      other id reads what it read before. */
  lemma ValueOfAfterSetAnswer(a: AnswerMap, q: Question, v: Likert, id: string)
    ensures ValueOf(SetAnswer(a, q, v), id) == if id == q.id then v as int else ValueOf(a, id)
  {
  }

  /** The initial answers are a reachable state. */
  lemma InitialAnswersValid(qs: seq<Question>)
    ensures Valid(qs, InitialAnswers(qs))
    ensures InRange(qs, InitialAnswers(qs))
  {
  }

  /** A slider move on a catalog question keeps the state reachable. */
  lemma SetAnswerPreservesValid(qs: seq<Question>, a: AnswerMap, q: Question, v: Likert)
    requires Valid(qs, a) && q in qs
    ensures Valid(qs, SetAnswer(a, q, v))
  {
  }

  /** A reachable state answers every question in range. */
  lemma ValidInRange(qs: seq<Question>, a: AnswerMap)
    requires Valid(qs, a)
    ensures InRange(qs, a)
  {
  }
}
