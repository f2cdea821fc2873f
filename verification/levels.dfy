/** The qualitative level shown on each dimension's badge: a step function of
    the score with inclusive upper bounds 1.5, 2.5, 3.5 and 4.5, and a separate
    level for a score of exactly 0. */
module Levels {

  /** The six levels, from "not yet assessed" up to "very good". */
  datatype Level = PorAvaliar | Critico | Fraco | Moderado | Bom | MuitoBom {

    /** The badge text of the level. */
    function Label(): string {
      match this
      case PorAvaliar => "Por avaliar"
      case Critico => "Crítico"
      case Fraco => "Fraco"
      case Moderado => "Moderado"
      case Bom => "Bom"
      case MuitoBom => "Muito bom"
    }

    /** The position of the level on the scale, 0 for "not yet assessed". */
    function Rank(): nat {
      match this
      case PorAvaliar => 0
      case Critico => 1
      case Fraco => 2
      case Moderado => 3
      case Bom => 4
      case MuitoBom => 5
    }
  }

  /** The least integer not below `x`. */
  function Ceil(x: real): (n: int)
    ensures x <= n as real < x + 1.0
  {
    -((-x).Floor)
  }

  /** `n` limited to the range `lo..hi`. */
  function Clamp(n: int, lo: int, hi: int): int
    requires lo <= hi
  {
    if n < lo then lo else if n > hi then hi else n
  }

  /** The level of a score. Apart from the score 0, its rank is the score
      rounded to the nearest integer with halves rounded down, kept within 1..5:
      so each band includes its upper bound. */
  function Classify(score: real): (l: Level)
    ensures l == PorAvaliar <==> score == 0.0
    ensures score != 0.0 ==> l.Rank() == Clamp(Ceil(score - 0.5), 1, 5)
  {
    if score == 0.0 then PorAvaliar
    else if score <= 1.5 then Critico
    else if score <= 2.5 then Fraco
    else if score <= 3.5 then Moderado
    else if score <= 4.5 then Bom
    else MuitoBom
  }

  /** The badge text for a score. */
  function LevelLabel(score: real): (r: string)
    ensures r in {"Por avaliar", "Crítico", "Fraco", "Moderado", "Bom", "Muito bom"}
    ensures r == "Por avaliar" <==> score == 0.0
  {
    var l := Classify(score);
    if l == PorAvaliar then l.Label()
    else LabelsDistinct(l, PorAvaliar); l.Label()
  }

  /** Different levels have different badge texts, so the text identifies the level. */
  lemma LabelsDistinct(l: Level, m: Level)
    requires l != m
    ensures l.Label() != m.Label()
  {
    match l
    case PorAvaliar => assert l.Label()[0] == 'P';
    case Critico => assert l.Label()[0] == 'C';
    case Fraco => assert l.Label()[0] == 'F';
    case Moderado => assert l.Label()[0] == 'M' && |l.Label()| == 8;
    case Bom => assert l.Label()[0] == 'B';
    case MuitoBom => assert l.Label()[0] == 'M' && |l.Label()| == 9;
  }

  /** On positive scores the level never goes down as the score goes up. */
  lemma ClassifyMonotone(s: real, t: real)
    requires 0.0 < s <= t
    ensures Classify(s).Rank() <= Classify(t).Rank()
  {
  }

  /** Each band includes its upper bound and anything above 4.5 is "very good". */
  lemma ClassifyBoundaries()
    ensures LevelLabel(0.0) == "Por avaliar"
    ensures LevelLabel(1.5) == "Crítico" && LevelLabel(1.51) == "Fraco"
    ensures LevelLabel(2.5) == "Fraco" && LevelLabel(2.51) == "Moderado"
    ensures LevelLabel(3.5) == "Moderado" && LevelLabel(3.51) == "Bom"
    ensures LevelLabel(4.5) == "Bom" && LevelLabel(4.51) == "Muito bom"
    ensures forall s :: s > 4.5 ==> Classify(s) == MuitoBom
  {
  }

  /** Scores between the printed interpretation bands (strictly between x.5
      and x.6) belong to the band above, and 0 is "Por avaliar", not "Crítico". */
  lemma LegendGaps()
    ensures LevelLabel(0.0) == "Por avaliar"
    ensures LevelLabel(1.55) == "Fraco" && LevelLabel(2.55) == "Moderado"
    ensures LevelLabel(3.55) == "Bom" && LevelLabel(4.55) == "Muito bom"
  {
  }

  /** Every score in 1..5 gets one of the five assessed levels. */
  lemma ClassifyAssessed(s: real)
    requires 1.0 <= s <= 5.0
    ensures 1 <= Classify(s).Rank() <= 5
  {
  }
}
