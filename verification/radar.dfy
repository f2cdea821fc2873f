/** The data series of the radar chart: the five dimension scores, one per
    axis, in display order, on a fixed 0..5 scale. */
module Radar {
  import opened Catalog
  import opened Answers
  import opened Scoring

  /** The lower and upper end of the chart's radial scale. */
  const ScaleMin: real := 0.0
  const ScaleMax: real := 5.0

  /** The chart's single series: one point per dimension in display order,
      a dimension missing from the scores plotting at 0. When every answer is
      in the slider's range, every point lies on the chart's scale. */
  method RadarData(qs: seq<Question>, a: AnswerMap) returns (data: seq<real>)
    ensures |data| == |DimensionOrder|
    ensures forall i :: 0 <= i < |data| ==> data[i] == Score(qs, a, DimensionOrder[i])
    ensures InRange(qs, a) ==> forall i :: 0 <= i < |data| ==> ScaleMin <= data[i] <= ScaleMax
  {
    var scores := DimensionScores(qs, a);
    data := [];
    var i := 0;
    while i < |DimensionOrder|
      invariant 0 <= i <= |DimensionOrder|
      invariant |data| == i
      invariant forall j :: 0 <= j < i ==> data[j] == Score(qs, a, DimensionOrder[j])
    {
      var dim := DimensionOrder[i];
      data := data + [if dim in scores then scores[dim] else 0.0];
      i := i + 1;
    }
    if InRange(qs, a) {
      forall i | 0 <= i < |data| ensures ScaleMin <= data[i] <= ScaleMax {
        ScoreBounds(qs, a, DimensionOrder[i]);
      }
    }
  }
}
