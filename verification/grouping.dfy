/** The form's grouping of the questions: one list per dimension, filled by a
    single walk over the catalog that appends each question to the list of its
    dimension. */
module Grouping {
  import opened Catalog

  /** The grouped questions: for each dimension, its questions in catalog order. */
  method GroupByDimension(qs: seq<Question>) returns (grouped: map<DimensionKey, seq<Question>>)
    ensures forall d :: d in grouped && grouped[d] == InDimension(qs, d)
  {
    grouped := ForEachDimension([]);
    var i := 0;
    while i < |qs|
      invariant 0 <= i <= |qs|
      invariant forall d :: d in grouped && grouped[d] == InDimension(qs[..i], d)
    {
      var q := qs[i];
      grouped := grouped[q.dimension := grouped[q.dimension] + [q]];
      assert qs[..i + 1] == qs[..i] + [q];
      forall d ensures grouped[d] == InDimension(qs[..i + 1], d) {
        InDimensionSnoc(qs[..i], q, d);
      }
      i := i + 1;
    }
    assert qs[..|qs|] == qs;
  }

  /** The groups partition the questions: every question sits in the group of
      its own dimension and in no other, and the groups together hold each
      question as often as the catalog does. */
  lemma GroupsPartition(qs: seq<Question>, grouped: map<DimensionKey, seq<Question>>)
    requires forall d :: d in grouped && grouped[d] == InDimension(qs, d)
    ensures forall q, d :: q in qs ==> (q in grouped[d] <==> d == q.dimension)
    ensures forall d, q :: q in grouped[d] ==> q in qs && q.dimension == d
    ensures multiset(grouped[Produto]) + multiset(grouped[Mercado]) + multiset(grouped[Documentacao])
          + multiset(grouped[Seguranca]) + multiset(grouped[Certificacoes]) == multiset(qs)
  {
    forall d {
      InDimensionMembers(qs, d);
    }
    InDimensionPartition(qs);
  }

  /** Each of the catalog's groups is the catalog section of its dimension:
      its four questions, in catalog order. */
  lemma CatalogGroups(grouped: map<DimensionKey, seq<Question>>)
    requires forall d :: d in grouped && grouped[d] == InDimension(Questions, d)
    ensures forall d :: grouped[d] == Section(d)
    ensures forall d :: |grouped[d]| == 4
    ensures forall d, q :: q in grouped[d] <==> q in Section(d)
  {
    forall d ensures grouped[d] == Section(d) && |grouped[d]| == 4 {
      CatalogSelection(d);
      SectionShape(d);
    }
  }
}
