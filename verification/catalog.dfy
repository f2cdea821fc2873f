/** The static question catalog of the readiness assessment: five readiness
    dimensions, twenty questions tagged with one dimension each, and the fixed
    order in which the dimensions are displayed. The Portuguese prompt text of
    each question is presentation only and is not part of the model. */
module Catalog {

  /** The closed set of readiness dimensions ("produto", "mercado", ...). */
  datatype DimensionKey = Produto | Mercado | Documentacao | Seguranca | Certificacoes

  /** A catalog entry: its stable identifier and the dimension it belongs to. */
  datatype Question = Question(id: string, dimension: DimensionKey)

  /** The letter that starts the identifiers of the questions of `d`. */
  function Initial(d: DimensionKey): char {
    match d
    case Produto => 'P'
    case Mercado => 'M'
    case Documentacao => 'D'
    case Seguranca => 'S'
    case Certificacoes => 'C'
  }

  /** The decimal digit character for `k`. */
  function Digit(k: nat): char
    requires k <= 9
  {
    ('0' as int + k) as char
  }

  /** The `k`-th question of dimension `d`, identified by the dimension's
      letter followed by `k`: "P1" to "P4", "M1" to "M4", and so on. */
  function Entry(d: DimensionKey, k: nat): Question
    requires 1 <= k <= 4
  {
    Question([Initial(d), Digit(k)], d)
  }

  /** The section of the catalog that holds the four questions of `d`, numbered
      1 to 4. */
  function Section(d: DimensionKey): seq<Question> {
    seq(4, i requires 0 <= i < 4 => Entry(d, i + 1))
  }

  /** The catalog, in display order: the five sections one after the other. */
  const Questions: seq<Question> :=
    Section(Produto) + Section(Mercado) + Section(Documentacao) + Section(Seguranca) + Section(Certificacoes)

  /** The order of the dimensions in the form and on the radar's axes. */
  const DimensionOrder: seq<DimensionKey> :=
    [Produto, Mercado, Documentacao, Seguranca, Certificacoes]

  /** The identifiers used by a list of questions. */
  function Ids(qs: seq<Question>): set<string> {
    set q | q in qs :: q.id
  }

  /** No identifier is used by two different positions of the list. */
  predicate DistinctIds(qs: seq<Question>) {
    forall i, j :: 0 <= i < j < |qs| ==> qs[i].id != qs[j].id
  }

  /** The questions of dimension `d`, in the order they appear in `qs`.
      Defined on the last element, the way a left-to-right walk appends. */
  function InDimension(qs: seq<Question>, d: DimensionKey): seq<Question>
    decreases |qs|
  {
    if |qs| == 0 then []
    else
      var last := qs[|qs| - 1];
      InDimension(qs[..|qs| - 1], d) + (if last.dimension == d then [last] else [])
  }

  /** A question is selected for `d` exactly when it is in the list and tagged `d`;
      nothing else is selected. */
  lemma {:induction false} InDimensionMembers(qs: seq<Question>, d: DimensionKey)
    ensures forall p :: p in InDimension(qs, d) <==> p in qs && p.dimension == d
    decreases |qs|
  {
    if |qs| > 0 {
      var init := qs[..|qs| - 1];
      InDimensionMembers(init, d);
      assert qs == init + [qs[|qs| - 1]];
    }
  }

  /** Selecting a dimension distributes over concatenation: the selection keeps
      the relative order of the questions. */
  lemma {:induction false} InDimensionAppend(xs: seq<Question>, ys: seq<Question>, d: DimensionKey)
    ensures InDimension(xs + ys, d) == InDimension(xs, d) + InDimension(ys, d)
    decreases |ys|
  {
    if |ys| == 0 {
      assert xs + ys == xs;
    } else {
      var init := ys[..|ys| - 1];
      var last := ys[|ys| - 1];
      assert (xs + ys)[..|xs + ys| - 1] == xs + init;
      assert (xs + ys)[|xs + ys| - 1] == last;
      InDimensionAppend(xs, init, d);
    }
  }

  /** Appending one question extends the selection of its own dimension by
      that question and leaves every other selection as it was. */
  lemma InDimensionSnoc(ps: seq<Question>, q: Question, d: DimensionKey)
    ensures InDimension(ps + [q], d) == InDimension(ps, d) + (if q.dimension == d then [q] else [])
  {
    var qs := ps + [q];
    assert qs[..|qs| - 1] == ps;
  }

  /** A question occurs in the selection of its own dimension as often as in
      the list, and never in the selection of another dimension. */
  lemma {:induction false} InDimensionMultiplicity(qs: seq<Question>, d: DimensionKey, q: Question)
    ensures multiset(InDimension(qs, d))[q] == if q.dimension == d then multiset(qs)[q] else 0
    decreases |qs|
  {
    if |qs| > 0 {
      var init := qs[..|qs| - 1];
      var last := qs[|qs| - 1];
      InDimensionMultiplicity(init, d, q);
      assert qs == init + [last];
    }
  }

  /** Every question lands in exactly one dimension's selection: the five
      selections together are a rearrangement of the list. */
  lemma InDimensionPartition(qs: seq<Question>)
    ensures multiset(InDimension(qs, Produto)) + multiset(InDimension(qs, Mercado))
          + multiset(InDimension(qs, Documentacao)) + multiset(InDimension(qs, Seguranca))
          + multiset(InDimension(qs, Certificacoes)) == multiset(qs)
  {
    var all := multiset(InDimension(qs, Produto)) + multiset(InDimension(qs, Mercado))
          + multiset(InDimension(qs, Documentacao)) + multiset(InDimension(qs, Seguranca))
          + multiset(InDimension(qs, Certificacoes));
    forall q ensures all[q] == multiset(qs)[q] {
      InDimensionMultiplicity(qs, Produto, q);
      InDimensionMultiplicity(qs, Mercado, q);
      InDimensionMultiplicity(qs, Documentacao, q);
      InDimensionMultiplicity(qs, Seguranca, q);
      InDimensionMultiplicity(qs, Certificacoes, q);
    }
  }

  /** A list whose questions all belong to `d` is its own selection for `d`. */
  lemma {:induction false} InDimensionAll(ps: seq<Question>, d: DimensionKey)
    requires forall p :: p in ps ==> p.dimension == d
    ensures InDimension(ps, d) == ps
    decreases |ps|
  {
    if |ps| > 0 {
      InDimensionAll(ps[..|ps| - 1], d);
      assert ps == ps[..|ps| - 1] + [ps[|ps| - 1]];
    }
  }

  /** A list with no question of `d` selects nothing for `d`. */
  lemma {:induction false} InDimensionNone(ps: seq<Question>, d: DimensionKey)
    requires forall p :: p in ps ==> p.dimension != d
    ensures InDimension(ps, d) == []
    decreases |ps|
  {
    if |ps| > 0 {
      InDimensionNone(ps[..|ps| - 1], d);
    }
  }

  /** Every identifier of `qs` is non-empty and starts with one of `letters`. */
  predicate StartsWithOneOf(qs: seq<Question>, letters: set<char>) {
    forall p :: p in qs ==> |p.id| > 0 && p.id[0] in letters
  }

  /** Each section holds four questions with distinct identifiers, all tagged
      with the section's dimension and named after its initial letter. */
  lemma SectionShape(e: DimensionKey)
    ensures |Section(e)| == 4
    ensures DistinctIds(Section(e))
    ensures forall p :: p in Section(e) ==> p.dimension == e
    ensures StartsWithOneOf(Section(e), {Initial(e)})
  {
    forall i, j | 0 <= i < j < 4 ensures Section(e)[i].id != Section(e)[j].id {
      assert Section(e)[i].id[1] == Digit(i + 1) != Digit(j + 1) == Section(e)[j].id[1];
    }
  }

  /** Spelled out, the section of `d` is the questions "X1" to "X4", where X
      is the letter of `d`: P for produto, M for mercado, D for documentacao,
      S for seguranca and C for certificacoes. */
  lemma SectionSpelling(d: DimensionKey)
    ensures Section(d) == [Question([Initial(d), '1'], d), Question([Initial(d), '2'], d),
                           Question([Initial(d), '3'], d), Question([Initial(d), '4'], d)]
  {
  }

  /** The five sections written out, as the catalog lists them. */
  lemma CatalogSpelledOut()
    ensures Section(Produto) == [Question("P1", Produto), Question("P2", Produto),
                                 Question("P3", Produto), Question("P4", Produto)]
    ensures Section(Mercado) == [Question("M1", Mercado), Question("M2", Mercado),
                                 Question("M3", Mercado), Question("M4", Mercado)]
    ensures Section(Documentacao) == [Question("D1", Documentacao), Question("D2", Documentacao),
                                      Question("D3", Documentacao), Question("D4", Documentacao)]
    ensures Section(Seguranca) == [Question("S1", Seguranca), Question("S2", Seguranca),
                                   Question("S3", Seguranca), Question("S4", Seguranca)]
    ensures Section(Certificacoes) == [Question("C1", Certificacoes), Question("C2", Certificacoes),
                                       Question("C3", Certificacoes), Question("C4", Certificacoes)]
  {
    SectionSpelling(Produto);
    SectionSpelling(Mercado);
    SectionSpelling(Documentacao);
    SectionSpelling(Seguranca);
    SectionSpelling(Certificacoes);
  }

  /** Two lists with distinct identifiers whose identifiers start with
      different letters can be joined without a clash. */
  lemma DistinctAppend(xs: seq<Question>, ys: seq<Question>, lx: set<char>, ly: set<char>)
    requires DistinctIds(xs) && DistinctIds(ys)
    requires StartsWithOneOf(xs, lx) && StartsWithOneOf(ys, ly) && lx !! ly
    ensures DistinctIds(xs + ys)
  {
    forall i, j | 0 <= i < j < |xs + ys| ensures (xs + ys)[i].id != (xs + ys)[j].id {
      if j < |xs| {
        assert (xs + ys)[i] == xs[i] && (xs + ys)[j] == xs[j];
      } else if |xs| <= i {
        assert (xs + ys)[i] == ys[i - |xs|] && (xs + ys)[j] == ys[j - |xs|];
      } else {
        assert (xs + ys)[i] == xs[i] && (xs + ys)[j] == ys[j - |xs|];
        assert xs[i] in xs && ys[j - |xs|] in ys;
      }
    }
  }

  /** The selection of `d` from the section of `e` is the whole section when
      `e` is `d`, and nothing otherwise. */
  lemma SectionSelection(e: DimensionKey, d: DimensionKey)
    ensures InDimension(Section(e), d) == (if e == d then Section(e) else [])
  {
    SectionShape(e);
    if e == d {
      InDimensionAll(Section(e), d);
    } else {
      InDimensionNone(Section(e), d);
    }
  }

  /** The number of questions of `d` in the section of `e`. */
  lemma SectionCount(e: DimensionKey, d: DimensionKey)
    ensures |InDimension(Section(e), d)| == if e == d then 4 else 0
  {
    SectionShape(e);
    SectionSelection(e, d);
  }

  /** Counting the questions of a dimension distributes over concatenation. */
  lemma CountAppend(xs: seq<Question>, ys: seq<Question>, d: DimensionKey)
    ensures |InDimension(xs + ys, d)| == |InDimension(xs, d)| + |InDimension(ys, d)|
  {
    InDimensionAppend(xs, ys, d);
  }

  /** The one of five values that belongs to `d`, in display order. */
  function Pick<T>(d: DimensionKey, p: T, m: T, doc: T, sg: T, c: T): T {
    match d
    case Produto => p
    case Mercado => m
    case Documentacao => doc
    case Seguranca => sg
    case Certificacoes => c
  }

  /** Selecting `d` from five joined lists, of which only the one belonging to
      `d` holds questions of `d` and is wholly of `d`, gives that list. */
  lemma SelectFromFive(p: seq<Question>, m: seq<Question>, doc: seq<Question>, sg: seq<Question>, c: seq<Question>, d: DimensionKey)
    requires InDimension(p, d) == if d == Produto then p else []
    requires InDimension(m, d) == if d == Mercado then m else []
    requires InDimension(doc, d) == if d == Documentacao then doc else []
    requires InDimension(sg, d) == if d == Seguranca then sg else []
    requires InDimension(c, d) == if d == Certificacoes then c else []
    ensures InDimension(p + m + doc + sg + c, d) == Pick(d, p, m, doc, sg, c)
  {
    InDimensionAppend(p + m + doc + sg, c, d);
    InDimensionAppend(p + m + doc, sg, d);
    InDimensionAppend(p + m, doc, d);
    InDimensionAppend(p, m, d);
    match d
    case Produto => assert InDimension(p, d) + [] + [] + [] + [] == p;
    case Mercado => assert [] + InDimension(m, d) + [] + [] + [] == m;
    case Documentacao => assert [] + [] + InDimension(doc, d) + [] + [] == doc;
    case Seguranca => assert [] + [] + [] + InDimension(sg, d) + [] == sg;
    case Certificacoes => assert [] + [] + [] + [] + InDimension(c, d) == c;
  }

  /** The questions of `d` in the catalog are exactly its section, in order. */
  lemma CatalogSelection(d: DimensionKey)
    ensures InDimension(Questions, d) == Section(d)
  {
    SectionSelection(Produto, d);
    SectionSelection(Mercado, d);
    SectionSelection(Documentacao, d);
    SectionSelection(Seguranca, d);
    SectionSelection(Certificacoes, d);
    SelectFromFive(Section(Produto), Section(Mercado), Section(Documentacao), Section(Seguranca), Section(Certificacoes), d);
    assert Pick(d, Section(Produto), Section(Mercado), Section(Documentacao), Section(Seguranca), Section(Certificacoes)) == Section(d);
  }

  /** The catalog holds exactly four questions of each dimension: those of its section. */
  lemma CatalogCount(d: DimensionKey)
    ensures |InDimension(Questions, d)| == 4
  {
    var p, m, doc, sg := Section(Produto), Section(Mercado), Section(Documentacao), Section(Seguranca);
    CountAppend(p + m + doc + sg, Section(Certificacoes), d);
    CountAppend(p + m + doc, sg, d);
    CountAppend(p + m, doc, d);
    CountAppend(p, m, d);
    SectionCount(Produto, d);
    SectionCount(Mercado, d);
    SectionCount(Documentacao, d);
    SectionCount(Seguranca, d);
    SectionCount(Certificacoes, d);
  }

  /** The shape of the catalog: twenty entries, pairwise-distinct identifiers,
      four questions per dimension. */
  lemma CatalogShape()
    ensures |Questions| == 20
    ensures DistinctIds(Questions)
    ensures forall d :: |InDimension(Questions, d)| == 4
  {
    CatalogIdsDistinct();
    forall d ensures |InDimension(Questions, d)| == 4 {
      CatalogCount(d);
    }
  }

  /** No two catalog questions share an identifier: within a section the
      identifiers differ, and across sections their initial letters do. */
  lemma CatalogIdsDistinct()
    ensures DistinctIds(Questions)
  {
    var p, m, doc, sg := Section(Produto), Section(Mercado), Section(Documentacao), Section(Seguranca);
    SectionShape(Produto);
    SectionShape(Mercado);
    SectionShape(Documentacao);
    SectionShape(Seguranca);
    SectionShape(Certificacoes);
    DistinctAppend(p, m, {'P'}, {'M'});
    DistinctAppend(p + m, doc, {'P', 'M'}, {'D'});
    DistinctAppend(p + m + doc, sg, {'P', 'M', 'D'}, {'S'});
    DistinctAppend(p + m + doc + sg, Section(Certificacoes), {'P', 'M', 'D', 'S'}, {'C'});
  }

  /** A record holding `x` for every dimension. */
  function ForEachDimension<T>(x: T): (m: map<DimensionKey, T>)
    ensures forall d :: d in m && m[d] == x
  {
    DimensionOrderEnumerates();
    map d | d in DimensionOrder :: x
  }

  /** The display order lists each of the five dimensions exactly once. */
  lemma DimensionOrderEnumerates()
    ensures |DimensionOrder| == 5
    ensures forall i, j :: 0 <= i < j < |DimensionOrder| ==> DimensionOrder[i] != DimensionOrder[j]
    ensures forall d: DimensionKey :: d in DimensionOrder
  {
    forall d: DimensionKey ensures d in DimensionOrder {
      match d
      case Produto => assert DimensionOrder[0] == d;
      case Mercado => assert DimensionOrder[1] == d;
      case Documentacao => assert DimensionOrder[2] == d;
      case Seguranca => assert DimensionOrder[3] == d;
      case Certificacoes => assert DimensionOrder[4] == d;
    }
  }
}
