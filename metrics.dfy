/** Precision, ReCall and FMeasure of DocumentParser.cs (repeated word for word
    in BertEmbeddings.cs). The judgments are the `Result` field: one
    (QueryNumber, DocumentId) row per relevance judgment. C# `decimal` is
    modelled by `real`; a DivideByZeroException by `Err(DivideByZero)`. */
module Metrics {
  import opened Wrappers
  import opened Models
  import opened QueryEvaluation

  datatype MetricError = DivideByZero

  /** The document ids of the judgment rows of query `q`, one per row, in order. */
  function RelevantDocIds(judgments: seq<ResultModel>, q: int): (ids: seq<int>)
    ensures |ids| <= |judgments|
    ensures forall d :: d in ids <==>
              exists j :: 0 <= j < |judgments| && judgments[j].queryNumber == q && judgments[j].documentId == d
  {
    if judgments == [] then []
    else
      var last := judgments[|judgments| - 1];
      var init := RelevantDocIds(judgments[..|judgments| - 1], q);
      assert forall j :: 0 <= j < |judgments| - 1 ==> judgments[..|judgments| - 1][j] == judgments[j];
      init + (if last.queryNumber == q then [last.documentId] else [])
  }

  /** Number of retrieved entries (duplicates included) whose document is among `ids`. */
  function CountRelevant(ps: Postings, ids: seq<int>): (n: nat)
    ensures n <= |ps|
  {
    if ps == [] then 0
    else CountRelevant(ps[..|ps| - 1], ids) + (if ps[|ps| - 1].documentId in ids then 1 else 0)
  }

  /** `relevantRetrieved`: 0 when the result is null. */
  function RelevantRetrieved(result: Option<Postings>, judgments: seq<ResultModel>, q: int): (n: nat)
    ensures result.Some? ==> n <= |result.value|
  {
    if result.None? then 0 else CountRelevant(result.value, RelevantDocIds(judgments, q))
  }

  /** Precision: relevant retrieved over retrieved, a decimal division that
      throws when the result is null or empty, and otherwise lies in [0, 1]. */
  function Precision(result: Option<Postings>, judgments: seq<ResultModel>, q: int): (r: Result<real, MetricError>)
    ensures r.Err? <==> result.None? || result.value == []
    ensures r.Ok? ==> 0.0 <= r.value <= 1.0
    ensures r.Ok? ==> r.value * |result.value| as real == RelevantRetrieved(result, judgments, q) as real
  {
    var retrieved := if result.Some? then |result.value| else 0;
    if retrieved == 0 then Err(DivideByZero)
    else Ok(RelevantRetrieved(result, judgments, q) as real / retrieved as real)
  }

  /** ReCall: an INTEGER division of relevant retrieved by the number of
      judgment rows of the query, converted to decimal afterwards. It throws
      when the query has no judgments, is the whole number of times the
      judgment rows fit into the relevant retrieved entries, and so is 0
      exactly when fewer relevant entries were retrieved than the query has
      judgment rows. */
  function ReCall(result: Option<Postings>, judgments: seq<ResultModel>, q: int): (r: Result<real, MetricError>)
    ensures r.Err? <==> forall j :: 0 <= j < |judgments| ==> judgments[j].queryNumber != q
    ensures r.Ok? ==> r.value >= 0.0 && r.value == r.value.Floor as real
    ensures r.Ok? ==> (r.value == 0.0 <==> RelevantRetrieved(result, judgments, q) < |RelevantDocIds(judgments, q)|)
    ensures r.Ok? ==>
              var k, n := r.value.Floor, |RelevantDocIds(judgments, q)|;
              k * n <= RelevantRetrieved(result, judgments, q) < (k + 1) * n
  {
    var ids := RelevantDocIds(judgments, q);
    NoJudgments(judgments, q);
    if |ids| == 0 then Err(DivideByZero)
    else Ok(IntegerQuotient(RelevantRetrieved(result, judgments, q), |ids|))
  }

  /** `(decimal)(a / n)` for C# ints: the whole number of times `n` fits
      into `a`, so it brackets the exact quotient. */
  function IntegerQuotient(a: nat, n: nat): (d: real)
    requires n > 0
    ensures d >= 0.0 && d == d.Floor as real
    ensures d == 0.0 <==> a < n
    ensures d.Floor * n <= a < (d.Floor + 1) * n
  {
    var k := a / n;
    assert k * n <= a < (k + 1) * n;
    k as real
  }

  /** One relevant id per judgment row of the query: the length is the
      number of rows that name `q`. */
  lemma {:induction false} RelevantDocIdsRows(judgments: seq<ResultModel>, q: int)
    ensures |RelevantDocIds(judgments, q)| == |set j | 0 <= j < |judgments| && judgments[j].queryNumber == q|
    decreases |judgments|
  {
    if judgments != [] {
      var n := |judgments|;
      var init := judgments[..n - 1];
      RelevantDocIdsRows(init, q);
      var last := judgments[n - 1];
      assert RelevantDocIds(judgments, q) ==
             RelevantDocIds(init, q) + (if last.queryNumber == q then [last.documentId] else []);
      assert forall j :: 0 <= j < |init| ==> init[j] == judgments[j];
      var before := set j | 0 <= j < |init| && init[j].queryNumber == q;
      var all := set j | 0 <= j < n && judgments[j].queryNumber == q;
      if judgments[n - 1].queryNumber == q {
        assert all == before + {n - 1};
      } else {
        assert all == before;
      }
    }
  }

  /** The relevant count is the number of retrieved positions whose
      document is among `ids`, duplicates included. */
  lemma {:induction false} CountRelevantPositions(ps: Postings, ids: seq<int>)
    ensures CountRelevant(ps, ids) == |set i | 0 <= i < |ps| && ps[i].documentId in ids|
    decreases |ps|
  {
    if ps != [] {
      var n := |ps|;
      var init := ps[..n - 1];
      CountRelevantPositions(init, ids);
      assert CountRelevant(ps, ids) == CountRelevant(init, ids) + (if ps[n - 1].documentId in ids then 1 else 0);
      var before := set i | 0 <= i < |init| && init[i].documentId in ids;
      var all := set i | 0 <= i < n && ps[i].documentId in ids;
      if ps[n - 1].documentId in ids {
        assert all == before + {n - 1};
      } else {
        assert all == before;
      }
    }
  }

  /** A query has no relevant ids exactly when no judgment row names it. */
  lemma {:induction false} NoJudgments(judgments: seq<ResultModel>, q: int)
    ensures RelevantDocIds(judgments, q) == [] <==> forall j :: 0 <= j < |judgments| ==> judgments[j].queryNumber != q
  {
    if judgments != [] {
      var init := judgments[..|judgments| - 1];
      NoJudgments(init, q);
      assert forall j :: 0 <= j < |init| ==> init[j] == judgments[j];
    }
  }

  /** The F-measure of a precision and a recall: 0 when both are 0, otherwise
      2PR/(P+R); it is 0 exactly when one of them is 0, and it lies between
      the smaller and the larger of the two. */
  function Combine(p: real, r: real): (f: real)
    requires p >= 0.0 && r >= 0.0
    ensures f >= 0.0
    ensures f == 0.0 <==> p == 0.0 || r == 0.0
    ensures (if p <= r then p else r) <= f <= (if p <= r then r else p)
  {
    if p == 0.0 && r == 0.0 then 0.0
    else
      var f := 2.0 * p * r / (p + r);
      if p <= r then
        HarmonicBounds(p, r);
        f
      else
        HarmonicBounds(r, p);
        assert 2.0 * r * p == 2.0 * p * r;
        f
  }

  /** For 0 <= lo <= m with m > 0, 2*lo*m/(lo+m) lies between lo and m and is 0 exactly when lo is. */
  lemma HarmonicBounds(lo: real, m: real)
    requires 0.0 <= lo <= m && 0.0 < m
    ensures var f := 2.0 * lo * m / (lo + m); lo <= f <= m && (f == 0.0 <==> lo == 0.0)
  {
    var s := lo + m;
    var num := 2.0 * lo * m;
    var f := num / s;
    var lm := lo * m;
    assert num == lm + lm;
    assert f * s == num;
    var ll := lo * lo;
    var mm := m * m;
    assert lo * s == ll + lm;
    assert m * s == lm + mm;
    assert ll <= lm by {
      assert lo * (m - lo) == lm - ll;
      assert lo * (m - lo) >= 0.0;
    }
    assert lm <= mm by {
      assert m * (m - lo) == mm - lm;
      assert m * (m - lo) >= 0.0;
    }
    ScaleDown(lo, f, s);
    ScaleDown(f, m, s);
  }

  /** a*s <= b*s with s > 0 gives a <= b. */
  lemma ScaleDown(a: real, b: real, s: real)
    requires s > 0.0 && a * s <= b * s
    ensures a <= b
  {
  }

  /** FMeasure: fails when Precision or ReCall fails, otherwise combines them. */
  function FMeasure(result: Option<Postings>, judgments: seq<ResultModel>, q: int): (r: Result<real, MetricError>)
    ensures r.Err? <==> Precision(result, judgments, q).Err? || ReCall(result, judgments, q).Err?
    ensures r.Ok? ==> r.value == Combine(Precision(result, judgments, q).value, ReCall(result, judgments, q).value)
  {
    match Precision(result, judgments, q)
    case Err(e) => Err(e)
    case Ok(p) =>
      match ReCall(result, judgments, q)
      case Err(e) => Err(e)
      case Ok(rc) => Ok(Combine(p, rc))
  }

  /** FMeasure is 0 when both precision and recall are 0, 0.5 for precision
      and recall 0.5. */
  lemma CombineExamples()
    ensures Combine(0.0, 0.0) == 0.0
    ensures Combine(0.5, 0.5) == 0.5
  {
  }

  /** Retrieving [1, 3, 2] for a query judged relevant to {1, 2} gives
      precision 2/3, recall 1 and F-measure 0.8. */
  lemma ThreeDocumentExample()
    ensures var judgments := [ResultModel(1, 1), ResultModel(1, 2)];
            var retrieved := Some([PostingListInfo(1, 1), PostingListInfo(3, 1), PostingListInfo(2, 1)]);
            Precision(retrieved, judgments, 1) == Ok(2.0 / 3.0) &&
            ReCall(retrieved, judgments, 1) == Ok(1.0) &&
            FMeasure(retrieved, judgments, 1) == Ok(0.8)
  {
    var judgments := [ResultModel(1, 1), ResultModel(1, 2)];
    var ps := [PostingListInfo(1, 1), PostingListInfo(3, 1), PostingListInfo(2, 1)];
    assert RelevantDocIds(judgments[..1], 1) == [1];
    assert RelevantDocIds(judgments, 1) == [1, 2];
    assert CountRelevant(ps[..1], [1, 2]) == 1;
    assert CountRelevant(ps[..2], [1, 2]) == 1;
    assert CountRelevant(ps, [1, 2]) == 2;
  }

  /** Integer-division recall: one of two judged documents retrieved gives recall 0. */
  lemma ReCallTruncates()
    ensures ReCall(Some([PostingListInfo(1, 1)]), [ResultModel(1, 1), ResultModel(1, 2)], 1) == Ok(0.0)
  {
    var judgments := [ResultModel(1, 1), ResultModel(1, 2)];
    assert RelevantDocIds(judgments[..1], 1) == [1];
    assert RelevantDocIds(judgments, 1) == [1, 2];
  }

  /** An OR result that lists a judged document twice counts it twice: with
      one judgment, recall is 2 and the F-measure 4/3, both above 1. */
  lemma DuplicatesExceedOne()
    ensures var judgments := [ResultModel(1, 5)];
            var retrieved := Some(OrOf([[PostingListInfo(5, 1)], [PostingListInfo(5, 1)]]));
            ReCall(retrieved, judgments, 1) == Ok(2.0) &&
            FMeasure(retrieved, judgments, 1) == Ok(4.0 / 3.0)
  {
    var judgments := [ResultModel(1, 5)];
    var lists := [[PostingListInfo(5, 1)], [PostingListInfo(5, 1)]];
    assert lists[..1] == [[PostingListInfo(5, 1)]];
    assert OrOf(lists[..1]) == [PostingListInfo(5, 1)];
    var ps := OrOf(lists);
    assert ps == [PostingListInfo(5, 1), PostingListInfo(5, 1)];
    assert RelevantDocIds(judgments, 1) == [5];
    assert ps[..1] == [PostingListInfo(5, 1)];
    assert CountRelevant(ps, [5]) == 2;
    assert IntegerQuotient(2, 1) == 2.0;
    assert Precision(Some(ps), judgments, 1) == Ok(1.0);
  }
}
