/** DocumentParser.cs: the state of the boolean-retrieval engine and the
    imperative code that builds its inverted index and answers queries. */
module DocumentParsing {
  import opened Wrappers
  import opened Models
  import opened IndexBuilder
  import opened QueryEvaluation

  class DocumentParser {
    var documents: seq<Document>
    var documentsTokens: seq<TokenModel>
    var result: seq<ResultModel>
    var invertedIndex: Index

    /** All four collections start empty. */
    constructor ()
      ensures documents == [] && documentsTokens == [] && result == [] && invertedIndex == map[]
    {
      documents, documentsTokens, result, invertedIndex := [], [], [], map[];
    }

    /** InvertedIndexAddOrUpdate. `ok` is false exactly when `SingleOrDefault`
        would throw, i.e. `term` already holds two postings for the document;
        the index is then left as it was. */
    method InvertedIndexAddOrUpdate(documentId: int, term: string) returns (ok: bool)
      modifies this`invertedIndex
      ensures ok <==> !(term in old(invertedIndex) &&
                        PostingsOf(old(invertedIndex)[term].documentIdWithFrequency, documentId) > 1)
      ensures ok ==> invertedIndex == AddOrUpdate(old(invertedIndex), documentId, term)
      ensures !ok ==> invertedIndex == old(invertedIndex)
    {
      if term !in invertedIndex {
        invertedIndex := invertedIndex[term := PostingListModel([PostingListInfo(documentId, 1)])];
        return true;
      }
      var postings := invertedIndex[term].documentIdWithFrequency;
      var found := 0;
      var matches := 0;
      for i := 0 to |postings|
        invariant matches == PostingsOf(postings[..i], documentId)
        invariant matches == 0 ==> forall j :: 0 <= j < i ==> postings[j].documentId != documentId
        invariant matches > 0 ==> found < i && postings[found].documentId == documentId &&
                                  forall j :: 0 <= j < found ==> postings[j].documentId != documentId
      {
        assert postings[..i + 1][..i] == postings[..i];
        if postings[i].documentId == documentId {
          if matches == 0 {
            found := i;
          }
          matches := matches + 1;
        }
      }
      assert postings[..|postings|] == postings;
      if matches > 1 {
        return false;
      }
      if matches == 0 {
        invertedIndex := invertedIndex[term := PostingListModel(postings + [PostingListInfo(documentId, 1)])];
      } else {
        var previous := postings[found];
        invertedIndex := invertedIndex[term := PostingListModel(
          postings[found := PostingListInfo(previous.documentId, previous.frequency + 1)])];
      }
      return true;
    }

    /** CreateInvertedIndexAsync. `cached` is what the cache store holds under
        the index key (None when the key is absent or null). Nothing happens
        without documents, or when an index exists and `force` is false; an
        unforced call takes the cached index when there is one; otherwise every
        document's content tokens and then title tokens are added ON TOP of the
        current index, which is not cleared first. `ok` is false when an
        AddOrUpdate threw, which cannot happen on a well-formed index. */
    method CreateInvertedIndex(force: bool, cached: Option<Index>) returns (ok: bool)
      modifies this`invertedIndex
      ensures |documents| == 0 ==> ok && invertedIndex == old(invertedIndex)
      ensures |documents| > 0 && |old(invertedIndex)| > 0 && !force ==> ok && invertedIndex == old(invertedIndex)
      ensures |documents| > 0 && |old(invertedIndex)| == 0 && !force && cached.Some? ==>
                ok && invertedIndex == cached.value
      ensures |documents| > 0 && (force || (|old(invertedIndex)| == 0 && cached.None?)) ==>
                (ok ==> invertedIndex == Build(old(invertedIndex), documentsTokens)) &&
                (WellFormed(old(invertedIndex)) ==> ok)
    {
      ok := true;
      if |documents| == 0 {
        return;
      }
      if |invertedIndex| > 0 && !force {
        return;
      }
      if cached.Some? && !force {
        invertedIndex := cached.value;
        return;
      }
      ghost var start := invertedIndex;
      for i := 0 to |documentsTokens|
        invariant invertedIndex == Build(start, documentsTokens[..i])
        invariant WellFormed(start) ==> WellFormed(invertedIndex)
      {
        var token := documentsTokens[i];
        assert documentsTokens[..i + 1][..i] == documentsTokens[..i];
        ok := AddTokens(token.documentId, token.contentTokens, start);
        if !ok {
          return;
        }
        ok := AddTokens(token.documentId, token.titleTokens, start);
        if !ok {
          return;
        }
      }
      assert documentsTokens[..|documentsTokens|] == documentsTokens;
    }

    /** The inner ForEach over one token list of a document. */
    method AddTokens(documentId: int, tokens: seq<string>, ghost start: Index) returns (ok: bool)
      requires WellFormed(start) ==> WellFormed(invertedIndex)
      modifies this`invertedIndex
      ensures ok ==> invertedIndex == AddTerms(old(invertedIndex), documentId, tokens)
      ensures WellFormed(start) ==> ok && WellFormed(invertedIndex)
    {
      ok := true;
      for j := 0 to |tokens|
        invariant invertedIndex == AddTerms(old(invertedIndex), documentId, tokens[..j])
        invariant WellFormed(start) ==> WellFormed(invertedIndex)
      {
        assert tokens[..j + 1][..j] == tokens[..j];
        ok := AddTermChecked(documentId, tokens[j], start);
        if !ok {
          return;
        }
      }
      assert tokens[..|tokens|] == tokens;
    }

    /** One InvertedIndexAddOrUpdate call of the build loop, with the
        well-formedness bookkeeping that shows it cannot throw. */
    method AddTermChecked(documentId: int, term: string, ghost start: Index) returns (ok: bool)
      requires WellFormed(start) ==> WellFormed(invertedIndex)
      modifies this`invertedIndex
      ensures ok ==> invertedIndex == AddOrUpdate(old(invertedIndex), documentId, term)
      ensures WellFormed(start) ==> ok && WellFormed(invertedIndex)
    {
      if WellFormed(start) && term in invertedIndex {
        UniquePostingsOf(invertedIndex[term].documentIdWithFrequency, documentId);
      }
      ok := InvertedIndexAddOrUpdate(documentId, term);
      if WellFormed(start) {
        AddOrUpdateWellFormed(old(invertedIndex), documentId, term);
      }
    }

    /** Search: a recursive, read-only walk of the query tree (no `modifies`
        clause, so the index is never changed). */
    method Search(analyze: string -> seq<string>, condition: QueryNode) returns (r: Option<Postings>)
      ensures r == Evaluate(invertedIndex, analyze, condition)
      decreases condition
    {
      match condition
      case TermNode(text) =>
        var tokens := analyze(text);
        r := Option.None;
        if |tokens| > 0 && tokens[0] in invertedIndex {
          r := Some(invertedIndex[tokens[0]].documentIdWithFrequency);
        }
      case LogicalNode(op, operands) =>
        ghost var results := EvaluateEach(invertedIndex, analyze, condition, operands);
        var postingListToFilter: seq<Postings> := [];
        for k := 0 to |operands|
          invariant postingListToFilter == Present(results[..k])
        {
          assert results[..k + 1][..k] == results[..k];
          var postingList := Search(analyze, operands[k]);
          if postingList.None? {
            continue;
          }
          postingListToFilter := postingListToFilter + [postingList.value];
        }
        assert results[..|operands|] == results;
        match op {
          case And =>
            r := AndConditionPostingList(postingListToFilter);
          case Or =>
            var answer := OrConditionPostingList(postingListToFilter);
            r := Some(answer);
          case _ =>
            r := Option.None;
        }
    }

    /** OrConditionPostingList: AddRange of every operand list. */
    static method OrConditionPostingList(postingListToFilter: seq<Postings>) returns (answer: Postings)
      ensures answer == OrOf(postingListToFilter)
    {
      answer := [];
      for i := 0 to |postingListToFilter|
        invariant answer == OrOf(postingListToFilter[..i])
      {
        assert postingListToFilter[..i + 1][..i] == postingListToFilter[..i];
        answer := answer + postingListToFilter[i];
      }
      assert postingListToFilter[..|postingListToFilter|] == postingListToFilter;
    }

    /** AndConditionPostingList: null for no lists, else Merge folded from the left. */
    static method AndConditionPostingList(postingListToFilter: seq<Postings>) returns (r: Option<Postings>)
      ensures r == AndOf(postingListToFilter)
    {
      if |postingListToFilter| == 0 {
        return Option.None;
      }
      var finalAnswer := postingListToFilter[0];
      for i := 1 to |postingListToFilter|
        invariant FoldMerge(finalAnswer, postingListToFilter[i..]) == FoldMerge(postingListToFilter[0], postingListToFilter[1..])
      {
        assert postingListToFilter[i..][1..] == postingListToFilter[i + 1..];
        var secondPostingList := postingListToFilter[i];
        finalAnswer := Merge(finalAnswer, secondPostingList);
      }
      return Some(finalAnswer);
    }

    /** Merge: the two-pointer walk over `finalAnswer` and `secondPostingList`. */
    static method Merge(finalAnswer: Postings, secondPostingList: Postings) returns (answer: Postings)
      ensures answer == MergeOf(finalAnswer, secondPostingList)
    {
      var i, j := 0, 0;
      answer := [];
      while i < |finalAnswer| && j < |secondPostingList|
        invariant 0 <= i <= |finalAnswer| && 0 <= j <= |secondPostingList|
        invariant answer + MergeOf(finalAnswer[i..], secondPostingList[j..]) == MergeOf(finalAnswer, secondPostingList)
        decreases |finalAnswer| - i + |secondPostingList| - j
      {
        MergeStep(finalAnswer, secondPostingList, i, j);
        if finalAnswer[i].documentId == secondPostingList[j].documentId {
          assert answer + [finalAnswer[i]] + MergeOf(finalAnswer[i + 1..], secondPostingList[j + 1..])
              == answer + ([finalAnswer[i]] + MergeOf(finalAnswer[i + 1..], secondPostingList[j + 1..]));
          answer := answer + [finalAnswer[i]];
          i, j := i + 1, j + 1;
        } else if finalAnswer[i].documentId < secondPostingList[j].documentId {
          i := i + 1;
        } else {
          j := j + 1;
        }
      }
    }
  }

  /** A list with one posting per document holds at most one posting for any document. */
  lemma {:induction false} UniquePostingsOf(ps: seq<PostingListInfo>, d: int)
    requires UniqueDocs(ps)
    ensures PostingsOf(ps, d) <= 1
    decreases |ps|
  {
    if ps != [] {
      var n := |ps|;
      UniquePostingsOf(ps[..n - 1], d);
      if ps[n - 1].documentId == d && PostingsOf(ps[..n - 1], d) == 1 {
        PostingsOfPositive(ps[..n - 1], d);
      }
    }
  }

  lemma {:induction false} PostingsOfPositive(ps: seq<PostingListInfo>, d: int)
    requires PostingsOf(ps, d) > 0
    ensures HasPosting(ps, d)
    decreases |ps|
  {
    var n := |ps|;
    if ps[n - 1].documentId != d {
      PostingsOfPositive(ps[..n - 1], d);
      var i :| 0 <= i < n - 1 && ps[..n - 1][i].documentId == d;
      assert ps[i].documentId == d;
    }
  }
}
