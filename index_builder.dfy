/** The inverted-index build of DocumentParser.cs (CreateInvertedIndexAsync and
    InvertedIndexAddOrUpdate), stated as functions over the index value. The
    class DocumentParser (document_parser.dfy) runs the same steps in place and
    is proved equal to these functions. */
module IndexBuilder {
  import opened Models

  /** `Dictionary<string, PostingListModel>`: term to posting list. */
  type Index = map<string, PostingListModel>

  /** Position of the first posting of document `d`, or |ps| when there is none. */
  function FindPosting(ps: seq<PostingListInfo>, d: int): (k: nat)
    ensures k <= |ps|
    ensures k < |ps| ==> ps[k].documentId == d
    ensures forall i :: 0 <= i < k ==> ps[i].documentId != d
  {
    if ps == [] then 0
    else if ps[0].documentId == d then 0
    else 1 + FindPosting(ps[1..], d)
  }

  predicate HasPosting(ps: seq<PostingListInfo>, d: int)
  {
    exists i :: 0 <= i < |ps| && ps[i].documentId == d
  }

  /** Number of postings of document `d`; `SingleOrDefault` throws when it exceeds one. */
  function PostingsOf(ps: seq<PostingListInfo>, d: int): nat
  {
    if ps == [] then 0
    else PostingsOf(ps[..|ps| - 1], d) + (if ps[|ps| - 1].documentId == d then 1 else 0)
  }

  /** At most one posting per document. */
  predicate UniqueDocs(ps: seq<PostingListInfo>)
  {
    forall i, j :: 0 <= i < j < |ps| ==> ps[i].documentId != ps[j].documentId
  }

  /** Strictly ascending by document id. */
  predicate Ascending(ps: seq<PostingListInfo>)
  {
    forall i, j :: 0 <= i < j < |ps| ==> ps[i].documentId < ps[j].documentId
  }

  /** At most one posting per document, each with a frequency of at least one. */
  predicate ValidPostings(ps: seq<PostingListInfo>)
  {
    UniqueDocs(ps) && forall i :: 0 <= i < |ps| ==> ps[i].frequency >= 1
  }

  /** Every term's posting list is valid. */
  predicate WellFormed(index: Index)
  {
    forall t :: t in index ==> ValidPostings(index[t].documentIdWithFrequency)
  }

  /** No document id in the list exceeds `d`. */
  predicate IdsAtMost(ps: seq<PostingListInfo>, d: int)
  {
    forall i :: 0 <= i < |ps| ==> ps[i].documentId <= d
  }

  predicate AllAscending(index: Index)
  {
    forall t :: t in index ==> Ascending(index[t].documentIdWithFrequency)
  }

  /** Every document id in the index is below `bound`. */
  predicate IdsBelow(index: Index, bound: int)
  {
    forall t, i :: t in index && 0 <= i < |index[t].documentIdWithFrequency| ==>
      index[t].documentIdWithFrequency[i].documentId < bound
  }

  /** Total frequency recorded for document `d` in a posting list. */
  function Frequency(ps: seq<PostingListInfo>, d: int): int
  {
    if ps == [] then 0
    else Frequency(ps[..|ps| - 1], d) + (if ps[|ps| - 1].documentId == d then ps[|ps| - 1].frequency else 0)
  }

  function TermFrequency(index: Index, t: string, d: int): int
  {
    if t in index then Frequency(index[t].documentIdWithFrequency, d) else 0
  }

  function TermCount(index: Index, t: string): int
  {
    if t in index then index[t].Count() else 0
  }

  /** Number of occurrences of `t` in `terms`. */
  function Occ(terms: seq<string>, t: string): nat
  {
    if terms == [] then 0 else Occ(terms[..|terms| - 1], t) + (if terms[|terms| - 1] == t then 1 else 0)
  }

  /** One call of InvertedIndexAddOrUpdate(d, t), when it does not throw: bump
      the posting of `d` under `t`, or append `(d, 1)`, creating the list when
      `t` is new. */
  function AddOrUpdate(index: Index, d: int, t: string): (r: Index)
    ensures r.Keys == index.Keys + {t}
    ensures forall u :: u in index && u != t ==> r[u] == index[u]
  {
    if t in index then
      var ps := index[t].documentIdWithFrequency;
      var k := FindPosting(ps, d);
      if k < |ps| then index[t := PostingListModel(ps[k := PostingListInfo(d, ps[k].frequency + 1)])]
      else index[t := PostingListModel(ps + [PostingListInfo(d, 1)])]
    else
      index[t := PostingListModel([PostingListInfo(d, 1)])]
  }

  /** Adds every term of `terms` for document `d`, left to right: the terms
      become keys, and every other key keeps its list. */
  function AddTerms(index: Index, d: int, terms: seq<string>): (r: Index)
    ensures forall u :: u in r <==> u in index || u in terms
    ensures forall u :: u in index && u !in terms ==> r[u] == index[u]
  {
    if terms == [] then index
    else
      var init := terms[..|terms| - 1];
      assert forall u :: u in terms <==> u in init || u == terms[|terms| - 1];
      AddOrUpdate(AddTerms(index, d, init), d, terms[|terms| - 1])
  }

  /** The body of the ForEach over DocumentsTokens: content tokens first, then title tokens. */
  function AddDocument(index: Index, doc: TokenModel): (r: Index)
    ensures forall u :: u in r <==> u in index || Mentions(doc, u)
    ensures forall u :: u in index && !Mentions(doc, u) ==> r[u] == index[u]
  {
    AddTerms(AddTerms(index, doc.documentId, doc.contentTokens), doc.documentId, doc.titleTokens)
  }

  /** The token `u` is among the content or title tokens of `doc`. */
  predicate Mentions(doc: TokenModel, u: string)
  {
    u in doc.contentTokens || u in doc.titleTokens
  }

  /** The whole build loop, on top of whatever `index` already holds. */
  function Build(index: Index, docs: seq<TokenModel>): Index
  {
    if docs == [] then index
    else AddDocument(Build(index, docs[..|docs| - 1]), docs[|docs| - 1])
  }

  /** The keys after the build loop are the old keys and every token of
      every entry, and a key that no entry mentions keeps its list. */
  lemma {:induction false} BuildKeys(index: Index, docs: seq<TokenModel>)
    ensures forall u :: u in Build(index, docs) <==> u in index || exists i :: 0 <= i < |docs| && Mentions(docs[i], u)
    ensures forall u :: u in index && (forall i :: 0 <= i < |docs| ==> !Mentions(docs[i], u)) ==>
              Build(index, docs)[u] == index[u]
    decreases |docs|
  {
    if docs != [] {
      var init := docs[..|docs| - 1];
      BuildKeys(index, init);
      assert forall i :: 0 <= i < |init| ==> init[i] == docs[i];
    }
  }

  /** Occurrences of `t` in the content and title tokens of the entries for document `d`. */
  function Occurrences(docs: seq<TokenModel>, t: string, d: int): nat
  {
    if docs == [] then 0
    else
      var last := docs[|docs| - 1];
      Occurrences(docs[..|docs| - 1], t, d) +
      (if last.documentId == d then Occ(last.contentTokens, t) + Occ(last.titleTokens, t) else 0)
  }

  /** Occurrences of `t` in the content and title tokens of all documents. */
  function TotalOccurrences(docs: seq<TokenModel>, t: string): nat
  {
    if docs == [] then 0
    else
      var last := docs[|docs| - 1];
      TotalOccurrences(docs[..|docs| - 1], t) + Occ(last.contentTokens, t) + Occ(last.titleTokens, t)
  }

  predicate DocsAscending(docs: seq<TokenModel>)
  {
    forall i, j :: 0 <= i < j < |docs| ==> docs[i].documentId < docs[j].documentId
  }

  // ---------------------------------------------------------------------------
  // One AddOrUpdate step

  /** When `t` already has a posting for `d`, exactly that posting's frequency
      rises by one and nothing else in the list moves. */
  lemma AddOrUpdateExisting(index: Index, d: int, t: string, k: nat)
    requires t in index && UniqueDocs(index[t].documentIdWithFrequency)
    requires k < |index[t].documentIdWithFrequency| && index[t].documentIdWithFrequency[k].documentId == d
    ensures var ps := index[t].documentIdWithFrequency;
            AddOrUpdate(index, d, t)[t].documentIdWithFrequency
              == ps[k := PostingListInfo(d, ps[k].frequency + 1)]
  {
  }

  /** When `t` has no posting for `d`, `(d, 1)` goes at the end of its list
      (a new one-element list when `t` is new). */
  lemma AddOrUpdateFresh(index: Index, d: int, t: string)
    requires t in index ==> !HasPosting(index[t].documentIdWithFrequency, d)
    ensures var old_ps := if t in index then index[t].documentIdWithFrequency else [];
            AddOrUpdate(index, d, t)[t].documentIdWithFrequency == old_ps + [PostingListInfo(d, 1)]
  {
  }

  lemma FrequencyAppend(ps: seq<PostingListInfo>, p: PostingListInfo, e: int)
    ensures Frequency(ps + [p], e) == Frequency(ps, e) + (if p.documentId == e then p.frequency else 0)
  {
    assert (ps + [p])[..|ps|] == ps;
  }

  lemma {:induction false} FrequencyBump(ps: seq<PostingListInfo>, k: nat, e: int)
    requires k < |ps|
    ensures Frequency(ps[k := PostingListInfo(ps[k].documentId, ps[k].frequency + 1)], e)
            == Frequency(ps, e) + (if ps[k].documentId == e then 1 else 0)
    decreases |ps|
  {
    var q := PostingListInfo(ps[k].documentId, ps[k].frequency + 1);
    var n := |ps|;
    if k == n - 1 {
      assert ps[k := q][..n - 1] == ps[..n - 1];
    } else {
      FrequencyBump(ps[..n - 1], k, e);
      assert ps[k := q][..n - 1] == ps[..n - 1][k := q];
    }
  }

  /** AddOrUpdate(d, t) raises the frequency of (t, d) by one and leaves every
      other (term, document) frequency alone. */
  lemma AddOrUpdateFrequency(index: Index, d: int, t: string, u: string, e: int)
    ensures TermFrequency(AddOrUpdate(index, d, t), u, e)
            == TermFrequency(index, u, e) + (if u == t && e == d then 1 else 0)
  {
    if u == t {
      if t in index {
        var ps := index[t].documentIdWithFrequency;
        var k := FindPosting(ps, d);
        if k < |ps| {
          FrequencyBump(ps, k, e);
        } else {
          FrequencyAppend(ps, PostingListInfo(d, 1), e);
        }
      } else {
        FrequencyAppend([], PostingListInfo(d, 1), e);
      }
    }
  }

  /** AddOrUpdate(d, t) raises Count of `t` by one and leaves every other term's Count alone. */
  lemma AddOrUpdateCount(index: Index, d: int, t: string, u: string)
    ensures TermCount(AddOrUpdate(index, d, t), u) == TermCount(index, u) + (if u == t then 1 else 0)
  {
    if u == t {
      if t in index {
        var ps := index[t].documentIdWithFrequency;
        var k := FindPosting(ps, d);
        if k < |ps| {
          CountBump(ps, k);
        } else {
          CountAppend(index[t], PostingListInfo(d, 1));
        }
      } else {
        CountAppend(PostingListModel([]), PostingListInfo(d, 1));
      }
    }
  }

  /** Bumping a frequency keeps a posting list valid. */
  lemma BumpValid(ps: seq<PostingListInfo>, k: nat)
    requires ValidPostings(ps) && k < |ps|
    ensures ValidPostings(ps[k := PostingListInfo(ps[k].documentId, ps[k].frequency + 1)])
  {
    var r := ps[k := PostingListInfo(ps[k].documentId, ps[k].frequency + 1)];
    assert forall i :: 0 <= i < |r| ==> r[i].documentId == ps[i].documentId;
  }

  /** Appending `(d, 1)` to a valid list without `d` keeps it valid. */
  lemma AppendValid(ps: seq<PostingListInfo>, d: int)
    requires ValidPostings(ps) && forall i :: 0 <= i < |ps| ==> ps[i].documentId != d
    ensures ValidPostings(ps + [PostingListInfo(d, 1)])
  {
    var r := ps + [PostingListInfo(d, 1)];
    assert forall i :: 0 <= i < |ps| ==> r[i] == ps[i];
  }

  /** AddOrUpdate(d, t) leaves the list of `t` valid. */
  lemma AddOrUpdateValid(index: Index, d: int, t: string)
    requires t in index ==> ValidPostings(index[t].documentIdWithFrequency)
    ensures ValidPostings(AddOrUpdate(index, d, t)[t].documentIdWithFrequency)
  {
    if t in index {
      var ps := index[t].documentIdWithFrequency;
      var k := FindPosting(ps, d);
      if k < |ps| {
        BumpValid(ps, k);
      } else {
        AppendValid(ps, d);
      }
    }
  }

  lemma AddOrUpdateWellFormed(index: Index, d: int, t: string)
    requires WellFormed(index)
    ensures WellFormed(AddOrUpdate(index, d, t))
  {
    var r := AddOrUpdate(index, d, t);
    AddOrUpdateValid(index, d, t);
    forall u | u in r ensures ValidPostings(r[u].documentIdWithFrequency) {
      if u != t {
        assert r[u] == index[u];
      }
    }
  }

  /** Bumping a frequency keeps the document ids where they were. */
  lemma BumpAscending(ps: seq<PostingListInfo>, k: nat, d: int)
    requires Ascending(ps) && IdsAtMost(ps, d) && k < |ps|
    ensures var r := ps[k := PostingListInfo(ps[k].documentId, ps[k].frequency + 1)];
            Ascending(r) && IdsAtMost(r, d)
  {
    var r := ps[k := PostingListInfo(ps[k].documentId, ps[k].frequency + 1)];
    assert forall i :: 0 <= i < |r| ==> r[i].documentId == ps[i].documentId;
  }

  /** Appending `d` to a list whose ids are all at most `d`, none equal to it,
      keeps it strictly ascending. */
  lemma AppendAscending(ps: seq<PostingListInfo>, d: int)
    requires Ascending(ps) && IdsAtMost(ps, d) && forall i :: 0 <= i < |ps| ==> ps[i].documentId != d
    ensures Ascending(ps + [PostingListInfo(d, 1)]) && IdsAtMost(ps + [PostingListInfo(d, 1)], d)
  {
    var r := ps + [PostingListInfo(d, 1)];
    assert forall i :: 0 <= i < |ps| ==> r[i] == ps[i];
  }

  /** AddOrUpdate(d, t) keeps the list of `t` ascending with ids at most `d`. */
  lemma AddOrUpdateListAscending(index: Index, d: int, t: string)
    requires t in index ==> Ascending(index[t].documentIdWithFrequency) && IdsAtMost(index[t].documentIdWithFrequency, d)
    ensures Ascending(AddOrUpdate(index, d, t)[t].documentIdWithFrequency)
    ensures IdsAtMost(AddOrUpdate(index, d, t)[t].documentIdWithFrequency, d)
  {
    if t in index {
      var ps := index[t].documentIdWithFrequency;
      var k := FindPosting(ps, d);
      if k < |ps| {
        BumpAscending(ps, k, d);
      } else {
        AppendAscending(ps, d);
      }
    }
  }

  /** Adding document `d` when no id in the index exceeds `d` keeps every list
      strictly ascending. */
  lemma AddOrUpdateAscending(index: Index, d: int, t: string)
    requires AllAscending(index) && IdsBelow(index, d + 1)
    ensures AllAscending(AddOrUpdate(index, d, t)) && IdsBelow(AddOrUpdate(index, d, t), d + 1)
  {
    var r := AddOrUpdate(index, d, t);
    if t in index {
      var ps := index[t].documentIdWithFrequency;
      assert IdsAtMost(ps, d);
    }
    AddOrUpdateListAscending(index, d, t);
    forall u | u in r ensures Ascending(r[u].documentIdWithFrequency) && IdsAtMost(r[u].documentIdWithFrequency, d) {
      if u != t {
        var ps := index[u].documentIdWithFrequency;
        assert r[u] == index[u];
        assert IdsAtMost(ps, d);
      }
    }
  }

  // ---------------------------------------------------------------------------
  // Whole documents and the whole build

  lemma {:induction false} AddTermsFrequency(index: Index, d: int, terms: seq<string>, t: string, e: int)
    ensures TermFrequency(AddTerms(index, d, terms), t, e)
            == TermFrequency(index, t, e) + (if e == d then Occ(terms, t) else 0)
    decreases |terms|
  {
    if terms != [] {
      var n := |terms|;
      AddTermsFrequency(index, d, terms[..n - 1], t, e);
      AddOrUpdateFrequency(AddTerms(index, d, terms[..n - 1]), d, terms[n - 1], t, e);
    }
  }

  lemma {:induction false} AddTermsCount(index: Index, d: int, terms: seq<string>, t: string)
    ensures TermCount(AddTerms(index, d, terms), t) == TermCount(index, t) + Occ(terms, t)
    decreases |terms|
  {
    if terms != [] {
      var n := |terms|;
      AddTermsCount(index, d, terms[..n - 1], t);
      AddOrUpdateCount(AddTerms(index, d, terms[..n - 1]), d, terms[n - 1], t);
    }
  }

  lemma {:induction false} AddTermsWellFormed(index: Index, d: int, terms: seq<string>)
    requires WellFormed(index)
    ensures WellFormed(AddTerms(index, d, terms))
    decreases |terms|
  {
    if terms != [] {
      AddTermsWellFormed(index, d, terms[..|terms| - 1]);
      AddOrUpdateWellFormed(AddTerms(index, d, terms[..|terms| - 1]), d, terms[|terms| - 1]);
    }
  }

  lemma {:induction false} AddTermsAscending(index: Index, d: int, terms: seq<string>)
    requires AllAscending(index) && IdsBelow(index, d + 1)
    ensures AllAscending(AddTerms(index, d, terms)) && IdsBelow(AddTerms(index, d, terms), d + 1)
    decreases |terms|
  {
    if terms != [] {
      AddTermsAscending(index, d, terms[..|terms| - 1]);
      AddOrUpdateAscending(AddTerms(index, d, terms[..|terms| - 1]), d, terms[|terms| - 1]);
    }
  }

  /** The build adds the occurrences of `docs` on top of the frequencies the
      index already held: from an empty index the frequency of (t, d) is the
      number of occurrences of `t` in document `d`'s content and title tokens;
      a forced rebuild over a populated index doubles up. */
  lemma {:induction false} BuildFrequency(index: Index, docs: seq<TokenModel>, t: string, d: int)
    ensures TermFrequency(Build(index, docs), t, d) == TermFrequency(index, t, d) + Occurrences(docs, t, d)
    decreases |docs|
  {
    if docs != [] {
      var n := |docs|;
      var last := docs[n - 1];
      var mid := Build(index, docs[..n - 1]);
      BuildFrequency(index, docs[..n - 1], t, d);
      AddTermsFrequency(mid, last.documentId, last.contentTokens, t, d);
      AddTermsFrequency(AddTerms(mid, last.documentId, last.contentTokens), last.documentId, last.titleTokens, t, d);
    }
  }

  /** The build adds each term's total number of occurrences to its Count. */
  lemma {:induction false} BuildCount(index: Index, docs: seq<TokenModel>, t: string)
    ensures TermCount(Build(index, docs), t) == TermCount(index, t) + TotalOccurrences(docs, t)
    decreases |docs|
  {
    if docs != [] {
      var n := |docs|;
      var last := docs[n - 1];
      var mid := Build(index, docs[..n - 1]);
      BuildCount(index, docs[..n - 1], t);
      AddTermsCount(mid, last.documentId, last.contentTokens, t);
      AddTermsCount(AddTerms(mid, last.documentId, last.contentTokens), last.documentId, last.titleTokens, t);
    }
  }

  lemma {:induction false} BuildWellFormed(index: Index, docs: seq<TokenModel>)
    requires WellFormed(index)
    ensures WellFormed(Build(index, docs))
    decreases |docs|
  {
    if docs != [] {
      var n := |docs|;
      var last := docs[n - 1];
      BuildWellFormed(index, docs[..n - 1]);
      AddTermsWellFormed(Build(index, docs[..n - 1]), last.documentId, last.contentTokens);
      AddTermsWellFormed(AddTerms(Build(index, docs[..n - 1]), last.documentId, last.contentTokens),
                         last.documentId, last.titleTokens);
    }
  }

  /** Documents processed in ascending id order on top of an index whose ids
      are all smaller give strictly ascending posting lists. */
  lemma {:induction false} BuildAscending(index: Index, docs: seq<TokenModel>)
    requires AllAscending(index) && DocsAscending(docs)
    requires |docs| > 0 ==> IdsBelow(index, docs[0].documentId)
    ensures AllAscending(Build(index, docs))
    ensures |docs| > 0 ==> IdsBelow(Build(index, docs), docs[|docs| - 1].documentId + 1)
    decreases |docs|
  {
    if docs != [] {
      var n := |docs|;
      var last := docs[n - 1];
      var mid := Build(index, docs[..n - 1]);
      BuildAscending(index, docs[..n - 1]);
      assert IdsBelow(mid, last.documentId + 1) by {
        if n > 1 {
          assert docs[..n - 1][n - 2].documentId < last.documentId;
        }
      }
      AddTermsAscending(mid, last.documentId, last.contentTokens);
      AddTermsAscending(AddTerms(mid, last.documentId, last.contentTokens), last.documentId, last.titleTokens);
    }
  }

  lemma {:induction false} FrequencyOfUnique(ps: seq<PostingListInfo>, d: int)
    requires UniqueDocs(ps)
    ensures HasPosting(ps, d) ==> Frequency(ps, d) == ps[FindPosting(ps, d)].frequency
    ensures !HasPosting(ps, d) ==> Frequency(ps, d) == 0
    decreases |ps|
  {
    if ps != [] {
      var n := |ps|;
      var init := ps[..n - 1];
      FrequencyOfUnique(init, d);
      if ps[n - 1].documentId == d {
        assert !HasPosting(init, d);
        assert FindPosting(ps, d) == n - 1;
      } else if HasPosting(ps, d) {
        var i :| 0 <= i < n && ps[i].documentId == d;
        assert init[i].documentId == d;
        var k := FindPosting(ps, d);
        assert FindPosting(init, d) == k by {
          FindPostingPrefix(ps, d);
        }
      } else {
        assert !HasPosting(init, d);
      }
    }
  }

  lemma FindPostingPrefix(ps: seq<PostingListInfo>, d: int)
    requires ps != [] && FindPosting(ps, d) < |ps| - 1
    ensures FindPosting(ps[..|ps| - 1], d) == FindPosting(ps, d)
  {
    var k := FindPosting(ps, d);
    var j := FindPosting(ps[..|ps| - 1], d);
    assert ps[..|ps| - 1][k].documentId == d;
  }

  /** Built from an empty index: at most one posting per (term, document), and
      a (term, document) posting exists exactly when the term occurs in that
      document, with the number of occurrences as its frequency. */
  lemma BuildFromEmpty(docs: seq<TokenModel>, t: string, d: int)
    ensures WellFormed(Build(map[], docs))
    ensures var r := Build(map[], docs);
            (t in r && HasPosting(r[t].documentIdWithFrequency, d)) <==> Occurrences(docs, t, d) > 0
    ensures var r := Build(map[], docs);
            t in r && HasPosting(r[t].documentIdWithFrequency, d) ==>
              r[t].documentIdWithFrequency[FindPosting(r[t].documentIdWithFrequency, d)].frequency
                == Occurrences(docs, t, d)
    ensures TermCount(Build(map[], docs), t) == TotalOccurrences(docs, t)
  {
    var r := Build(map[], docs);
    BuildWellFormed(map[], docs);
    BuildFrequency(map[], docs, t, d);
    BuildCount(map[], docs, t);
    if t in r {
      var ps := r[t].documentIdWithFrequency;
      FrequencyOfUnique(ps, d);
      if HasPosting(ps, d) {
        var k := FindPosting(ps, d);
        assert ps[k].frequency >= 1;
      }
    }
  }

  /** Built from an empty index over documents in ascending id order, every
      posting list is strictly ascending by document id. */
  lemma BuildFromEmptyAscending(docs: seq<TokenModel>)
    requires DocsAscending(docs)
    ensures AllAscending(Build(map[], docs))
  {
    BuildAscending(map[], docs);
  }
}
