/** What DocumentParser.Search computes (DocumentParser.cs, Search, Merge,
    AndConditionPostingList, OrConditionPostingList), as functions. The class
    DocumentParser (document_parser.dfy) holds the loops and is proved equal
    to these functions. */
module QueryEvaluation {
  import opened Wrappers
  import opened Models
  import opened IndexBuilder

  type Postings = seq<PostingListInfo>

  /** `r` can be obtained from `a` by deleting elements. */
  predicate IsSubsequence(r: Postings, a: Postings)
    decreases |a|
  {
    if r == [] then true
    else if a == [] then false
    else (r[0] == a[0] && IsSubsequence(r[1..], a[1..])) || IsSubsequence(r, a[1..])
  }

  /** The two-pointer walk of Merge: equal ids keep the element of `a` and
      advance both, otherwise the side with the smaller id advances. */
  function MergeOf(a: Postings, b: Postings): (r: Postings)
    ensures IsSubsequence(r, a)
    ensures forall x :: x in r ==> x in a && HasPosting(b, x.documentId)
    decreases |a| + |b|
  {
    if a == [] || b == [] then []
    else if a[0].documentId == b[0].documentId then [a[0]] + MergeOf(a[1..], b[1..])
    else if a[0].documentId < b[0].documentId then MergeOf(a[1..], b)
    else MergeOf(a, b[1..])
  }

  /** One step of the walk of MergeOf from the cursors `i` and `j`. */
  lemma MergeStep(a: Postings, b: Postings, i: nat, j: nat)
    requires i < |a| && j < |b|
    ensures MergeOf(a[i..], b[j..]) ==
              if a[i].documentId == b[j].documentId then [a[i]] + MergeOf(a[i + 1..], b[j + 1..])
              else if a[i].documentId < b[j].documentId then MergeOf(a[i + 1..], b[j..])
              else MergeOf(a[i..], b[j + 1..])
  {
    assert a[i..][1..] == a[i + 1..];
    assert b[j..][1..] == b[j + 1..];
  }

  /** The elements of `a` whose document id occurs in `b`, in `a`'s order. */
  function FilterIn(a: Postings, b: Postings): Postings
  {
    if a == [] then []
    else (if HasPosting(b, a[0].documentId) then [a[0]] else []) + FilterIn(a[1..], b)
  }

  /** Left fold of MergeOf, as the `for` loop of AndConditionPostingList does it. */
  function FoldMerge(acc: Postings, rest: seq<Postings>): (r: Postings)
    ensures forall x :: x in r ==> x in acc
    ensures forall x, k :: x in r && 0 <= k < |rest| ==> HasPosting(rest[k], x.documentId)
    decreases |rest|
  {
    if rest == [] then acc
    else FoldMerge(MergeOf(acc, rest[0]), rest[1..])
  }

  /** AndConditionPostingList: null for no operand lists, otherwise the left fold of Merge. */
  function AndOf(lists: seq<Postings>): (r: Option<Postings>)
    ensures r.None? <==> lists == []
    ensures r.Some? ==> forall x :: x in r.value ==>
              x in lists[0] && forall k :: 1 <= k < |lists| ==> HasPosting(lists[k], x.documentId)
  {
    if |lists| == 0 then Option.None else Some(FoldMerge(lists[0], lists[1..]))
  }

  /** OrConditionPostingList: the operand lists concatenated, duplicates kept. */
  function OrOf(lists: seq<Postings>): (r: Postings)
    ensures |r| == TotalLength(lists)
    ensures forall k, x :: 0 <= k < |lists| && x in lists[k] ==> x in r
  {
    if lists == [] then [] else OrOf(lists[..|lists| - 1]) + lists[|lists| - 1]
  }

  /** The non-null operand results, in order. */
  function Present(results: seq<Option<Postings>>): seq<Postings>
  {
    if results == [] then []
    else
      var last := results[|results| - 1];
      Present(results[..|results| - 1]) + (if last.Some? then [last.value] else [])
  }

  /** The posting `x` is stored in the index under some term. */
  predicate FromIndex(index: Index, x: PostingListInfo)
  {
    exists t :: t in index && x in index[t].documentIdWithFrequency
  }

  /** Search: a term is looked up by the first token the analyser yields; a
      logical node evaluates its operands, drops the null ones, and combines
      them with And or Or; every other operator yields null. Every posting of
      a result comes from the index. */
  function Evaluate(index: Index, analyze: string -> seq<string>, node: QueryNode): (r: Option<Postings>)
    ensures r.Some? ==> forall x :: x in r.value ==> FromIndex(index, x)
    decreases node, 1
  {
    match node
    case TermNode(text) =>
      var tokens := analyze(text);
      if |tokens| > 0 && tokens[0] in index then Some(index[tokens[0]].documentIdWithFrequency) else Option.None
    case LogicalNode(op, operands) =>
      var lists := Present(EvaluateEach(index, analyze, node, operands));
      PresentFromIndex(index, EvaluateEach(index, analyze, node, operands));
      match op
      case And => AndOf(lists)
      case Or => OrMembers(lists); Some(OrOf(lists))
      case _ => Option.None
  }

  /** Evaluate applied to each operand of `parent`, in order. */
  function EvaluateEach(index: Index, analyze: string -> seq<string>, ghost parent: QueryNode, operands: seq<QueryNode>)
    : (rs: seq<Option<Postings>>)
    requires forall k :: 0 <= k < |operands| ==> operands[k] < parent
    ensures |rs| == |operands|
    ensures forall k :: 0 <= k < |rs| ==> rs[k] == Evaluate(index, analyze, operands[k])
    ensures forall k, x :: 0 <= k < |rs| && rs[k].Some? && x in rs[k].value ==> FromIndex(index, x)
    decreases parent, 0
  {
    seq(|operands|, k requires 0 <= k < |operands| => Evaluate(index, analyze, operands[k]))
  }

  lemma {:induction false} PresentFromIndex(index: Index, results: seq<Option<Postings>>)
    requires forall k, x :: 0 <= k < |results| && results[k].Some? && x in results[k].value ==> FromIndex(index, x)
    ensures forall l, x :: 0 <= l < |Present(results)| && x in Present(results)[l] ==> FromIndex(index, x)
    decreases |results|
  {
    if results != [] {
      PresentFromIndex(index, results[..|results| - 1]);
    }
  }

  // ---------------------------------------------------------------------------
  // Merge

  lemma {:induction false} FilterInSkip(a: Postings, b: Postings)
    requires b != [] && forall i :: 0 <= i < |a| ==> a[i].documentId != b[0].documentId
    ensures FilterIn(a, b[1..]) == FilterIn(a, b)
    decreases |a|
  {
    if a != [] {
      assert HasPosting(b, a[0].documentId) ==> HasPosting(b[1..], a[0].documentId) by {
        if HasPosting(b, a[0].documentId) {
          var i :| 0 <= i < |b| && b[i].documentId == a[0].documentId;
          assert b[1..][i - 1].documentId == a[0].documentId;
        }
      }
      FilterInSkip(a[1..], b);
    }
  }

  /** On strictly ascending inputs Merge returns exactly the elements of `a`
      whose document id occurs in `b`, keeping `a`'s order and frequencies. */
  lemma {:induction false} MergeSorted(a: Postings, b: Postings)
    requires Ascending(a) && Ascending(b)
    ensures MergeOf(a, b) == FilterIn(a, b)
    decreases |a| + |b|
  {
    if a == [] {
    } else if b == [] {
      FilterInNone(a, b);
    } else if a[0].documentId == b[0].documentId {
      MergeSorted(a[1..], b[1..]);
      FilterInSkip(a[1..], b);
    } else if a[0].documentId < b[0].documentId {
      MergeSorted(a[1..], b);
      assert !HasPosting(b, a[0].documentId);
    } else {
      MergeSorted(a, b[1..]);
      FilterInSkip(a, b);
    }
  }

  lemma {:induction false} FilterInNone(a: Postings, b: Postings)
    requires b == []
    ensures FilterIn(a, b) == []
    decreases |a|
  {
    if a != [] {
      FilterInNone(a[1..], b);
    }
  }

  /** FilterIn keeps exactly the members of `a` found in `b`, and keeps `a` ascending. */
  lemma {:induction false} FilterInMembers(a: Postings, b: Postings)
    ensures forall x :: x in FilterIn(a, b) <==> x in a && HasPosting(b, x.documentId)
    ensures Ascending(a) ==> Ascending(FilterIn(a, b))
    decreases |a|
  {
    if a != [] {
      FilterInMembers(a[1..], b);
      var r := FilterIn(a, b);
      if Ascending(a) {
        assert Ascending(a[1..]);
        forall i, j | 0 <= i < j < |r| ensures r[i].documentId < r[j].documentId {
          assert r[j] in a[1..];
          if HasPosting(b, a[0].documentId) && i == 0 {
            var m :| 0 <= m < |a[1..]| && a[1..][m] == r[j];
            assert a[m + 1] == r[j];
          }
        }
      }
    }
  }

  /** Merge of two strictly ascending lists is their sorted intersection. */
  lemma MergeIntersection(a: Postings, b: Postings)
    requires Ascending(a) && Ascending(b)
    ensures forall x :: x in MergeOf(a, b) <==> x in a && HasPosting(b, x.documentId)
    ensures Ascending(MergeOf(a, b))
  {
    MergeSorted(a, b);
    FilterInMembers(a, b);
  }

  // ---------------------------------------------------------------------------
  // And, Or

  /** AND of one list is that list. */
  lemma AndOfSingle(l: Postings)
    ensures AndOf([l]) == Some(l)
  {
  }

  /** AND over strictly ascending operand lists keeps exactly the postings of
      the first list whose document occurs in every list, in ascending order. */
  lemma {:induction false} FoldMergeSorted(acc: Postings, rest: seq<Postings>)
    requires Ascending(acc) && forall k :: 0 <= k < |rest| ==> Ascending(rest[k])
    ensures forall x :: x in FoldMerge(acc, rest) <==>
              x in acc && forall k :: 0 <= k < |rest| ==> HasPosting(rest[k], x.documentId)
    ensures Ascending(FoldMerge(acc, rest))
    decreases |rest|
  {
    if rest != [] {
      MergeIntersection(acc, rest[0]);
      FoldMergeSorted(MergeOf(acc, rest[0]), rest[1..]);
      forall x | x in acc && (forall k :: 0 <= k < |rest| ==> HasPosting(rest[k], x.documentId))
        ensures x in FoldMerge(acc, rest)
      {
        assert HasPosting(rest[0], x.documentId);
        forall k | 0 <= k < |rest[1..]| ensures HasPosting(rest[1..][k], x.documentId) {
          assert rest[1..][k] == rest[k + 1];
        }
      }
    }
  }

  lemma AndOfSorted(lists: seq<Postings>)
    requires |lists| > 0 && forall k :: 0 <= k < |lists| ==> Ascending(lists[k])
    ensures AndOf(lists).Some?
    ensures forall x :: x in AndOf(lists).value <==>
              x in lists[0] && forall k :: 1 <= k < |lists| ==> HasPosting(lists[k], x.documentId)
    ensures Ascending(AndOf(lists).value)
  {
    FoldMergeSorted(lists[0], lists[1..]);
    forall x: PostingListInfo ensures (forall k :: 0 <= k < |lists[1..]| ==> HasPosting(lists[1..][k], x.documentId))
                     <==> (forall k :: 1 <= k < |lists| ==> HasPosting(lists[k], x.documentId))
    {
      if forall k :: 0 <= k < |lists[1..]| ==> HasPosting(lists[1..][k], x.documentId) {
        forall k | 1 <= k < |lists| ensures HasPosting(lists[k], x.documentId) {
          assert lists[1..][k - 1] == lists[k];
        }
      }
    }
  }

  /** Total length of a sequence of lists. */
  function TotalLength(lists: seq<Postings>): nat
  {
    if lists == [] then 0 else TotalLength(lists[..|lists| - 1]) + |lists[|lists| - 1]|
  }

  /** OR is concatenation: its length is the sum of the operand lengths, each
      document occurs as often as in all operands together (no
      deduplication), and an element is in it iff it is in some operand. */
  lemma {:induction false} OrOfLength(lists: seq<Postings>, d: int)
    ensures |OrOf(lists)| == TotalLength(lists)
    ensures PostingsOf(OrOf(lists), d) == SumPostingsOf(lists, d)
    decreases |lists|
  {
    if lists != [] {
      var n := |lists|;
      OrOfLength(lists[..n - 1], d);
      PostingsOfAppend(OrOf(lists[..n - 1]), lists[n - 1], d);
    }
  }

  function SumPostingsOf(lists: seq<Postings>, d: int): nat
  {
    if lists == [] then 0 else SumPostingsOf(lists[..|lists| - 1], d) + PostingsOf(lists[|lists| - 1], d)
  }

  lemma {:induction false} PostingsOfAppend(a: Postings, b: Postings, d: int)
    ensures PostingsOf(a + b, d) == PostingsOf(a, d) + PostingsOf(b, d)
    decreases |b|
  {
    if b == [] {
      assert a + b == a;
    } else {
      var n := |b|;
      PostingsOfAppend(a, b[..n - 1], d);
      assert (a + b)[..|a + b| - 1] == a + b[..n - 1];
    }
  }

  lemma {:induction false} OrMembers(lists: seq<Postings>)
    ensures forall x :: x in OrOf(lists) <==> exists k :: 0 <= k < |lists| && x in lists[k]
    decreases |lists|
  {
    if lists != [] {
      var n := |lists|;
      OrMembers(lists[..n - 1]);
      forall x: PostingListInfo ensures x in OrOf(lists) <==> exists k :: 0 <= k < |lists| && x in lists[k] {
        if x in OrOf(lists[..n - 1]) {
          var k :| 0 <= k < n - 1 && x in lists[..n - 1][k];
          assert x in lists[k];
        }
        if exists k :: 0 <= k < |lists| && x in lists[k] {
          var k :| 0 <= k < |lists| && x in lists[k];
          if k < n - 1 {
            assert x in lists[..n - 1][k];
          }
        }
      }
    }
  }

  // ---------------------------------------------------------------------------
  // Search

  /** Not and None have no evaluation: the result is null whatever the operands. */
  lemma EvaluateUnsupported(index: Index, analyze: string -> seq<string>, op: Operator, operands: seq<QueryNode>)
    requires op == Not || op == Operator.None
    ensures Evaluate(index, analyze, LogicalNode(op, operands)) == Option.None
  {
  }

  /** Dropping the null results keeps exactly the lists that were present. */
  lemma {:induction false} PresentMembers(results: seq<Option<Postings>>)
    ensures forall l :: l in Present(results) <==> Some(l) in results
    decreases |results|
  {
    if results != [] {
      var init := results[..|results| - 1];
      PresentMembers(init);
      assert forall o :: o in results <==> o in init || o == results[|results| - 1];
    }
  }

  /** An OR node is never null: it skips the null operand results and holds
      every posting of every other operand result, and nothing else. */
  lemma EvaluateOr(index: Index, analyze: string -> seq<string>, operands: seq<QueryNode>)
    ensures var r := Evaluate(index, analyze, LogicalNode(Or, operands));
            r.Some? &&
            forall x :: x in r.value <==>
              exists k :: 0 <= k < |operands| && Evaluate(index, analyze, operands[k]).Some? &&
                          x in Evaluate(index, analyze, operands[k]).value
  {
    var node := LogicalNode(Or, operands);
    var results := EvaluateEach(index, analyze, node, operands);
    var lists := Present(results);
    OrMembers(lists);
    PresentMembers(results);
    forall x: PostingListInfo
      ensures x in OrOf(lists) <==>
              exists k :: 0 <= k < |results| && results[k].Some? && x in results[k].value
    {
      if exists l :: 0 <= l < |lists| && x in lists[l] {
        var l :| 0 <= l < |lists| && x in lists[l];
        assert lists[l] in lists;
        var k :| 0 <= k < |results| && results[k] == Some(lists[l]);
      }
      if exists k :: 0 <= k < |results| && results[k].Some? && x in results[k].value {
        var k :| 0 <= k < |results| && results[k].Some? && x in results[k].value;
        assert results[k] in results;
        var l :| 0 <= l < |lists| && lists[l] == results[k].value;
      }
    }
  }

  /** A term node yields the whole posting list of the first analysed token,
      and null when the analyser yields nothing or the token is not indexed. */
  lemma EvaluateTerm(index: Index, analyze: string -> seq<string>, text: string)
    ensures var tokens := analyze(text);
            Evaluate(index, analyze, TermNode(text)) ==
              if |tokens| > 0 && tokens[0] in index then Some(index[tokens[0]].documentIdWithFrequency) else Option.None
  {
  }

  /** The result of `node`, when it has one, is in strictly ascending document order. */
  predicate AscendingResult(index: Index, analyze: string -> seq<string>, node: QueryNode)
  {
    Evaluate(index, analyze, node).Some? ==> Ascending(Evaluate(index, analyze, node).value)
  }

  /** Over a strictly ascending index every term yields an ascending list. */
  lemma EvaluateTermAscending(index: Index, analyze: string -> seq<string>, text: string)
    requires AllAscending(index)
    ensures AscendingResult(index, analyze, TermNode(text))
  {
  }

  /** An AND node whose operands yield ascending lists (terms of a strictly
      ascending index, or AND nodes over such operands) yields the postings
      of the first non-null operand result whose document appears in every
      other non-null one, again in ascending order; null operands are
      skipped. */
  lemma EvaluateAndAscending(index: Index, analyze: string -> seq<string>, operands: seq<QueryNode>)
    requires forall k :: 0 <= k < |operands| ==> AscendingResult(index, analyze, operands[k])
    ensures AscendingResult(index, analyze, LogicalNode(And, operands))
    ensures var r := Evaluate(index, analyze, LogicalNode(And, operands));
            var lists := Present(EvaluateEach(index, analyze, LogicalNode(And, operands), operands));
            (r.None? <==> lists == []) &&
            (r.Some? ==>
              && Ascending(r.value)
              && (forall x :: x in r.value <==>
                    x in lists[0] && forall k :: 1 <= k < |lists| ==> HasPosting(lists[k], x.documentId)))
  {
    var node := LogicalNode(And, operands);
    var results := EvaluateEach(index, analyze, node, operands);
    PresentAscending(results);
    var lists := Present(results);
    if lists != [] {
      AndOfSorted(lists);
    }
  }

  lemma {:induction false} PresentAscending(results: seq<Option<Postings>>)
    requires forall k :: 0 <= k < |results| && results[k].Some? ==> Ascending(results[k].value)
    ensures forall l :: 0 <= l < |Present(results)| ==> Ascending(Present(results)[l])
    decreases |results|
  {
    if results != [] {
      PresentAscending(results[..|results| - 1]);
    }
  }
}
