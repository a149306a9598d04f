/** The plain records of the retrieval engine (the files under Models). */
module Models {

  /** Models/Condition.cs: the operator of a logical node, with its enum value. */
  datatype Operator = None | Not | And | Or

  function OperatorValue(op: Operator): (v: int)
    ensures v == 0 <==> op == None
    ensures v == 1 <==> op == Not
    ensures v == 2 <==> op == And
    ensures v == 3 <==> op == Or
  {
    match op
    case None => 0
    case Not => 1
    case And => 2
    case Or => 3
  }

  /** The four enum values are distinct, so the value identifies the operator. */
  lemma OperatorValueInjective(a: Operator, b: Operator)
    ensures OperatorValue(a) == OperatorValue(b) <==> a == b
  {
  }

  /** Models/Condition.cs: the abstract QueryNode has exactly two concrete
      forms, a logical node over an ordered list of operands (of any arity,
      also for Not) and a term leaf. */
  datatype QueryNode =
    | LogicalNode(operator: Operator, operands: seq<QueryNode>)
    | TermNode(term: string)

  /** `new LogicalNode()`: operator None and no operands. */
  function NewLogicalNode(): (n: QueryNode)
    ensures n.LogicalNode? && n.operator == None && n.operands == []
  {
    LogicalNode(None, [])
  }

  /** `new TermNode()`: the empty term. */
  function NewTermNode(): (n: QueryNode)
    ensures n.TermNode? && n.term == ""
  {
    TermNode("")
  }

  /** Models/PostingListInfo.cs: one (document, frequency) posting. */
  datatype PostingListInfo = PostingListInfo(documentId: int, frequency: int)

  /** Sum of the frequencies of a posting list. */
  function SumFrequencies(ps: seq<PostingListInfo>): int
  {
    if ps == [] then 0 else SumFrequencies(ps[..|ps| - 1]) + ps[|ps| - 1].frequency
  }

  /** Models/PostingListModel.cs: the posting list of one term; `Count` is a
      computed property, so it always reflects the current frequencies. */
  datatype PostingListModel = PostingListModel(documentIdWithFrequency: seq<PostingListInfo>)
  {
    function Count(): int
    {
      SumFrequencies(documentIdWithFrequency)
    }
  }

  /** `new PostingListModel()`: no postings, Count 0. */
  function NewPostingListModel(): (m: PostingListModel)
    ensures m.documentIdWithFrequency == [] && m.Count() == 0
  {
    PostingListModel([])
  }

  /** Appending a posting adds its frequency to Count. */
  lemma CountAppend(m: PostingListModel, p: PostingListInfo)
    ensures PostingListModel(m.documentIdWithFrequency + [p]).Count() == m.Count() + p.frequency
  {
    var ps := m.documentIdWithFrequency;
    assert (ps + [p])[..|ps + [p]| - 1] == ps;
  }

  /** Raising the frequency of one posting by one raises Count by one. */
  lemma {:induction false} CountBump(ps: seq<PostingListInfo>, k: nat)
    requires k < |ps|
    ensures SumFrequencies(ps[k := PostingListInfo(ps[k].documentId, ps[k].frequency + 1)])
            == SumFrequencies(ps) + 1
    decreases |ps|
  {
    var bumped := ps[k := PostingListInfo(ps[k].documentId, ps[k].frequency + 1)];
    var n := |ps|;
    if k == n - 1 {
      assert bumped[..n - 1] == ps[..n - 1];
    } else {
      CountBump(ps[..n - 1], k);
      assert bumped[..n - 1] == ps[..n - 1][k := PostingListInfo(ps[k].documentId, ps[k].frequency + 1)];
    }
  }

  /** Models/TokenModel.cs: the analysed tokens of one document. */
  datatype TokenModel = TokenModel(documentId: int, contentTokens: seq<string>, titleTokens: seq<string>)

  /** Models/IndexModel.cs `ResultModel`: one relevance judgment row. */
  datatype ResultModel = ResultModel(queryNumber: int, documentId: int)

  /** Models/Source.cs: one parsed corpus document. */
  datatype Document = Document(id: int, title: string, author: string, content: string, extraData: string)
}
