/** What BooleanQueryParser.cs accepts and builds, as functions of the query
    text and a cursor position. Each function returns the new cursor with its
    result; a thrown exception becomes `Err`. The class BooleanQueryParser
    (boolean_query_parser.dfy) advances a mutable cursor and is proved equal
    to these functions. */
module QuerySyntax {
  import opened Wrappers
  import opened Models

  /** The exceptions the parser throws: an index past the end of the query,
      "Invalid syntax", and "Expected 'c' at position p". */
  datatype ParseError = IndexOutOfRange | InvalidSyntax | Expected(expected: char, position: nat)

  /** .NET `char.IsWhiteSpace`: the Unicode space separators, the line and
      paragraph separators, U+0009 to U+000D and U+0085. */
  predicate IsWhiteSpace(c: char)
  {
    || c == ' ' || '\t' <= c <= '\r' || c == '\U{0085}' || c == '\U{00A0}' || c == '\U{1680}'
    || '\U{2000}' <= c <= '\U{200A}' || c == '\U{2028}' || c == '\U{2029}' || c == '\U{202F}'
    || c == '\U{205F}' || c == '\U{3000}'
  }

  /** `char.IsLetter`, restricted to ASCII letters. */
  predicate IsLetter(c: char)
  {
    'a' <= c <= 'z' || 'A' <= c <= 'Z'
  }

  /** `query.Replace("\n", "").Replace("\r", "")`: the line breaks go, every
      other character stays, in order (RemoveNewlinesAppend, RemoveNewlinesChar). */
  function RemoveNewlines(s: string): (r: string)
    ensures |r| <= |s|
    ensures forall c :: c in r <==> c in s && c != '\n' && c != '\r'
    ensures (forall i :: 0 <= i < |s| ==> s[i] != '\n' && s[i] != '\r') ==> r == s
  {
    if s == [] then []
    else (if s[0] == '\n' || s[0] == '\r' then [] else [s[0]]) + RemoveNewlines(s[1..])
  }

  /** Removing line breaks works character by character: it distributes over
      concatenation ... */
  lemma {:induction false} RemoveNewlinesAppend(a: string, b: string)
    ensures RemoveNewlines(a + b) == RemoveNewlines(a) + RemoveNewlines(b)
    decreases |a|
  {
    if a != [] {
      var head := if a[0] == '\n' || a[0] == '\r' then [] else [a[0]];
      assert (a + b)[0] == a[0] && (a + b)[1..] == a[1..] + b;
      assert RemoveNewlines(a + b) == head + RemoveNewlines(a[1..] + b);
      assert RemoveNewlines(a) == head + RemoveNewlines(a[1..]);
      RemoveNewlinesAppend(a[1..], b);
      assert head + (RemoveNewlines(a[1..]) + RemoveNewlines(b)) == (head + RemoveNewlines(a[1..])) + RemoveNewlines(b);
    } else {
      assert a + b == b;
    }
  }

  /** ... and drops exactly the single characters '\n' and '\r'. */
  lemma RemoveNewlinesChar(c: char)
    ensures RemoveNewlines([c]) == if c == '\n' || c == '\r' then [] else [c]
  {
  }

  /** Stripping twice strips nothing more, so the parser sees the same text
      whether or not the caller already removed the line breaks. */
  lemma ParseQueryIgnoresLineBreaks(query: string)
    ensures RemoveNewlines(RemoveNewlines(query)) == RemoveNewlines(query)
    ensures ParseQuery(RemoveNewlines(query)) == ParseQuery(query)
  {
    var r := RemoveNewlines(query);
    assert forall i :: 0 <= i < |r| ==> r[i] in r;
  }

  /** SkipWhitespace: the first position at or after `pos` that is the end or not white space. */
  function SkipWs(q: string, pos: nat): (p: nat)
    requires pos <= |q|
    ensures pos <= p <= |q|
    ensures forall i :: pos <= i < p ==> IsWhiteSpace(q[i])
    ensures p == |q| || !IsWhiteSpace(q[p])
    decreases |q| - pos
  {
    if pos < |q| && IsWhiteSpace(q[pos]) then SkipWs(q, pos + 1) else pos
  }

  /** Expect(c): skip white space, then consume `c` or fail naming `c` and the position. */
  function ExpectAt(q: string, pos: nat, c: char): (r: Result<nat, ParseError>)
    requires pos <= |q|
    ensures r.Ok? ==> pos < r.value <= |q| && q[r.value - 1] == c
    ensures r.Ok? ==> forall i :: pos <= i < r.value - 1 ==> IsWhiteSpace(q[i])
    ensures r.Err? ==> r.error == IndexOutOfRange || r.error == Expected(c, SkipWs(q, pos))
  {
    var p := SkipWs(q, pos);
    if p == |q| then Err(IndexOutOfRange)
    else if q[p] != c then Err(Expected(c, p))
    else Ok(p + 1)
  }

  /** The end of the run of letters starting at `pos` (the loop of ParseOperator). */
  function LetterRunEnd(q: string, pos: nat): (e: nat)
    requires pos <= |q|
    ensures pos <= e <= |q|
    ensures forall i :: pos <= i < e ==> IsLetter(q[i])
    ensures e == |q| || !IsLetter(q[e])
    decreases |q| - pos
  {
    if pos < |q| && IsLetter(q[pos]) then LetterRunEnd(q, pos + 1) else pos
  }

  /** The switch of ParseOperator: exactly "not", "and", "or"; anything else is None. */
  function OperatorNamed(name: string): (op: Operator)
    ensures op == Operator.None <==> name != "not" && name != "and" && name != "or"
    ensures op != Operator.None ==> OperatorName(op) == name
  {
    if name == "not" then Not
    else if name == "and" then And
    else if name == "or" then Or
    else Operator.None
  }

  /** The name the printer writes for an operator (None has the empty name). */
  function OperatorName(op: Operator): string
  {
    match op
    case Not => "not"
    case And => "and"
    case Or => "or"
    case None => ""
  }

  /** The position of the next quote at or after `pos` (the loop of ParseTerm);
      running off the end is an index out of range. */
  function QuoteEnd(q: string, pos: nat): (r: Result<nat, ParseError>)
    requires pos <= |q|
    ensures r.Ok? ==> pos <= r.value < |q| && q[r.value] == '\'' &&
                      forall i :: pos <= i < r.value ==> q[i] != '\''
    ensures r.Err? ==> r.error == IndexOutOfRange && forall i :: pos <= i < |q| ==> q[i] != '\''
    decreases |q| - pos
  {
    if pos == |q| then Err(IndexOutOfRange)
    else if q[pos] == '\'' then Ok(pos)
    else QuoteEnd(q, pos + 1)
  }

  /** ParseTerm: the text strictly between two quotes, untrimmed, and the position after the closing quote. */
  function TermAt(q: string, pos: nat): (r: Result<(string, nat), ParseError>)
    requires pos <= |q|
    ensures r.Ok? ==> pos < r.value.1 <= |q|
    ensures r.Ok? ==> '\'' !in r.value.0
  {
    match ExpectAt(q, pos, '\'')
    case Err(e) => Err(e)
    case Ok(start) =>
      match QuoteEnd(q, start)
      case Err(e) => Err(e)
      case Ok(stop) =>
        match ExpectAt(q, stop, '\'')
        case Err(e) => Err(e)
        case Ok(after) => Ok((q[start..stop], after))
  }

  /** ParseExpression at cursor `pos`: the node and the cursor after it. The
      cursor only moves forward. */
  function ExprAt(q: string, pos: nat): (r: Result<(QueryNode, nat), ParseError>)
    requires pos <= |q|
    ensures r.Ok? ==> pos < r.value.1 <= |q|
    decreases |q| - pos, 1
  {
    var p := SkipWs(q, pos);
    if p == |q| then Err(IndexOutOfRange)
    else if q[p] == '#' then LogicalExprAt(q, p)
    else if q[p] == '\'' then
      match TermAt(q, p)
      case Err(err) => Err(err)
      case Ok(res) => Ok((TermNode(res.0), res.1))
    else Err(InvalidSyntax)
  }

  /** The logical node whose '#' stands at `p`: the operator name, a run of
      letters, then the parenthesised operands. */
  function LogicalExprAt(q: string, p: nat): (r: Result<(QueryNode, nat), ParseError>)
    requires p < |q|
    ensures r.Ok? ==> p < r.value.1 <= |q|
    decreases |q| - p, 0
  {
    var e := LetterRunEnd(q, p + 1);
    match ParenthesizedAt(q, e)
    case Err(err) => Err(err)
    case Ok(res) => Ok((LogicalNode(OperatorNamed(q[p + 1..e]), res.0), res.1))
  }

  /** The parenthesised operand list of ParseExpression: '(' then the
      operands then ')'. */
  function ParenthesizedAt(q: string, pos: nat): (r: Result<(seq<QueryNode>, nat), ParseError>)
    requires pos <= |q|
    ensures r.Ok? ==> pos < r.value.1 <= |q|
    decreases |q| - pos, 0
  {
    match ExpectAt(q, pos, '(')
    case Err(err) => Err(err)
    case Ok(open) =>
      match OperandsAt(q, open)
      case Err(err) => Err(err)
      case Ok(res) =>
        match ExpectAt(q, res.1, ')')
        case Err(err) => Err(err)
        case Ok(after) => Ok((res.0, after))
  }

  /** The operand loop of ParseExpression from cursor `pos`: expressions, each
      optionally followed by a comma, until the ')' that it stops in front of. */
  function OperandsAt(q: string, pos: nat): (r: Result<(seq<QueryNode>, nat), ParseError>)
    requires pos <= |q|
    ensures r.Ok? ==> pos <= r.value.1 < |q| && q[r.value.1] == ')'
    decreases |q| - pos, 2
  {
    if pos == |q| then Err(IndexOutOfRange)
    else if q[pos] == ')' then Ok(([], pos))
    else
      match ExprAt(q, pos)
      case Err(err) => Err(err)
      case Ok(res) => OperandsAfter(q, res.0, res.1)
  }

  /** The operand loop once the operand `n` has been read up to cursor `p`:
      an optional comma, then the rest of the operands. */
  function OperandsAfter(q: string, n: QueryNode, p: nat): (r: Result<(seq<QueryNode>, nat), ParseError>)
    requires p <= |q|
    ensures r.Ok? ==> p <= r.value.1 < |q| && q[r.value.1] == ')'
    decreases |q| - p, 3
  {
    var c := SkipWs(q, p);
    if c == |q| then Err(IndexOutOfRange)
    else if q[c] == ',' then Prepend([n], OperandsAt(q, c + 1))
    else Prepend([n], OperandsAt(q, c))
  }

  /** The operands `ns` in front of the outcome of the rest of the operand loop. */
  function Prepend(ns: seq<QueryNode>, r: Result<(seq<QueryNode>, nat), ParseError>): (s: Result<(seq<QueryNode>, nat), ParseError>)
    ensures s.Ok? <==> r.Ok?
    ensures s.Ok? ==> s.value == (ns + r.value.0, r.value.1)
    ensures s.Err? ==> s.error == r.error
  {
    match r
    case Err(err) => Err(err)
    case Ok(rest) => Ok((ns + rest.0, rest.1))
  }

  /** Parse: strip the line breaks, start at 0, parse one expression; whatever follows it is ignored. */
  function ParseQuery(query: string): (r: Result<QueryNode, ParseError>)
    ensures (forall i :: 0 <= i < |query| ==> IsWhiteSpace(query[i])) ==> r == Err(IndexOutOfRange)
  {
    var q := RemoveNewlines(query);
    assert (forall i :: 0 <= i < |query| ==> IsWhiteSpace(query[i])) ==> SkipWs(q, 0) == |q| by {
      var p := SkipWs(q, 0);
      if p < |q| {
        assert q[p] in query;
      }
    }
    match ExprAt(q, 0)
    case Err(err) => Err(err)
    case Ok(res) => Ok(res.0)
  }

  // ---------------------------------------------------------------------------
  // A printer for query trees, and the round trip through the parser

  /** No term holds a quote: the terms the grammar can express. */
  predicate Printable(n: QueryNode)
    decreases n
  {
    match n
    case TermNode(t) => '\'' !in t
    case LogicalNode(_, ops) => forall k :: 0 <= k < |ops| ==> Printable(ops[k])
  }

  /** The canonical text of a query tree: `'term'` and `#op(e1,e2,...)`. */
  function Show(n: QueryNode): string
    decreases n, 1, 0
  {
    match n
    case TermNode(t) => "'" + t + "'"
    case LogicalNode(op, ops) => "#" + OperatorName(op) + "(" + ShowAll(n, ops) + ")"
  }

  /** The operands of `parent` printed and separated by commas. */
  function ShowAll(ghost parent: QueryNode, ops: seq<QueryNode>): string
    requires forall k :: 0 <= k < |ops| ==> ops[k] < parent
    decreases parent, 0, |ops|
  {
    if ops == [] then ""
    else if |ops| == 1 then Show(ops[0])
    else Show(ops[0]) + "," + ShowAll(parent, ops[1..])
  }

  lemma ShowStartsWithMarker(n: QueryNode)
    ensures |Show(n)| > 0 && (Show(n)[0] == '#' || Show(n)[0] == '\'')
  {
  }

  /** The text at `pos` of `q` is `s`, character by character. */
  predicate At(q: string, pos: nat, s: string)
  {
    pos + |s| <= |q| && forall i :: 0 <= i < |s| ==> q[pos + i] == s[i]
  }

  lemma AtSplit(q: string, pos: nat, a: string, b: string, mid: nat)
    requires At(q, pos, a + b) && mid == pos + |a|
    ensures At(q, pos, a) && At(q, mid, b)
  {
    forall i | 0 <= i < |a| ensures q[pos + i] == a[i] {
      assert (a + b)[i] == a[i];
    }
    forall i | 0 <= i < |b| ensures q[mid + i] == b[i] {
      assert (a + b)[|a| + i] == b[i];
    }
  }

  lemma AtFirst(q: string, pos: nat, s: string)
    requires At(q, pos, s) && |s| > 0
    ensures q[pos] == s[0]
  {
    assert q[pos + 0] == s[0];
  }

  lemma AtSlice(q: string, pos: nat, s: string, end: nat)
    requires At(q, pos, s) && end == pos + |s|
    ensures q[pos..end] == s
  {
    forall i | 0 <= i < |s| ensures q[pos..end][i] == s[i] {
      assert q[pos + i] == s[i];
    }
  }

  lemma SliceAt(q: string, pos: nat, s: string, end: nat)
    requires end == pos + |s| <= |q| && q[pos..end] == s
    ensures At(q, pos, s)
  {
    forall i | 0 <= i < |s| ensures q[pos + i] == s[i] {
      assert q[pos..end][i] == s[i];
    }
  }

  lemma OperatorNameRoundTrip(op: Operator)
    ensures OperatorNamed(OperatorName(op)) == op
    ensures forall i :: 0 <= i < |OperatorName(op)| ==> IsLetter(OperatorName(op)[i])
  {
  }

  // One step of the parser at a time

  lemma ExpectAtChar(q: string, p: nat, c: char, next: nat)
    requires p < |q| && q[p] == c && !IsWhiteSpace(c) && next == p + 1
    ensures ExpectAt(q, p, c) == Ok(next)
  {
  }

  /** `'t'` at `pos`, with no quote in `t`, is read as the term `t`. */
  lemma TermAtQuoted(q: string, pos: nat, t: string, end: nat)
    requires At(q, pos, "'" + t + "'") && '\'' !in t && end == pos + |t| + 2
    ensures ExprAt(q, pos) == Ok((TermNode(t), end))
  {
    var stop := pos + 1 + |t|;
    AtSplit(q, pos, "'" + t, "'", stop);
    AtSplit(q, pos, "'", t, pos + 1);
    AtFirst(q, pos, "'");
    AtFirst(q, stop, "'");
    AtSlice(q, pos + 1, t, stop);
    forall i | pos + 1 <= i < stop ensures q[i] != '\'' {
      assert q[i] == t[i - pos - 1];
    }
    ExpectAtChar(q, pos, '\'', pos + 1);
    assert QuoteEnd(q, pos + 1) == Ok(stop);
    ExpectAtChar(q, stop, '\'', end);
    assert TermAt(q, pos) == Ok((t, end));
  }

  /** `#name(` at `pos`, with `name` all letters, followed by operands that
      parse up to `close`, where a ')' stands, is read as a logical node. */
  lemma LogicalAt(q: string, pos: nat, name: string, open: nat, ops: seq<QueryNode>, close: nat, after: nat)
    requires At(q, pos, "#" + name + "(") && open == pos + |name| + 2
    requires forall i :: 0 <= i < |name| ==> IsLetter(name[i])
    requires open <= |q| && OperandsAt(q, open) == Ok((ops, close)) && after == close + 1
    ensures ExprAt(q, pos) == Ok((LogicalNode(OperatorNamed(name), ops), after))
  {
    var e := pos + 1 + |name|;
    AtSplit(q, pos, "#" + name, "(", e);
    AtSplit(q, pos, "#", name, pos + 1);
    AtFirst(q, pos, "#");
    AtFirst(q, e, "(");
    AtSlice(q, pos + 1, name, e);
    forall i | pos + 1 <= i < e ensures IsLetter(q[i]) {
      assert q[i] == name[i - pos - 1];
    }
    LetterRunEndAt(q, pos + 1, e);
    ExpectAtChar(q, e, '(', open);
    ExpectAtChar(q, close, ')', after);
    ParenthesizedStep(q, e, open, ops, close, after);
    assert SkipWs(q, pos) == pos;
    LogicalStep(q, pos, pos);
    LogicalParsed(q, pos, e, ops, after);
  }

  /** ExprAt on '#' after white space is the logical node read from the '#'. */
  lemma LogicalStep(q: string, pos: nat, p: nat)
    requires pos <= |q| && SkipWs(q, pos) == p && p < |q| && q[p] == '#'
    ensures ExprAt(q, pos) == LogicalExprAt(q, p)
  {
  }

  /** ExprAt on a quote after white space is the term read from the quote. */
  lemma TermStep(q: string, pos: nat, p: nat)
    requires pos <= |q| && SkipWs(q, pos) == p && p < |q| && q[p] == '\''
    ensures ExprAt(q, pos) == match TermAt(q, p)
                              case Err(err) => Err(err)
                              case Ok(res) => Ok((TermNode(res.0), res.1))
  {
  }

  /** ExprAt with nothing but white space left runs out of input. */
  lemma ExprRunsOut(q: string, pos: nat)
    requires pos <= |q| && SkipWs(q, pos) == |q|
    ensures ExprAt(q, pos) == Err(IndexOutOfRange)
  {
  }

  /** After an operand and the white space behind it, the rest of the loop
      starts past an optional comma. */
  lemma AfterOperand(q: string, n: QueryNode, p: nat, c: nat, next: nat)
    requires p <= |q| && SkipWs(q, p) == c && c < |q|
    requires next == if q[c] == ',' then c + 1 else c
    ensures OperandsAfter(q, n, p) == Prepend([n], OperandsAt(q, next))
  {
  }

  lemma PrependNothing(r: Result<(seq<QueryNode>, nat), ParseError>)
    ensures Prepend([], r) == r
  {
    if r.Ok? {
      assert [] + r.value.0 == r.value.0;
    }
  }

  lemma PrependTwice(a: seq<QueryNode>, b: seq<QueryNode>, r: Result<(seq<QueryNode>, nat), ParseError>)
    ensures Prepend(a, Prepend(b, r)) == Prepend(a + b, r)
  {
    if r.Ok? {
      assert a + (b + r.value.0) == a + b + r.value.0;
    }
  }

  /** The logical node, once the operator name and the parenthesised operands are known. */
  lemma LogicalParsed(q: string, pos: nat, e: nat, ops: seq<QueryNode>, after: nat)
    requires pos < e <= |q| && LetterRunEnd(q, pos + 1) == e
    requires ParenthesizedAt(q, e) == Ok((ops, after))
    ensures LogicalExprAt(q, pos) == Ok((LogicalNode(OperatorNamed(q[pos + 1..e]), ops), after))
  {
  }

  /** The parenthesised operands, once each of their steps is known. */
  lemma ParenthesizedStep(q: string, e: nat, open: nat, ops: seq<QueryNode>, close: nat, after: nat)
    requires e <= |q| && ExpectAt(q, e, '(') == Ok(open)
    requires OperandsAt(q, open) == Ok((ops, close))
    requires ExpectAt(q, close, ')') == Ok(after)
    ensures ParenthesizedAt(q, e) == Ok((ops, after))
  {
  }

  /** LogicalAt for the name an operator is printed with. */
  lemma LogicalOpAt(q: string, pos: nat, op: Operator, open: nat, ops: seq<QueryNode>, close: nat, after: nat)
    requires At(q, pos, "#" + OperatorName(op) + "(") && open == pos + |OperatorName(op)| + 2
    requires open <= |q| && OperandsAt(q, open) == Ok((ops, close)) && after == close + 1
    ensures ExprAt(q, pos) == Ok((LogicalNode(op, ops), after))
  {
    OperatorNameRoundTrip(op);
    LogicalAt(q, pos, OperatorName(op), open, ops, close, after);
    assert ExprAt(q, pos) == Ok((LogicalNode(OperatorNamed(OperatorName(op)), ops), after));
    assert OperatorNamed(OperatorName(op)) == op;
  }

  lemma {:induction false} LetterRunEndAt(q: string, pos: nat, e: nat)
    requires pos <= e < |q| && !IsLetter(q[e]) && forall i :: pos <= i < e ==> IsLetter(q[i])
    ensures LetterRunEnd(q, pos) == e
    decreases e - pos
  {
    if pos < e {
      LetterRunEndAt(q, pos + 1, e);
    }
  }

  /** An operand that ends right before ')' is the last one. */
  lemma OperandsLast(q: string, pos: nat, n: QueryNode, p: nat)
    requires pos < |q| && q[pos] != ')'
    requires ExprAt(q, pos) == Ok((n, p))
    requires p < |q| && q[p] == ')'
    ensures OperandsAt(q, pos) == Ok(([n], p))
  {
    OperandsStep(q, pos, n, p);
    assert SkipWs(q, p) == p;
    assert OperandsAt(q, p) == Ok(([], p));
    assert [n] + [] == [n];
  }

  /** One operand read: the loop goes on after it. */
  lemma OperandsStep(q: string, pos: nat, n: QueryNode, p: nat)
    requires pos < |q| && q[pos] != ')'
    requires ExprAt(q, pos) == Ok((n, p))
    ensures OperandsAt(q, pos) == OperandsAfter(q, n, p)
  {
  }

  /** An operand followed by a comma is followed by the rest of the operands. */
  lemma OperandsComma(q: string, pos: nat, n: QueryNode, p: nat, rest: seq<QueryNode>, close: nat)
    requires pos < |q| && q[pos] != ')'
    requires ExprAt(q, pos) == Ok((n, p))
    requires p < |q| && q[p] == ','
    requires OperandsAt(q, p + 1) == Ok((rest, close))
    ensures OperandsAt(q, pos) == Ok(([n] + rest, close))
  {
    OperandsStep(q, pos, n, p);
    CommaAfter(q, n, p, rest, close);
  }

  /** The comma is optional: an operand followed by white space and then
      anything but a comma is followed by the rest of the operands from there. */
  lemma OperandsNoComma(q: string, pos: nat, n: QueryNode, p: nat, c: nat, rest: seq<QueryNode>, close: nat)
    requires pos < |q| && q[pos] != ')'
    requires ExprAt(q, pos) == Ok((n, p))
    requires p <= |q| && SkipWs(q, p) == c && c < |q| && q[c] != ','
    requires OperandsAt(q, c) == Ok((rest, close))
    ensures OperandsAt(q, pos) == Ok(([n] + rest, close))
  {
    OperandsStep(q, pos, n, p);
    AfterOperand(q, n, p, c, c);
  }

  lemma CommaAfter(q: string, n: QueryNode, p: nat, rest: seq<QueryNode>, close: nat)
    requires p < |q| && q[p] == ','
    requires OperandsAt(q, p + 1) == Ok((rest, close))
    ensures OperandsAfter(q, n, p) == Ok(([n] + rest, close))
  {
    assert SkipWs(q, p) == p;
  }

  /** The printed text of a printable tree parses back to that tree, wherever
      it stands and whatever follows it. */
  lemma {:induction false} ShowParses(n: QueryNode, q: string, pos: nat, end: nat)
    requires Printable(n) && At(q, pos, Show(n)) && end == pos + |Show(n)|
    ensures ExprAt(q, pos) == Ok((n, end))
    decreases n, 2, 0, 0, 0
  {
    if n.TermNode? {
      TermAtQuoted(q, pos, n.term, end);
    } else {
      var open := pos + |OperatorName(n.operator)| + 2;
      ShowLogical(n, q, pos, open);
      ShowLogicalParses(n, n.operator, n.operands, q, pos, open, open + |ShowAll(n, n.operands)|, end);
    }
  }

  /** The inductive step of ShowParses: a printed logical node. */
  lemma {:induction false} ShowLogicalParses(n: QueryNode, op: Operator, ops: seq<QueryNode>, q: string,
                                             pos: nat, open: nat, close: nat, end: nat)
    requires n == LogicalNode(op, ops) && Printable(n)
    requires At(q, pos, "#" + OperatorName(op) + "(") && open == pos + |OperatorName(op)| + 2
    requires At(q, open, ShowAll(n, ops) + ")") && close == open + |ShowAll(n, ops)| && end == close + 1
    ensures ExprAt(q, pos) == Ok((n, end))
    decreases n, 1, 0, 0, 0
  {
    ShowAllParses(n, ops, q, open, close);
    LogicalOpAt(q, pos, op, open, ops, close, end);
  }

  /** How the printed text of a logical node splits up. */
  lemma ShowLogical(n: QueryNode, q: string, pos: nat, open: nat)
    requires n.LogicalNode? && At(q, pos, Show(n)) && open == pos + |OperatorName(n.operator)| + 2
    ensures At(q, pos, "#" + OperatorName(n.operator) + "(")
    ensures At(q, open, ShowAll(n, n.operands) + ")")
    ensures |Show(n)| == |OperatorName(n.operator)| + |ShowAll(n, n.operands)| + 3
  {
    var name := OperatorName(n.operator);
    var body := ShowAll(n, n.operands);
    assert Show(n) == "#" + name + "(" + (body + ")");
    AtSplit(q, pos, "#" + name + "(", body + ")", open);
  }

  /** The printed operand list, followed by ')', parses back to the operands. */
  lemma {:induction false} ShowAllParses(parent: QueryNode, ops: seq<QueryNode>, q: string, pos: nat, close: nat)
    requires forall k :: 0 <= k < |ops| ==> ops[k] < parent && Printable(ops[k])
    requires At(q, pos, ShowAll(parent, ops) + ")") && close == pos + |ShowAll(parent, ops)|
    ensures OperandsAt(q, pos) == Ok((ops, close))
    decreases parent, 0, |ops|, 1, 0
  {
    if ops == [] {
      ShowAllNoneParses(parent, ops, q, pos, close);
    } else if |ops| == 1 {
      ShowAllOneParses(parent, ops, q, pos, close);
    } else {
      ShowAllMoreParses(parent, ops, q, pos, close);
    }
  }

  /** No operands: the list is just the ')'. */
  lemma ShowAllNoneParses(parent: QueryNode, ops: seq<QueryNode>, q: string, pos: nat, close: nat)
    requires ops == []
    requires At(q, pos, ShowAll(parent, ops) + ")") && close == pos + |ShowAll(parent, ops)|
    ensures OperandsAt(q, pos) == Ok((ops, close))
  {
    assert ShowAll(parent, ops) + ")" == ")";
    AtFirst(q, pos, ShowAll(parent, ops) + ")");
  }

  /** One operand: it is followed by the ')'. */
  lemma {:induction false} ShowAllOneParses(parent: QueryNode, ops: seq<QueryNode>, q: string, pos: nat, close: nat)
    requires |ops| == 1 && ops[0] < parent && Printable(ops[0])
    requires At(q, pos, ShowAll(parent, ops) + ")") && close == pos + |ShowAll(parent, ops)|
    ensures OperandsAt(q, pos) == Ok((ops, close))
    decreases parent, 0, |ops|, 0, 0
  {
    ShowAllOne(parent, ops, q, pos, close);
    ShowParses(ops[0], q, pos, close);
    OperandsLast(q, pos, ops[0], close);
    assert [ops[0]] == ops;
  }

  /** Several operands: the first is followed by a comma and the others. */
  lemma {:induction false} ShowAllMoreParses(parent: QueryNode, ops: seq<QueryNode>, q: string, pos: nat, close: nat)
    requires |ops| > 1 && forall k :: 0 <= k < |ops| ==> ops[k] < parent && Printable(ops[k])
    requires At(q, pos, ShowAll(parent, ops) + ")") && close == pos + |ShowAll(parent, ops)|
    ensures OperandsAt(q, pos) == Ok((ops, close))
    decreases parent, 0, |ops|, 0, 1
  {
    var mid := pos + |Show(ops[0])|;
    FirstOperandParses(parent, ops, q, pos, mid, close);
    OtherOperands(parent, ops);
    ShowAllParses(parent, ops[1..], q, mid + 1, close);
    OperandsCons(q, pos, ops, mid, close);
  }

  /** OperandsComma for a whole list of operands. */
  lemma OperandsCons(q: string, pos: nat, ops: seq<QueryNode>, p: nat, close: nat)
    requires |ops| > 0 && pos < |q| && q[pos] != ')'
    requires ExprAt(q, pos) == Ok((ops[0], p))
    requires p < |q| && q[p] == ','
    requires OperandsAt(q, p + 1) == Ok((ops[1..], close))
    ensures OperandsAt(q, pos) == Ok((ops, close))
  {
    OperandsComma(q, pos, ops[0], p, ops[1..], close);
    assert [ops[0]] + ops[1..] == ops;
  }

  lemma OtherOperands(parent: QueryNode, ops: seq<QueryNode>)
    requires |ops| > 0 && forall k :: 0 <= k < |ops| ==> ops[k] < parent && Printable(ops[k])
    ensures forall k :: 0 <= k < |ops[1..]| ==> ops[1..][k] < parent && Printable(ops[1..][k])
  {
    forall k | 0 <= k < |ops[1..]| ensures ops[1..][k] < parent && Printable(ops[1..][k]) {
      assert ops[1..][k] == ops[k + 1];
    }
  }

  /** The first of several printed operands parses back up to its comma. */
  lemma {:induction false} FirstOperandParses(parent: QueryNode, ops: seq<QueryNode>, q: string, pos: nat, mid: nat, close: nat)
    requires |ops| > 1 && forall k :: 0 <= k < |ops| ==> ops[k] < parent && Printable(ops[k])
    requires At(q, pos, ShowAll(parent, ops) + ")") && close == pos + |ShowAll(parent, ops)|
    requires mid == pos + |Show(ops[0])|
    ensures pos < |q| && q[pos] != ')' && mid < |q| && q[mid] == ','
    ensures ExprAt(q, pos) == Ok((ops[0], mid))
    ensures At(q, mid + 1, ShowAll(parent, ops[1..]) + ")")
    ensures close == mid + 1 + |ShowAll(parent, ops[1..])|
    decreases parent, 0, |ops|, 0, 0
  {
    ShowAllMore(parent, ops, q, pos, mid, close);
    ShowParses(ops[0], q, pos, mid);
  }

  /** How a printed list of one operand splits up. */
  lemma ShowAllOne(parent: QueryNode, ops: seq<QueryNode>, q: string, pos: nat, close: nat)
    requires |ops| == 1 && ops[0] < parent
    requires At(q, pos, ShowAll(parent, ops) + ")") && close == pos + |ShowAll(parent, ops)|
    ensures At(q, pos, Show(ops[0])) && close == pos + |Show(ops[0])|
    ensures close < |q| && q[close] == ')' && q[pos] != ')'
  {
    ShowStartsWithMarker(ops[0]);
    AtSplit(q, pos, Show(ops[0]), ")", close);
    AtFirst(q, pos, Show(ops[0]));
    AtFirst(q, close, ")");
  }

  /** How a printed list of several operands splits up. */
  lemma ShowAllMore(parent: QueryNode, ops: seq<QueryNode>, q: string, pos: nat, mid: nat, close: nat)
    requires |ops| > 1 && forall k :: 0 <= k < |ops| ==> ops[k] < parent
    requires At(q, pos, ShowAll(parent, ops) + ")") && close == pos + |ShowAll(parent, ops)|
    requires mid == pos + |Show(ops[0])|
    ensures At(q, pos, Show(ops[0]))
    ensures pos < |q| && q[pos] != ')' && mid < |q| && q[mid] == ','
    ensures At(q, mid + 1, ShowAll(parent, ops[1..]) + ")")
    ensures close == mid + 1 + |ShowAll(parent, ops[1..])|
  {
    var first := Show(ops[0]);
    var rest := ShowAll(parent, ops[1..]);
    ShowStartsWithMarker(ops[0]);
    assert ShowAll(parent, ops) + ")" == first + "," + (rest + ")");
    AtSplit(q, pos, first + ",", rest + ")", mid + 1);
    AtSplit(q, pos, first, ",", mid);
    AtFirst(q, pos, first);
    AtFirst(q, mid, ",");
  }

  /** Parse returns the printed tree, whatever text follows it (trailing text
      is never looked at). */
  lemma ParseShow(n: QueryNode, rest: string)
    requires Printable(n)
    requires forall i :: 0 <= i < |Show(n) + rest| ==> (Show(n) + rest)[i] != '\n' && (Show(n) + rest)[i] != '\r'
    ensures ParseQuery(Show(n) + rest) == Ok(n)
  {
    var q := Show(n) + rest;
    assert q[0..|Show(n)|] == Show(n);
    SliceAt(q, 0, Show(n), |Show(n)|);
    ShowParses(n, q, 0, |Show(n)|);
  }

  /** The examples: `#and('a','b')` is an And node over the terms a and b,
      `'x'` is the term x and `#or()` has no operands. */
  lemma ParseAndExample()
    ensures ParseQuery("#and('a','b')") == Ok(LogicalNode(And, [TermNode("a"), TermNode("b")]))
  {
    var n := LogicalNode(And, [TermNode("a"), TermNode("b")]);
    assert ShowAll(n, n.operands[1..]) == "'b'";
    assert ShowAll(n, n.operands) == "'a','b'";
    assert Show(n) + "" == "#and('a','b')";
    ParseShow(n, "");
  }

  lemma ParseTermExample()
    ensures ParseQuery("'x'") == Ok(TermNode("x"))
  {
    assert Show(TermNode("x")) + "" == "'x'";
    ParseShow(TermNode("x"), "");
  }

  lemma ParseEmptyOrExample()
    ensures ParseQuery("#or()") == Ok(LogicalNode(Or, []))
  {
    assert Show(LogicalNode(Or, [])) + "" == "#or()";
    ParseShow(LogicalNode(Or, []), "");
  }

  // How the parser fails

  /** A character other than '#' or a quote where an expression should start. */
  lemma ExprInvalid(q: string, pos: nat, p: nat)
    requires pos <= |q| && SkipWs(q, pos) == p && p < |q| && q[p] != '#' && q[p] != '\''
    ensures ExprAt(q, pos) == Err(InvalidSyntax)
  {
  }

  /** An operand that fails makes the operand list fail. */
  lemma OperandFails(q: string, pos: nat, err: ParseError)
    requires pos < |q| && q[pos] != ')' && ExprAt(q, pos) == Err(err)
    ensures OperandsAt(q, pos) == Err(err)
  {
  }

  /** The query ending right after an operand makes the operand list fail. */
  lemma OperandsRunOut(q: string, pos: nat, n: QueryNode, p: nat)
    requires pos < |q| && q[pos] != ')' && ExprAt(q, pos) == Ok((n, p)) && SkipWs(q, p) == |q|
    ensures OperandsAt(q, pos) == Err(IndexOutOfRange)
  {
  }

  /** An operand list that fails makes the parenthesised operands fail. */
  lemma ParenthesizedFails(q: string, e: nat, open: nat, err: ParseError)
    requires e <= |q| && ExpectAt(q, e, '(') == Ok(open) && OperandsAt(q, open) == Err(err)
    ensures ParenthesizedAt(q, e) == Err(err)
  {
  }

  /** Parenthesised operands that fail make the logical node fail. */
  lemma LogicalFails(q: string, pos: nat, e: nat, err: ParseError)
    requires pos < e <= |q| && q[pos] == '#' && LetterRunEnd(q, pos + 1) == e
    requires ParenthesizedAt(q, e) == Err(err)
    ensures ExprAt(q, pos) == Err(err)
  {
    assert SkipWs(q, pos) == pos;
    LogicalStep(q, pos, pos);
  }

  /** `#and(` opens a logical node: the name ends at 4 and the operands start at 5. */
  lemma AndOpens(q: string)
    requires |q| > 5 && q[0] == '#' && q[1] == 'a' && q[2] == 'n' && q[3] == 'd' && q[4] == '('
    ensures LetterRunEnd(q, 1) == 4 && ExpectAt(q, 4, '(') == Ok(5)
  {
    assert LetterRunEnd(q, 4) == 4;
    assert LetterRunEnd(q, 3) == 4;
    assert LetterRunEnd(q, 2) == 4;
    ExpectAtChar(q, 4, '(', 5);
  }

  /** The operand list of `#and('a'` runs out after its first operand. */
  lemma UnclosedOperands(q: string)
    requires q == "#and('a'"
    ensures OperandsAt(q, 5) == Err(IndexOutOfRange)
  {
    assert q[5..8] == "'" + "a" + "'";
    SliceAt(q, 5, "'" + "a" + "'", 8);
    TermAtQuoted(q, 5, "a", 8);
    assert SkipWs(q, 8) == 8;
    OperandsRunOut(q, 5, TermNode("a"), 8);
  }

  /** Input that runs out inside the operand list, `#and('a'`, fails with an
      index out of range. */
  lemma ParseUnclosed(q: string)
    requires q == "#and('a'"
    ensures ParseQuery(q) == Err(IndexOutOfRange)
  {
    assert RemoveNewlines(q) == q;
    UnclosedOperands(q);
    AndOpens(q);
    ParenthesizedFails(q, 4, 5, IndexOutOfRange);
    LogicalFails(q, 0, 4, IndexOutOfRange);
  }

  /** White space right after '(' is taken for an operand, so `#and( )`
      fails with "Invalid syntax" while `#and()` has no operands. */
  lemma ParseInvalidSyntax(q: string)
    requires q == "#and( )"
    ensures ParseQuery(q) == Err(InvalidSyntax)
  {
    assert RemoveNewlines(q) == q;
    assert SkipWs(q, 5) == 6;
    ExprInvalid(q, 5, 6);
    OperandFails(q, 5, InvalidSyntax);
    AndOpens(q);
    ParenthesizedFails(q, 4, 5, InvalidSyntax);
    LogicalFails(q, 0, 4, InvalidSyntax);
  }

  /** A query that starts with neither '#' nor a quote is invalid syntax. */
  lemma ParseInvalidStart(x: string)
    requires x == "x"
    ensures ParseQuery(x) == Err(InvalidSyntax)
  {
    assert RemoveNewlines(x) == x;
    ExprInvalid(x, 0, 0);
  }
}
