/** BooleanQueryParser.cs: a recursive-descent parser over the field `query`
    with the mutable cursor `position`. Every method is proved to do what the
    matching function of QuerySyntax says, both for the node it returns and
    for where it leaves the cursor; a thrown exception is an `Err` result. */
module BooleanQueryParsing {
  import opened Wrappers
  import opened Models
  import opened QuerySyntax

  /** The outcome of a parsing method against the outcome of the function that
      specifies it: the same value and the cursor at the same place, or the
      same error. */
  predicate Agrees<T(==)>(r: Result<T, ParseError>, spec: Result<(T, nat), ParseError>, position: nat)
  {
    (spec.Ok? ==> r == Ok(spec.value.0) && position == spec.value.1) &&
    (spec.Err? ==> r == Err(spec.error))
  }

  // The operand loop of ParseExpression, one iteration at a time: `operands`
  // were read from `open` up to `here`.

  lemma OperandLoopStep(q: string, open: nat, operands: seq<QueryNode>, here: nat, n: QueryNode, after: nat, c: nat, next: nat)
    requires open <= here < |q| && q[here] != ')'
    requires OperandsAt(q, open) == Prepend(operands, OperandsAt(q, here))
    requires ExprAt(q, here) == Ok((n, after))
    requires SkipWs(q, after) == c && c < |q| && next == if q[c] == ',' then c + 1 else c
    ensures OperandsAt(q, open) == Prepend(operands + [n], OperandsAt(q, next))
  {
    OperandsStep(q, here, n, after);
    AfterOperand(q, n, after, c, next);
    PrependTwice(operands, [n], OperandsAt(q, next));
  }

  /** The loop stops at the end of the input (an index out of range) or in
      front of a ')' (the operands read so far). */
  lemma OperandLoopEnds(q: string, open: nat, operands: seq<QueryNode>, here: nat)
    requires open <= here <= |q| && (here == |q| || q[here] == ')')
    requires OperandsAt(q, open) == Prepend(operands, OperandsAt(q, here))
    ensures here == |q| ==> OperandsAt(q, open) == Err(IndexOutOfRange)
    ensures here < |q| ==> OperandsAt(q, open) == Ok((operands, here))
  {
    assert operands + [] == operands;
  }

  lemma OperandLoopRunsOut(q: string, open: nat, operands: seq<QueryNode>, here: nat, n: QueryNode, after: nat)
    requires open <= here < |q| && q[here] != ')'
    requires OperandsAt(q, open) == Prepend(operands, OperandsAt(q, here))
    requires ExprAt(q, here) == Ok((n, after)) && SkipWs(q, after) == |q|
    ensures OperandsAt(q, open) == Err(IndexOutOfRange)
  {
    OperandsRunOut(q, here, n, after);
  }

  lemma OperandLoopFails(q: string, open: nat, operands: seq<QueryNode>, here: nat, err: ParseError)
    requires open <= here < |q| && q[here] != ')'
    requires OperandsAt(q, open) == Prepend(operands, OperandsAt(q, here))
    requires ExprAt(q, here) == Err(err)
    ensures OperandsAt(q, open) == Err(err)
  {
    OperandFails(q, here, err);
  }

  class BooleanQueryParser {
    var query: string
    var position: nat

    constructor ()
      ensures query == [] && position == 0
    {
      query, position := [], 0;
    }

    /** Parse: the query without its line breaks, parsed from position 0. */
    method Parse(q: string) returns (r: Result<QueryNode, ParseError>)
      modifies this`query, this`position
      ensures query == RemoveNewlines(q)
      ensures r == ParseQuery(q)
    {
      query := RemoveNewlines(q);
      position := 0;
      r := ParseExpression();
    }

    /** ParseExpression: white space, then a '#' node or a quoted term. */
    method ParseExpression() returns (r: Result<QueryNode, ParseError>)
      requires position <= |query|
      modifies this`position
      ensures Agrees(r, ExprAt(query, old(position)), position)
      decreases |query| - position, 2
    {
      ghost var start := position;
      SkipWhitespace();
      if position == |query| {
        ExprRunsOut(query, start);
        return Err(IndexOutOfRange);
      }
      if query[position] == '#' {
        LogicalStep(query, start, position);
        r := ParseLogical();
      } else if query[position] == '\'' {
        TermStep(query, start, position);
        var term := ParseTerm();
        if term.Err? {
          return Err(term.error);
        }
        r := Ok(TermNode(term.value));
      } else {
        ExprInvalid(query, start, position);
        r := Err(InvalidSyntax);
      }
    }

    /** The '#' branch of ParseExpression, entered on the '#': the operator,
        '(' , the operands, ')'. */
    method ParseLogical() returns (r: Result<QueryNode, ParseError>)
      requires position < |query| && query[position] == '#'
      modifies this`position
      ensures Agrees(r, LogicalExprAt(query, old(position)), position)
      decreases |query| - position, 1
    {
      position := position + 1;
      var operatorName := ParseOperator();
      var openParen := Expect('(');
      if openParen.Some? {
        return Err(openParen.value);
      }
      var operands := ParseOperands();
      if operands.Err? {
        return Err(operands.error);
      }
      var closeParen := Expect(')');
      if closeParen.Some? {
        return Err(closeParen.value);
      }
      r := Ok(LogicalNode(operatorName, operands.value));
    }

    /** The operand loop of ParseExpression: expressions, each optionally
        followed by a comma, until a ')' stands at the cursor. */
    method ParseOperands() returns (r: Result<seq<QueryNode>, ParseError>)
      requires position <= |query|
      modifies this`position
      ensures Agrees(r, OperandsAt(query, old(position)), position)
      decreases |query| - position, 3
    {
      ghost var open := position;
      var operands: seq<QueryNode> := [];
      PrependNothing(OperandsAt(query, position));
      while position < |query| && query[position] != ')'
        invariant open <= position <= |query|
        invariant OperandsAt(query, open) == Prepend(operands, OperandsAt(query, position))
        decreases |query| - position
      {
        ghost var here := position;
        var operand := ParseExpression();
        if operand.Err? {
          OperandLoopFails(query, open, operands, here, operand.error);
          return Err(operand.error);
        }
        ghost var after := position;
        SkipWhitespace();
        if position == |query| {
          OperandLoopRunsOut(query, open, operands, here, operand.value, after);
          return Err(IndexOutOfRange);
        }
        ghost var next := if query[position] == ',' then position + 1 else position;
        OperandLoopStep(query, open, operands, here, operand.value, after, position, next);
        operands := operands + [operand.value];
        if query[position] == ',' {
          position := position + 1;
        }
        assert position == next;
      }
      OperandLoopEnds(query, open, operands, position);
      if position == |query| {
        return Err(IndexOutOfRange);
      }
      r := Ok(operands);
    }

    /** ParseOperator: the run of letters at the cursor, named by the switch. */
    method ParseOperator() returns (op: Operator)
      requires position <= |query|
      modifies this`position
      ensures position == LetterRunEnd(query, old(position))
      ensures op == OperatorNamed(query[old(position)..position])
    {
      var start := position;
      while position < |query| && IsLetter(query[position])
        invariant start <= position <= |query|
        invariant LetterRunEnd(query, position) == LetterRunEnd(query, start)
        decreases |query| - position
      {
        position := position + 1;
      }
      var operatorName := query[start..position];
      op := if operatorName == "not" then Not
            else if operatorName == "and" then And
            else if operatorName == "or" then Or
            else Operator.None;
    }

    /** ParseTerm: a quote, the text up to the next quote, the closing quote. */
    method ParseTerm() returns (r: Result<string, ParseError>)
      requires position <= |query|
      modifies this`position
      ensures Agrees(r, TermAt(query, old(position)), position)
    {
      var openQuote := Expect('\'');
      if openQuote.Some? {
        return Err(openQuote.value);
      }
      var start := position;
      while position < |query| && query[position] != '\''
        invariant start <= position <= |query|
        invariant QuoteEnd(query, position) == QuoteEnd(query, start)
        decreases |query| - position
      {
        position := position + 1;
      }
      if position == |query| {
        return Err(IndexOutOfRange);
      }
      var term := query[start..position];
      var closeQuote := Expect('\'');
      if closeQuote.Some? {
        return Err(closeQuote.value);
      }
      r := Ok(term);
    }

    /** Expect: white space, then the expected character or an error; the
        cursor moves past the character. */
    method Expect(expected: char) returns (failure: Option<ParseError>)
      requires position <= |query|
      modifies this`position
      ensures ExpectAt(query, old(position), expected).Ok? ==>
                failure == Option.None && position == ExpectAt(query, old(position), expected).value
      ensures ExpectAt(query, old(position), expected).Err? ==>
                failure == Some(ExpectAt(query, old(position), expected).error)
    {
      SkipWhitespace();
      if position == |query| {
        return Some(IndexOutOfRange);
      }
      if query[position] != expected {
        return Some(Expected(expected, position));
      }
      position := position + 1;
      failure := Option.None;
    }

    /** SkipWhitespace: the cursor moves to the first non-white-space character or the end. */
    method SkipWhitespace()
      requires position <= |query|
      modifies this`position
      ensures position == SkipWs(query, old(position))
    {
      while position < |query| && IsWhiteSpace(query[position])
        invariant old(position) <= position <= |query|
        invariant SkipWs(query, position) == SkipWs(query, old(position))
        decreases |query| - position
      {
        position := position + 1;
      }
    }
  }
}
