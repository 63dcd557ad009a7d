/** What the parser builds for the operators the printer never writes,
    and how it groups chains of operators.

    `a > b` becomes `b < a`, `a >= b` becomes `b <= a`, `-x` becomes
    `0 - x` and `+x` is just `x`: the tree has no greater-than or
    negation node.  Operators of one level group to the left, a higher
    level binds tighter, and `=` groups to the right.
 */
module DesugarProps {
  import opened Outcomes
  import opened Lexer
  import opened Cursor
  import opened LocalVars
  import opened Ast
  import opened Parser
  import opened Unparse
  import opened ParserProps

  // ---------------------------------------------------------------- one step, any input

  /** After `>` the right operand is parsed and becomes the left side of `<`. */
  lemma GreaterSwaps(ts: seq<Token>, lhs: Node, c: nat, vars: Vars)
    requires Valid(ts, c) && IsOp(ts[c], ">")
    ensures var rhs := AddExpr(ts, c + 1, vars);
      RelationalRest(ts, lhs, c, vars) ==
        if rhs.Fail? then Fail(rhs.error)
        else RelationalRest(ts, Binary(Lt, rhs.value.node, lhs), rhs.value.next, rhs.value.vars)
  {
    assert Consume(ts, c, "<") == None && Consume(ts, c, "<=") == None;
    assert Consume(ts, c, ">") == Some(c + 1);
  }

  /** After `>=` the right operand is parsed and becomes the left side of `<=`. */
  lemma GreaterEqualSwaps(ts: seq<Token>, lhs: Node, c: nat, vars: Vars)
    requires Valid(ts, c) && IsOp(ts[c], ">=")
    ensures var rhs := AddExpr(ts, c + 1, vars);
      RelationalRest(ts, lhs, c, vars) ==
        if rhs.Fail? then Fail(rhs.error)
        else RelationalRest(ts, Binary(Le, rhs.value.node, lhs), rhs.value.next, rhs.value.vars)
  {
    assert Consume(ts, c, "<") == None && Consume(ts, c, "<=") == None && Consume(ts, c, ">") == None;
    assert Consume(ts, c, ">=") == Some(c + 1);
  }

  /** Unary minus parses its operand and subtracts it from zero. */
  lemma MinusIsSubtraction(ts: seq<Token>, c: nat, vars: Vars)
    requires Valid(ts, c) && IsOp(ts[c], "-")
    ensures var p := Primary(ts, c + 1, vars);
      Unary(ts, c, vars) ==
        if p.Fail? then Fail(p.error)
        else Ok(Parsed(Binary(Sub, Num(0), p.value.node), p.value.next, p.value.vars))
  {
    assert Consume(ts, c, "+") == None;
    assert Consume(ts, c, "-") == Some(c + 1);
  }

  /** Unary plus is dropped. */
  lemma PlusIsDropped(ts: seq<Token>, c: nat, vars: Vars)
    requires Valid(ts, c) && IsOp(ts[c], "+")
    ensures Unary(ts, c, vars) == Primary(ts, c + 1, vars)
  {
    assert Consume(ts, c, "+") == Some(c + 1);
  }

  // ---------------------------------------------------------------- whole expressions

  /** Tokens spelling `a > b` parse to `b < a`. */
  lemma GreaterRoundTrip(a: Node, b: Node, vars: Vars, ts: seq<Token>, c: nat, end: nat)
    requires ValidLocals(vars) && PrintableExpr(a, vars) && PrintableExpr(b, vars)
    requires Matches(ts, c, Print(a, 3, vars) + [Sym(">")] + Print(b, 3, vars))
    requires end == c + |Print(a, 3, vars)| + 1 + |Print(b, 3, vars)|
    requires Valid(ts, end) && Stops(ts[end], 2)
    ensures Relational(ts, c, vars) == Ok(Parsed(Binary(Lt, b, a), end, vars))
  {
    var mid := c + |Print(a, 3, vars)|;
    MatchesAround(ts, c, Print(a, 3, vars), Sym(">"), Print(b, 3, vars), mid);
    AddRoundTrip(a, vars, ts, c, mid);
    AddRoundTrip(b, vars, ts, mid + 1, end);
    GreaterSwaps(ts, a, mid, vars);
    RelationalStop(ts, Binary(Lt, b, a), end, vars);
  }

  /** Tokens spelling `a >= b` parse to `b <= a`. */
  lemma GreaterEqualRoundTrip(a: Node, b: Node, vars: Vars, ts: seq<Token>, c: nat, end: nat)
    requires ValidLocals(vars) && PrintableExpr(a, vars) && PrintableExpr(b, vars)
    requires Matches(ts, c, Print(a, 3, vars) + [Sym(">=")] + Print(b, 3, vars))
    requires end == c + |Print(a, 3, vars)| + 1 + |Print(b, 3, vars)|
    requires Valid(ts, end) && Stops(ts[end], 2)
    ensures Relational(ts, c, vars) == Ok(Parsed(Binary(Le, b, a), end, vars))
  {
    var mid := c + |Print(a, 3, vars)|;
    MatchesAround(ts, c, Print(a, 3, vars), Sym(">="), Print(b, 3, vars), mid);
    AddRoundTrip(a, vars, ts, c, mid);
    AddRoundTrip(b, vars, ts, mid + 1, end);
    GreaterEqualSwaps(ts, a, mid, vars);
    RelationalStop(ts, Binary(Le, b, a), end, vars);
  }

  /** Tokens spelling `- x` parse to `0 - x`. */
  lemma MinusRoundTrip(e: Node, vars: Vars, ts: seq<Token>, c: nat, end: nat)
    requires ValidLocals(vars) && PrintableExpr(e, vars)
    requires Matches(ts, c, [Sym("-")] + Print(e, 5, vars)) && end == c + 1 + |Print(e, 5, vars)|
    requires Valid(ts, end) && Stops(ts[end], 5)
    ensures Unary(ts, c, vars) == Ok(Parsed(Binary(Sub, Num(0), e), end, vars))
  {
    MatchesHead(ts, c, Sym("-"), Print(e, 5, vars));
    UnaryRoundTrip(e, vars, ts, c + 1, end);
    PrimaryFirst(e, vars, ts, c + 1);
    MinusIsSubtraction(ts, c, vars);
  }

  /** A printout at level 5 does not open with a sign, so `unary` hands it
      straight to `primary`. */
  lemma PrimaryFirst(e: Node, vars: Vars, ts: seq<Token>, c: nat)
    requires PrintableExpr(e, vars) && Matches(ts, c, Print(e, 5, vars)) && Valid(ts, c)
    ensures Unary(ts, c, vars) == Primary(ts, c, vars)
  {
    var x := Print(e, 5, vars);
    PrintOpens(e, 5, vars);
    MatchesFirst(ts, c, x);
    assert Consume(ts, c, "+") == None && Consume(ts, c, "-") == None;
  }

  /** `a op1 b op2 d` with both operators on one level parses to
      `(a op1 b) op2 d`. */
  lemma LeftAssociative(op1: BinOp, op2: BinOp, a: Node, b: Node, d: Node, vars: Vars, ts: seq<Token>, c: nat, end: nat)
    requires OpPrec(op1) == OpPrec(op2)
    requires ValidLocals(vars) && PrintableExpr(a, vars) && PrintableExpr(b, vars) && PrintableExpr(d, vars)
    requires var k := OpPrec(op1);
      Matches(ts, c, Print(a, k, vars) + [Sym(OpText(op1))] + Print(b, k + 1, vars) + [Sym(OpText(op2))] + Print(d, k + 1, vars))
    requires var k := OpPrec(op1);
      end == c + |Print(a, k, vars)| + 1 + |Print(b, k + 1, vars)| + 1 + |Print(d, k + 1, vars)|
    requires Valid(ts, end) && Stops(ts[end], 0)
    ensures Expr(ts, c, vars) == Ok(Parsed(Binary(op2, Binary(op1, a, b), d), end, vars))
  {
    var e := Binary(op2, Binary(op1, a, b), d);
    assert Print(e, 0, vars) ==
      Print(a, OpPrec(op1), vars) + [Sym(OpText(op1))] + Print(b, OpPrec(op1) + 1, vars)
        + [Sym(OpText(op2))] + Print(d, OpPrec(op1) + 1, vars);
    AssignRoundTrip(e, vars, ts, c, end);
  }

  /** `a op1 b op2 d` with `op2` on a higher level parses to
      `a op1 (b op2 d)`. */
  lemma HigherBindsTighter(op1: BinOp, op2: BinOp, a: Node, b: Node, d: Node, vars: Vars, ts: seq<Token>, c: nat, end: nat)
    requires OpPrec(op1) < OpPrec(op2)
    requires ValidLocals(vars) && PrintableExpr(a, vars) && PrintableExpr(b, vars) && PrintableExpr(d, vars)
    requires Matches(ts, c, Print(a, OpPrec(op1), vars) + [Sym(OpText(op1))]
      + (Print(b, OpPrec(op2), vars) + [Sym(OpText(op2))] + Print(d, OpPrec(op2) + 1, vars)))
    requires end == c + |Print(a, OpPrec(op1), vars)| + 1 + |Print(b, OpPrec(op2), vars)| + 1 + |Print(d, OpPrec(op2) + 1, vars)|
    requires Valid(ts, end) && Stops(ts[end], 0)
    ensures Expr(ts, c, vars) == Ok(Parsed(Binary(op1, a, Binary(op2, b, d)), end, vars))
  {
    var e := Binary(op1, a, Binary(op2, b, d));
    assert Print(Binary(op2, b, d), OpPrec(op1) + 1, vars) ==
      Print(b, OpPrec(op2), vars) + [Sym(OpText(op2))] + Print(d, OpPrec(op2) + 1, vars);
    AssignRoundTrip(e, vars, ts, c, end);
  }

  /** `x = y = v` parses to `x = (y = v)`. */
  lemma AssignRightAssociative(x: Node, y: Node, v: Node, vars: Vars, ts: seq<Token>, c: nat, end: nat)
    requires ValidLocals(vars) && PrintableExpr(x, vars) && PrintableExpr(y, vars) && PrintableExpr(v, vars)
    requires Matches(ts, c, Print(x, 1, vars) + [Sym("=")] + (Print(y, 1, vars) + [Sym("=")] + Print(v, 0, vars)))
    requires end == c + |Print(x, 1, vars)| + 1 + |Print(y, 1, vars)| + 1 + |Print(v, 0, vars)|
    requires Valid(ts, end) && Stops(ts[end], 0)
    ensures Expr(ts, c, vars) == Ok(Parsed(Assign(x, Assign(y, v)), end, vars))
  {
    AssignRoundTrip(Assign(x, Assign(y, v)), vars, ts, c, end);
  }
}
