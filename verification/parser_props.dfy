/** Properties of the parser, stated against the printer: any token list
    that spells the printout of a tree parses back to that tree, without
    declaring a variable, and stops right after the printout.

    The expression grammar has six levels (see `Unparse.Prec`); the round
    trip is proved for all of them together, by one lemma per parsing
    function: a printout of level `p` followed by a token that `Stops`
    level `p` parses to exactly the printed tree.  For the four binary
    levels a second lemma covers the part before the operator loop.
 */
module ParserProps {
  import opened Outcomes
  import opened Lexer
  import opened Cursor
  import opened LocalVars
  import opened Ast
  import opened Parser
  import opened Unparse

  /** A printed operator of level `p` ends an operand of level `p + 1`. */
  lemma OpStops(op: BinOp, t: Token)
    requires Same(t, Sym(OpText(op)))
    ensures Stops(t, OpPrec(op) + 1)
  {
  }

  /** A printed `=` ends an assignment target. */
  lemma AssignStops(t: Token)
    requires Same(t, Sym("="))
    ensures Stops(t, 1)
  {
  }

  lemma MatchesParens(ts: seq<Token>, c: nat, q: seq<Token>)
    requires Matches(ts, c, [Sym("(")] + q + [Sym(")")])
    ensures Same(ts[c], Sym("(")) && Matches(ts, c + 1, q) && Same(ts[c + 1 + |q|], Sym(")"))
  {
    MatchesLast(ts, c, [Sym("(")] + q, Sym(")"), c + 1 + |q|);
    MatchesHead(ts, c, Sym("("), q);
  }

  /** Below its own level an expression is printed in parentheses. */
  lemma PrintParens(e: Node, p: nat, vars: Vars)
    requires PrintableExpr(e, vars) && Prec(e) < p
    ensures Print(e, p, vars) == [Sym("(")] + Print(e, 0, vars) + [Sym(")")]
  {
  }

  /** Away from its own level, one level up prints the same. */
  lemma PrintShift(e: Node, p: nat, vars: Vars)
    requires PrintableExpr(e, vars) && p < 5 && Prec(e) != p
    ensures Print(e, p, vars) == Print(e, p + 1, vars)
  {
  }

  /** The printout of an operator at its own level, in three parts. */
  lemma PrintBinary(e: Node, p: nat, vars: Vars)
    requires PrintableExpr(e, vars) && e.Binary? && Prec(e) == p
    ensures Print(e, p, vars) == Print(e.lhs, p, vars) + [Sym(OpText(e.op))] + Print(e.rhs, p + 1, vars)
    ensures |Print(e, p, vars)| == |Print(e.lhs, p, vars)| + 1 + |Print(e.rhs, p + 1, vars)|
  {
  }

  lemma PrintAssign(e: Node, vars: Vars)
    requires PrintableExpr(e, vars) && e.Assign?
    ensures Print(e, 0, vars) == Print(e.lhs, 1, vars) + [Sym("=")] + Print(e.rhs, 0, vars)
    ensures |Print(e, 0, vars)| == |Print(e.lhs, 1, vars)| + 1 + |Print(e.rhs, 0, vars)|
  {
  }

  /** A token list that spells a printed operator, cut at the operator:
      the left operand before `mid`, the right one after it. */
  lemma SplitBinary(e: Node, p: nat, vars: Vars, ts: seq<Token>, c: nat, end: nat) returns (mid: nat)
    requires PrintableExpr(e, vars) && e.Binary? && Prec(e) == p
    requires Matches(ts, c, Print(e, p, vars)) && end == c + |Print(e, p, vars)| && Valid(ts, end)
    ensures PrintableExpr(e.lhs, vars) && PrintableExpr(e.rhs, vars)
    ensures Matches(ts, c, Print(e.lhs, p, vars)) && mid == c + |Print(e.lhs, p, vars)|
    ensures mid < end && Valid(ts, mid) && Same(ts[mid], Sym(OpText(e.op))) && Stops(ts[mid], p + 1)
    ensures Matches(ts, mid + 1, Print(e.rhs, p + 1, vars)) && end == mid + 1 + |Print(e.rhs, p + 1, vars)|
  {
    mid := c + |Print(e.lhs, p, vars)|;
    PrintBinary(e, p, vars);
    MatchesAround(ts, c, Print(e.lhs, p, vars), Sym(OpText(e.op)), Print(e.rhs, p + 1, vars), mid);
    OpStops(e.op, ts[mid]);
  }

  /** The same cut for an assignment. */
  lemma SplitAssign(e: Node, vars: Vars, ts: seq<Token>, c: nat, end: nat) returns (mid: nat)
    requires PrintableExpr(e, vars) && e.Assign?
    requires Matches(ts, c, Print(e, 0, vars)) && end == c + |Print(e, 0, vars)| && Valid(ts, end)
    ensures PrintableExpr(e.lhs, vars) && PrintableExpr(e.rhs, vars)
    ensures Matches(ts, c, Print(e.lhs, 1, vars)) && mid == c + |Print(e.lhs, 1, vars)|
    ensures mid < end && Valid(ts, mid) && Same(ts[mid], Sym("=")) && Stops(ts[mid], 1)
    ensures Matches(ts, mid + 1, Print(e.rhs, 0, vars)) && end == mid + 1 + |Print(e.rhs, 0, vars)|
  {
    mid := c + |Print(e.lhs, 1, vars)|;
    PrintAssign(e, vars);
    MatchesAround(ts, c, Print(e.lhs, 1, vars), Sym("="), Print(e.rhs, 0, vars), mid);
    AssignStops(ts[mid]);
  }

  /** A number, variable or call, printed bare, parses back at level 5. */
  lemma AtomRoundTrip(e: Node, vars: Vars, ts: seq<Token>, c: nat, end: nat)
    requires ValidLocals(vars) && PrintableExpr(e, vars) && Prec(e) == 5
    requires Matches(ts, c, Print(e, 5, vars)) && end == c + |Print(e, 5, vars)|
    requires Valid(ts, end) && Stops(ts[end], 5)
    ensures Unary(ts, c, vars) == Ok(Parsed(e, end, vars))
  {
    match e
    case Num(v) => NumRoundTrip(v, vars, ts, c);
    case Lvar(o) => VarRoundTrip(o, vars, ts, c);
    case Fcall(f) => CallRoundTrip(f, vars, ts, c);
  }

  lemma NumRoundTrip(v: int, vars: Vars, ts: seq<Token>, c: nat)
    requires 0 <= v && Matches(ts, c, [NumTok(v)]) && Valid(ts, c + 1)
    ensures Primary(ts, c, vars) == Ok(Parsed(Num(v), c + 1, vars))
  {
  }

  /** A variable is printed by its name, which finds its slot again. */
  lemma VarRoundTrip(o: int, vars: Vars, ts: seq<Token>, c: nat)
    requires ValidLocals(vars) && IsSlot(o, |vars|)
    requires Matches(ts, c, [IdTok(VarAt(vars, o).name)]) && Valid(ts, c + 1) && Stops(ts[c + 1], 5)
    ensures Primary(ts, c, vars) == Ok(Parsed(Lvar(o), c + 1, vars))
  {
    SlotLookup(vars, o);
  }

  lemma CallRoundTrip(f: string, vars: Vars, ts: seq<Token>, c: nat)
    requires Matches(ts, c, [IdTok(f), Sym("("), Sym(")")]) && Valid(ts, c + 3)
    ensures Primary(ts, c, vars) == Ok(Parsed(Fcall(f), c + 3, vars))
  {
    assert Matches(ts, c + 1, [Sym("("), Sym(")")]);
    assert Matches(ts, c + 2, [Sym(")")]);
  }

  /** `( e )` parses at level 5 once `e` parses at level 0. */
  lemma ParenStep(e: Node, vars: Vars, ts: seq<Token>, c: nat, close: nat)
    requires Valid(ts, close) && c < close && Same(ts[c], Sym("(")) && Same(ts[close], Sym(")"))
    requires AssignExpr(ts, c + 1, vars) == Ok(Parsed(e, close, vars))
    ensures Unary(ts, c, vars) == Ok(Parsed(e, close + 1, vars))
  {
    assert Primary(ts, c, vars) == Ok(Parsed(e, close + 1, vars));
  }

  /** `l = r` parses at level 0 once `l` parses at level 1 and `r` at level 0. */
  lemma AssignStep(e: Node, vars: Vars, ts: seq<Token>, c: nat, mid: nat, end: nat)
    requires e.Assign? && Valid(ts, end) && c <= mid < end && Same(ts[mid], Sym("="))
    requires Equality(ts, c, vars) == Ok(Parsed(e.lhs, mid, vars))
    requires AssignExpr(ts, mid + 1, vars) == Ok(Parsed(e.rhs, end, vars))
    ensures AssignExpr(ts, c, vars) == Ok(Parsed(e, end, vars))
  {
  }

  /** Level 0 ends where level 1 ends, at a token that is not `=`. */
  lemma AssignStop(e: Node, vars: Vars, ts: seq<Token>, c: nat, end: nat)
    requires Valid(ts, end) && c <= end && Stops(ts[end], 0)
    requires Equality(ts, c, vars) == Ok(Parsed(e, end, vars))
    ensures AssignExpr(ts, c, vars) == Ok(Parsed(e, end, vars))
  {
  }

  /** How far level `p` is from the level at which `e` is printed bare:
      climbing levels towards `Prec(e)`, wrapping through the
      parentheses at level 5 when `e` binds more loosely than `p`. */
  function Distance(e: Node, p: nat): nat
    requires p <= 5
  {
    if p <= Prec(e) then Prec(e) - p else 5 - p + 1 + Prec(e)
  }

  /** Level 0, `assign`: the right side of `=` is parsed at level 0 again. */
  lemma {:induction false} AssignRoundTrip(e: Node, vars: Vars, ts: seq<Token>, c: nat, end: nat)
    requires ValidLocals(vars) && PrintableExpr(e, vars)
    requires Matches(ts, c, Print(e, 0, vars)) && end == c + |Print(e, 0, vars)|
    requires Valid(ts, end) && Stops(ts[end], 0)
    ensures AssignExpr(ts, c, vars) == Ok(Parsed(e, end, vars))
    decreases e, Distance(e, 0), 2
  {
    if Prec(e) == 0 {
      AssignOperator(e, vars, ts, c, end);
    } else {
      PrintShift(e, 0, vars);
      EqualityRoundTrip(e, vars, ts, c, end);
      AssignStop(e, vars, ts, c, end);
    }
  }

  /** An assignment: its target at level 1, `=`, its value at level 0. */
  lemma {:induction false} AssignOperator(e: Node, vars: Vars, ts: seq<Token>, c: nat, end: nat)
    requires ValidLocals(vars) && PrintableExpr(e, vars) && e.Assign?
    requires Matches(ts, c, Print(e, 0, vars)) && end == c + |Print(e, 0, vars)|
    requires Valid(ts, end) && Stops(ts[end], 0)
    ensures AssignExpr(ts, c, vars) == Ok(Parsed(e, end, vars))
    decreases e, Distance(e, 0), 1
  {
    var mid := SplitAssign(e, vars, ts, c, end);
    EqualityRoundTrip(e.lhs, vars, ts, c, mid);
    AssignRoundTrip(e.rhs, vars, ts, mid + 1, end);
    AssignStep(e, vars, ts, c, mid, end);
  }

  /** One trip round the `equality` loop, on a printed operator. */
  lemma EqualityStep(ts: seq<Token>, e: Node, c: nat, vars: Vars, end: nat)
    requires Valid(ts, end) && c < end
    requires e.Binary? && OpPrec(e.op) == 1 && Same(ts[c], Sym(OpText(e.op)))
    requires Relational(ts, c + 1, vars) == Ok(Parsed(e.rhs, end, vars))
    ensures EqualityRest(ts, e.lhs, c, vars) == EqualityRest(ts, e, end, vars)
  {
    if e.op == Eq {
      EqualityEqStep(ts, e, c, vars, end);
    } else {
      EqualityNeStep(ts, e, c, vars, end);
    }
  }

  lemma EqualityEqStep(ts: seq<Token>, e: Node, c: nat, vars: Vars, end: nat)
    requires Valid(ts, end) && c < end
    requires e.Binary? && e.op == Eq && Same(ts[c], Sym("=="))
    requires Relational(ts, c + 1, vars) == Ok(Parsed(e.rhs, end, vars))
    ensures EqualityRest(ts, e.lhs, c, vars) == EqualityRest(ts, e, end, vars)
  {
    assert Consume(ts, c, "==") == Some(c + 1);
  }

  lemma EqualityNeStep(ts: seq<Token>, e: Node, c: nat, vars: Vars, end: nat)
    requires Valid(ts, end) && c < end
    requires e.Binary? && e.op == Ne && Same(ts[c], Sym("!="))
    requires Relational(ts, c + 1, vars) == Ok(Parsed(e.rhs, end, vars))
    ensures EqualityRest(ts, e.lhs, c, vars) == EqualityRest(ts, e, end, vars)
  {
    assert Consume(ts, c, "==") == None;
    assert Consume(ts, c, "!=") == Some(c + 1);
  }

  /** The `equality` loop ends at a token that stops level 1. */
  lemma EqualityStop(ts: seq<Token>, lhs: Node, c: nat, vars: Vars)
    requires Valid(ts, c) && Stops(ts[c], 1)
    ensures EqualityRest(ts, lhs, c, vars) == Ok(Parsed(lhs, c, vars))
  {
  }

  /** `equality` parses its first operand, then loops. */
  lemma EqualitySplit(ts: seq<Token>, c: nat, vars: Vars, e: Node, end: nat)
    requires Valid(ts, end) && c <= end
    requires Relational(ts, c, vars) == Ok(Parsed(e, end, vars))
    ensures Equality(ts, c, vars) == EqualityRest(ts, e, end, vars)
  {
  }

  /** Level 1, `equality`, up to its operator loop. */
  lemma {:induction false} EqualityPrefix(e: Node, vars: Vars, ts: seq<Token>, c: nat, end: nat)
    requires ValidLocals(vars) && PrintableExpr(e, vars)
    requires Matches(ts, c, Print(e, 1, vars)) && end == c + |Print(e, 1, vars)|
    requires Valid(ts, end) && Stops(ts[end], 2)
    ensures Equality(ts, c, vars) == EqualityRest(ts, e, end, vars)
    decreases e, Distance(e, 1), 1
  {
    if Prec(e) == 1 {
      EqualityOperator(e, vars, ts, c, end);
    } else {
      PrintShift(e, 1, vars);
      RelationalRoundTrip(e, vars, ts, c, end);
      EqualitySplit(ts, c, vars, e, end);
    }
  }

  /** An operator of level 1: its left operand up to the loop, then one
      trip round the loop. */
  lemma {:induction false} EqualityOperator(e: Node, vars: Vars, ts: seq<Token>, c: nat, end: nat)
    requires ValidLocals(vars) && PrintableExpr(e, vars) && e.Binary? && Prec(e) == 1
    requires Matches(ts, c, Print(e, 1, vars)) && end == c + |Print(e, 1, vars)|
    requires Valid(ts, end) && Stops(ts[end], 2)
    ensures Equality(ts, c, vars) == EqualityRest(ts, e, end, vars)
    decreases e, Distance(e, 1), 0
  {
    var mid := SplitBinary(e, 1, vars, ts, c, end);
    EqualityPrefix(e.lhs, vars, ts, c, mid);
    RelationalRoundTrip(e.rhs, vars, ts, mid + 1, end);
    EqualityStep(ts, e, mid, vars, end);
  }

  /** Level 1, `equality`. */
  lemma {:induction false} EqualityRoundTrip(e: Node, vars: Vars, ts: seq<Token>, c: nat, end: nat)
    requires ValidLocals(vars) && PrintableExpr(e, vars)
    requires Matches(ts, c, Print(e, 1, vars)) && end == c + |Print(e, 1, vars)|
    requires Valid(ts, end) && Stops(ts[end], 1)
    ensures Equality(ts, c, vars) == Ok(Parsed(e, end, vars))
    decreases e, Distance(e, 1), 2
  {
    EqualityPrefix(e, vars, ts, c, end);
    EqualityStop(ts, e, end, vars);
  }

  /** One trip round the `relational` loop, on a printed operator. */
  lemma RelationalStep(ts: seq<Token>, e: Node, c: nat, vars: Vars, end: nat)
    requires Valid(ts, end) && c < end
    requires e.Binary? && OpPrec(e.op) == 2 && Same(ts[c], Sym(OpText(e.op)))
    requires AddExpr(ts, c + 1, vars) == Ok(Parsed(e.rhs, end, vars))
    ensures RelationalRest(ts, e.lhs, c, vars) == RelationalRest(ts, e, end, vars)
  {
    if e.op == Lt {
      RelationalLtStep(ts, e, c, vars, end);
    } else {
      RelationalLeStep(ts, e, c, vars, end);
    }
  }

  lemma RelationalLtStep(ts: seq<Token>, e: Node, c: nat, vars: Vars, end: nat)
    requires Valid(ts, end) && c < end
    requires e.Binary? && e.op == Lt && Same(ts[c], Sym("<"))
    requires AddExpr(ts, c + 1, vars) == Ok(Parsed(e.rhs, end, vars))
    ensures RelationalRest(ts, e.lhs, c, vars) == RelationalRest(ts, e, end, vars)
  {
    assert Consume(ts, c, "<") == Some(c + 1);
  }

  lemma RelationalLeStep(ts: seq<Token>, e: Node, c: nat, vars: Vars, end: nat)
    requires Valid(ts, end) && c < end
    requires e.Binary? && e.op == Le && Same(ts[c], Sym("<="))
    requires AddExpr(ts, c + 1, vars) == Ok(Parsed(e.rhs, end, vars))
    ensures RelationalRest(ts, e.lhs, c, vars) == RelationalRest(ts, e, end, vars)
  {
    assert Consume(ts, c, "<") == None;
    assert Consume(ts, c, "<=") == Some(c + 1);
  }

  /** The `relational` loop ends at a token that stops level 2. */
  lemma RelationalStop(ts: seq<Token>, lhs: Node, c: nat, vars: Vars)
    requires Valid(ts, c) && Stops(ts[c], 2)
    ensures RelationalRest(ts, lhs, c, vars) == Ok(Parsed(lhs, c, vars))
  {
  }

  /** `relational` parses its first operand, then loops. */
  lemma RelationalSplit(ts: seq<Token>, c: nat, vars: Vars, e: Node, end: nat)
    requires Valid(ts, end) && c <= end
    requires AddExpr(ts, c, vars) == Ok(Parsed(e, end, vars))
    ensures Relational(ts, c, vars) == RelationalRest(ts, e, end, vars)
  {
  }

  /** Level 2, `relational`, up to its operator loop. */
  lemma {:induction false} RelationalPrefix(e: Node, vars: Vars, ts: seq<Token>, c: nat, end: nat)
    requires ValidLocals(vars) && PrintableExpr(e, vars)
    requires Matches(ts, c, Print(e, 2, vars)) && end == c + |Print(e, 2, vars)|
    requires Valid(ts, end) && Stops(ts[end], 3)
    ensures Relational(ts, c, vars) == RelationalRest(ts, e, end, vars)
    decreases e, Distance(e, 2), 1
  {
    if Prec(e) == 2 {
      RelationalOperator(e, vars, ts, c, end);
    } else {
      PrintShift(e, 2, vars);
      AddRoundTrip(e, vars, ts, c, end);
      RelationalSplit(ts, c, vars, e, end);
    }
  }

  /** An operator of level 2: its left operand up to the loop, then one
      trip round the loop. */
  lemma {:induction false} RelationalOperator(e: Node, vars: Vars, ts: seq<Token>, c: nat, end: nat)
    requires ValidLocals(vars) && PrintableExpr(e, vars) && e.Binary? && Prec(e) == 2
    requires Matches(ts, c, Print(e, 2, vars)) && end == c + |Print(e, 2, vars)|
    requires Valid(ts, end) && Stops(ts[end], 3)
    ensures Relational(ts, c, vars) == RelationalRest(ts, e, end, vars)
    decreases e, Distance(e, 2), 0
  {
    var mid := SplitBinary(e, 2, vars, ts, c, end);
    RelationalPrefix(e.lhs, vars, ts, c, mid);
    AddRoundTrip(e.rhs, vars, ts, mid + 1, end);
    RelationalStep(ts, e, mid, vars, end);
  }

  /** Level 2, `relational`. */
  lemma {:induction false} RelationalRoundTrip(e: Node, vars: Vars, ts: seq<Token>, c: nat, end: nat)
    requires ValidLocals(vars) && PrintableExpr(e, vars)
    requires Matches(ts, c, Print(e, 2, vars)) && end == c + |Print(e, 2, vars)|
    requires Valid(ts, end) && Stops(ts[end], 2)
    ensures Relational(ts, c, vars) == Ok(Parsed(e, end, vars))
    decreases e, Distance(e, 2), 2
  {
    RelationalPrefix(e, vars, ts, c, end);
    RelationalStop(ts, e, end, vars);
  }

  /** One trip round the `add` loop, on a printed operator. */
  lemma AddStep(ts: seq<Token>, e: Node, c: nat, vars: Vars, end: nat)
    requires Valid(ts, end) && c < end
    requires e.Binary? && OpPrec(e.op) == 3 && Same(ts[c], Sym(OpText(e.op)))
    requires MulExpr(ts, c + 1, vars) == Ok(Parsed(e.rhs, end, vars))
    ensures AddRest(ts, e.lhs, c, vars) == AddRest(ts, e, end, vars)
  {
    if e.op == Add {
      AddAddStep(ts, e, c, vars, end);
    } else {
      AddSubStep(ts, e, c, vars, end);
    }
  }

  lemma AddAddStep(ts: seq<Token>, e: Node, c: nat, vars: Vars, end: nat)
    requires Valid(ts, end) && c < end
    requires e.Binary? && e.op == Add && Same(ts[c], Sym("+"))
    requires MulExpr(ts, c + 1, vars) == Ok(Parsed(e.rhs, end, vars))
    ensures AddRest(ts, e.lhs, c, vars) == AddRest(ts, e, end, vars)
  {
    assert Consume(ts, c, "+") == Some(c + 1);
  }

  lemma AddSubStep(ts: seq<Token>, e: Node, c: nat, vars: Vars, end: nat)
    requires Valid(ts, end) && c < end
    requires e.Binary? && e.op == Sub && Same(ts[c], Sym("-"))
    requires MulExpr(ts, c + 1, vars) == Ok(Parsed(e.rhs, end, vars))
    ensures AddRest(ts, e.lhs, c, vars) == AddRest(ts, e, end, vars)
  {
    assert Consume(ts, c, "+") == None;
    assert Consume(ts, c, "-") == Some(c + 1);
  }

  /** The `add` loop ends at a token that stops level 3. */
  lemma AddStop(ts: seq<Token>, lhs: Node, c: nat, vars: Vars)
    requires Valid(ts, c) && Stops(ts[c], 3)
    ensures AddRest(ts, lhs, c, vars) == Ok(Parsed(lhs, c, vars))
  {
  }

  /** `add` parses its first operand, then loops. */
  lemma AddSplit(ts: seq<Token>, c: nat, vars: Vars, e: Node, end: nat)
    requires Valid(ts, end) && c <= end
    requires MulExpr(ts, c, vars) == Ok(Parsed(e, end, vars))
    ensures AddExpr(ts, c, vars) == AddRest(ts, e, end, vars)
  {
  }

  /** Level 3, `add`, up to its operator loop. */
  lemma {:induction false} AddPrefix(e: Node, vars: Vars, ts: seq<Token>, c: nat, end: nat)
    requires ValidLocals(vars) && PrintableExpr(e, vars)
    requires Matches(ts, c, Print(e, 3, vars)) && end == c + |Print(e, 3, vars)|
    requires Valid(ts, end) && Stops(ts[end], 4)
    ensures AddExpr(ts, c, vars) == AddRest(ts, e, end, vars)
    decreases e, Distance(e, 3), 1
  {
    if Prec(e) == 3 {
      AddOperator(e, vars, ts, c, end);
    } else {
      PrintShift(e, 3, vars);
      MulRoundTrip(e, vars, ts, c, end);
      AddSplit(ts, c, vars, e, end);
    }
  }

  /** An operator of level 3: its left operand up to the loop, then one
      trip round the loop. */
  lemma {:induction false} AddOperator(e: Node, vars: Vars, ts: seq<Token>, c: nat, end: nat)
    requires ValidLocals(vars) && PrintableExpr(e, vars) && e.Binary? && Prec(e) == 3
    requires Matches(ts, c, Print(e, 3, vars)) && end == c + |Print(e, 3, vars)|
    requires Valid(ts, end) && Stops(ts[end], 4)
    ensures AddExpr(ts, c, vars) == AddRest(ts, e, end, vars)
    decreases e, Distance(e, 3), 0
  {
    var mid := SplitBinary(e, 3, vars, ts, c, end);
    AddPrefix(e.lhs, vars, ts, c, mid);
    MulRoundTrip(e.rhs, vars, ts, mid + 1, end);
    AddStep(ts, e, mid, vars, end);
  }

  /** Level 3, `add`. */
  lemma {:induction false} AddRoundTrip(e: Node, vars: Vars, ts: seq<Token>, c: nat, end: nat)
    requires ValidLocals(vars) && PrintableExpr(e, vars)
    requires Matches(ts, c, Print(e, 3, vars)) && end == c + |Print(e, 3, vars)|
    requires Valid(ts, end) && Stops(ts[end], 3)
    ensures AddExpr(ts, c, vars) == Ok(Parsed(e, end, vars))
    decreases e, Distance(e, 3), 2
  {
    AddPrefix(e, vars, ts, c, end);
    AddStop(ts, e, end, vars);
  }

  /** One trip round the `mul` loop, on a printed operator. */
  lemma MulStep(ts: seq<Token>, e: Node, c: nat, vars: Vars, end: nat)
    requires Valid(ts, end) && c < end
    requires e.Binary? && OpPrec(e.op) == 4 && Same(ts[c], Sym(OpText(e.op)))
    requires Unary(ts, c + 1, vars) == Ok(Parsed(e.rhs, end, vars))
    ensures MulRest(ts, e.lhs, c, vars) == MulRest(ts, e, end, vars)
  {
    if e.op == Mul {
      MulMulStep(ts, e, c, vars, end);
    } else {
      MulDivStep(ts, e, c, vars, end);
    }
  }

  lemma MulMulStep(ts: seq<Token>, e: Node, c: nat, vars: Vars, end: nat)
    requires Valid(ts, end) && c < end
    requires e.Binary? && e.op == Mul && Same(ts[c], Sym("*"))
    requires Unary(ts, c + 1, vars) == Ok(Parsed(e.rhs, end, vars))
    ensures MulRest(ts, e.lhs, c, vars) == MulRest(ts, e, end, vars)
  {
    assert Consume(ts, c, "*") == Some(c + 1);
  }

  lemma MulDivStep(ts: seq<Token>, e: Node, c: nat, vars: Vars, end: nat)
    requires Valid(ts, end) && c < end
    requires e.Binary? && e.op == Div && Same(ts[c], Sym("/"))
    requires Unary(ts, c + 1, vars) == Ok(Parsed(e.rhs, end, vars))
    ensures MulRest(ts, e.lhs, c, vars) == MulRest(ts, e, end, vars)
  {
    assert Consume(ts, c, "*") == None;
    assert Consume(ts, c, "/") == Some(c + 1);
  }

  /** The `mul` loop ends at a token that stops level 4. */
  lemma MulStop(ts: seq<Token>, lhs: Node, c: nat, vars: Vars)
    requires Valid(ts, c) && Stops(ts[c], 4)
    ensures MulRest(ts, lhs, c, vars) == Ok(Parsed(lhs, c, vars))
  {
  }

  /** `mul` parses its first operand, then loops. */
  lemma MulSplit(ts: seq<Token>, c: nat, vars: Vars, e: Node, end: nat)
    requires Valid(ts, end) && c <= end
    requires Unary(ts, c, vars) == Ok(Parsed(e, end, vars))
    ensures MulExpr(ts, c, vars) == MulRest(ts, e, end, vars)
  {
  }

  /** Level 4, `mul`, up to its operator loop. */
  lemma {:induction false} MulPrefix(e: Node, vars: Vars, ts: seq<Token>, c: nat, end: nat)
    requires ValidLocals(vars) && PrintableExpr(e, vars)
    requires Matches(ts, c, Print(e, 4, vars)) && end == c + |Print(e, 4, vars)|
    requires Valid(ts, end) && Stops(ts[end], 5)
    ensures MulExpr(ts, c, vars) == MulRest(ts, e, end, vars)
    decreases e, Distance(e, 4), 1
  {
    if Prec(e) == 4 {
      MulOperator(e, vars, ts, c, end);
    } else {
      PrintShift(e, 4, vars);
      UnaryRoundTrip(e, vars, ts, c, end);
      MulSplit(ts, c, vars, e, end);
    }
  }

  /** An operator of level 4: its left operand up to the loop, then one
      trip round the loop. */
  lemma {:induction false} MulOperator(e: Node, vars: Vars, ts: seq<Token>, c: nat, end: nat)
    requires ValidLocals(vars) && PrintableExpr(e, vars) && e.Binary? && Prec(e) == 4
    requires Matches(ts, c, Print(e, 4, vars)) && end == c + |Print(e, 4, vars)|
    requires Valid(ts, end) && Stops(ts[end], 5)
    ensures MulExpr(ts, c, vars) == MulRest(ts, e, end, vars)
    decreases e, Distance(e, 4), 0
  {
    var mid := SplitBinary(e, 4, vars, ts, c, end);
    MulPrefix(e.lhs, vars, ts, c, mid);
    UnaryRoundTrip(e.rhs, vars, ts, mid + 1, end);
    MulStep(ts, e, mid, vars, end);
  }

  /** Level 4, `mul`. */
  lemma {:induction false} MulRoundTrip(e: Node, vars: Vars, ts: seq<Token>, c: nat, end: nat)
    requires ValidLocals(vars) && PrintableExpr(e, vars)
    requires Matches(ts, c, Print(e, 4, vars)) && end == c + |Print(e, 4, vars)|
    requires Valid(ts, end) && Stops(ts[end], 4)
    ensures MulExpr(ts, c, vars) == Ok(Parsed(e, end, vars))
    decreases e, Distance(e, 4), 2
  {
    MulPrefix(e, vars, ts, c, end);
    MulStop(ts, e, end, vars);
  }

  /** Level 5, `unary`: a bare atom, or a parenthesised expression. */
  lemma {:induction false} UnaryRoundTrip(e: Node, vars: Vars, ts: seq<Token>, c: nat, end: nat)
    requires ValidLocals(vars) && PrintableExpr(e, vars)
    requires Matches(ts, c, Print(e, 5, vars)) && end == c + |Print(e, 5, vars)|
    requires Valid(ts, end) && Stops(ts[end], 5)
    ensures Unary(ts, c, vars) == Ok(Parsed(e, end, vars))
    decreases e, Distance(e, 5), 2
  {
    if Prec(e) < 5 {
      ParenRoundTrip(e, vars, ts, c, end);
    } else {
      AtomRoundTrip(e, vars, ts, c, end);
    }
  }

  /** An expression printed in parentheses parses back at level 5. */
  lemma {:induction false} ParenRoundTrip(e: Node, vars: Vars, ts: seq<Token>, c: nat, end: nat)
    requires ValidLocals(vars) && PrintableExpr(e, vars) && Prec(e) < 5
    requires Matches(ts, c, Print(e, 5, vars)) && end == c + |Print(e, 5, vars)|
    requires Valid(ts, end)
    ensures Unary(ts, c, vars) == Ok(Parsed(e, end, vars))
    decreases e, Distance(e, 5), 1
  {
    var close := SplitParens(e, vars, ts, c, end);
    AssignRoundTrip(e, vars, ts, c + 1, close);
    ParenStep(e, vars, ts, c, close);
  }

  /** A token list that spells a parenthesised printout, cut at its `)`. */
  lemma SplitParens(e: Node, vars: Vars, ts: seq<Token>, c: nat, end: nat) returns (close: nat)
    requires PrintableExpr(e, vars) && Prec(e) < 5
    requires Matches(ts, c, Print(e, 5, vars)) && end == c + |Print(e, 5, vars)| && Valid(ts, end)
    ensures Same(ts[c], Sym("(")) && Matches(ts, c + 1, Print(e, 0, vars))
    ensures close == c + 1 + |Print(e, 0, vars)| && close + 1 == end && Valid(ts, close)
    ensures Same(ts[close], Sym(")")) && Stops(ts[close], 0)
  {
    close := c + 1 + |Print(e, 0, vars)|;
    PrintParens(e, 5, vars);
    MatchesParens(ts, c, Print(e, 0, vars));
  }
}
