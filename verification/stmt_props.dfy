/** The round trip for statements and programs: a token list that spells
    the printout of a statement parses back to that statement, and one
    that spells a sequence of statements followed by EOF parses back to
    the program.

    The only condition beyond the expression round trip is the one the
    dangling `else` imposes: a statement that ends in an `if` without
    `else` must not be followed by `else`, which the parser would give to
    that inner `if`.
 */
module StmtProps {
  import opened Outcomes
  import opened Lexer
  import opened Cursor
  import opened LocalVars
  import opened Ast
  import opened Parser
  import opened Unparse
  import opened ParserProps

  /** The statement kinds that open with a keyword or a brace. */
  predicate Compound(s: Node) {
    s.If? || s.While? || s.For? || s.Block? || s.Return?
  }

  // ---------------------------------------------------------------- printouts, cut

  /** `kw ( test )`, cut at its parentheses. */
  lemma SplitCond(ts: seq<Token>, c: nat, kw: string, t: Node, vars: Vars, close: nat)
    requires PrintableExpr(t, vars) && Matches(ts, c, PrintCond(kw, t, vars))
    requires close == c + 2 + |Print(t, 0, vars)|
    ensures |PrintCond(kw, t, vars)| == close + 1 - c
    ensures Same(ts[c], Sym(kw)) && Same(ts[c + 1], Sym("("))
    ensures Matches(ts, c + 2, Print(t, 0, vars))
    ensures Same(ts[close], Sym(")")) && Stops(ts[close], 0)
  {
    var head := [Sym(kw), Sym("(")];
    MatchesSplit3(ts, c, head, Print(t, 0, vars), [Sym(")")], c + 2, close);
    MatchesFirst(ts, c, head);
    MatchesFirst(ts, c + 1, head[1..]);
    MatchesOne(ts, close, Sym(")"));
  }

  /** `if ( test ) cons [else alt]`, cut after `)` and after `cons`. */
  lemma SplitIf(s: Node, vars: Vars, ts: seq<Token>, c: nat, end: nat) returns (close: nat, mid: nat)
    requires s.If? && PrintableStmt(s, vars)
    requires Matches(ts, c, PrintStmt(s, vars)) && end == c + |PrintStmt(s, vars)| && Valid(ts, end)
    ensures PrintableExpr(s.test, vars) && PrintableStmt(s.cons, vars)
    ensures Same(ts[c], Sym("if")) && Same(ts[c + 1], Sym("("))
    ensures Matches(ts, c + 2, Print(s.test, 0, vars)) && close == c + 2 + |Print(s.test, 0, vars)|
    ensures close < mid <= end && Same(ts[close], Sym(")")) && Stops(ts[close], 0)
    ensures Matches(ts, close + 1, PrintStmt(s.cons, vars)) && mid == close + 1 + |PrintStmt(s.cons, vars)|
    ensures s.alt.None? ==> mid == end
    ensures s.alt.Some? ==>
      && PrintableStmt(s.alt.value, vars) && !OpenTail(s.cons)
      && mid < end && Same(ts[mid], Sym("else"))
      && Matches(ts, mid + 1, PrintStmt(s.alt.value, vars)) && end == mid + 1 + |PrintStmt(s.alt.value, vars)|
  {
    close := c + 2 + |Print(s.test, 0, vars)|;
    mid := close + 1 + |PrintStmt(s.cons, vars)|;
    SplitCondLength(s.test, "if", vars);
    MatchesSplit3(ts, c, PrintCond("if", s.test, vars), PrintStmt(s.cons, vars), PrintElse(s.alt, vars), close + 1, mid);
    SplitCond(ts, c, "if", s.test, vars, close);
    if s.alt.Some? {
      MatchesHead(ts, mid, Sym("else"), PrintStmt(s.alt.value, vars));
    }
  }

  lemma SplitCondLength(t: Node, kw: string, vars: Vars)
    requires PrintableExpr(t, vars)
    ensures |PrintCond(kw, t, vars)| == |Print(t, 0, vars)| + 3
  {
  }

  /** `while ( test ) cons`, cut after `)`. */
  lemma SplitWhile(s: Node, vars: Vars, ts: seq<Token>, c: nat, end: nat) returns (close: nat)
    requires s.While? && PrintableStmt(s, vars)
    requires Matches(ts, c, PrintStmt(s, vars)) && end == c + |PrintStmt(s, vars)| && Valid(ts, end)
    ensures PrintableExpr(s.test, vars) && PrintableStmt(s.cons, vars)
    ensures Same(ts[c], Sym("while")) && Same(ts[c + 1], Sym("("))
    ensures Matches(ts, c + 2, Print(s.test, 0, vars)) && close == c + 2 + |Print(s.test, 0, vars)|
    ensures close < end && Same(ts[close], Sym(")")) && Stops(ts[close], 0)
    ensures Matches(ts, close + 1, PrintStmt(s.cons, vars)) && end == close + 1 + |PrintStmt(s.cons, vars)|
  {
    close := c + 2 + |Print(s.test, 0, vars)|;
    SplitCondLength(s.test, "while", vars);
    MatchesSplit(ts, c, PrintCond("while", s.test, vars), PrintStmt(s.cons, vars), close + 1);
    SplitCond(ts, c, "while", s.test, vars, close);
  }

  /** One `for` header clause and its terminator, as the printer writes them. */
  predicate Clause(ts: seq<Token>, c: nat, e: Option<Node>, vars: Vars, close: string, next: nat)
    requires PrintableOpt(e, vars)
  {
    Matches(ts, c, PrintClause(e, close, vars)) && next == c + |PrintClause(e, close, vars)|
  }

  /** `for ( init ; cond ; post ) cons`, cut after each terminator. */
  lemma SplitFor(s: Node, vars: Vars, ts: seq<Token>, c: nat, end: nat) returns (a: nat, b: nat, d: nat)
    requires s.For? && PrintableStmt(s, vars)
    requires Matches(ts, c, PrintStmt(s, vars)) && end == c + |PrintStmt(s, vars)| && Valid(ts, end)
    ensures PrintableOpt(s.init, vars) && PrintableOpt(s.cond, vars) && PrintableOpt(s.post, vars)
    ensures PrintableStmt(s.cons, vars)
    ensures Same(ts[c], Sym("for")) && Same(ts[c + 1], Sym("("))
    ensures c + 2 < a < b < d < end
    ensures Clause(ts, c + 2, s.init, vars, ";", a)
    ensures Clause(ts, a, s.cond, vars, ";", b)
    ensures Clause(ts, b, s.post, vars, ")", d)
    ensures Matches(ts, d, PrintStmt(s.cons, vars)) && end == d + |PrintStmt(s.cons, vars)|
  {
    var head := [Sym("for"), Sym("(")];
    var i := PrintClause(s.init, ";", vars);
    var t := PrintClause(s.cond, ";", vars);
    var p := PrintClause(s.post, ")", vars);
    a := c + 2 + |i|;
    b := a + |t|;
    d := b + |p|;
    assert PrintStmt(s, vars) == head + i + t + p + PrintStmt(s.cons, vars);
    MatchesSplit3(ts, c, head + i + t, p, PrintStmt(s.cons, vars), b, d);
    MatchesSplit3(ts, c, head, i, t, c + 2, a);
    MatchesFirst(ts, c, head);
    MatchesFirst(ts, c + 1, head[1..]);
  }

  /** `{ body }`, cut after the opening brace. */
  lemma SplitBlock(s: Node, vars: Vars, ts: seq<Token>, c: nat, end: nat)
    requires s.Block? && PrintableStmt(s, vars)
    requires Matches(ts, c, PrintStmt(s, vars)) && end == c + |PrintStmt(s, vars)| && Valid(ts, end)
    ensures PrintableStmts(s.body, vars) && Same(ts[c], Sym("{"))
    ensures Matches(ts, c + 1, PrintStmts(s.body, vars)) && end == c + 1 + |PrintStmts(s.body, vars)| + 1
    ensures Same(ts[end - 1], Sym("}"))
  {
    var body := PrintStmts(s.body, vars);
    assert PrintStmt(s, vars) == [Sym("{")] + body + [Sym("}")];
    MatchesLast(ts, c, [Sym("{")] + body, Sym("}"), end - 1);
    MatchesHead(ts, c, Sym("{"), body);
  }

  /** `return v ;`, cut before `;`. */
  lemma SplitReturn(s: Node, vars: Vars, ts: seq<Token>, c: nat, end: nat)
    requires s.Return? && PrintableStmt(s, vars)
    requires Matches(ts, c, PrintStmt(s, vars)) && end == c + |PrintStmt(s, vars)| && Valid(ts, end)
    ensures PrintableExpr(s.result, vars) && Same(ts[c], Sym("return"))
    ensures Matches(ts, c + 1, Print(s.result, 0, vars)) && end == c + 1 + |Print(s.result, 0, vars)| + 1
    ensures Same(ts[end - 1], Sym(";")) && Stops(ts[end - 1], 0)
  {
    var v := Print(s.result, 0, vars);
    assert PrintStmt(s, vars) == [Sym("return")] + v + [Sym(";")];
    MatchesLast(ts, c, [Sym("return")] + v, Sym(";"), end - 1);
    MatchesHead(ts, c, Sym("return"), v);
  }

  /** `e ;`, cut before `;`. */
  lemma SplitExprStmt(s: Node, vars: Vars, ts: seq<Token>, c: nat, end: nat)
    requires !Compound(s) && PrintableStmt(s, vars)
    requires Matches(ts, c, PrintStmt(s, vars)) && end == c + |PrintStmt(s, vars)| && Valid(ts, end)
    ensures PrintableExpr(s, vars) && (ts[c].kind != Reserved || IsOp(ts[c], "("))
    ensures Matches(ts, c, Print(s, 0, vars)) && end == c + |Print(s, 0, vars)| + 1
    ensures Same(ts[end - 1], Sym(";")) && Stops(ts[end - 1], 0)
  {
    PrintExprStmt(s, vars);
    MatchesLast(ts, c, Print(s, 0, vars), Sym(";"), end - 1);
    ExprOpens(s, vars, ts, c);
  }

  /** An expression statement prints as the expression and `;`. */
  lemma PrintExprStmt(s: Node, vars: Vars)
    requires !Compound(s) && PrintableStmt(s, vars)
    ensures PrintableExpr(s, vars) && PrintStmt(s, vars) == Print(s, 0, vars) + [Sym(";")]
  {
  }

  /** A printed expression opens with a number, a name or `(`. */
  lemma ExprOpens(e: Node, vars: Vars, ts: seq<Token>, c: nat)
    requires PrintableExpr(e, vars) && Matches(ts, c, Print(e, 0, vars))
    ensures c < |ts| && (ts[c].kind != Reserved || IsOp(ts[c], "("))
  {
    var x := Print(e, 0, vars);
    PrintOpens(e, 0, vars);
    MatchesFirst(ts, c, x);
  }

  /** A statement sequence, cut after its first statement; what follows
      the first statement is not `else`. */
  lemma SplitStmts(ss: seq<Node>, vars: Vars, ts: seq<Token>, c: nat, end: nat) returns (m: nat)
    requires |ss| > 0 && PrintableStmts(ss, vars)
    requires Matches(ts, c, PrintStmts(ss, vars)) && end == c + |PrintStmts(ss, vars)| && Valid(ts, end)
    requires !IsOp(ts[end], "else")
    ensures PrintableStmt(ss[0], vars) && PrintableStmts(ss[1..], vars)
    ensures ts[c].kind != EOF && !IsOp(ts[c], "}")
    ensures Matches(ts, c, PrintStmt(ss[0], vars)) && m == c + |PrintStmt(ss[0], vars)|
    ensures Matches(ts, m, PrintStmts(ss[1..], vars)) && end == m + |PrintStmts(ss[1..], vars)|
    ensures m <= end && !IsOp(ts[m], "else")
  {
    var first := PrintStmt(ss[0], vars);
    m := c + |first|;
    assert PrintableStmt(ss[0], vars);
    assert PrintableStmts(ss[1..], vars) by {
      forall i | 0 <= i < |ss[1..]| ensures PrintableStmt(ss[1..][i], vars) {
        assert ss[1..][i] == ss[i + 1];
      }
    }
    MatchesSplit(ts, c, first, PrintStmts(ss[1..], vars), m);
    StmtOpens(ss[0], vars);
    MatchesFirst(ts, c, first);
    if |ss| > 1 {
      var next := PrintStmt(ss[1], vars);
      assert ss[1..][0] == ss[1];
      assert PrintStmts(ss[1..], vars) == next + PrintStmts(ss[2..], vars) by {
        assert ss[1..][1..] == ss[2..];
      }
      MatchesSplit(ts, m, next, PrintStmts(ss[2..], vars), m + |next|);
      StmtOpens(ss[1], vars);
      MatchesFirst(ts, m, next);
    }
  }

  // ---------------------------------------------------------------- parse steps

  /** A printed `for` clause parses back, with its terminator. */
  lemma ClauseRoundTrip(e: Option<Node>, vars: Vars, ts: seq<Token>, c: nat, close: string, next: nat)
    requires ValidLocals(vars) && PrintableOpt(e, vars) && (close == ";" || close == ")")
    requires Clause(ts, c, e, vars, close, next) && Valid(ts, next)
    ensures ForClause(ts, c, vars, close) == Ok(Parsed(e, next, vars))
  {
    MatchesLast(ts, c, PrintOpt(e, vars), Sym(close), next - 1);
    if e.Some? {
      var x := Print(e.value, 0, vars);
      PrintOpens(e.value, 0, vars);
      assert Same(ts[c], x[0]);
      AssignRoundTrip(e.value, vars, ts, c, next - 1);
      ClauseStep(ts, c, vars, close, e.value, next);
    } else {
      assert Consume(ts, c, close) == Some(next);
    }
  }

  lemma ClauseStep(ts: seq<Token>, c: nat, vars: Vars, close: string, x: Node, next: nat)
    requires Valid(ts, next) && c < next && !IsOp(ts[c], close) && Same(ts[next - 1], Sym(close))
    requires AssignExpr(ts, c, vars) == Ok(Parsed(x, next - 1, vars))
    ensures ForClause(ts, c, vars, close) == Ok(Parsed(Some(x), next, vars))
  {
    assert Consume(ts, c, close) == None;
    assert Expr(ts, c, vars) == Ok(Parsed(x, next - 1, vars));
    assert Expect(ts, next - 1, close) == Ok(next);
  }

  /** `( test )`, from the cursor at `(`. */
  lemma CondStep(ts: seq<Token>, c: nat, vars: Vars, test: Node, close: nat)
    requires Valid(ts, close + 1) && c < close
    requires Same(ts[c], Sym("(")) && Same(ts[close], Sym(")"))
    requires AssignExpr(ts, c + 1, vars) == Ok(Parsed(test, close, vars))
    ensures Cond(ts, c, vars) == Ok(Parsed(test, close + 1, vars))
  {
    assert Expect(ts, c, "(") == Ok(c + 1);
    assert Expr(ts, c + 1, vars) == Ok(Parsed(test, close, vars));
    assert Expect(ts, close, ")") == Ok(close + 1);
  }

  /** `if ( test ) cons` with no `else` after it, from the cursor after `if`. */
  lemma IfThenStep(ts: seq<Token>, c: nat, vars: Vars, test: Node, cons: Node, open: nat, mid: nat)
    requires Valid(ts, mid) && c < open < mid && !IsOp(ts[mid], "else")
    requires Cond(ts, c, vars) == Ok(Parsed(test, open, vars))
    requires Stmt(ts, open, vars) == Ok(Parsed(cons, mid, vars))
    ensures IfStmt(ts, c, vars) == Ok(Parsed(If(test, cons, None), mid, vars))
  {
    assert Consume(ts, mid, "else") == None;
  }

  /** `if ( test ) cons else alt`, from the cursor after `if`. */
  lemma IfElseStep(ts: seq<Token>, c: nat, vars: Vars, test: Node, cons: Node, alt: Node, open: nat, mid: nat, end: nat)
    requires Valid(ts, end) && c < open < mid < end && Same(ts[mid], Sym("else"))
    requires Cond(ts, c, vars) == Ok(Parsed(test, open, vars))
    requires Stmt(ts, open, vars) == Ok(Parsed(cons, mid, vars))
    requires Stmt(ts, mid + 1, vars) == Ok(Parsed(alt, end, vars))
    ensures IfStmt(ts, c, vars) == Ok(Parsed(If(test, cons, Some(alt)), end, vars))
  {
    assert Consume(ts, mid, "else") == Some(mid + 1);
  }

  lemma WhileStep(ts: seq<Token>, c: nat, vars: Vars, test: Node, cons: Node, open: nat, end: nat)
    requires Valid(ts, end) && c < open < end
    requires Cond(ts, c, vars) == Ok(Parsed(test, open, vars))
    requires Stmt(ts, open, vars) == Ok(Parsed(cons, end, vars))
    ensures WhileStmt(ts, c, vars) == Ok(Parsed(While(test, cons), end, vars))
  {
  }

  lemma ForAfterInitStep(ts: seq<Token>, init: Option<Node>, vars: Vars, cond: Option<Node>, post: Option<Node>,
                         cons: Node, a: nat, b: nat, d: nat, end: nat)
    requires Valid(ts, end) && a < b < d < end
    requires ForClause(ts, a, vars, ";") == Ok(Parsed(cond, b, vars))
    requires ForClause(ts, b, vars, ")") == Ok(Parsed(post, d, vars))
    requires Stmt(ts, d, vars) == Ok(Parsed(cons, end, vars))
    ensures ForAfterInit(ts, init, a, vars) == Ok(Parsed(For(init, cond, post, cons), end, vars))
  {
  }

  lemma ForStep(ts: seq<Token>, c: nat, vars: Vars, init: Option<Node>, a: nat, end: nat, r: Node)
    requires Valid(ts, end) && c < a < end && Same(ts[c], Sym("("))
    requires ForClause(ts, c + 1, vars, ";") == Ok(Parsed(init, a, vars))
    requires ForAfterInit(ts, init, a, vars) == Ok(Parsed(r, end, vars))
    ensures ForStmt(ts, c, vars) == Ok(Parsed(r, end, vars))
  {
    assert Expect(ts, c, "(") == Ok(c + 1);
  }

  /** A statement that opens with `if` is an `if` statement. */
  lemma IfKeyword(ts: seq<Token>, c: nat, vars: Vars)
    requires Valid(ts, c + 1) && Same(ts[c], Sym("if"))
    ensures Stmt(ts, c, vars) == IfStmt(ts, c + 1, vars)
  {
  }

  lemma WhileKeyword(ts: seq<Token>, c: nat, vars: Vars)
    requires Valid(ts, c + 1) && Same(ts[c], Sym("while"))
    ensures Stmt(ts, c, vars) == WhileStmt(ts, c + 1, vars)
  {
  }

  lemma ForKeyword(ts: seq<Token>, c: nat, vars: Vars)
    requires Valid(ts, c + 1) && Same(ts[c], Sym("for"))
    ensures Stmt(ts, c, vars) == ForStmt(ts, c + 1, vars)
  {
  }

  /** An `if` statement without `else`, from its keyword. */
  lemma IfThenStmtStep(ts: seq<Token>, c: nat, vars: Vars, s: Node, open: nat, end: nat)
    requires s.If? && s.alt.None? && Valid(ts, end) && c + 1 < open < end && Same(ts[c], Sym("if"))
    requires !IsOp(ts[end], "else")
    requires Cond(ts, c + 1, vars) == Ok(Parsed(s.test, open, vars))
    requires Stmt(ts, open, vars) == Ok(Parsed(s.cons, end, vars))
    ensures Stmt(ts, c, vars) == Ok(Parsed(s, end, vars))
  {
    IfKeyword(ts, c, vars);
    IfThenStep(ts, c + 1, vars, s.test, s.cons, open, end);
  }

  /** An `if` statement with `else`, from its keyword. */
  lemma IfElseStmtStep(ts: seq<Token>, c: nat, vars: Vars, s: Node, open: nat, mid: nat, end: nat)
    requires s.If? && s.alt.Some? && Valid(ts, end) && c + 1 < open < mid < end && Same(ts[c], Sym("if"))
    requires Same(ts[mid], Sym("else"))
    requires Cond(ts, c + 1, vars) == Ok(Parsed(s.test, open, vars))
    requires Stmt(ts, open, vars) == Ok(Parsed(s.cons, mid, vars))
    requires Stmt(ts, mid + 1, vars) == Ok(Parsed(s.alt.value, end, vars))
    ensures Stmt(ts, c, vars) == Ok(Parsed(s, end, vars))
  {
    IfKeyword(ts, c, vars);
    IfElseStep(ts, c + 1, vars, s.test, s.cons, s.alt.value, open, mid, end);
  }

  lemma WhileStmtStep(ts: seq<Token>, c: nat, vars: Vars, s: Node, open: nat, end: nat)
    requires s.While? && Valid(ts, end) && c + 1 < open < end && Same(ts[c], Sym("while"))
    requires Cond(ts, c + 1, vars) == Ok(Parsed(s.test, open, vars))
    requires Stmt(ts, open, vars) == Ok(Parsed(s.cons, end, vars))
    ensures Stmt(ts, c, vars) == Ok(Parsed(s, end, vars))
  {
    WhileKeyword(ts, c, vars);
    WhileStep(ts, c + 1, vars, s.test, s.cons, open, end);
  }

  /** A printed condition in parentheses parses back. */
  lemma CondRoundTrip(t: Node, vars: Vars, ts: seq<Token>, c: nat, close: nat)
    requires ValidLocals(vars) && PrintableExpr(t, vars)
    requires Matches(ts, c + 1, Print(t, 0, vars)) && close == c + 1 + |Print(t, 0, vars)| && Valid(ts, close + 1)
    requires Same(ts[c], Sym("(")) && Same(ts[close], Sym(")")) && Stops(ts[close], 0)
    ensures Cond(ts, c, vars) == Ok(Parsed(t, close + 1, vars))
  {
    AssignRoundTrip(t, vars, ts, c + 1, close);
    CondStep(ts, c, vars, t, close);
  }

  lemma ReturnStep(ts: seq<Token>, c: nat, vars: Vars, v: Node, end: nat)
    requires Valid(ts, end) && c + 1 < end
    requires Same(ts[c], Sym("return")) && Same(ts[end - 1], Sym(";"))
    requires AssignExpr(ts, c + 1, vars) == Ok(Parsed(v, end - 1, vars))
    ensures Stmt(ts, c, vars) == Ok(Parsed(Return(v), end, vars))
  {
    assert Expr(ts, c + 1, vars) == Ok(Parsed(v, end - 1, vars));
  }

  lemma BlockStep(ts: seq<Token>, c: nat, vars: Vars, body: seq<Node>, end: nat)
    requires Valid(ts, end) && c < end && Same(ts[c], Sym("{"))
    requires BlockRest(ts, c + 1, vars) == Ok(Parsed(body, end, vars))
    ensures Stmt(ts, c, vars) == Ok(Parsed(Block(body), end, vars))
  {
  }

  lemma ExprStmtStep(ts: seq<Token>, c: nat, vars: Vars, e: Node, end: nat)
    requires Valid(ts, end) && c < end
    requires ts[c].kind != Reserved || IsOp(ts[c], "(")
    requires Same(ts[end - 1], Sym(";"))
    requires AssignExpr(ts, c, vars) == Ok(Parsed(e, end - 1, vars))
    ensures Stmt(ts, c, vars) == Ok(Parsed(e, end, vars))
  {
    assert Expr(ts, c, vars) == Ok(Parsed(e, end - 1, vars));
  }

  lemma BlockMore(ts: seq<Token>, c: nat, vars: Vars, s: Node, m: nat, rest: seq<Node>, end: nat)
    requires Valid(ts, end) && c < m <= end && !IsOp(ts[c], "}")
    requires Stmt(ts, c, vars) == Ok(Parsed(s, m, vars))
    requires BlockRest(ts, m, vars) == Ok(Parsed(rest, end, vars))
    ensures BlockRest(ts, c, vars) == Ok(Parsed([s] + rest, end, vars))
  {
  }

  lemma ProgramMore(ts: seq<Token>, c: nat, vars: Vars, s: Node, m: nat, rest: seq<Node>, end: nat)
    requires Valid(ts, end) && c < m <= end && ts[c].kind != EOF
    requires Stmt(ts, c, vars) == Ok(Parsed(s, m, vars))
    requires ProgramFrom(ts, m, vars) == Ok(Parsed(rest, end, vars))
    ensures ProgramFrom(ts, c, vars) == Ok(Parsed([s] + rest, end, vars))
  {
  }

  // ---------------------------------------------------------------- round trips

  /** A printed statement parses back, with the cursor right after it. */
  lemma {:induction false} StmtRoundTrip(s: Node, vars: Vars, ts: seq<Token>, c: nat, end: nat)
    requires ValidLocals(vars) && PrintableStmt(s, vars)
    requires Matches(ts, c, PrintStmt(s, vars)) && end == c + |PrintStmt(s, vars)|
    requires Valid(ts, end) && (OpenTail(s) ==> !IsOp(ts[end], "else"))
    ensures Stmt(ts, c, vars) == Ok(Parsed(s, end, vars))
    decreases s, 1
  {
    match s
    case If(_, _, None) => IfThenRoundTrip(s, vars, ts, c, end);
    case If(_, _, Some(_)) => IfElseRoundTrip(s, vars, ts, c, end);
    case While(_, _) => WhileRoundTrip(s, vars, ts, c, end);
    case For(_, _, _, _) => ForRoundTrip(s, vars, ts, c, end);
    case Block(_) => BlockStmtRoundTrip(s, vars, ts, c, end);
    case Return(_) => ReturnRoundTrip(s, vars, ts, c, end);
    case _ => ExprStmtRoundTrip(s, vars, ts, c, end);
  }

  lemma {:induction false} BlockStmtRoundTrip(s: Node, vars: Vars, ts: seq<Token>, c: nat, end: nat)
    requires ValidLocals(vars) && s.Block? && PrintableStmt(s, vars)
    requires Matches(ts, c, PrintStmt(s, vars)) && end == c + |PrintStmt(s, vars)| && Valid(ts, end)
    ensures Stmt(ts, c, vars) == Ok(Parsed(s, end, vars))
    decreases s, 0
  {
    SplitBlock(s, vars, ts, c, end);
    BlockRoundTrip(s.body, vars, ts, c + 1, end);
    BlockStep(ts, c, vars, s.body, end);
  }

  lemma ReturnRoundTrip(s: Node, vars: Vars, ts: seq<Token>, c: nat, end: nat)
    requires ValidLocals(vars) && s.Return? && PrintableStmt(s, vars)
    requires Matches(ts, c, PrintStmt(s, vars)) && end == c + |PrintStmt(s, vars)| && Valid(ts, end)
    ensures Stmt(ts, c, vars) == Ok(Parsed(s, end, vars))
  {
    SplitReturn(s, vars, ts, c, end);
    AssignRoundTrip(s.result, vars, ts, c + 1, end - 1);
    ReturnStep(ts, c, vars, s.result, end);
  }

  lemma ExprStmtRoundTrip(s: Node, vars: Vars, ts: seq<Token>, c: nat, end: nat)
    requires ValidLocals(vars) && !Compound(s) && PrintableStmt(s, vars)
    requires Matches(ts, c, PrintStmt(s, vars)) && end == c + |PrintStmt(s, vars)| && Valid(ts, end)
    ensures Stmt(ts, c, vars) == Ok(Parsed(s, end, vars))
  {
    SplitExprStmt(s, vars, ts, c, end);
    AssignRoundTrip(s, vars, ts, c, end - 1);
    ExprStmtStep(ts, c, vars, s, end);
  }

  lemma {:induction false} IfThenRoundTrip(s: Node, vars: Vars, ts: seq<Token>, c: nat, end: nat)
    requires ValidLocals(vars) && s.If? && s.alt.None? && PrintableStmt(s, vars)
    requires Matches(ts, c, PrintStmt(s, vars)) && end == c + |PrintStmt(s, vars)|
    requires Valid(ts, end) && !IsOp(ts[end], "else")
    ensures Stmt(ts, c, vars) == Ok(Parsed(s, end, vars))
    decreases s, 0
  {
    var close, mid := SplitIf(s, vars, ts, c, end);
    CondRoundTrip(s.test, vars, ts, c + 1, close);
    StmtRoundTrip(s.cons, vars, ts, close + 1, end);
    IfThenStmtStep(ts, c, vars, s, close + 1, end);
  }

  lemma {:induction false} IfElseRoundTrip(s: Node, vars: Vars, ts: seq<Token>, c: nat, end: nat)
    requires ValidLocals(vars) && s.If? && s.alt.Some? && PrintableStmt(s, vars)
    requires Matches(ts, c, PrintStmt(s, vars)) && end == c + |PrintStmt(s, vars)|
    requires Valid(ts, end) && (OpenTail(s) ==> !IsOp(ts[end], "else"))
    ensures Stmt(ts, c, vars) == Ok(Parsed(s, end, vars))
    decreases s, 0
  {
    var close, mid := SplitIf(s, vars, ts, c, end);
    CondRoundTrip(s.test, vars, ts, c + 1, close);
    StmtRoundTrip(s.cons, vars, ts, close + 1, mid);
    StmtRoundTrip(s.alt.value, vars, ts, mid + 1, end);
    IfElseStmtStep(ts, c, vars, s, close + 1, mid, end);
  }

  lemma {:induction false} WhileRoundTrip(s: Node, vars: Vars, ts: seq<Token>, c: nat, end: nat)
    requires ValidLocals(vars) && s.While? && PrintableStmt(s, vars)
    requires Matches(ts, c, PrintStmt(s, vars)) && end == c + |PrintStmt(s, vars)|
    requires Valid(ts, end) && (OpenTail(s) ==> !IsOp(ts[end], "else"))
    ensures Stmt(ts, c, vars) == Ok(Parsed(s, end, vars))
    decreases s, 0
  {
    var close := SplitWhile(s, vars, ts, c, end);
    CondRoundTrip(s.test, vars, ts, c + 1, close);
    StmtRoundTrip(s.cons, vars, ts, close + 1, end);
    WhileStmtStep(ts, c, vars, s, close + 1, end);
  }

  lemma {:induction false} ForRoundTrip(s: Node, vars: Vars, ts: seq<Token>, c: nat, end: nat)
    requires ValidLocals(vars) && s.For? && PrintableStmt(s, vars)
    requires Matches(ts, c, PrintStmt(s, vars)) && end == c + |PrintStmt(s, vars)|
    requires Valid(ts, end) && (OpenTail(s) ==> !IsOp(ts[end], "else"))
    ensures Stmt(ts, c, vars) == Ok(Parsed(s, end, vars))
    decreases s, 0
  {
    var a, b, d := SplitFor(s, vars, ts, c, end);
    ClauseRoundTrip(s.init, vars, ts, c + 2, ";", a);
    ClauseRoundTrip(s.cond, vars, ts, a, ";", b);
    ClauseRoundTrip(s.post, vars, ts, b, ")", d);
    StmtRoundTrip(s.cons, vars, ts, d, end);
    ForAfterInitStep(ts, s.init, vars, s.cond, s.post, s.cons, a, b, d, end);
    ForStep(ts, c + 1, vars, s.init, a, end, s);
    ForKeyword(ts, c, vars);
  }

  /** The statements of a block and its closing brace parse back. */
  lemma {:induction false} BlockRoundTrip(ss: seq<Node>, vars: Vars, ts: seq<Token>, c: nat, end: nat)
    requires ValidLocals(vars) && PrintableStmts(ss, vars)
    requires Matches(ts, c, PrintStmts(ss, vars)) && end == c + |PrintStmts(ss, vars)| + 1
    requires Valid(ts, end) && Same(ts[end - 1], Sym("}"))
    ensures BlockRest(ts, c, vars) == Ok(Parsed(ss, end, vars))
    decreases ss
  {
    if |ss| == 0 {
      assert Consume(ts, c, "}") == Some(end);
    } else {
      var m := SplitStmts(ss, vars, ts, c, end - 1);
      StmtRoundTrip(ss[0], vars, ts, c, m);
      BlockRoundTrip(ss[1..], vars, ts, m, end);
      BlockMore(ts, c, vars, ss[0], m, ss[1..], end);
      assert [ss[0]] + ss[1..] == ss;
    }
  }

  /** A printed program followed by EOF parses back, from any valid frame. */
  lemma {:induction false} ProgramRoundTrip(ss: seq<Node>, vars: Vars, ts: seq<Token>, c: nat, end: nat)
    requires ValidLocals(vars) && PrintableStmts(ss, vars)
    requires Matches(ts, c, PrintStmts(ss, vars)) && end == c + |PrintStmts(ss, vars)|
    requires Valid(ts, end) && ts[end].kind == EOF
    ensures ProgramFrom(ts, c, vars) == Ok(Parsed(ss, end, vars))
    decreases ss
  {
    if |ss| > 0 {
      var m := SplitStmts(ss, vars, ts, c, end);
      ProgramRoundTrip(ss[1..], vars, ts, m, end);
      ProgramStep(ss, vars, ts, c, m, end);
    }
  }

  /** The first statement of a program, in front of the parsed rest. */
  lemma ProgramStep(ss: seq<Node>, vars: Vars, ts: seq<Token>, c: nat, m: nat, end: nat)
    requires ValidLocals(vars) && |ss| > 0 && PrintableStmt(ss[0], vars)
    requires Matches(ts, c, PrintStmt(ss[0], vars)) && m == c + |PrintStmt(ss[0], vars)|
    requires m <= end && Valid(ts, end) && ts[c].kind != EOF && !IsOp(ts[m], "else")
    requires ProgramFrom(ts, m, vars) == Ok(Parsed(ss[1..], end, vars))
    ensures ProgramFrom(ts, c, vars) == Ok(Parsed(ss, end, vars))
  {
    StmtRoundTrip(ss[0], vars, ts, c, m);
    ProgramMore(ts, c, vars, ss[0], m, ss[1..], end);
    assert [ss[0]] + ss[1..] == ss;
  }
}
