/** A printer from syntax trees back to tokens: the partner the parser is
    checked against.

    The printer writes each binary operator in its left-associative
    position and puts parentheses only where the grammar's precedence
    would otherwise regroup the tree.  Variables are printed by the name
    of the variable in their frame slot; numbers as their decimal
    numeral.  Positions in printed tokens are 0: the parser never looks
    at them, so a token list "spells" a printout when the kinds, texts
    and values agree, whatever the positions.
 */
module Unparse {
  import opened Outcomes
  import opened Chars
  import opened Lexer
  import opened Cursor
  import opened LocalVars
  import opened Ast

  // ---------------------------------------------------------------- tokens

  function Sym(s: string): Token {
    Token(Reserved, s, 0, 0)
  }

  function IdTok(name: string): Token {
    Token(Ident, name, 0, 0)
  }

  function NumTok(v: nat): Token {
    Token(Number, Numeral(v), 0, v)
  }

  /** A printed number token carries the value its digits read back as,
      as the tokenizer would give it. */
  lemma NumTokValued(v: nat)
    ensures AllDigits(NumTok(v).str) && DecimalValue(NumTok(v).str) == NumTok(v).val
  {
    NumeralValue(v);
  }

  const EofTok: Token := Token(EOF, "", 0, 0)

  /** Two tokens the parser cannot tell apart. */
  predicate Same(t: Token, u: Token) {
    t.kind == u.kind && t.str == u.str && t.val == u.val
  }

  /** The tokens from `c` on spell `p`. */
  predicate Matches(ts: seq<Token>, c: nat, p: seq<Token>)
    decreases |p|
  {
    c + |p| <= |ts| && (|p| == 0 || (Same(ts[c], p[0]) && Matches(ts, c + 1, p[1..])))
  }

  lemma {:induction false} MatchesConcat(ts: seq<Token>, c: nat, a: seq<Token>, b: seq<Token>)
    ensures Matches(ts, c, a + b) <==> Matches(ts, c, a) && Matches(ts, c + |a|, b)
    decreases |a|
  {
    if |a| > 0 {
      assert (a + b)[1..] == a[1..] + b;
      MatchesConcat(ts, c + 1, a[1..], b);
    } else {
      assert a + b == b;
    }
  }

  /** Splits a match of `a + [t] + b` into its three parts, with `t` at `mid`. */
  lemma MatchesAround(ts: seq<Token>, c: nat, a: seq<Token>, t: Token, b: seq<Token>, mid: nat)
    requires Matches(ts, c, a + [t] + b) && mid == c + |a|
    ensures Matches(ts, c, a) && Same(ts[mid], t) && Matches(ts, mid + 1, b)
  {
    MatchesConcat(ts, c, a + [t], b);
    MatchesConcat(ts, c, a, [t]);
  }

  /** Cuts a match of `a + b + c` at `m1` and `m2`. */
  lemma MatchesSplit3(ts: seq<Token>, c: nat, a: seq<Token>, b: seq<Token>, d: seq<Token>, m1: nat, m2: nat)
    requires Matches(ts, c, a + b + d) && m1 == c + |a| && m2 == m1 + |b|
    ensures Matches(ts, c, a) && Matches(ts, m1, b) && Matches(ts, m2, d)
  {
    MatchesConcat(ts, c, a + b, d);
    MatchesConcat(ts, c, a, b);
  }

  /** Cuts a match of `a + b` at `m`. */
  lemma MatchesSplit(ts: seq<Token>, c: nat, a: seq<Token>, b: seq<Token>, m: nat)
    requires Matches(ts, c, a + b) && m == c + |a|
    ensures Matches(ts, c, a) && Matches(ts, m, b)
  {
    MatchesConcat(ts, c, a, b);
  }

  /** A match of a single token. */
  lemma MatchesOne(ts: seq<Token>, c: nat, t: Token)
    requires Matches(ts, c, [t])
    ensures c < |ts| && Same(ts[c], t)
  {
  }

  /** The first token of a non-empty match. */
  lemma MatchesFirst(ts: seq<Token>, c: nat, p: seq<Token>)
    requires |p| > 0 && Matches(ts, c, p)
    ensures c < |ts| && Same(ts[c], p[0]) && Matches(ts, c + 1, p[1..])
  {
  }

  /** The last token of a match. */
  lemma MatchesLast(ts: seq<Token>, c: nat, a: seq<Token>, t: Token, m: nat)
    requires Matches(ts, c, a + [t]) && m == c + |a|
    ensures Matches(ts, c, a) && m < |ts| && Same(ts[m], t)
  {
    MatchesConcat(ts, c, a, [t]);
  }

  /** The first token of a match. */
  lemma MatchesHead(ts: seq<Token>, c: nat, t: Token, rest: seq<Token>)
    requires Matches(ts, c, [t] + rest)
    ensures Same(ts[c], t) && Matches(ts, c + 1, rest)
  {
    assert ([t] + rest)[1..] == rest;
  }

  // ---------------------------------------------------------------- expressions

  function OpText(op: BinOp): string {
    match op
    case Eq => "=="
    case Ne => "!="
    case Lt => "<"
    case Le => "<="
    case Add => "+"
    case Sub => "-"
    case Mul => "*"
    case Div => "/"
  }

  /** Grammar levels: 0 assign, 1 equality, 2 relational, 3 add, 4 mul,
      5 unary and primary. */
  function OpPrec(op: BinOp): nat {
    match op
    case Eq => 1
    case Ne => 1
    case Lt => 2
    case Le => 2
    case Add => 3
    case Sub => 3
    case Mul => 4
    case Div => 4
  }

  /** The level at which the parser builds `e`. */
  function Prec(e: Node): nat {
    match e
    case Binary(op, _, _) => OpPrec(op)
    case Assign(_, _) => 0
    case _ => 5
  }

  /** The expressions the printer can write: numerals are non-negative
      and every variable has a slot in the frame of `vars`. */
  predicate PrintableExpr(e: Node, vars: Vars) {
    match e
    case Num(v) => 0 <= v
    case Lvar(o) => IsSlot(o, |vars|)
    case Fcall(_) => true
    case Binary(_, l, r) => PrintableExpr(l, vars) && PrintableExpr(r, vars)
    case Assign(l, r) => PrintableExpr(l, vars) && PrintableExpr(r, vars)
    case _ => false
  }

  /** Prints `e` where the grammar expects level `p`, in parentheses when
      `e` binds more loosely than that. */
  function Print(e: Node, p: nat, vars: Vars): (r: seq<Token>)
    requires PrintableExpr(e, vars)
    ensures |r| > 0
    decreases e, if Prec(e) < p then 1 else 0
  {
    if Prec(e) < p then [Sym("(")] + Print(e, 0, vars) + [Sym(")")]
    else match e
      case Num(v) => [NumTok(v)]
      case Lvar(o) => [IdTok(VarAt(vars, o).name)]
      case Fcall(f) => [IdTok(f), Sym("("), Sym(")")]
      case Binary(op, l, r) => Print(l, OpPrec(op), vars) + [Sym(OpText(op))] + Print(r, OpPrec(op) + 1, vars)
      case Assign(l, r) => Print(l, 1, vars) + [Sym("=")] + Print(r, 0, vars)
  }

  /** A printout opens with a number, a name or `(`. */
  predicate Opens(t: Token) {
    t.kind == Number || t.kind == Ident || t == Sym("(")
  }

  lemma {:induction false} PrintOpens(e: Node, p: nat, vars: Vars)
    requires PrintableExpr(e, vars)
    ensures Opens(Print(e, p, vars)[0])
    decreases e
  {
    if Prec(e) >= p {
      match e
      case Binary(op, l, r) => PrintOpens(l, OpPrec(op), vars);
      case Assign(l, r) => PrintOpens(l, 1, vars);
      case _ =>
    }
  }

  /** `t` ends an expression of level `p`: no loop at level `p` or above
      takes it as its operator, and it is not the `(` of a call. */
  predicate Stops(t: Token, p: nat) {
    t.kind != Reserved ||
      (&& t.str != "("
       && (p <= 4 ==> t.str != "*" && t.str != "/")
       && (p <= 3 ==> t.str != "+" && t.str != "-")
       && (p <= 2 ==> t.str != "<" && t.str != "<=" && t.str != ">" && t.str != ">=")
       && (p <= 1 ==> t.str != "==" && t.str != "!=")
       && (p == 0 ==> t.str != "="))
  }

  // ---------------------------------------------------------------- statements

  /** The statement ends in an `if` without `else`, so an `else` printed
      after it would be taken by that `if`. */
  predicate OpenTail(s: Node) {
    match s
    case If(_, _, None) => true
    case If(_, _, Some(a)) => OpenTail(a)
    case While(_, c) => OpenTail(c)
    case For(_, _, _, c) => OpenTail(c)
    case _ => false
  }

  predicate PrintableOpt(e: Option<Node>, vars: Vars) {
    e.None? || PrintableExpr(e.value, vars)
  }

  /** The statements the printer can write: expressions as above, and no
      `else` after a branch that ends in an open `if`. */
  predicate PrintableStmt(s: Node, vars: Vars)
    decreases s, 1
  {
    match s
    case If(t, c, a) =>
      && PrintableExpr(t, vars) && PrintableStmt(c, vars)
      && (a.Some? ==> PrintableStmt(a.value, vars) && !OpenTail(c))
    case While(t, c) => PrintableExpr(t, vars) && PrintableStmt(c, vars)
    case For(i, t, p, c) =>
      PrintableOpt(i, vars) && PrintableOpt(t, vars) && PrintableOpt(p, vars) && PrintableStmt(c, vars)
    case Block(body) => PrintableStmts(body, vars)
    case Return(v) => PrintableExpr(v, vars)
    case _ => PrintableExpr(s, vars)
  }

  predicate PrintableStmts(ss: seq<Node>, vars: Vars)
    decreases ss
  {
    forall i :: 0 <= i < |ss| ==> PrintableStmt(ss[i], vars)
  }

  function PrintOpt(e: Option<Node>, vars: Vars): seq<Token>
    requires PrintableOpt(e, vars)
  {
    if e.None? then [] else Print(e.value, 0, vars)
  }

  /** A `for` header clause with its terminator. */
  function PrintClause(e: Option<Node>, close: string, vars: Vars): seq<Token>
    requires PrintableOpt(e, vars)
  {
    PrintOpt(e, vars) + [Sym(close)]
  }

  /** `( test )` after `if` or `while`. */
  function PrintCond(kw: string, t: Node, vars: Vars): seq<Token>
    requires PrintableExpr(t, vars)
  {
    [Sym(kw), Sym("(")] + Print(t, 0, vars) + [Sym(")")]
  }

  function PrintStmt(s: Node, vars: Vars): (r: seq<Token>)
    requires PrintableStmt(s, vars)
    ensures |r| > 0
    decreases s, 1
  {
    match s
    case If(t, c, a) => PrintCond("if", t, vars) + PrintStmt(c, vars) + PrintElse(a, vars)
    case While(t, c) => PrintCond("while", t, vars) + PrintStmt(c, vars)
    case For(i, t, p, c) =>
      [Sym("for"), Sym("(")] + PrintClause(i, ";", vars) + PrintClause(t, ";", vars)
        + PrintClause(p, ")", vars) + PrintStmt(c, vars)
    case Block(body) => [Sym("{")] + PrintStmts(body, vars) + [Sym("}")]
    case Return(v) => [Sym("return")] + Print(v, 0, vars) + [Sym(";")]
    case _ => Print(s, 0, vars) + [Sym(";")]
  }

  /** The `else` branch of an `if`, if it has one. */
  function PrintElse(a: Option<Node>, vars: Vars): seq<Token>
    requires a.Some? ==> PrintableStmt(a.value, vars)
    decreases a, 0
  {
    if a.None? then [] else [Sym("else")] + PrintStmt(a.value, vars)
  }

  function PrintStmts(ss: seq<Node>, vars: Vars): seq<Token>
    requires PrintableStmts(ss, vars)
    decreases ss
  {
    if |ss| == 0 then [] else PrintStmt(ss[0], vars) + PrintStmts(ss[1..], vars)
  }

  /** A statement printout never opens with `}`, `else` or EOF. */
  lemma StmtOpens(s: Node, vars: Vars)
    requires PrintableStmt(s, vars)
    ensures var t := PrintStmt(s, vars)[0]; t.kind != EOF && !IsOp(t, "}") && !IsOp(t, "else")
  {
    match s
    case If(_, _, _) =>
    case While(_, _) =>
    case For(_, _, _, _) =>
    case Block(_) =>
    case Return(_) =>
    case _ => PrintOpens(s, 0, vars);
  }
}
