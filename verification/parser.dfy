/** The recursive-descent parser.

    Grammar, as the original's functions implement it:

      program    = stmt*
      stmt       = "if" "(" expr ")" stmt ("else" stmt)?
                 | "while" "(" expr ")" stmt
                 | "for" "(" expr? ";" expr? ";" expr? ")" stmt
                 | "return" expr ";"
                 | "{" stmt* "}"
                 | expr ";"
      expr       = assign
      assign     = equality ("=" assign)?
      equality   = relational ("==" relational | "!=" relational)*
      relational = add ("<" add | "<=" add | ">" add | ">=" add)*
      add        = mul ("+" mul | "-" mul)*
      mul        = unary ("*" unary | "/" unary)*
      unary      = ("+" | "-")? primary
      primary    = "(" expr ")" | ident ("(" ")")? | num

    Each function takes the token list, the cursor and the variable list,
    and returns the node with the cursor and variable list after it.  Each
    `(...)*` loop of the original is a `...Rest` function that carries the
    node built so far.  The statement keywords are reserved-word tokens:
    the original's `consumeKind(tkIf)` is read as consuming the reserved
    word `if`, and likewise for `else`, `while`, `for` and `return`.
 */
module Parser {
  import opened Outcomes
  import opened Lexer
  import opened Cursor
  import opened LocalVars
  import opened Ast

  datatype Parsed<+T> = Parsed(node: T, next: nat, vars: Vars)

  /** `after` is `before` with zero or more variables pushed on its head. */
  predicate Extends(before: Vars, after: Vars)
    decreases |after|
  {
    if |after| <= |before| then after == before else Extends(before, after[1..])
  }

  lemma {:induction false} ExtendsLength(a: Vars, b: Vars)
    requires Extends(a, b)
    ensures |a| <= |b| && b[|b| - |a|..] == a
    decreases |b|
  {
    if |a| < |b| {
      ExtendsLength(a, b[1..]);
      assert b[|b| - |a|..] == b[1..][|b| - 1 - |a|..];
    }
  }

  lemma {:induction false} ExtendsTransitive(a: Vars, b: Vars, c: Vars)
    requires Extends(a, b) && Extends(b, c)
    ensures Extends(a, c)
    decreases |c|
  {
    ExtendsLength(a, b);
    ExtendsLength(b, c);
    if |b| < |c| {
      ExtendsTransitive(a, b, c[1..]);
    }
  }

  /** Growing the frame keeps a tree in it. */
  lemma Keeps(e: Node, n: nat, m: nat)
    requires n <= m
    ensures InFrame(e, n) ==> InFrame(e, m)
  {
    if InFrame(e, n) {
      InFrameGrow(e, n, m);
    }
  }

  lemma OptKeeps(e: Option<Node>, n: nat, m: nat)
    requires n <= m
    ensures OptInFrame(e, n) ==> OptInFrame(e, m)
  {
    if OptInFrame(e, n) {
      OptInFrameGrow(e, n, m);
    }
  }

  /** What every successful parse step guarantees: the cursor moves
      forward but never past EOF, variables are only ever added at the
      head, and a valid variable list stays valid. */
  predicate Advances<T>(ts: seq<Token>, c: nat, vars: Vars, r: Result<Parsed<T>>) {
    r.Ok? ==>
      && c <= r.value.next < |ts|
      && |vars| <= |r.value.vars|
      && Extends(vars, r.value.vars)
      && (ValidLocals(vars) ==> ValidLocals(r.value.vars))
  }

  /** `Advances`, and every variable in the result has a slot in the frame. */
  predicate Sound(ts: seq<Token>, c: nat, vars: Vars, r: Result<Parsed<Node>>) {
    && Advances(ts, c, vars, r)
    && (r.Ok? && ValidLocals(vars) ==> InFrame(r.value.node, |r.value.vars|))
  }

  /** `Sound` for a loop that started from the node `lhs`. */
  predicate SoundFrom(ts: seq<Token>, lhs: Node, c: nat, vars: Vars, r: Result<Parsed<Node>>) {
    && Advances(ts, c, vars, r)
    && (r.Ok? && ValidLocals(vars) && InFrame(lhs, |vars|) ==>
          InFrame(r.value.node, |r.value.vars|))
  }

  /** The variable node for `name`, declaring the name on first use. */
  function NewNodeLVar(vars: Vars, name: string): (r: (Node, Vars))
    ensures r.0.Lvar? && Extends(vars, r.1) && |r.1| <= |vars| + 1
    ensures name in Names(vars) ==> r.1 == vars
    ensures ValidLocals(vars) ==> ValidLocals(r.1) && IsSlot(r.0.offset, |r.1|)
    ensures ValidLocals(vars) ==> FindLocalVar(r.1, name) == Some(LocalVar(name, r.0.offset))
  {
    var (lv, vars') := FindOrCreateLocalVar(vars, name);
    assert vars' != vars ==> vars'[0] == lv && name !in Names(vars'[..0]);
    (Lvar(lv.offset), vars')
  }

  // ---------------------------------------------------------------- program

  function Program(ts: seq<Token>): (r: Result<Parsed<seq<Node>>>)
    requires Terminated(ts)
    ensures r.Ok? ==> r.value.next < |ts| && ts[r.value.next].kind == EOF
    ensures r.Ok? ==> ValidLocals(r.value.vars) && AllInFrame(r.value.node, |r.value.vars|)
  {
    ProgramFrom(ts, 0, [])
  }

  /** `stmt*` up to EOF. */
  function ProgramFrom(ts: seq<Token>, c: nat, vars: Vars): (r: Result<Parsed<seq<Node>>>)
    requires Valid(ts, c)
    ensures Advances(ts, c, vars, r)
    ensures r.Ok? ==> ts[r.value.next].kind == EOF
    ensures r.Ok? && ValidLocals(vars) ==> AllInFrame(r.value.node, |r.value.vars|)
    decreases |ts| - c, 15
  {
    if AtEOF(ts, c) then Ok(Parsed([], c, vars))
    else
      var s :- Stmt(ts, c, vars);
      var rest :- ProgramFrom(ts, s.next, s.vars);
      ExtendsTransitive(vars, s.vars, rest.vars);
      Keeps(s.node, |s.vars|, |rest.vars|);
      Ok(Parsed([s.node] + rest.node, rest.next, rest.vars))
  }

  // ---------------------------------------------------------------- statements

  function Stmt(ts: seq<Token>, c: nat, vars: Vars): (r: Result<Parsed<Node>>)
    requires Valid(ts, c)
    ensures Sound(ts, c, vars, r)
    ensures r.Ok? ==> c < r.value.next
    decreases |ts| - c, 13
  {
    match Consume(ts, c, "if")
    case Some(c1) => IfStmt(ts, c1, vars)
    case None =>
    match Consume(ts, c, "while")
    case Some(c1) => WhileStmt(ts, c1, vars)
    case None =>
    match Consume(ts, c, "for")
    case Some(c1) => ForStmt(ts, c1, vars)
    case None =>
    match Consume(ts, c, "return")
    case Some(c1) =>
      var e :- Expr(ts, c1, vars);
      var c2 :- Expect(ts, e.next, ";");
      Ok(Parsed(Return(e.node), c2, e.vars))
    case None =>
    match Consume(ts, c, "{")
    case Some(c1) =>
      var body :- BlockRest(ts, c1, vars);
      Ok(Parsed(Block(body.node), body.next, body.vars))
    case None =>
      var e :- Expr(ts, c, vars);
      var c1 :- Expect(ts, e.next, ";");
      Ok(Parsed(e.node, c1, e.vars))
  }

  /** `( expr )`, the condition of an `if` or `while`. */
  function Cond(ts: seq<Token>, c: nat, vars: Vars): (r: Result<Parsed<Node>>)
    requires Valid(ts, c)
    ensures Sound(ts, c, vars, r)
    ensures r.Ok? ==> c < r.value.next
    decreases |ts| - c, 12
  {
    var c1 :- Expect(ts, c, "(");
    var test :- Expr(ts, c1, vars);
    var c2 :- Expect(ts, test.next, ")");
    Ok(Parsed(test.node, c2, test.vars))
  }

  /** `if` statement, after the keyword. */
  function IfStmt(ts: seq<Token>, c: nat, vars: Vars): (r: Result<Parsed<Node>>)
    requires Valid(ts, c)
    ensures Sound(ts, c, vars, r)
    decreases |ts| - c, 13
  {
    var test :- Cond(ts, c, vars);
    var cons :- Stmt(ts, test.next, test.vars);
    ExtendsTransitive(vars, test.vars, cons.vars);
    Keeps(test.node, |test.vars|, |cons.vars|);
    match Consume(ts, cons.next, "else")
    case Some(c3) =>
      var alt :- Stmt(ts, c3, cons.vars);
      ExtendsTransitive(vars, cons.vars, alt.vars);
      Keeps(test.node, |cons.vars|, |alt.vars|);
      Keeps(cons.node, |cons.vars|, |alt.vars|);
      Ok(Parsed(If(test.node, cons.node, Some(alt.node)), alt.next, alt.vars))
    case None =>
      Ok(Parsed(If(test.node, cons.node, None), cons.next, cons.vars))
  }

  /** `while` statement, after the keyword. */
  function WhileStmt(ts: seq<Token>, c: nat, vars: Vars): (r: Result<Parsed<Node>>)
    requires Valid(ts, c)
    ensures Sound(ts, c, vars, r)
    decreases |ts| - c, 13
  {
    var test :- Cond(ts, c, vars);
    var cons :- Stmt(ts, test.next, test.vars);
    ExtendsTransitive(vars, test.vars, cons.vars);
    Keeps(test.node, |test.vars|, |cons.vars|);
    Ok(Parsed(While(test.node, cons.node), cons.next, cons.vars))
  }

  /** `for` statement, after the keyword; each header clause may be empty. */
  function ForStmt(ts: seq<Token>, c: nat, vars: Vars): (r: Result<Parsed<Node>>)
    requires Valid(ts, c)
    ensures Sound(ts, c, vars, r)
    decreases |ts| - c, 13
  {
    var c1 :- Expect(ts, c, "(");
    var init :- ForClause(ts, c1, vars, ";");
    var r := ForAfterInit(ts, init.node, init.next, init.vars);
    if r.Ok? then ExtendsTransitive(vars, init.vars, r.value.vars); r else r
  }

  /** The rest of a `for` statement once its init clause is parsed. */
  function ForAfterInit(ts: seq<Token>, init: Option<Node>, c: nat, vars: Vars): (r: Result<Parsed<Node>>)
    requires Valid(ts, c)
    ensures r.Ok? ==> r.value.node.For? && r.value.node.init == init
    ensures Advances(ts, c, vars, r)
    ensures r.Ok? && ValidLocals(vars) && OptInFrame(init, |vars|) ==>
      InFrame(r.value.node, |r.value.vars|)
    decreases |ts| - c, 13
  {
    var cond :- ForClause(ts, c, vars, ";");
    var post :- ForClause(ts, cond.next, cond.vars, ")");
    var cons :- Stmt(ts, post.next, post.vars);
    ExtendsTransitive(vars, cond.vars, post.vars);
    ExtendsTransitive(vars, post.vars, cons.vars);
    var node := For(init, cond.node, post.node, cons.node);
    OptKeeps(init, |vars|, |cons.vars|);
    OptKeeps(cond.node, |cond.vars|, |cons.vars|);
    OptKeeps(post.node, |post.vars|, |cons.vars|);
    Ok(Parsed(node, cons.next, cons.vars))
  }

  /** One clause of a `for` header: nothing, or an expression, then `close`. */
  function ForClause(ts: seq<Token>, c: nat, vars: Vars, close: string): (r: Result<Parsed<Option<Node>>>)
    requires Valid(ts, c)
    ensures Advances(ts, c, vars, r)
    ensures r.Ok? ==> c < r.value.next
    ensures r.Ok? && ValidLocals(vars) ==> OptInFrame(r.value.node, |r.value.vars|)
    decreases |ts| - c, 12
  {
    match Consume(ts, c, close)
    case Some(c1) =>
      Ok(Parsed(None, c1, vars))
    case None =>
      var e :- Expr(ts, c, vars);
      var c1 :- Expect(ts, e.next, close);
      Ok(Parsed(Some(e.node), c1, e.vars))
  }

  /** The statements of a block, up to and including its `}`. */
  function BlockRest(ts: seq<Token>, c: nat, vars: Vars): (r: Result<Parsed<seq<Node>>>)
    requires Valid(ts, c)
    ensures Advances(ts, c, vars, r)
    ensures r.Ok? ==> c < r.value.next
    ensures r.Ok? && ValidLocals(vars) ==> AllInFrame(r.value.node, |r.value.vars|)
    decreases |ts| - c, 14
  {
    match Consume(ts, c, "}")
    case Some(c1) =>
      Ok(Parsed([], c1, vars))
    case None =>
      var s :- Stmt(ts, c, vars);
      var rest :- BlockRest(ts, s.next, s.vars);
      ExtendsTransitive(vars, s.vars, rest.vars);
      Keeps(s.node, |s.vars|, |rest.vars|);
      Ok(Parsed([s.node] + rest.node, rest.next, rest.vars))
  }

  // ---------------------------------------------------------------- expressions

  function Expr(ts: seq<Token>, c: nat, vars: Vars): (r: Result<Parsed<Node>>)
    requires Valid(ts, c)
    ensures Sound(ts, c, vars, r)
    decreases |ts| - c, 11
  {
    AssignExpr(ts, c, vars)
  }

  /** `assign`: right-associative, since the right side is another `assign`. */
  function AssignExpr(ts: seq<Token>, c: nat, vars: Vars): (r: Result<Parsed<Node>>)
    requires Valid(ts, c)
    ensures Sound(ts, c, vars, r)
    decreases |ts| - c, 10
  {
    var lhs :- Equality(ts, c, vars);
    match Consume(ts, lhs.next, "=")
    case Some(c1) =>
      var rhs :- AssignExpr(ts, c1, lhs.vars);
      ExtendsTransitive(vars, lhs.vars, rhs.vars);
      Keeps(lhs.node, |lhs.vars|, |rhs.vars|);
      Ok(Parsed(Assign(lhs.node, rhs.node), rhs.next, rhs.vars))
    case None =>
      Ok(lhs)
  }

  function Equality(ts: seq<Token>, c: nat, vars: Vars): (r: Result<Parsed<Node>>)
    requires Valid(ts, c)
    ensures Sound(ts, c, vars, r)
    decreases |ts| - c, 9
  {
    var lhs :- Relational(ts, c, vars);
    var r := EqualityRest(ts, lhs.node, lhs.next, lhs.vars);
    if r.Ok? then ExtendsTransitive(vars, lhs.vars, r.value.vars); r else r
  }

  function EqualityRest(ts: seq<Token>, lhs: Node, c: nat, vars: Vars): (r: Result<Parsed<Node>>)
    requires Valid(ts, c)
    ensures SoundFrom(ts, lhs, c, vars, r)
    decreases |ts| - c, 8
  {
    match Consume(ts, c, "==")
    case Some(c1) =>
      var rhs :- Relational(ts, c1, vars);
      Keeps(lhs, |vars|, |rhs.vars|);
      var r := EqualityRest(ts, Binary(Eq, lhs, rhs.node), rhs.next, rhs.vars);
      if r.Ok? then ExtendsTransitive(vars, rhs.vars, r.value.vars); r else r
    case None =>
    match Consume(ts, c, "!=")
    case Some(c1) =>
      var rhs :- Relational(ts, c1, vars);
      Keeps(lhs, |vars|, |rhs.vars|);
      var r := EqualityRest(ts, Binary(Ne, lhs, rhs.node), rhs.next, rhs.vars);
      if r.Ok? then ExtendsTransitive(vars, rhs.vars, r.value.vars); r else r
    case None =>
      Ok(Parsed(lhs, c, vars))
  }

  function Relational(ts: seq<Token>, c: nat, vars: Vars): (r: Result<Parsed<Node>>)
    requires Valid(ts, c)
    ensures Sound(ts, c, vars, r)
    decreases |ts| - c, 7
  {
    var lhs :- AddExpr(ts, c, vars);
    var r := RelationalRest(ts, lhs.node, lhs.next, lhs.vars);
    if r.Ok? then ExtendsTransitive(vars, lhs.vars, r.value.vars); r else r
  }

  /** `a > b` is built as `b < a` and `a >= b` as `b <= a`. */
  function RelationalRest(ts: seq<Token>, lhs: Node, c: nat, vars: Vars): (r: Result<Parsed<Node>>)
    requires Valid(ts, c)
    ensures SoundFrom(ts, lhs, c, vars, r)
    decreases |ts| - c, 6
  {
    match Consume(ts, c, "<")
    case Some(c1) =>
      var rhs :- AddExpr(ts, c1, vars);
      Keeps(lhs, |vars|, |rhs.vars|);
      var r := RelationalRest(ts, Binary(Lt, lhs, rhs.node), rhs.next, rhs.vars);
      if r.Ok? then ExtendsTransitive(vars, rhs.vars, r.value.vars); r else r
    case None =>
    match Consume(ts, c, "<=")
    case Some(c1) =>
      var rhs :- AddExpr(ts, c1, vars);
      Keeps(lhs, |vars|, |rhs.vars|);
      var r := RelationalRest(ts, Binary(Le, lhs, rhs.node), rhs.next, rhs.vars);
      if r.Ok? then ExtendsTransitive(vars, rhs.vars, r.value.vars); r else r
    case None =>
    match Consume(ts, c, ">")
    case Some(c1) =>
      var rhs :- AddExpr(ts, c1, vars);
      Keeps(lhs, |vars|, |rhs.vars|);
      var r := RelationalRest(ts, Binary(Lt, rhs.node, lhs), rhs.next, rhs.vars);
      if r.Ok? then ExtendsTransitive(vars, rhs.vars, r.value.vars); r else r
    case None =>
    match Consume(ts, c, ">=")
    case Some(c1) =>
      var rhs :- AddExpr(ts, c1, vars);
      Keeps(lhs, |vars|, |rhs.vars|);
      var r := RelationalRest(ts, Binary(Le, rhs.node, lhs), rhs.next, rhs.vars);
      if r.Ok? then ExtendsTransitive(vars, rhs.vars, r.value.vars); r else r
    case None =>
      Ok(Parsed(lhs, c, vars))
  }

  function AddExpr(ts: seq<Token>, c: nat, vars: Vars): (r: Result<Parsed<Node>>)
    requires Valid(ts, c)
    ensures Sound(ts, c, vars, r)
    decreases |ts| - c, 5
  {
    var lhs :- MulExpr(ts, c, vars);
    var r := AddRest(ts, lhs.node, lhs.next, lhs.vars);
    if r.Ok? then ExtendsTransitive(vars, lhs.vars, r.value.vars); r else r
  }

  function AddRest(ts: seq<Token>, lhs: Node, c: nat, vars: Vars): (r: Result<Parsed<Node>>)
    requires Valid(ts, c)
    ensures SoundFrom(ts, lhs, c, vars, r)
    decreases |ts| - c, 4
  {
    match Consume(ts, c, "+")
    case Some(c1) =>
      var rhs :- MulExpr(ts, c1, vars);
      Keeps(lhs, |vars|, |rhs.vars|);
      var r := AddRest(ts, Binary(Add, lhs, rhs.node), rhs.next, rhs.vars);
      if r.Ok? then ExtendsTransitive(vars, rhs.vars, r.value.vars); r else r
    case None =>
    match Consume(ts, c, "-")
    case Some(c1) =>
      var rhs :- MulExpr(ts, c1, vars);
      Keeps(lhs, |vars|, |rhs.vars|);
      var r := AddRest(ts, Binary(Sub, lhs, rhs.node), rhs.next, rhs.vars);
      if r.Ok? then ExtendsTransitive(vars, rhs.vars, r.value.vars); r else r
    case None =>
      Ok(Parsed(lhs, c, vars))
  }

  function MulExpr(ts: seq<Token>, c: nat, vars: Vars): (r: Result<Parsed<Node>>)
    requires Valid(ts, c)
    ensures Sound(ts, c, vars, r)
    decreases |ts| - c, 3
  {
    var lhs :- Unary(ts, c, vars);
    var r := MulRest(ts, lhs.node, lhs.next, lhs.vars);
    if r.Ok? then ExtendsTransitive(vars, lhs.vars, r.value.vars); r else r
  }

  function MulRest(ts: seq<Token>, lhs: Node, c: nat, vars: Vars): (r: Result<Parsed<Node>>)
    requires Valid(ts, c)
    ensures SoundFrom(ts, lhs, c, vars, r)
    decreases |ts| - c, 2
  {
    match Consume(ts, c, "*")
    case Some(c1) =>
      var rhs :- Unary(ts, c1, vars);
      Keeps(lhs, |vars|, |rhs.vars|);
      var r := MulRest(ts, Binary(Mul, lhs, rhs.node), rhs.next, rhs.vars);
      if r.Ok? then ExtendsTransitive(vars, rhs.vars, r.value.vars); r else r
    case None =>
    match Consume(ts, c, "/")
    case Some(c1) =>
      var rhs :- Unary(ts, c1, vars);
      Keeps(lhs, |vars|, |rhs.vars|);
      var r := MulRest(ts, Binary(Div, lhs, rhs.node), rhs.next, rhs.vars);
      if r.Ok? then ExtendsTransitive(vars, rhs.vars, r.value.vars); r else r
    case None =>
      Ok(Parsed(lhs, c, vars))
  }

  /** Unary `+x` is `x`; unary `-x` is `0 - x`. */
  function Unary(ts: seq<Token>, c: nat, vars: Vars): (r: Result<Parsed<Node>>)
    requires Valid(ts, c)
    ensures Sound(ts, c, vars, r)
    decreases |ts| - c, 1
  {
    match Consume(ts, c, "+")
    case Some(c1) =>
      Primary(ts, c1, vars)
    case None =>
    match Consume(ts, c, "-")
    case Some(c1) =>
      var e :- Primary(ts, c1, vars);
      Ok(Parsed(Binary(Sub, Num(0), e.node), e.next, e.vars))
    case None =>
      Primary(ts, c, vars)
  }

  /** A parenthesised expression, a call `f()`, a variable or a number. */
  function Primary(ts: seq<Token>, c: nat, vars: Vars): (r: Result<Parsed<Node>>)
    requires Valid(ts, c)
    ensures Sound(ts, c, vars, r)
    decreases |ts| - c, 0
  {
    match Consume(ts, c, "(")
    case Some(c1) =>
      var e :- Expr(ts, c1, vars);
      var c2 :- Expect(ts, e.next, ")");
      Ok(Parsed(e.node, c2, e.vars))
    case None =>
    match ConsumeKind(ts, c, Ident)
    case Some(id) =>
      (match Consume(ts, id.next, "(")
       case Some(c2) =>
         var c3 :- Expect(ts, c2, ")");
         Ok(Parsed(Fcall(id.tok.str), c3, vars))
       case None =>
         var (node, vars') := NewNodeLVar(vars, id.tok.str);
         Ok(Parsed(node, id.next, vars')))
    case None =>
      var n :- ExpectNumber(ts, c);
      Ok(Parsed(Num(n.0), n.1, vars))
  }
}
