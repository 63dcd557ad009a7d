/** Syntax tree nodes.

    The original has one node record with a kind tag and a field for every
    kind; here each kind is a constructor carrying just its own fields.
    The eight binary operators share one constructor.  There is no
    greater-than kind: the parser rewrites `a > b` as `b < a`.
 */
module Ast {
  import opened Outcomes
  import opened LocalVars

  datatype BinOp = Eq | Ne | Lt | Le | Add | Sub | Mul | Div

  datatype Node =
    | Num(val: int)
    | Lvar(offset: int)                   // a local variable, by frame offset
    | Fcall(name: string)                 // a call `name()` without arguments
    | Binary(op: BinOp, lhs: Node, rhs: Node)
    | Assign(lhs: Node, rhs: Node)
    | If(test: Node, cons: Node, alt: Option<Node>)
    | While(test: Node, cons: Node)
    | For(init: Option<Node>, cond: Option<Node>, post: Option<Node>, cons: Node)
    | Block(body: seq<Node>)
    | Return(result: Node)

  predicate IsComparison(op: BinOp) {
    op == Eq || op == Ne || op == Lt || op == Le
  }

  /** Every variable node of `e` sits in one of the first `n` slots of
      the frame. */
  predicate InFrame(e: Node, n: nat)
    decreases e, 1
  {
    match e
    case Num(_) => true
    case Lvar(o) => IsSlot(o, n)
    case Fcall(_) => true
    case Binary(_, l, r) => InFrame(l, n) && InFrame(r, n)
    case Assign(l, r) => InFrame(l, n) && InFrame(r, n)
    case If(t, c, a) => InFrame(t, n) && InFrame(c, n) && OptInFrame(a, n)
    case While(t, c) => InFrame(t, n) && InFrame(c, n)
    case For(i, t, p, c) => OptInFrame(i, n) && OptInFrame(t, n) && OptInFrame(p, n) && InFrame(c, n)
    case Block(body) => AllInFrame(body, n)
    case Return(v) => InFrame(v, n)
  }

  predicate OptInFrame(e: Option<Node>, n: nat)
    decreases e, 0
  {
    match e
    case None => true
    case Some(x) => InFrame(x, n)
  }

  predicate AllInFrame(ss: seq<Node>, n: nat)
    decreases ss
  {
    forall i :: 0 <= i < |ss| ==> InFrame(ss[i], n)
  }

  /** A tree that fits a frame fits any larger frame. */
  lemma {:induction false} InFrameGrow(e: Node, n: nat, m: nat)
    requires InFrame(e, n) && n <= m
    ensures InFrame(e, m)
    decreases e, 1
  {
    match e
    case Num(_) =>
    case Lvar(_) =>
    case Fcall(_) =>
    case Binary(_, l, r) => InFrameGrow(l, n, m); InFrameGrow(r, n, m);
    case Assign(l, r) => InFrameGrow(l, n, m); InFrameGrow(r, n, m);
    case If(t, c, a) => InFrameGrow(t, n, m); InFrameGrow(c, n, m); OptInFrameGrow(a, n, m);
    case While(t, c) => InFrameGrow(t, n, m); InFrameGrow(c, n, m);
    case For(i, t, p, c) =>
      OptInFrameGrow(i, n, m); OptInFrameGrow(t, n, m); OptInFrameGrow(p, n, m); InFrameGrow(c, n, m);
    case Block(body) => AllInFrameGrow(body, n, m);
    case Return(v) => InFrameGrow(v, n, m);
  }

  lemma {:induction false} OptInFrameGrow(e: Option<Node>, n: nat, m: nat)
    requires OptInFrame(e, n) && n <= m
    ensures OptInFrame(e, m)
    decreases e, 0
  {
    if e.Some? {
      InFrameGrow(e.value, n, m);
    }
  }

  lemma {:induction false} AllInFrameGrow(ss: seq<Node>, n: nat, m: nat)
    requires AllInFrame(ss, n) && n <= m
    ensures AllInFrame(ss, m)
    decreases ss
  {
    forall i | 0 <= i < |ss|
      ensures InFrame(ss[i], m)
    {
      InFrameGrow(ss[i], n, m);
    }
  }
}
