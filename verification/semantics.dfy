/** What an expression means, independently of any machine: its value
    and the frame memory after its assignments, with operands evaluated
    left to right, comparisons giving 1 or 0 and `/` rounding toward zero.
    A variable at frame offset `o` lives at address `rbp - o`.
 */
module Semantics {
  import opened Outcomes
  import opened Ast
  import opened Asm

  datatype Outcome = Outcome(val: int, mem: Memory)

  /** The value of `x op y`; division by zero has none. */
  function Apply(op: BinOp, x: int, y: int): (r: Option<int>)
    ensures r.None? <==> op == Div && y == 0
    ensures IsComparison(op) ==> r == Some(0) || r == Some(1)
  {
    match op
    case Eq => Some(if x == y then 1 else 0)
    case Ne => Some(if x != y then 1 else 0)
    case Lt => Some(if x < y then 1 else 0)
    case Le => Some(if x <= y then 1 else 0)
    case Add => Some(x + y)
    case Sub => Some(x - y)
    case Mul => Some(x * y)
    case Div => if y == 0 then None else Some(Quot(x, y))
  }

  /** The address of the variable at frame offset `o`. */
  function Address(rbp: int, o: int): int {
    rbp - o
  }

  /** Evaluates `e` in memory `mem`; `None` for a division by zero, an
      assignment to something other than a variable, and the nodes that
      are not expressions. */
  function Eval(e: Node, mem: Memory, rbp: int): Option<Outcome>
    decreases e
  {
    match e
    case Num(v) => Some(Outcome(v, mem))
    case Lvar(o) => Some(Outcome(mem(Address(rbp, o)), mem))
    case Binary(op, l, r) =>
      (match Eval(l, mem, rbp)
       case None => None
       case Some(x) =>
         match Eval(r, x.mem, rbp)
         case None => None
         case Some(y) =>
           match Apply(op, x.val, y.val)
           case None => None
           case Some(v) => Some(Outcome(v, y.mem)))
    case Assign(Lvar(o), r) =>
      (match Eval(r, mem, rbp)
       case None => None
       case Some(y) => Some(Outcome(y.val, Write(y.mem, Address(rbp, o), y.val))))
    case _ => None
  }
}
