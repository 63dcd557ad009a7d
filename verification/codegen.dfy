/** The expression code generator: each node becomes a list of stack
    machine instructions that leaves the node's value on top of the
    stack.

    The original prints the instructions as it walks the tree; here the
    walk returns them.  It has no case for statements or calls: it treats
    them as binary nodes and compiles their `lhs` and `rhs` children, and
    it stops at the first missing one; that stop is `Fail(NoCodegen)`.
    Only `return` has a left child (its operand), so the operand is
    compiled first, and its own failure comes first.
 */
module Codegen {
  import opened Outcomes
  import opened Ast
  import opened Asm

  /** The trees the generator handles: numbers, variables, binary
      operators, and assignments to a variable. */
  predicate Compilable(e: Node)
    decreases e
  {
    match e
    case Num(_) => true
    case Lvar(_) => true
    case Binary(_, l, r) => Compilable(l) && Compilable(r)
    case Assign(l, r) => l.Lvar? && Compilable(r)
    case _ => false
  }

  /** Pushes the address of a variable: `rbp` minus its offset. */
  function GenLval(e: Node): (r: Result<seq<Instr>>)
    ensures r.Ok? <==> e.Lvar?
    ensures r.Fail? ==> r.error == NotLvalue
    ensures r.Ok? ==> NetEffect(r.value) == 1
  {
    if e.Lvar? then
      NetEffect3(MovRaxRbp, SubRaxImm(e.offset), PushRax);
      Ok([MovRaxRbp, SubRaxImm(e.offset), PushRax])
    else Fail(NotLvalue)
  }

  /** The `set` instruction of a comparison; nothing for other operators. */
  function SetFor(op: BinOp): seq<Instr> {
    match op
    case Eq => [Set(E)]
    case Ne => [Set(NE)]
    case Lt => [Set(L)]
    case Le => [Set(LE)]
    case _ => []
  }

  /** Compares `rax` with `rdi` and leaves the outcome in `rax`. */
  function GenCmp(op: BinOp): (r: seq<Instr>)
    ensures NetEffect(r) == 0
    ensures IsComparison(op) ==> |r| == 3 && r[0] == CmpRaxRdi && r[1].Set? && r[2] == MovzbRaxAl
  {
    NetEffectConcat([CmpRaxRdi] + SetFor(op), [MovzbRaxAl]);
    NetEffectConcat([CmpRaxRdi], SetFor(op));
    [CmpRaxRdi] + SetFor(op) + [MovzbRaxAl]
  }

  /** The instructions for `op` once its operands are in `rax` and `rdi`. */
  function OpCode(op: BinOp): (r: seq<Instr>)
    ensures NetEffect(r) == 0
  {
    NetEffect2(Cqo, IdivRdi);
    if IsComparison(op) then GenCmp(op)
    else match op
      case Add => [AddRaxRdi]
      case Sub => [SubRaxRdi]
      case Mul => [ImulRaxRdi]
      case _ => [Cqo, IdivRdi]
  }

  /** After both operands: pop them, combine them, push the result. */
  function BinaryTail(op: BinOp): (r: seq<Instr>)
    ensures NetEffect(r) == -1
  {
    var r := [PopRdi, PopRax] + OpCode(op) + [PushRax];
    NetEffectConcat([PopRdi, PopRax] + OpCode(op), [PushRax]);
    NetEffectConcat([PopRdi, PopRax], OpCode(op));
    NetEffect2(PopRdi, PopRax);
    r
  }

  /** The code for an expression.  It fails exactly on the trees outside
      `Compilable`, with `NotLvalue` when an assignment's target is not a
      variable (checked before its value is compiled), and otherwise
      pushes exactly one value. */
  function Gen(e: Node): (r: Result<seq<Instr>>)
    ensures r.Ok? <==> Compilable(e)
    ensures r.Ok? ==> NetEffect(r.value) == 1
    ensures r.Fail? ==> r.error == NotLvalue || r.error == NoCodegen
    ensures e.Assign? && !e.lhs.Lvar? ==> r == Fail(NotLvalue)
    ensures e.Return? ==> r.Fail? && (Compilable(e.result) ==> r.error == NoCodegen)
    ensures e.Return? && e.result.Assign? && !e.result.lhs.Lvar? ==> r == Fail(NotLvalue)
    ensures !(e.Num? || e.Lvar? || e.Binary? || e.Assign? || e.Return?) ==> r == Fail(NoCodegen)
    decreases e
  {
    match e
    case Num(v) => Ok([PushImm(v)])
    case Lvar(_) =>
      var a := GenLval(e).value;
      LoadEffect(a);
      Ok(a + [PopRax, LoadRax, PushRax])
    case Assign(l, rhs) =>
      var a :- GenLval(l);
      var b :- Gen(rhs);
      StoreEffect(a, b);
      Ok(a + b + [PopRdi, PopRax, StoreRdi, PushRdi])
    case Binary(op, l, rhs) =>
      var a :- Gen(l);
      var b :- Gen(rhs);
      BinaryEffect(a, b, op);
      Ok(a + b + BinaryTail(op))
    case Return(v) =>
      var _ :- Gen(v);
      Fail(NoCodegen)
    case _ => Fail(NoCodegen)
  }

  lemma LoadEffect(a: seq<Instr>)
    requires NetEffect(a) == 1
    ensures NetEffect(a + [PopRax, LoadRax, PushRax]) == 1
  {
    NetEffectConcat(a, [PopRax, LoadRax, PushRax]);
    NetEffect3(PopRax, LoadRax, PushRax);
  }

  lemma StoreEffect(a: seq<Instr>, b: seq<Instr>)
    requires NetEffect(a) == 1 && NetEffect(b) == 1
    ensures NetEffect(a + b + [PopRdi, PopRax, StoreRdi, PushRdi]) == 1
  {
    NetEffectConcat(a + b, [PopRdi, PopRax, StoreRdi, PushRdi]);
    NetEffect4(PopRdi, PopRax, StoreRdi, PushRdi);
    NetEffectConcat(a, b);
  }

  lemma BinaryEffect(a: seq<Instr>, b: seq<Instr>, op: BinOp)
    requires NetEffect(a) == 1 && NetEffect(b) == 1
    ensures NetEffect(a + b + BinaryTail(op)) == 1
  {
    NetEffectConcat(a + b, BinaryTail(op));
    NetEffectConcat(a, b);
  }
}
