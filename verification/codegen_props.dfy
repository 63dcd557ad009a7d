/** The generated code computes what the expression means: run from any
    machine state, the code of a compilable expression stops exactly when
    the evaluation has no value (a division by zero), and otherwise
    leaves the stack as it found it with the expression's value on top,
    and the frame memory as the evaluation's assignments left it.
 */
module CodegenProps {
  import opened Outcomes
  import opened Ast
  import opened Asm
  import opened Semantics
  import opened Codegen

  /** `after` is `before` with `v` pushed, memory `mem` and the same frame. */
  ghost predicate Pushed(before: State, after: State, v: int, mem: Memory) {
    after.stack == before.stack + [v] && after.mem == mem && after.rbp == before.rbp
  }

  /** A run from `st` and an evaluation agree: both stop, or both finish
      with the same value and memory. */
  ghost predicate Agrees(r: Option<State>, st: State, o: Option<Outcome>) {
    (r.Some? <==> o.Some?) && (r.Some? ==> Pushed(st, r.value, o.value.val, o.value.mem))
  }

  // ---------------------------------------------------------------- pieces

  /** `push val` is the whole code of a number, and pushes it. */
  lemma NumPush(v: int, st: State)
    ensures Gen(Num(v)) == Ok([PushImm(v)])
    ensures Run([PushImm(v)], st) == Some(Push(st, v))
  {
    Run1(PushImm(v), st);
  }

  /** The code of a variable's address pushes `rbp - offset`. */
  lemma LvalAddress(e: Node, st: State)
    requires e.Lvar?
    ensures GenLval(e).Ok?
    ensures Run(GenLval(e).value, st).Some?
    ensures Pushed(st, Run(GenLval(e).value, st).value, Address(st.rbp, e.offset), st.mem)
  {
    var o := e.offset;
    var s1 := st.(rax := st.rbp);
    var s2 := s1.(rax := st.rbp - o);
    Run3(MovRaxRbp, SubRaxImm(o), PushRax, st, s1, s2);
  }

  /** `pop rax; mov rax, [rax]; push rax` replaces an address on top of
      the stack by the value stored there. */
  lemma LoadComputes(st: State, base: seq<int>, a: int)
    requires st.stack == base + [a]
    ensures Run([PopRax, LoadRax, PushRax], st).Some?
    ensures Run([PopRax, LoadRax, PushRax], st).value.stack == base + [st.mem(a)]
    ensures Run([PopRax, LoadRax, PushRax], st).value.mem == st.mem
  {
    assert st.stack[..|st.stack| - 1] == base;
    var s1 := st.(rax := a, stack := base);
    var s2 := s1.(rax := st.mem(a));
    Run3(PopRax, LoadRax, PushRax, st, s1, s2);
  }

  /** `pop rdi; pop rax; mov [rax], rdi; push rdi` stores the value on top
      of the stack at the address below it, and leaves the value. */
  lemma StoreComputes(st: State, base: seq<int>, a: int, y: int)
    requires st.stack == base + [a, y]
    ensures Run([PopRdi, PopRax, StoreRdi, PushRdi], st).Some?
    ensures Run([PopRdi, PopRax, StoreRdi, PushRdi], st).value.stack == base + [y]
    ensures Run([PopRdi, PopRax, StoreRdi, PushRdi], st).value.mem == Write(st.mem, a, y)
  {
    assert st.stack[..|st.stack| - 1] == base + [a];
    var s1 := st.(rdi := y, stack := base + [a]);
    assert s1.stack[..|s1.stack| - 1] == base;
    var s2 := s1.(rax := a, stack := base);
    var s3 := s2.(mem := Write(st.mem, a, y));
    Run4(PopRdi, PopRax, StoreRdi, PushRdi, st, s1, s2, s3);
  }

  /** `set` writes the outcome bit into the low byte of `rax`, and
      `movzb` keeps only that byte. */
  lemma LowByteSet(a: int, bit: int)
    requires bit == 0 || bit == 1
    ensures LowByte(a - LowByte(a) + bit) == bit
  {
    var q := a / 256;
    assert a - LowByte(a) == 256 * q;
    assert (256 * q + bit) / 256 == q && (256 * q + bit) % 256 == bit;
  }

  /** `cmp rax, rdi; set<cc> al; movzb rax, al` leaves 1 in `rax` when
      `cc` holds of `rax` and `rdi` and 0 otherwise. */
  lemma CmpRun(cc: CondCode, st: State) returns (r: State)
    ensures Run([CmpRaxRdi, Set(cc), MovzbRaxAl], st) == Some(r)
    ensures r.rax == (if Holds(cc, st.rax, st.rdi) then 1 else 0)
    ensures r.stack == st.stack && r.mem == st.mem
  {
    var s1 := st.(flags := Flags(st.rax, st.rdi));
    var bit := if Holds(cc, st.rax, st.rdi) then 1 else 0;
    var s2 := s1.(rax := st.rax - LowByte(st.rax) + bit);
    assert Step(Set(cc), s1) == Some(s2);
    LowByteSet(st.rax, bit);
    r := s2.(rax := bit);
    assert Step(MovzbRaxAl, s2) == Some(r);
    Run3(CmpRaxRdi, Set(cc), MovzbRaxAl, st, s1, s2);
  }

  /** Each comparison picks the condition code that decides it. */
  lemma CmpCode(op: BinOp, x: int, y: int)
    requires IsComparison(op)
    ensures GenCmp(op) == [CmpRaxRdi, SetFor(op)[0], MovzbRaxAl]
    ensures SetFor(op)[0].Set?
    ensures Apply(op, x, y) == Some(if Holds(SetFor(op)[0].cc, x, y) then 1 else 0)
  {
  }

  /** A comparison leaves 1 in `rax` when it holds of `rax` and `rdi`
      and 0 otherwise, and touches neither the stack nor memory. */
  lemma CmpComputes(op: BinOp, st: State)
    requires IsComparison(op)
    ensures Run(GenCmp(op), st).Some?
    ensures Run(GenCmp(op), st).value.rax == Apply(op, st.rax, st.rdi).value
    ensures Run(GenCmp(op), st).value.rax == 0 || Run(GenCmp(op), st).value.rax == 1
    ensures Run(GenCmp(op), st).value.stack == st.stack
    ensures Run(GenCmp(op), st).value.mem == st.mem
  {
    CmpCode(op, st.rax, st.rdi);
    var r := CmpRun(SetFor(op)[0].cc, st);
  }

  /** `cqo; idiv rdi` divides `rax` by `rdi`, rounding toward zero, and
      traps when `rdi` is zero. */
  lemma DivComputes(st: State)
    ensures Run([Cqo, IdivRdi], st).Some? <==> st.rdi != 0
    ensures st.rdi != 0 ==>
      && Run([Cqo, IdivRdi], st).value.rax == Quot(st.rax, st.rdi)
      && Run([Cqo, IdivRdi], st).value.stack == st.stack
      && Run([Cqo, IdivRdi], st).value.mem == st.mem
  {
    Run2(Cqo, IdivRdi, st, st.(rdx := SignOf(st.rax)));
  }

  /** The operator's code leaves `Apply(op, rax, rdi)` in `rax`, or stops
      exactly when that has no value. */
  lemma OpComputes(op: BinOp, st: State)
    ensures Run(OpCode(op), st).Some? <==> Apply(op, st.rax, st.rdi).Some?
    ensures Run(OpCode(op), st).Some? ==>
      && Run(OpCode(op), st).value.rax == Apply(op, st.rax, st.rdi).value
      && Run(OpCode(op), st).value.stack == st.stack
      && Run(OpCode(op), st).value.mem == st.mem
  {
    if IsComparison(op) {
      CmpComputes(op, st);
    } else if op == Div {
      DivComputes(st);
    } else if op == Add {
      Run1(AddRaxRdi, st);
    } else if op == Sub {
      Run1(SubRaxRdi, st);
    } else {
      Run1(ImulRaxRdi, st);
    }
  }

  /** Pops the operands into `rdi` (right) and `rax` (left) and pushes
      `left op right`: the right operand's code ran last, so it is on top. */
  lemma TailComputes(op: BinOp, st: State, base: seq<int>, x: int, y: int)
    requires st.stack == base + [x, y]
    ensures Run(BinaryTail(op), st).Some? <==> Apply(op, x, y).Some?
    ensures Run(BinaryTail(op), st).Some? ==>
      && Run(BinaryTail(op), st).value.stack == base + [Apply(op, x, y).value]
      && Run(BinaryTail(op), st).value.mem == st.mem
      && Run(BinaryTail(op), st).value.rbp == st.rbp
  {
    assert st.stack[..|st.stack| - 1] == base + [x];
    var s1 := st.(rdi := y, stack := base + [x]);
    assert s1.stack[..|s1.stack| - 1] == base;
    var s2 := s1.(rax := x, stack := base);
    Run2(PopRdi, PopRax, st, s1);
    RunConcat([PopRdi, PopRax] + OpCode(op), [PushRax], st);
    RunConcat([PopRdi, PopRax], OpCode(op), st);
    OpComputes(op, s2);
    var r := Run(OpCode(op), s2);
    if r.Some? {
      RunDepth(OpCode(op), s2);
      Run1(PushRax, r.value);
    }
  }

  // ---------------------------------------------------------------- the theorem

  /** The code of a compilable expression computes its value. */
  lemma {:induction false} GenComputes(e: Node, st: State)
    requires Compilable(e)
    ensures Gen(e).Ok?
    ensures Agrees(Run(Gen(e).value, st), st, Eval(e, st.mem, st.rbp))
    decreases e
  {
    match e
    case Num(v) => NumPush(v, st);
    case Lvar(o) => VarComputes(e, st);
    case Assign(l, r) => AssignComputes(e, st);
    case Binary(op, l, r) => BinaryComputes(e, st);
  }

  lemma VarComputes(e: Node, st: State)
    requires e.Lvar?
    ensures Gen(e).Ok?
    ensures Agrees(Run(Gen(e).value, st), st, Eval(e, st.mem, st.rbp))
  {
    var a := GenLval(e).value;
    RunConcat(a, [PopRax, LoadRax, PushRax], st);
    LvalAddress(e, st);
    var s1 := Run(a, st).value;
    LoadComputes(s1, st.stack, Address(st.rbp, e.offset));
  }

  lemma {:induction false} AssignComputes(e: Node, st: State)
    requires e.Assign? && Compilable(e)
    ensures Gen(e).Ok?
    ensures Agrees(Run(Gen(e).value, st), st, Eval(e, st.mem, st.rbp))
    decreases e, 0
  {
    var a := GenLval(e.lhs).value;
    var b := Gen(e.rhs).value;
    var tail := [PopRdi, PopRax, StoreRdi, PushRdi];
    assert Gen(e).value == a + b + tail;
    RunConcat(a + b, tail, st);
    RunConcat(a, b, st);
    LvalAddress(e.lhs, st);
    var addr := Address(st.rbp, e.lhs.offset);
    var s1 := Run(a, st).value;
    GenComputes(e.rhs, s1);
    if Run(b, s1).Some? {
      var s2 := Run(b, s1).value;
      var y := Eval(e.rhs, st.mem, st.rbp).value.val;
      assert s2.stack == st.stack + [addr, y];
      StoreComputes(s2, st.stack, addr, y);
    }
  }

  lemma {:induction false} BinaryComputes(e: Node, st: State)
    requires e.Binary? && Compilable(e)
    ensures Gen(e).Ok?
    ensures Agrees(Run(Gen(e).value, st), st, Eval(e, st.mem, st.rbp))
    decreases e, 0
  {
    var a := Gen(e.lhs).value;
    var b := Gen(e.rhs).value;
    assert Gen(e).value == a + b + BinaryTail(e.op);
    RunConcat(a + b, BinaryTail(e.op), st);
    RunConcat(a, b, st);
    GenComputes(e.lhs, st);
    if Run(a, st).Some? {
      var s1 := Run(a, st).value;
      var x := Eval(e.lhs, st.mem, st.rbp).value;
      GenComputes(e.rhs, s1);
      if Run(b, s1).Some? {
        var s2 := Run(b, s1).value;
        var y := Eval(e.rhs, x.mem, st.rbp).value;
        assert s2.stack == st.stack + [x.val, y.val];
        TailComputes(e.op, s2, st.stack, x.val, y.val);
      }
    }
  }

  /** Corollary: the code of a compilable expression that finishes grows
      the stack by one, as its net effect says. */
  lemma GenPushesOne(e: Node, st: State)
    requires Compilable(e) && Eval(e, st.mem, st.rbp).Some?
    ensures Gen(e).Ok? && Run(Gen(e).value, st).Some?
    ensures |Run(Gen(e).value, st).value.stack| == |st.stack| + NetEffect(Gen(e).value)
  {
    GenComputes(e, st);
  }
}
