/** The x86-64 instructions the expression code generator emits, and an
    abstract machine that runs them.

    Registers and memory cells hold unbounded integers.  The machine stack
    is a sequence whose last element is the top; it is kept apart from
    the frame memory, which maps every address to a value.  `cmp` records
    its two operands, and the `set` instructions read them back.
 */
module Asm {
  import opened Outcomes

  type Memory = int -> int

  /** `m` with `v` stored at address `a`. */
  function Write(m: Memory, a: int, v: int): (r: Memory)
    ensures r(a) == v
    ensures forall x :: x != a ==> r(x) == m(x)
  {
    x => if x == a then v else m(x)
  }

  /** The condition codes of `sete`, `setne`, `setl` and `setle`. */
  datatype CondCode = E | NE | L | LE

  datatype Instr =
    | PushImm(imm: int)     // push imm
    | PushRax               // push rax
    | PushRdi               // push rdi
    | PopRax                // pop rax
    | PopRdi                // pop rdi
    | LoadRax               // mov rax, [rax]
    | StoreRdi              // mov [rax], rdi
    | MovRaxRbp             // mov rax, rbp
    | SubRaxImm(imm: int)   // sub rax, imm
    | AddRaxRdi             // add rax, rdi
    | SubRaxRdi             // sub rax, rdi
    | ImulRaxRdi            // imul rax, rdi
    | Cqo                   // cqo
    | IdivRdi               // idiv rdi
    | CmpRaxRdi             // cmp rax, rdi
    | Set(cc: CondCode)     // sete al, setne al, setl al, setle al
    | MovzbRaxAl            // movzb rax, al

  /** The operands of the last `cmp`. */
  datatype Flags = Flags(lhs: int, rhs: int)

  datatype State = State(rax: int, rdi: int, rdx: int, rbp: int, flags: Flags, stack: seq<int>, mem: Memory)

  /** Whether condition `cc` holds after comparing `a` with `b`. */
  predicate Holds(cc: CondCode, a: int, b: int) {
    match cc
    case E => a == b
    case NE => a != b
    case L => a < b
    case LE => a <= b
  }

  /** The quotient of `idiv` (and of C's `/`): rounded toward zero. */
  function Quot(a: int, b: int): int
    requires b != 0
  {
    var q := Abs(a) / Abs(b);
    if (a < 0) == (b < 0) then q else -q
  }

  /** The remainder `idiv` leaves in `rdx`. */
  function Rem(a: int, b: int): int
    requires b != 0
  {
    a - b * Quot(a, b)
  }

  function Abs(a: int): nat {
    if a < 0 then -a else a
  }

  /** Truncating division: the remainder is smaller than the divisor and
      takes the dividend's sign, and the quotient is rounded toward zero. */
  lemma QuotRem(a: int, b: int)
    requires b != 0
    ensures a == b * Quot(a, b) + Rem(a, b)
    ensures Abs(Rem(a, b)) < Abs(b)
    ensures Rem(a, b) == 0 || (Rem(a, b) < 0 <==> a < 0)
    ensures Abs(Quot(a, b)) * Abs(b) <= Abs(a)
  {
    var q := Abs(a) / Abs(b);
    var r := Abs(a) % Abs(b);
    assert Abs(a) == q * Abs(b) + r && 0 <= r < Abs(b);
    assert Abs(Quot(a, b)) == q;
    if (a < 0) == (b < 0) {
      assert b * Quot(a, b) == b * q;
      if a < 0 {
        assert b * q == -(Abs(b) * q);
        assert Rem(a, b) == -r;
      } else {
        assert b * q == Abs(b) * q;
        assert Rem(a, b) == r;
      }
    } else {
      assert b * Quot(a, b) == -(b * q);
      if a < 0 {
        assert b * q == Abs(b) * q;
        assert Rem(a, b) == -r;
      } else {
        assert b * q == -(Abs(b) * q);
        assert Rem(a, b) == r;
      }
    }
  }

  /** What `cqo` writes to `rdx`: the sign extension of `rax`. */
  function SignOf(a: int): int {
    if a < 0 then -1 else 0
  }

  /** The least significant byte of `a`, as `al` holds it. */
  function LowByte(a: int): int {
    a % 256
  }

  function Push(st: State, v: int): State {
    st.(stack := st.stack + [v])
  }

  /** One instruction; `None` when it pops an empty stack or `idiv` traps. */
  function Step(i: Instr, st: State): (r: Option<State>)
    ensures r.Some? ==> r.value.rbp == st.rbp
    ensures r.Some? && !(i.StoreRdi?) ==> r.value.mem == st.mem
  {
    match i
    case PushImm(v) => Some(Push(st, v))
    case PushRax => Some(Push(st, st.rax))
    case PushRdi => Some(Push(st, st.rdi))
    case PopRax =>
      if |st.stack| == 0 then None
      else Some(st.(rax := st.stack[|st.stack| - 1], stack := st.stack[..|st.stack| - 1]))
    case PopRdi =>
      if |st.stack| == 0 then None
      else Some(st.(rdi := st.stack[|st.stack| - 1], stack := st.stack[..|st.stack| - 1]))
    case LoadRax => Some(st.(rax := st.mem(st.rax)))
    case StoreRdi => Some(st.(mem := Write(st.mem, st.rax, st.rdi)))
    case MovRaxRbp => Some(st.(rax := st.rbp))
    case SubRaxImm(k) => Some(st.(rax := st.rax - k))
    case AddRaxRdi => Some(st.(rax := st.rax + st.rdi))
    case SubRaxRdi => Some(st.(rax := st.rax - st.rdi))
    case ImulRaxRdi => Some(st.(rax := st.rax * st.rdi))
    case Cqo => Some(st.(rdx := SignOf(st.rax)))
    case IdivRdi =>
      // A zero divisor traps; a dividend `rdx:rax` wider than `rax` is
      // outside this model, which only runs `idiv` right after `cqo`.
      if st.rdi == 0 || st.rdx != SignOf(st.rax) then None
      else Some(st.(rax := Quot(st.rax, st.rdi), rdx := Rem(st.rax, st.rdi)))
    case CmpRaxRdi => Some(st.(flags := Flags(st.rax, st.rdi)))
    case Set(cc) =>
      var bit := if Holds(cc, st.flags.lhs, st.flags.rhs) then 1 else 0;
      Some(st.(rax := st.rax - LowByte(st.rax) + bit))
    case MovzbRaxAl => Some(st.(rax := LowByte(st.rax)))
  }

  /** Runs `code` from `st`; `None` once an instruction fails. */
  function Run(code: seq<Instr>, st: State): Option<State>
    decreases |code|
  {
    if |code| == 0 then Some(st)
    else match Step(code[0], st)
      case None => None
      case Some(next) => Run(code[1..], next)
  }

  /** The change a single instruction makes to the stack depth. */
  function Effect(i: Instr): int {
    if i.PushImm? || i.PushRax? || i.PushRdi? then 1
    else if i.PopRax? || i.PopRdi? then -1
    else 0
  }

  /** The change `code` makes to the stack depth, counted statically. */
  function NetEffect(code: seq<Instr>): int
    decreases |code|
  {
    if |code| == 0 then 0 else Effect(code[0]) + NetEffect(code[1..])
  }

  lemma {:induction false} NetEffectConcat(a: seq<Instr>, b: seq<Instr>)
    ensures NetEffect(a + b) == NetEffect(a) + NetEffect(b)
    decreases |a|
  {
    if |a| == 0 {
      assert a + b == b;
    } else {
      assert (a + b)[0] == a[0];
      assert (a + b)[1..] == a[1..] + b;
      NetEffectConcat(a[1..], b);
    }
  }

  /** The net effect of short literal instruction lists. */
  lemma NetEffect2(a: Instr, b: Instr)
    ensures NetEffect([a, b]) == Effect(a) + Effect(b)
  {
    assert [b][1..] == [];
    assert NetEffect([b]) == Effect(b);
    assert [a, b][1..] == [b];
  }

  lemma NetEffect3(a: Instr, b: Instr, c: Instr)
    ensures NetEffect([a, b, c]) == Effect(a) + Effect(b) + Effect(c)
  {
    assert [a, b, c][1..] == [b, c];
    NetEffect2(b, c);
  }

  lemma NetEffect4(a: Instr, b: Instr, c: Instr, d: Instr)
    ensures NetEffect([a, b, c, d]) == Effect(a) + Effect(b) + Effect(c) + Effect(d)
  {
    assert [a, b, c, d][1..] == [b, c, d];
    NetEffect3(b, c, d);
  }

  /** Runs of short literal instruction lists, one step at a time. */
  lemma Run1(a: Instr, st: State)
    ensures Run([a], st) == Step(a, st)
  {
    assert [a][1..] == [];
  }

  lemma Run2(a: Instr, b: Instr, st: State, s1: State)
    requires Step(a, st) == Some(s1)
    ensures Run([a, b], st) == Step(b, s1)
  {
    assert [a, b][1..] == [b];
    Run1(b, s1);
  }

  lemma Run3(a: Instr, b: Instr, c: Instr, st: State, s1: State, s2: State)
    requires Step(a, st) == Some(s1) && Step(b, s1) == Some(s2)
    ensures Run([a, b, c], st) == Step(c, s2)
  {
    assert [a, b, c][1..] == [b, c];
    Run2(b, c, s1, s2);
  }

  lemma Run4(a: Instr, b: Instr, c: Instr, d: Instr, st: State, s1: State, s2: State, s3: State)
    requires Step(a, st) == Some(s1) && Step(b, s1) == Some(s2) && Step(c, s2) == Some(s3)
    ensures Run([a, b, c, d], st) == Step(d, s3)
  {
    assert [a, b, c, d][1..] == [b, c, d];
    Run3(b, c, d, s1, s2, s3);
  }

  /** Running `a + b` runs `a`, then `b` from where `a` stopped. */
  lemma {:induction false} RunConcat(a: seq<Instr>, b: seq<Instr>, st: State)
    ensures Run(a + b, st) == (if Run(a, st).None? then None else Run(b, Run(a, st).value))
    decreases |a|
  {
    if |a| == 0 {
      assert a + b == b;
    } else {
      assert (a + b)[0] == a[0];
      assert (a + b)[1..] == a[1..] + b;
      match Step(a[0], st)
      case None =>
      case Some(next) => RunConcat(a[1..], b, next);
    }
  }

  /** The static count agrees with the machine: a run that finishes
      changes the stack depth by exactly the net effect of its code. */
  lemma {:induction false} RunDepth(code: seq<Instr>, st: State)
    requires Run(code, st).Some?
    ensures |Run(code, st).value.stack| == |st.stack| + NetEffect(code)
    ensures Run(code, st).value.rbp == st.rbp
    decreases |code|
  {
    if |code| > 0 {
      RunDepth(code[1..], Step(code[0], st).value);
    }
  }
}
