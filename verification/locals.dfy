/** Local variables and their stack-frame offsets.

    The original keeps a global linked list whose head is the most recently
    created variable; each new variable sits 8 bytes further from the frame
    base than the head before it.  Here the list is a sequence with the
    head at index 0.
 */
module LocalVars {
  import opened Outcomes

  datatype LocalVar = LocalVar(name: string, offset: int)

  type Vars = seq<LocalVar>

  function Names(vars: Vars): set<string> {
    set v | v in vars :: v.name
  }

  /** `o` is the offset of one of the first `n` 8-byte slots below the frame base. */
  predicate IsSlot(o: int, n: nat) {
    8 <= o <= 8 * n && o % 8 == 0
  }

  /** The list a parse builds: each variable's name is new when it is
      pushed, and its offset is 8 more than the head's before it, so
      offsets run 8, 16, 24, ... from the oldest variable to the newest. */
  predicate ValidLocals(vars: Vars)
    decreases |vars|
  {
    |vars| == 0 ||
      (vars[0].offset == 8 * |vars| && vars[0].name !in Names(vars[1..]) && ValidLocals(vars[1..]))
  }

  /** In a valid list the variable at index `i` sits in slot `|vars| - i`. */
  lemma {:induction false} OffsetAt(vars: Vars, i: nat)
    requires ValidLocals(vars) && i < |vars|
    ensures vars[i].offset == 8 * (|vars| - i)
    decreases i
  {
    if i > 0 {
      OffsetAt(vars[1..], i - 1);
    }
  }

  /** In a valid list no two variables share a name. */
  lemma {:induction false} NamesDistinct(vars: Vars, i: nat, j: nat)
    requires ValidLocals(vars) && i < j < |vars|
    ensures vars[i].name != vars[j].name
    decreases i
  {
    if i == 0 {
      assert vars[j] == vars[1..][j - 1];
    } else {
      NamesDistinct(vars[1..], i - 1, j - 1);
    }
  }

  /** Every variable of a valid list has a slot in its frame. */
  lemma SlotOf(vars: Vars, v: LocalVar)
    requires ValidLocals(vars) && v in vars
    ensures IsSlot(v.offset, |vars|)
  {
    var i :| 0 <= i < |vars| && vars[i] == v;
    OffsetAt(vars, i);
  }

  /** The variable in slot `o` of the frame. */
  function VarAt(vars: Vars, o: int): LocalVar
    requires IsSlot(o, |vars|)
  {
    vars[|vars| - o / 8]
  }

  /** In a valid list, looking up the name of the variable in slot `o`
      finds that variable, at offset `o`, and declares nothing. */
  lemma SlotLookup(vars: Vars, o: int)
    requires ValidLocals(vars) && IsSlot(o, |vars|)
    ensures VarAt(vars, o).offset == o
    ensures FindOrCreateLocalVar(vars, VarAt(vars, o).name) == (VarAt(vars, o), vars)
  {
    var i := |vars| - o / 8;
    var name := vars[i].name;
    OffsetAt(vars, i);
    if name in Names(vars[..i]) {
      var v :| v in vars[..i] && v.name == name;
      var j :| 0 <= j < i && vars[..i][j] == v;
      NamesDistinct(vars, j, i);
      assert false;
    }
  }

  /** The frame size the variables need: the head's offset, 0 when empty. */
  function GetLocalVarsOffset(vars: Vars): (n: int)
    ensures ValidLocals(vars) ==> n == 8 * |vars|
  {
    if |vars| == 0 then 0 else vars[0].offset
  }

  /** Pushes a new variable at the next 8-byte slot. */
  function NewLocalVar(vars: Vars, name: string): (r: (LocalVar, Vars))
    ensures r.1 == [r.0] + vars && r.0.name == name
    ensures r.0.offset == GetLocalVarsOffset(vars) + 8
    ensures ValidLocals(vars) && name !in Names(vars) ==> ValidLocals(r.1)
  {
    var prevOffset := if |vars| == 0 then 0 else vars[0].offset;
    var lv := LocalVar(name, prevOffset + 8);
    (lv, [lv] + vars)
  }

  /** The most recently created variable called `name`, if any. */
  function FindLocalVar(vars: Vars, name: string): (r: Option<LocalVar>)
    ensures r.None? <==> name !in Names(vars)
    ensures r.Some? ==> r.value in vars && r.value.name == name
    ensures forall i :: 0 <= i < |vars| && vars[i].name == name && name !in Names(vars[..i]) ==>
      r == Some(vars[i])
  {
    if |vars| == 0 then None
    else if vars[0].name == name then Some(vars[0])
    else
      var r := FindLocalVar(vars[1..], name);
      assert forall i :: 1 <= i < |vars| ==> vars[1..][..i - 1] == vars[1..i];
      assert forall i :: 1 <= i < |vars| ==> Names(vars[..i]) == {vars[0].name} + Names(vars[1..i]);
      r
  }

  /** The variable called `name`, created at the next slot if it is new. */
  function FindOrCreateLocalVar(vars: Vars, name: string): (r: (LocalVar, Vars))
    ensures r.0.name == name
    ensures name in Names(vars) ==> r.1 == vars && r.0 in vars
    ensures name !in Names(vars) ==> r.1 == [r.0] + vars && r.0.offset == GetLocalVarsOffset(vars) + 8
    ensures |vars| <= |r.1| <= |vars| + 1
    ensures ValidLocals(vars) ==> ValidLocals(r.1) && IsSlot(r.0.offset, |r.1|)
  {
    match FindLocalVar(vars, name)
    case Some(lv) =>
      if ValidLocals(vars) then SlotOf(vars, lv); (lv, vars) else (lv, vars)
    case None =>
      NewLocalVar(vars, name)
  }

  /** Looking a name up a second time finds the variable the first call
      returned, and does not grow the list. */
  lemma FindOrCreateIdempotent(vars: Vars, name: string)
    ensures var (lv, vars') := FindOrCreateLocalVar(vars, name);
      FindOrCreateLocalVar(vars', name) == (lv, vars')
  {
    var (lv, vars') := FindOrCreateLocalVar(vars, name);
    if name !in Names(vars) {
      assert vars'[0] == lv && name !in Names(vars'[..0]);
    }
  }

  /** A valid list has as many distinct names as variables. */
  lemma {:induction false} NamesCount(vars: Vars)
    requires ValidLocals(vars)
    ensures |Names(vars)| == |vars|
    decreases |vars|
  {
    if |vars| > 0 {
      var tail := vars[1..];
      NamesCount(tail);
      assert Names(vars) == {vars[0].name} + Names(tail);
    }
  }

  /** The variables created by looking up each of `names` in turn. */
  function Declare(vars: Vars, names: seq<string>): (r: Vars)
    ensures ValidLocals(vars) ==> ValidLocals(r)
    decreases names
  {
    if |names| == 0 then vars else Declare(FindOrCreateLocalVar(vars, names[0]).1, names[1..])
  }

  function NameSet(names: seq<string>): set<string> {
    set n | n in names
  }

  lemma {:induction false} DeclareNames(vars: Vars, names: seq<string>)
    requires ValidLocals(vars)
    ensures Names(Declare(vars, names)) == Names(vars) + NameSet(names)
    decreases names
  {
    if |names| > 0 {
      var vars' := FindOrCreateLocalVar(vars, names[0]).1;
      assert Names(vars') == Names(vars) + {names[0]};
      DeclareNames(vars', names[1..]);
      assert NameSet(names) == {names[0]} + NameSet(names[1..]);
    }
  }

  /** The frame holds one 8-byte slot per distinct name: those already
      declared and those looked up. */
  lemma FrameSizeCountsNames(vars: Vars, names: seq<string>)
    requires ValidLocals(vars)
    ensures GetLocalVarsOffset(Declare(vars, names)) == 8 * |Names(vars) + NameSet(names)|
  {
    DeclareNames(vars, names);
    NamesCount(Declare(vars, names));
  }
}
