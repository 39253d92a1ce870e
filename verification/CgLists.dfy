/** Instruction words as they are in memory: waiting jumps form lists threaded through their own offsets. */
module CgLists {
  import opened CgCode
  import opened CgState
  import opened Wrappers

  /** A jump holds the signed offset from the next instruction (sBx). */
  type Word = Instruction<int>

  const NO_JUMP: int := -1

  function Retarget<J, L>(i: Instruction<J>, dest: L): Instruction<L> {
    match i
    case Move(a, b) => Move(a, b)
    case LoadK(a, bx) => LoadK(a, bx)
    case LoadBool(a, b, c) => LoadBool(a, b, c)
    case LoadNil(a, b) => LoadNil(a, b)
    case Arith(op, a, l, r) => Arith(op, a, l, r)
    case Unary(op, a, b) => Unary(op, a, b)
    case Jmp(_) => Jmp(dest)
    case Cmp(op, c, l, r) => Cmp(op, c, l, r)
    case Test(b, c) => Test(b, c)
    case TestSet(reg, b, c) => TestSet(reg, b, c)
  }

  predicate EncodesAt(code: seq<Word>, model: Code, i: nat)
    requires i < |code| && i < |model|
  {
    if model[i].Jmp? then
      code[i].Jmp? && (model[i].dest.Some? ==> code[i].dest == model[i].dest.value - (i + 1))
    else code[i] == Retarget(model[i], 0)
  }

  /** The words are the instructions of the model; what a waiting jump holds is a matter of its list. */
  ghost predicate Encodes(code: seq<Word>, model: Code) {
    |code| == |model| && forall i: nat | i < |code| :: EncodesAt(code, model, i)
  }

  /** fixjump: the jump at `pc` goes to `dest`. */
  function JumpTo(pc: int, dest: int): Word {
    Jmp(dest - (pc + 1))
  }

  /** getjump: the next jump of the list; an offset that designates the jump itself ends it. */
  function GetJump(code: seq<Word>, pc: nat): int {
    if pc < |code| && code[pc].Jmp? && code[pc].dest != NO_JUMP then pc + 1 + code[pc].dest else NO_JUMP
  }

  /** The jumps reached from `head` are those of `list`, in this order. */
  ghost predicate IsList(code: seq<Word>, head: int, list: seq<nat>)
    decreases |list|
  {
    if list == [] then head == NO_JUMP
    else head == list[0] && list[0] < |code| && code[list[0]].Jmp? && IsList(code, GetJump(code, list[0]), list[1..])
  }

  /** A head determines its list, so no list runs in a circle. */
  lemma {:induction false} ListUnique(code: seq<Word>, head: int, a: seq<nat>, b: seq<nat>)
    requires IsList(code, head, a) && IsList(code, head, b)
    ensures a == b
    decreases |a|
  {
    if a != [] {
      ListUnique(code, GetJump(code, a[0]), a[1..], b[1..]);
      assert a == [a[0]] + a[1..] && b == [b[0]] + b[1..];
    }
  }

  lemma {:induction false} ListFrom(code: seq<Word>, head: int, list: seq<nat>, i: nat)
    requires IsList(code, head, list) && i < |list|
    ensures IsList(code, list[i], list[i..])
    decreases i
  {
    if i > 0 {
      ListFrom(code, GetJump(code, list[0]), list[1..], i - 1);
      assert list[1..][i-1..] == list[i..];
    }
  }

  lemma ListDistinct(code: seq<Word>, head: int, list: seq<nat>, i: nat, j: nat)
    requires IsList(code, head, list) && i < j < |list|
    ensures list[i] != list[j]
  {
    if list[i] == list[j] {
      ListFrom(code, head, list, i);
      ListFrom(code, head, list, j);
      ListUnique(code, list[i], list[i..], list[j..]);
    }
  }

  lemma {:induction false} ListKept(code: seq<Word>, code': seq<Word>, head: int, list: seq<nat>)
    requires IsList(code, head, list) && forall j | j in list && j < |code| :: j < |code'| && code'[j] == code[j]
    ensures IsList(code', head, list)
    decreases |list|
  {
    if list != [] {
      assert forall j | j in list[1..] :: j in list;
      ListKept(code, code', GetJump(code, list[0]), list[1..]);
    }
  }

  lemma {:induction false} ListInCode(code: seq<Word>, head: int, list: seq<nat>)
    requires IsList(code, head, list)
    ensures forall j | j in list :: j < |code| && code[j].Jmp?
    decreases |list|
  {
    if list != [] {
      ListInCode(code, GetJump(code, list[0]), list[1..]);
      assert list == [list[0]] + list[1..];
    }
  }

  /** Linking the end of one list to the head of another gives the joined list. */
  lemma {:induction false} ListJoined(code: seq<Word>, code': seq<Word>, head: int, a: seq<nat>, b: seq<nat>, l2: int)
    requires IsList(code, head, a) && a != [] && IsList(code, l2, b) && b != []
    requires forall j | j in a :: j !in b
    requires a[|a|-1] < |code| && code' == code[a[|a|-1] := JumpTo(a[|a|-1], b[0])]
    ensures IsList(code', head, a + b)
    decreases |a|
  {
    var last := a[|a|-1];
    if |a| == 1 {
      ListInCode(code, l2, b);
      ListKept(code, code', l2, b);
      assert a + b == [a[0]] + b && (a + b)[1..] == b;
      assert last != b[0] by { assert b[0] in b; }
    } else {
      ListDistinct(code, head, a, 0, |a| - 1);
      assert a[1..][|a|-2] == last;
      ListJoined(code, code', GetJump(code, a[0]), a[1..], b, l2);
      assert (a + b)[1..] == a[1..] + b;
    }
  }

  lemma EncodesSet(code: seq<Word>, model: Code, i: nat, w: Word, x: Instr)
    requires Encodes(code, model) && i < |code|
    requires EncodesAt(code[i := w], model[i := x], i)
    ensures Encodes(code[i := w], model[i := x])
  {
    var code' := code[i := w];
    var model' := model[i := x];
    forall j: nat | j < |code| ensures EncodesAt(code', model', j) {
      assert EncodesAt(code, model, j);
    }
  }

  lemma EncodesAppend(code: seq<Word>, model: Code, w: Word, x: Instr)
    requires Encodes(code, model) && !x.Jmp? && w == Retarget(x, 0)
    ensures Encodes(code + [w], model + [x])
  {
    var code' := code + [w];
    var model' := model + [x];
    forall j: nat | j < |code'| ensures EncodesAt(code', model', j) {
      if j < |code| { assert EncodesAt(code, model, j); }
    }
  }

  // ---------------------------------------------------------------- one step of patchlistaux

  /** The position of the instruction that controls a jump (getjumpcontrol). */
  function Control(code: Code, j: nat): nat
    requires j < |code|
  {
    if j >= 1 && IsTest(code[j-1]) then j - 1 else j
  }

  /** patchtestreg and fixjump for one jump. */
  function PatchStep(code: Code, j: nat, reg: Option<nat>, vtarget: nat, dtarget: Option<nat>): Code
    requires j < |code|
  {
    var c := Control(code, j);
    if code[c].TestSet? then code[c := SettleTest(code[c], reg)][j := Jmp(Some(vtarget))]
    else code[j := Jmp(dtarget)]
  }

  /** Settling a list one jump after the other settles exactly its members. */
  lemma PatchOneMore(code: Code, done: seq<nat>, j: nat, reg: Option<nat>, vtarget: nat, dtarget: Option<nat>)
    requires CodeOk(code) && Waiting(code, done + [j]) && j !in done && j < |code|
    ensures Patch(code, done + [j], reg, vtarget, dtarget) == PatchStep(Patch(code, done, reg, vtarget, dtarget), j, reg, vtarget, dtarget)
  {
    hide CodeOk, InstrOk;
    var before := Patch(code, done, reg, vtarget, dtarget);
    var all := done + [j];
    assert j in all && forall x :: x in all <==> x in done || x == j;
    PatchKeepsTests(code, done, reg, vtarget, dtarget, j);
    if j >= 1 {
      PatchKeepsTests(code, done, reg, vtarget, dtarget, j - 1);
      assert code[j-1].TestSet? ==> j - 1 !in all;
    }
    var after := PatchStep(before, j, reg, vtarget, dtarget);
    forall i: nat | i < |code| ensures Patch(code, all, reg, vtarget, dtarget)[i] == after[i] {
      PatchOneAt(code, done, j, reg, vtarget, dtarget, i);
    }
  }

  lemma PatchOneAt(code: Code, done: seq<nat>, j: nat, reg: Option<nat>, vtarget: nat, dtarget: Option<nat>, i: nat)
    requires CodeOk(code) && Waiting(code, done + [j]) && j !in done && i < |code| && j < |code|
    ensures PatchedAt(code, done + [j], reg, vtarget, dtarget, i) ==
              PatchStep(Patch(code, done, reg, vtarget, dtarget), j, reg, vtarget, dtarget)[i]
  {
    hide CodeOk, InstrOk;
    var before := Patch(code, done, reg, vtarget, dtarget);
    var all := done + [j];
    assert forall x :: x in all <==> x in done || x == j;
    assert code[j] == Jmp(None) && before[j] == (if j + 1 in done then SettleTest(code[j], reg) else code[j]);
    if j >= 1 {
      assert before[j-1] == PatchedAt(code, done, reg, vtarget, dtarget, j - 1);
      if j - 1 in done { assert code[j-1] == Jmp(None); }
    }
    assert before[i] == PatchedAt(code, done, reg, vtarget, dtarget, i);
  }

  /** removevalues, one jump after the other. */
  lemma RemoveOneMore(code: Code, done: seq<nat>, j: nat)
    requires Waiting(code, done + [j]) && j < |code|
    ensures var before := RemoveValues(code, done);
            RemoveValues(code, done + [j]) ==
              (if Carries(before, j) then before[j-1 := SettleTest(before[j-1], None)] else before)
  {
    var all := done + [j];
    assert forall x :: x in all <==> x in done || x == j;
    var before := RemoveValues(code, done);
    if j >= 1 {
      assert before[j-1] == if j in done then SettleTest(code[j-1], None) else code[j-1];
    }
    var after := if Carries(before, j) then before[j-1 := SettleTest(before[j-1], None)] else before;
    forall i: nat | i < |code| ensures RemoveValues(code, all)[i] == after[i] {
    }
  }

  /** One step along a list. */
  lemma NextInList(code: seq<Word>, list: seq<nat>, i: nat)
    requires i < |list| && IsList(code, list[i], list[i..])
    ensures list[i] < |code| && code[list[i]].Jmp?
    ensures if GetJump(code, list[i]) == NO_JUMP then i + 1 == |list|
            else i + 1 < |list| && GetJump(code, list[i]) == list[i+1] && IsList(code, list[i+1], list[i+1..])
    ensures IsList(code, GetJump(code, list[i]), list[i+1..])
  {
    assert list[i..][1..] == list[i+1..];
  }

  lemma EncodesTest(code: seq<Word>, model: Code, i: nat)
    requires Encodes(code, model) && i < |code|
    ensures IsTest(code[i]) == IsTest(model[i]) && code[i].TestSet? == model[i].TestSet? && code[i].Jmp? == model[i].Jmp?
    ensures !code[i].Jmp? ==> code[i] == Retarget(model[i], 0)
  {
    assert EncodesAt(code, model, i);
  }
}
