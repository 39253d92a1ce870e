/** The instructions the expression compiler emits, and what the interpreter loop of lvm.c does with them. */
module CgCode {
  import opened Wrappers

  datatype Value = Nil | Bool(b: bool) | Num(n: int) | Other(id: int)

  /** l_isfalse, negated. */
  predicate Truthy(v: Value) {
    v != Nil && v != Bool(false)
  }

  datatype ArithOp = Add | Sub | Mul | Div | Mod | Pow
  datatype UnaryOp = Unm | Not | Len
  datatype CmpOp = Eq | Lt | Le

  /** Arithmetic, length and comparison on arbitrary values, metamethods included. */
  datatype Ops = Ops(
    arith: (ArithOp, Value, Value) -> Value,
    unm: Value -> Value,
    len: Value -> Value,
    cmp: (CmpOp, Value, Value) -> bool)

  /** The operand of an instruction that takes a register or a constant. */
  datatype RK = R(reg: nat) | K(index: nat)

  const BITRK: nat := 256
  const MAXINDEXRK: nat := BITRK - 1

  /** The operand as the number that is stored in the instruction (RKASK). */
  function Operand(o: RK): nat {
    match o
    case R(r) => r
    case K(i) => BITRK + i
  }

  /**
   * An instruction; `J` says how a jump names its target. The register of a TestSet that has not
   * been given one (NO_REG) is None.
   */
  datatype Instruction<+J> =
    | Move(a: nat, b: nat)
    | LoadK(a: nat, bx: nat)
    | LoadBool(a: nat, flag: bool, skip: bool)
    | LoadNil(a: nat, b: nat)
    | Arith(op: ArithOp, a: nat, l: RK, r: RK)
    | Unary(uop: UnaryOp, a: nat, b: nat)
    | Jmp(dest: J)
    | Cmp(cop: CmpOp, cond: bool, l: RK, r: RK)
    | Test(b: nat, c: bool)
    | TestSet(reg: Option<nat>, b: nat, c: bool)

  /** A jump either has its target or waits on a list to be given one. */
  type Instr = Instruction<Option<nat>>
  type Code = seq<Instr>

  type Regs = map<nat, Value>

  /** A register that was never written holds nil: luaD_precall clears the frame. */
  function Get(r: Regs, i: nat): Value {
    if i in r then r[i] else Nil
  }

  ghost predicate SameBelow(r: Regs, s: Regs, n: nat) {
    forall i: nat | i < n :: Get(r, i) == Get(s, i)
  }

  /** testTMode: the next instruction is a jump that belongs to the test. */
  predicate IsTest<J>(i: Instruction<J>) {
    i.Cmp? || i.Test? || i.TestSet?
  }

  predicate Plain<J>(i: Instruction<J>) {
    !IsTest(i) && !i.Jmp?
  }

  function KAt(k: seq<Value>, i: nat): Value {
    if i < |k| then k[i] else Nil
  }

  function RKValue(o: RK, k: seq<Value>, r: Regs): Value {
    match o
    case R(i) => Get(r, i)
    case K(i) => KAt(k, i)
  }

  function UnaryValue(m: Ops, op: UnaryOp, v: Value): Value {
    match op
    case Unm => m.unm(v)
    case Not => Bool(!Truthy(v))
    case Len => m.len(v)
  }

  /** The registers after an instruction that is neither a test nor a jump. */
  function Effect<J>(m: Ops, i: Instruction<J>, k: seq<Value>, r: Regs): Regs {
    match i
    case Move(a, b) => r[a := Get(r, b)]
    case LoadK(a, bx) => r[a := KAt(k, bx)]
    case LoadBool(a, b, _) => r[a := Bool(b)]
    case LoadNil(a, b) => map j | j in r && !(a <= j <= b) :: r[j]
    case Arith(op, a, x, y) => r[a := m.arith(op, RKValue(x, k, r), RKValue(y, k, r))]
    case Unary(op, a, b) => r[a := UnaryValue(m, op, Get(r, b))]
    case _ => r
  }

  function Width<J>(i: Instruction<J>): nat {
    if i.LoadBool? && i.skip then 2 else 1
  }

  /** Whether a test lets its jump happen. */
  predicate Taken<J>(m: Ops, i: Instruction<J>, k: seq<Value>, r: Regs) {
    match i
    case Cmp(op, cond, x, y) => m.cmp(op, RKValue(x, k, r), RKValue(y, k, r)) == cond
    case Test(b, c) => Truthy(Get(r, b)) == c
    case TestSet(_, b, c) => Truthy(Get(r, b)) == c
    case _ => true
  }

  /** The copy a TestSet makes when its jump is taken. */
  function Copied<J>(i: Instruction<J>, r: Regs): Regs {
    if i.TestSet? && i.reg.Some? then r[i.reg.value := Get(r, i.b)] else r
  }

  /** Control reaches the end of the code, or a jump that still has no target. */
  datatype Outcome = Here(regs: Regs) | At(pc: nat, regs: Regs)

  function Target(code: Code, j: nat): Option<nat> {
    if j < |code| && code[j].Jmp? && code[j].dest.Some? && j < code[j].dest.value then code[j].dest else None
  }

  /** luaV_execute on a piece of code whose jumps all go forward. */
  function Run(m: Ops, code: Code, k: seq<Value>, pc: nat, r: Regs): Outcome
    decreases |code| - pc
  {
    if pc >= |code| then Here(r)
    else
      var i := code[pc];
      if i.Jmp? then
        (match Target(code, pc) case None => At(pc, r) case Some(t) => Run(m, code, k, t, r))
      else if IsTest(i) then
        if Taken(m, i, k, r) then
          (match Target(code, pc + 1) case None => At(pc + 1, Copied(i, r)) case Some(t) => Run(m, code, k, t, Copied(i, r)))
        else Run(m, code, k, pc + 2, r)
      else Run(m, code, k, pc + Width(i), Effect(m, i, k, r))
  }

  // ---------------------------------------------------------------- well-formed code

  /** The instruction before position `t` is a test, so `t` is reached through it only. */
  predicate Controlled(code: Code, t: nat) {
    0 < t <= |code| && IsTest(code[t-1])
  }

  predicate InstrOk(code: Code, i: nat)
    requires i < |code|
  {
    && (code[i].Jmp? && code[i].dest.Some? ==>
          i < code[i].dest.value <= |code| && !Controlled(code, code[i].dest.value))
    && (IsTest(code[i]) ==> i + 1 < |code| && code[i+1].Jmp?)
    && (code[i].LoadBool? && code[i].skip ==> i + 2 <= |code| && !Controlled(code, i + 2))
    && (code[i].TestSet? && i + 1 < |code| && code[i+1].Jmp? && code[i+1].dest.None? ==> code[i].reg.None?)
  }

  ghost predicate CodeOk(code: Code) {
    forall i: nat | i < |code| :: InstrOk(code, i)
  }

  predicate RKOk(o: RK, n: nat) {
    o.K? ==> o.index < n
  }

  predicate UsesK(i: Instr, n: nat) {
    match i
    case LoadK(_, bx) => bx < n
    case Arith(_, _, x, y) => RKOk(x, n) && RKOk(y, n)
    case Cmp(_, _, x, y) => RKOk(x, n) && RKOk(y, n)
    case _ => true
  }

  /** Every constant the code names is in the table. */
  ghost predicate KOk(code: Code, n: nat) {
    forall i: nat | i < |code| :: UsesK(code[i], n)
  }

  lemma EffectMoreK(m: Ops, i: Instr, k: seq<Value>, k': seq<Value>, r: Regs)
    requires UsesK(i, |k|) && k <= k'
    ensures Effect(m, i, k', r) == Effect(m, i, k, r) && Taken(m, i, k', r) == Taken(m, i, k, r)
  {
  }

  /** Constants added at the end of the table change nothing for code that is already there. */
  lemma {:induction false} RunMoreK(m: Ops, code: Code, k: seq<Value>, k': seq<Value>, pc: nat, r: Regs)
    requires KOk(code, |k|) && k <= k'
    ensures Run(m, code, k', pc, r) == Run(m, code, k, pc, r)
    decreases |code| - pc
  {
    hide Effect, Taken, Copied, KOk;
    if pc < |code| {
      var i := code[pc];
      assert UsesK(i, |k|) by { KOkAt(code, |k|, pc); }
      EffectMoreK(m, i, k, k', r);
      if i.Jmp? {
        if Target(code, pc).Some? { RunMoreK(m, code, k, k', Target(code, pc).value, r); }
      } else if IsTest(i) {
        if !Taken(m, i, k, r) {
          RunMoreK(m, code, k, k', pc + 2, r);
        } else if Target(code, pc + 1).Some? {
          RunMoreK(m, code, k, k', Target(code, pc + 1).value, Copied(i, r));
        }
      } else {
        RunMoreK(m, code, k, k', pc + Width(i), Effect(m, i, k, r));
      }
    }
  }

  lemma KOkAt(code: Code, n: nat, i: nat)
    requires KOk(code, n) && i < |code|
    ensures UsesK(code[i], n)
  {
  }

  // ---------------------------------------------------------------- code that grows at its end

  /** Where control goes when more code follows. */
  function Continue(m: Ops, code: Code, k: seq<Value>, start: nat, o: Outcome): Outcome {
    match o
    case Here(r) => Run(m, code, k, start, r)
    case At(_, _) => o
  }

  lemma NextOk(code: Code, pc: nat)
    requires CodeOk(code) && pc < |code|
    ensures InstrOk(code, pc)
    ensures Plain(code[pc]) ==> pc + Width(code[pc]) <= |code| && !Controlled(code, pc + Width(code[pc]))
    ensures IsTest(code[pc]) ==> pc + 2 <= |code| && code[pc+1].Jmp? && !Controlled(code, pc + 2) && InstrOk(code, pc + 1)
    ensures Target(code, pc).Some? ==> pc < Target(code, pc).value <= |code| && !Controlled(code, Target(code, pc).value)
    ensures IsTest(code[pc]) && Target(code, pc+1).Some? ==>
              pc < Target(code, pc+1).value <= |code| && !Controlled(code, Target(code, pc+1).value)
  {
    assert InstrOk(code, pc);
    if IsTest(code[pc]) {
      assert InstrOk(code, pc + 1);
    }
  }

  lemma {:induction false} RunAppend(m: Ops, code: Code, more: Code, k: seq<Value>, pc: nat, r: Regs)
    requires CodeOk(code) && pc <= |code|
    ensures Run(m, code + more, k, pc, r) == Continue(m, code + more, k, |code|, Run(m, code, k, pc, r))
    decreases |code| - pc
  {
    hide Effect, Taken, Copied, CodeOk, InstrOk, Controlled;
    if pc < |code| {
      var i := code[pc];
      var whole := code + more;
      NextOk(code, pc);
      assert whole[pc] == i && Target(whole, pc) == Target(code, pc);
      if i.Jmp? {
        if Target(code, pc).Some? { RunAppend(m, code, more, k, Target(code, pc).value, r); }
      } else if IsTest(i) {
        assert whole[pc+1] == code[pc+1] && Target(whole, pc+1) == Target(code, pc+1);
        if !Taken(m, i, k, r) {
          RunAppend(m, code, more, k, pc + 2, r);
        } else if Target(code, pc + 1).Some? {
          RunAppend(m, code, more, k, Target(code, pc + 1).value, Copied(i, r));
        }
      } else {
        RunAppend(m, code, more, k, pc + Width(i), Effect(m, i, k, r));
      }
    }
  }

  // ---------------------------------------------------------------- code whose waiting jumps are settled

  /**
   * One instruction before and after patching: a waiting jump may get a target, and the TestSet in
   * front of a waiting jump may get its register or turn into a Test.
   */
  predicate Rewire(before: Code, after: Code, i: nat)
    requires i < |before| == |after|
  {
    || after[i] == before[i]
    || (before[i] == Jmp(None) && after[i].Jmp? && after[i].dest.Some? && i < after[i].dest.value)
    || (before[i].TestSet? && before[i].reg.None? && i + 1 < |before| && before[i+1] == Jmp(None)
        && (after[i] == Test(before[i].b, before[i].c)
            || (after[i].TestSet? && after[i].reg.Some? && after[i].b == before[i].b && after[i].c == before[i].c
                && after[i+1].Jmp? && after[i+1].dest.Some?)))
  }

  ghost predicate Rewired(before: Code, after: Code) {
    |before| == |after| && forall i: nat | i < |before| :: Rewire(before, after, i)
  }

  /** The registers with which a settled jump is taken: its TestSet has made the copy. */
  function Delivered(code: Code, j: nat, r: Regs): Regs {
    if 0 < j <= |code| then Copied(code[j-1], r) else r
  }

  function Settled(m: Ops, after: Code, k: seq<Value>, o: Outcome): Outcome {
    match o
    case Here(r) => o
    case At(j, r) =>
      match Target(after, j)
      case None => o
      case Some(t) => Run(m, after, k, t, Delivered(after, j, r))
  }

  lemma RewireAt(before: Code, after: Code, i: nat)
    requires Rewired(before, after) && i < |before|
    ensures |after| == |before| && Rewire(before, after, i)
  {
  }

  /** Settling waiting jumps changes only what happens after they are taken. */
  lemma {:induction false} RunRewired(m: Ops, before: Code, after: Code, k: seq<Value>, pc: nat, r: Regs)
    requires CodeOk(before) && Rewired(before, after) && pc <= |before| && !Controlled(before, pc)
    ensures Run(m, after, k, pc, r) == Settled(m, after, k, Run(m, before, k, pc, r))
    decreases |before| - pc
  {
    assert |before| == |after|;
    hide Effect, CodeOk, Rewired, RKValue;
    if pc < |before| {
      var i := before[pc];
      NextOk(before, pc);
      RewireAt(before, after, pc);
      if i.Jmp? {
        if Target(before, pc).Some? {
          RunRewired(m, before, after, k, Target(before, pc).value, r);
        } else {
          if pc > 0 {
            RewireAt(before, after, pc - 1);
          }
        }
      } else if IsTest(i) {
        RewireAt(before, after, pc + 1);
        if !Taken(m, i, k, r) {
          RunRewired(m, before, after, k, pc + 2, r);
        } else if Target(before, pc + 1).Some? {
          RunRewired(m, before, after, k, Target(before, pc + 1).value, Copied(i, r));
        }
      } else {
        RunRewired(m, before, after, k, pc + Width(i), Effect(m, i, k, r));
      }
    }
  }
}
