/** Arithmetic and comparison: codearith with constant folding, and codecomp. */
module CgArith {
  import opened CgCode
  import opened CgState
  import opened CgExp
  import opened CgReg
  import opened CgOperand
  import opened CgNot
  import opened Wrappers

  // ---------------------------------------------------------------- numbers

  function Abs(a: int): nat {
    if a < 0 then -a else a
  }

  /** C division truncates toward zero. */
  function CDiv(a: int, b: int): int
    requires b != 0
  {
    if (a < 0) == (b < 0) then Abs(a) / Abs(b) else -(Abs(a) / Abs(b))
  }

  /** The number operations of luaconf.h for a long lua_Number; luai_numpow is a product there. */
  function NumArith(op: ArithOp, a: int, b: int): int
    requires op == Div || op == Mod ==> b != 0
  {
    match op
    case Add => a + b
    case Sub => a - b
    case Mul => a * b
    case Div => CDiv(a, b)
    case Mod => a - CDiv(a, b) * b
    case Pow => a * b
  }

  /** On two numbers the virtual machine computes what the compiler folds; anything else is left open. */
  ghost predicate NumbersOk(m: Ops) {
    && (forall op, a, b | op == Div || op == Mod ==> b != 0 :: m.arith(op, Num(a), Num(b)) == Num(NumArith(op, a, b)))
    && (forall a :: m.unm(Num(a)) == Num(-a))
  }

  predicate IsNumeral(e: Exp) {
    e.kind.VKNum? && !HasJumps(e)
  }

  /** constfolding: a division by zero is left to the virtual machine. */
  function ConstFold(op: ArithOp, e1: Exp, e2: Exp): Option<int> {
    if !IsNumeral(e1) || !IsNumeral(e2) then None
    else if (op == Div || op == Mod) && e2.kind.n == 0 then None
    else Some(NumArith(op, e1.kind.n, e2.kind.n))
  }

  // ---------------------------------------------------------------- what is folded

  lemma ProductSigns(q: int, y: int)
    ensures (-q) * y == -(q * y) && q * (-y) == -(q * y) && (-q) * (-y) == q * y
  {
  }

  lemma Divided(x: nat, y: nat)
    requires 0 < y
    ensures x == x / y * y + x % y && x % y < y
  {
  }

  /** Division truncates toward zero, and the remainder has the sign of the dividend, as in C. */
  lemma FoldedDivision(a: int, b: int)
    requires b != 0
    ensures var q, r := NumArith(Div, a, b), NumArith(Mod, a, b);
            a == q * b + r && Abs(r) < Abs(b) && (r == 0 || (r < 0 <==> a < 0))
  {
    var x: int, y: int := Abs(a), Abs(b);
    var q: int := x / y;
    Divided(x, y);
    ProductSigns(q, y);
    var p: int := q * y;
    assert CDiv(a, b) * b == if a < 0 then -p else p;
  }

  /** The other operators, each by laws that determine it. */
  lemma FoldedLaws(a: int, b: int)
    ensures NumArith(Add, a, 0) == a && NumArith(Add, a, b + 1) == NumArith(Add, a, b) + 1
    ensures NumArith(Add, NumArith(Sub, a, b), b) == a
    ensures NumArith(Mul, a, 0) == 0 && NumArith(Mul, a, b + 1) == NumArith(Mul, a, b) + a
    ensures NumArith(Pow, a, b) == NumArith(Mul, a, b)
  {
  }

  /** Numbers are folded whenever that is possible: only a division by zero is left to the virtual machine. */
  lemma FoldsExactly(op: ArithOp, e1: Exp, e2: Exp)
    ensures ConstFold(op, e1, e2).Some? <==>
              && e1.kind.VKNum? && e2.kind.VKNum? && e1.t == [] && e1.f == [] && e2.t == [] && e2.f == []
              && !((op.Div? || op.Mod?) && e2.kind.n == 0)
    ensures ConstFold(op, e1, e2).Some? ==> ConstFold(op, e1, e2).value == NumArith(op, e1.kind.n, e2.kind.n)
  {
  }

  // ---------------------------------------------------------------- two operands

  /** The order in which two operands are given up: the one in the higher register first. */
  function FreeBoth(fs: Fs, d1: Exp, o1: RK, d2: Exp, o2: RK): Fs {
    if Operand(o1) > Operand(o2) then FreeExp(FreeExp(fs, d1), d2) else FreeExp(FreeExp(fs, d2), d1)
  }

  /** codearith for a binary operator. */
  function CodeArith(fs: Fs, op: ArithOp, e1: Exp, e2: Exp): (Fs, Exp) {
    var c := ConstFold(op, e1, e2);
    if c.Some? then (fs, e1.(kind := VKNum(c.value)))
    else
      var (f1, d2, o2) := Exp2RK(fs, e2);
      var (f2, d1, o1) := Exp2RK(f1, e1);
      var f3 := FreeBoth(f2, d1, o1, d2, o2);
      (Emit(f3, Arith(op, 0, o1, o2)), Exp(VReloc(|f3.code|), d1.t, d1.f))
  }

  /** codearith for Unm and Len; the operand is in a register unless it can be folded. */
  function CodeUnary(fs: Fs, op: UnaryOp, e: Exp): (Fs, Exp) {
    if op.Unm? && IsNumeral(e) then (fs, e.(kind := VKNum(-e.kind.n)))
    else
      var (f1, d, o) := Exp2RK(fs, e);
      var f2 := FreeExp(f1, d);
      (Emit(f2, Unary(op, 0, if o.R? then o.reg else 0)), Exp(VReloc(|f2.code|), d.t, d.f))
  }

  /** A number behind a minus is folded, to the number that adds up with it to 0. */
  lemma FoldedMinus(fs: Fs, e: Exp)
    requires e.kind.VKNum? && e.t == [] && e.f == []
    ensures var (gs, d) := CodeUnary(fs, Unm, e); gs == fs && d.kind.VKNum? && d.kind.n + e.kind.n == 0 && d.t == [] && d.f == []
  {
  }

  /** codecomp: `>` and `>=` become `<` and `<=` with the operands exchanged. */
  function CodeComp(fs: Fs, op: CmpOp, cond: bool, e1: Exp, e2: Exp): (Fs, Exp) {
    var (f1, d1, o1) := Exp2RK(fs, e1);
    var (f2, d2, o2) := Exp2RK(f1, e2);
    var f3 := FreeExp(FreeExp(f2, d2), d1);
    var (gs, j) := if !cond && op != Eq then CondJump(f3, Cmp(op, true, o2, o1)) else CondJump(f3, Cmp(op, cond, o1, o2));
    (gs, Exp(VJmp(j), d1.t, d1.f))
  }

  /** A left operand that luaK_infix has made ready, or a numeral. */
  predicate Ready(e: Exp) {
    && !HasJumps(e)
    && (e.kind.VKNum? || e.kind.VNonReloc? || (e.kind.VK? && e.kind.index <= MAXINDEXRK))
  }

  /** The value of a ready operand while the registers below `n` are as in `r`. */
  ghost predicate ReadyValue(fs: Fs, e: Exp, r: Regs, n: nat, v: Value) {
    match e.kind
    case VKNum(x) => v == Num(x)
    case VK(i) => i < |fs.k| && fs.k[i] == v
    case VNonReloc(i) => i < n && Get(r, i) == v
    case _ => false
  }

  lemma ReadyRK(fs: Fs, e: Exp)
    requires Ready(e) && !e.kind.VKNum?
    ensures Exp2RK(fs, e) == (fs, e, if e.kind.VK? then K(e.kind.index) else R(e.kind.info))
  {
  }

  /** The right operand on top of a ready left one. */
  ghost predicate Pair(fs: Fs, e1: Exp, e2: Exp) {
    DescOk(fs, e1) && DescOk(fs, e2) && Ready(e1) && !Temporary(fs, e2)
  }

  /** The stack of the two operands: which registers they hold, and that they can be freed in this order. */
  ghost predicate Stacked(fs: Fs, base: nat, d1: Exp, o1: RK, d2: Exp, o2: RK) {
    && fs.nactvar <= base
    && (d1.kind.VNonReloc? <==> o1.R?) && (o1.R? ==> o1.reg == d1.kind.info)
    && (d2.kind.VNonReloc? <==> o2.R?) && (o2.R? ==> o2.reg == d2.kind.info)
    && var t1 := Temporary(fs, d1); var t2 := Temporary(fs, d2);
       if t1 && t2 then fs.freereg == base + 2 && ((o1 == R(base) && o2 == R(base + 1)) || (o1 == R(base + 1) && o2 == R(base)))
       else if t1 then fs.freereg == base + 1 && o1 == R(base)
       else if t2 then fs.freereg == base + 1 && o2 == R(base)
       else fs.freereg == base
  }

  /** freereg's assertion holds for both operands, and together they give up all they held. */
  lemma FreeBothOk(fs: Fs, base: nat, d1: Exp, o1: RK, d2: Exp, o2: RK)
    requires Stacked(fs, base, d1, o1, d2, o2)
    ensures FreeBoth(fs, d1, o1, d2, o2) == fs.(freereg := base)
    ensures var (first, second) := if Operand(o1) > Operand(o2) then (d1, d2) else (d2, d1);
            && (Temporary(fs, first) ==> first.kind.info + 1 == fs.freereg)
            && (Temporary(fs, second) ==> second.kind.info + 1 == FreeExp(fs, first).freereg)
  {
  }

  ghost predicate BothOperands(m: Ops, fs: Fs, start: Regs, r0: Regs, n: nat, o1: RK, v1: Value, o2: RK, v2: Value) {
    var b := Behave(m, fs, start);
    && b.Here? && SameBelow(r0, b.regs, n)
    && RKValue(o1, fs.k, b.regs) == v1 && RKValue(o2, fs.k, b.regs) == v2
  }

  /** The right operand is coded over the left one, which stays what it is. */
  lemma SecondOk(fs: Fs, e1: Exp, e2: Exp)
    requires Pair(fs, e1, e2)
    ensures var (f1, d2, o2) := Exp2RK(fs, e2); var (f2, d1, o1) := Exp2RK(f1, e1);
            && FsOk(f2) && Grows(fs, f2, Own(e2)) && !HasJumps(d1)
            && Stacked(f2, Slot(fs, e1), d1, o1, d2, o2)
            && RKOk(o1, |f2.k|) && RKOk(o2, |f2.k|)
  {
    hide CodeOk, KOk, LabelOk, CacheOk, Exp2RK, KeepsWaiting, ListsOk;
    Exp2RKOk(fs, e2);
    var (f1, d2, o2) := Exp2RK(fs, e2);
    if e1.kind.VKNum? {
      NumeralDesc(f1, e1);
      Exp2RKOk(f1, e1);
      GrowsTransitive(fs, f1, Exp2RK(f1, e1).0, Own(e2), Own(e1));
    } else {
      ReadyRK(f1, e1);
    }
  }

  lemma NumeralDesc(fs: Fs, e: Exp)
    requires FsOk(fs) && fs.nactvar <= fs.freereg && IsNumeral(e)
    ensures DescOk(fs, e) && Own(e) == {} && Slot(fs, e) == fs.freereg
  {
    hide FsOk;
  }

  lemma SecondRuns(m: Ops, fs: Fs, e1: Exp, e2: Exp, start: Regs, ra: Regs, n: nat, v1: Value, v2: Value)
    requires Pair(fs, e1, e2) && FreshFrame(start, fs.nactvar) && n <= fs.freereg
    requires ReadyValue(fs, e1, ra, n, v1) && Denotes(m, fs, e2, start, ra, n, v2, true)
    ensures var (f1, d2, o2) := Exp2RK(fs, e2); var (f2, d1, o1) := Exp2RK(f1, e1);
            BothOperands(m, f2, start, ra, n, o1, v1, o2, v2)
  {
    hide FsOk, Exp2RK, KeepsWaiting, ListsOk, KindOk, Behave, Denotes;
    Exp2RKOk(fs, e2);
    Exp2RKRuns(m, fs, e2, start, ra, n, v2);
    var (f1, d2, o2) := Exp2RK(fs, e2);
    if e1.kind.VKNum? {
      NumeralDesc(f1, e1);
      NumeralDenotes(m, f1, e1, start);
      Exp2RKOk(f1, e1);
      Exp2RKRuns(m, f1, e1, start, Behave(m, f1, start).regs, f1.freereg, v1);
    } else {
      ReadyRK(f1, e1);
    }
  }

  lemma NumeralDenotes(m: Ops, fs: Fs, e: Exp, start: Regs)
    requires IsNumeral(e) && Behave(m, fs, start).Here?
    ensures Denotes(m, fs, e, start, Behave(m, fs, start).regs, fs.freereg, Num(e.kind.n), true)
  {
    hide Behave;
  }

  lemma SecondGone(m: Ops, fs: Fs, e1: Exp, e2: Exp, start: Regs, o: Outcome)
    requires Pair(fs, e1, e2) && FreshFrame(start, fs.nactvar) && Gone(m, fs, e2, start, o)
    ensures var (f1, d2, o2) := Exp2RK(fs, e2); var (f2, d1, o1) := Exp2RK(f1, e1); Behave(m, f2, start) == o
  {
    hide FsOk, Exp2RK, KeepsWaiting, ListsOk, KindOk, Behave;
    Exp2RKOk(fs, e2);
    Exp2RKGone(m, fs, e2, start, o);
    var (f1, d2, o2) := Exp2RK(fs, e2);
    if e1.kind.VKNum? {
      NumeralDesc(f1, e1);
      Exp2RKGone(m, f1, e1, start, o);
    } else {
      ReadyRK(f1, e1);
    }
  }

  lemma FreedSame(m: Ops, fs: Fs, gs: Fs, start: Regs)
    requires gs == fs.(freereg := gs.freereg)
    ensures FsOk(gs) == FsOk(fs) && Behave(m, gs, start) == Behave(m, fs, start)
    ensures forall hs, own :: Grows(hs, gs, own) == Grows(hs, fs, own)
  {
    SameOk(fs, gs);
  }

  /** codearith: the result denotes the operator applied to both values; all registers are given up. */
  lemma CodeArithOk(m: Ops, fs: Fs, op: ArithOp, e1: Exp, e2: Exp, start: Regs)
    requires Pair(fs, e1, e2)
    ensures var (gs, d) := CodeArith(fs, op, e1, e2);
            && DescOk(gs, d) && Grows(fs, gs, Own(e2)) && !HasJumps(d) && gs.freereg == Slot(fs, e1)
            && (d.kind.VReloc? || d.kind.VKNum?)
  {
    hide FsOk, Exp2RK, KeepsWaiting, ListsOk, KindOk, Behave, Emit, FreeBoth;
    if ConstFold(op, e1, e2).Some? {
      KeepsSelf(fs);
      GrowsMore(fs, fs, Own(e2));
      FoldedDesc(fs, e1, ConstFold(op, e1, e2).value);
    } else {
      SecondOk(fs, e1, e2);
      var (f1, d2, o2) := Exp2RK(fs, e2);
      var (f2, d1, o1) := Exp2RK(f1, e1);
      FreeBothOk(f2, Slot(fs, e1), d1, o1, d2, o2);
      var f3 := FreeBoth(f2, d1, o1, d2, o2);
      FreedSame(m, f2, f3, start);
      var d := Exp(VReloc(|f3.code|), d1.t, d1.f);
      NoLists(f3, d);
      EmitRelocOk(m, f3, Arith(op, 0, o1, o2), d, start);
      GrowsTransitive(fs, f3, Emit(f3, Arith(op, 0, o1, o2)), Own(e2), {});
    }
  }

  lemma FoldedDesc(fs: Fs, e: Exp, n: int)
    requires DescOk(fs, e) && IsNumeral(e)
    ensures DescOk(fs, e.(kind := VKNum(n))) && Slot(fs, e) == fs.freereg
  {
    hide FsOk;
  }

  lemma NoLists(fs: Fs, e: Exp)
    requires !HasJumps(e)
    ensures ListsOk(fs, e)
  {
  }

  lemma FoldsRight(m: Ops, fs: Fs, op: ArithOp, e1: Exp, e2: Exp, start: Regs, ra: Regs, n: nat, v1: Value, v2: Value)
    requires NumbersOk(m) && ConstFold(op, e1, e2).Some?
    requires ReadyValue(fs, e1, ra, n, v1) && Denotes(m, fs, e2, start, ra, n, v2, true)
    ensures Denotes(m, fs, e1.(kind := VKNum(ConstFold(op, e1, e2).value)), start, ra, n, m.arith(op, v1, v2), true)
  {
    hide Behave;
  }

  lemma CodeArithDenotes(m: Ops, fs: Fs, op: ArithOp, e1: Exp, e2: Exp, start: Regs, ra: Regs, n: nat, v1: Value, v2: Value)
    requires Pair(fs, e1, e2) && FreshFrame(start, fs.nactvar) && n <= fs.freereg && NumbersOk(m)
    requires ReadyValue(fs, e1, ra, n, v1) && Denotes(m, fs, e2, start, ra, n, v2, true)
    ensures var (gs, d) := CodeArith(fs, op, e1, e2); Denotes(m, gs, d, start, ra, n, m.arith(op, v1, v2), true)
  {
    hide FsOk, Exp2RK, KeepsWaiting, ListsOk, KindOk, Behave, Emit, FreeBoth, NumbersOk, ReadyValue, Base, DescValue, Pair;
    if ConstFold(op, e1, e2).Some? {
      FoldsRight(m, fs, op, e1, e2, start, ra, n, v1, v2);
    } else {
      SecondOk(fs, e1, e2);
      SecondRuns(m, fs, e1, e2, start, ra, n, v1, v2);
      var (f1, d2, o2) := Exp2RK(fs, e2);
      var (f2, d1, o1) := Exp2RK(f1, e1);
      FreeBothOk(f2, Slot(fs, e1), d1, o1, d2, o2);
      var f3 := FreeBoth(f2, d1, o1, d2, o2);
      FreedSame(m, f2, f3, start);
      var d := Exp(VReloc(|f3.code|), d1.t, d1.f);
      NoLists(f3, d);
      EmitRelocOk(m, f3, Arith(op, 0, o1, o2), d, start);
    }
  }

  lemma CodeArithGone(m: Ops, fs: Fs, op: ArithOp, e1: Exp, e2: Exp, start: Regs, o: Outcome)
    requires Pair(fs, e1, e2) && FreshFrame(start, fs.nactvar) && Gone(m, fs, e2, start, o)
    ensures var (gs, d) := CodeArith(fs, op, e1, e2); Gone(m, gs, d, start, o)
  {
    hide FsOk, Exp2RK, KeepsWaiting, ListsOk, KindOk, Behave, Emit, FreeBoth, Base, Pair;
    if ConstFold(op, e1, e2).Some? {
      NumeralGone(m, fs, e2, e1.(kind := VKNum(ConstFold(op, e1, e2).value)), start, o);
    } else {
      SecondOk(fs, e1, e2);
      SecondGone(m, fs, e1, e2, start, o);
      var (f1, d2, o2) := Exp2RK(fs, e2);
      var (f2, d1, o1) := Exp2RK(f1, e1);
      FreeBothOk(f2, Slot(fs, e1), d1, o1, d2, o2);
      var f3 := FreeBoth(f2, d1, o1, d2, o2);
      FreedSame(m, f2, f3, start);
      var d := Exp(VReloc(|f3.code|), d1.t, d1.f);
      NoLists(f3, d);
      EmitRelocOk(m, f3, Arith(op, 0, o1, o2), d, start);
    }
  }

  lemma NumeralGone(m: Ops, fs: Fs, e: Exp, d: Exp, start: Regs, o: Outcome)
    requires IsNumeral(e) && IsNumeral(d) && Gone(m, fs, e, start, o)
    ensures Gone(m, fs, d, start, o)
  {
  }

  // ---------------------------------------------------------------- unary minus and length

  /** What luaK_prefix gives codearith: a numeral to fold, or an operand in a register. */
  predicate UnaryOperand(op: UnaryOp, e: Exp) {
    (op.Unm? && IsNumeral(e)) || (e.kind.VNonReloc? && !HasJumps(e))
  }

  lemma CodeUnaryOk(m: Ops, fs: Fs, op: UnaryOp, e: Exp, start: Regs)
    requires DescOk(fs, e) && UnaryOperand(op, e)
    ensures var (gs, d) := CodeUnary(fs, op, e);
            && DescOk(gs, d) && Grows(fs, gs, {}) && !HasJumps(d) && gs.freereg == Slot(fs, e)
            && (d.kind.VReloc? || d.kind.VKNum?)
            && (IsNumeral(e) ==> gs == fs)
            && (!IsNumeral(e) ==> Behave(m, Base(gs, d), start) == Behave(m, fs, start))
            && (!IsNumeral(e) ==> forall r :: DescValue(m, gs, d, r) == UnaryValue(m, op, Get(r, e.kind.info)))
  {
    hide FsOk, KeepsWaiting, ListsOk, Behave, Emit, UnaryValue;
    if op.Unm? && IsNumeral(e) {
      KeepsSelf(fs);
      FoldedDesc(fs, e, -e.kind.n);
    } else {
      ReadyRK(fs, e);
      NextRegState(fs, e);
      KeepsSelf(fs);
      var f := FreeExp(fs, e);
      FreedSame(m, fs, f, start);
      var d := Exp(VReloc(|f.code|), e.t, e.f);
      NoLists(f, d);
      EmitRelocOk(m, f, Unary(op, 0, e.kind.info), d, start);
      GrowsTransitive(fs, f, Emit(f, Unary(op, 0, e.kind.info)), {}, {});
    }
  }

  // ---------------------------------------------------------------- comparison

  lemma ComparisonOk(m: Ops, fs: Fs, test: Instr, start: Regs)
    requires FsOk(fs) && fs.nactvar <= fs.freereg && test.Cmp? && UsesK(test, |fs.k|)
    ensures var (gs, j) := CondJump(fs, test); var d := Exp(VJmp(j), [], []);
            && DescOk(gs, d) && Grows(fs, gs, {}) && gs.freereg == fs.freereg
            && Behave(m, Base(gs, d), start) == Behave(m, fs, start)
            && (forall r :: DescValue(m, gs, d, r) == Bool(Taken(m, test, fs.k, r)))
  {
    hide FsOk, Behave, KeepsWaiting;
    var (gs, j) := CondJump(fs, test);
    var d := Exp(VJmp(j), [], []);
    CondJumpOk(fs, test);
    DischargeOk(fs);
    DischargeRuns(m, fs, start);
    assert gs.code[..|gs.code|-2] == Discharge(fs).code;
    assert Base(gs, d) == Discharge(fs);
    NoLists(gs, d);
  }

  /** What a comparison operator of the source computes. */
  function Compared(m: Ops, op: CmpOp, cond: bool, v1: Value, v2: Value): bool {
    if op == Eq then m.cmp(Eq, v1, v2) == cond
    else if cond then m.cmp(op, v1, v2)
    else m.cmp(op, v2, v1)
  }

  lemma ComparedTest(m: Ops, op: CmpOp, cond: bool, o1: RK, o2: RK, k: seq<Value>, r: Regs)
    ensures var test: Instr := if !cond && op != Eq then Cmp(op, true, o2, o1) else Cmp(op, cond, o1, o2);
            Taken(m, test, k, r) == Compared(m, op, cond, RKValue(o1, k, r), RKValue(o2, k, r))
  {
  }

  /** In a comparison the left operand is final before the right one is looked at. */
  lemma ComparedPair(fs: Fs, e1: Exp, e2: Exp)
    requires Pair(fs, e1, e2) && !e1.kind.VKNum?
    ensures var (f1, d1, o1) := Exp2RK(fs, e1);
            && f1 == fs && d1 == e1
            && var (f2, d2, o2) := Exp2RK(fs, e2);
               && Exp2RK(f2, e1) == (f2, e1, o1)
               && Stacked(f2, Slot(fs, e1), e1, o1, d2, o2)
               && FreeExp(FreeExp(f2, d2), e1) == f2.(freereg := Slot(fs, e1))
               && (Temporary(f2, d2) ==> d2.kind.info + 1 == f2.freereg)
               && (Temporary(f2, e1) ==> e1.kind.info + 1 == FreeExp(f2, d2).freereg)
  {
    hide FsOk, Exp2RK, KeepsWaiting, ListsOk, KindOk;
    ReadyRK(fs, e1);
    SecondOk(fs, e1, e2);
    var (f2, d2, o2) := Exp2RK(fs, e2);
    ReadyRK(f2, e1);
    Exp2RKOk(fs, e2);
    TopInfo(fs, e1);
  }

  lemma TopInfo(fs: Fs, e: Exp)
    requires DescOk(fs, e)
    ensures Temporary(fs, e) ==> e.kind.info + 1 == fs.freereg
  {
  }

  lemma CodeCompOk(m: Ops, fs: Fs, op: CmpOp, cond: bool, e1: Exp, e2: Exp, start: Regs)
    requires Pair(fs, e1, e2) && !e1.kind.VKNum?
    ensures var (gs, d) := CodeComp(fs, op, cond, e1, e2);
            && DescOk(gs, d) && Grows(fs, gs, Own(e2)) && !HasJumps(d) && gs.freereg == Slot(fs, e1) && d.kind.VJmp?
            && d.kind.jump >= |fs.code|
            && var (f2, d2, o2) := Exp2RK(fs, e2);
               && Behave(m, Base(gs, d), start) == Behave(m, f2, start)
               && forall r :: DescValue(m, gs, d, r) ==
                    Bool(Compared(m, op, cond, RKValue(Exp2RK(fs, e1).2, f2.k, r), RKValue(o2, f2.k, r)))
  {
    hide FsOk, Exp2RK, KeepsWaiting, ListsOk, KindOk, Behave, CondJump, FreeExp, Taken, Compared, DescValue, Base, Stacked;
    ComparedPair(fs, e1, e2);
    SecondOk(fs, e1, e2);
    var (_, d1, o1) := Exp2RK(fs, e1);
    var (f2, d2, o2) := Exp2RK(fs, e2);
    var f3 := FreeExp(FreeExp(f2, d2), e1);
    FreedSame(m, f2, f3, start);
    var test: Instr := if !cond && op != Eq then Cmp(op, true, o2, o1) else Cmp(op, cond, o1, o2);
    SlotAbove(fs, e1);
    ComparisonOk(m, f3, test, start);
    CondJumpOk(f3, test);
    GrowsTransitive(fs, f3, CondJump(f3, test).0, Own(e2), {});
    forall r { ComparedTest(m, op, cond, o1, o2, f2.k, r); }
  }

  lemma CodeCompDenotes(m: Ops, fs: Fs, op: CmpOp, cond: bool, e1: Exp, e2: Exp, start: Regs, ra: Regs, n: nat, v1: Value, v2: Value)
    requires Pair(fs, e1, e2) && !e1.kind.VKNum? && FreshFrame(start, fs.nactvar) && n <= fs.freereg
    requires ReadyValue(fs, e1, ra, n, v1) && Denotes(m, fs, e2, start, ra, n, v2, true)
    ensures var (gs, d) := CodeComp(fs, op, cond, e1, e2);
            Denotes(m, gs, d, start, ra, n, Bool(Compared(m, op, cond, v1, v2)), true)
  {
    hide FsOk, Exp2RK, KeepsWaiting, ListsOk, KindOk, Behave, CodeComp, Compared, DescValue, Base, ReadyValue, Pair, Stacked;
    CodeCompOk(m, fs, op, cond, e1, e2, start);
    ComparedPair(fs, e1, e2);
    SecondRuns(m, fs, e1, e2, start, ra, n, v1, v2);
  }

  lemma CodeCompGone(m: Ops, fs: Fs, op: CmpOp, cond: bool, e1: Exp, e2: Exp, start: Regs, o: Outcome)
    requires Pair(fs, e1, e2) && !e1.kind.VKNum? && FreshFrame(start, fs.nactvar) && Gone(m, fs, e2, start, o)
    ensures var (gs, d) := CodeComp(fs, op, cond, e1, e2); Gone(m, gs, d, start, o)
  {
    hide FsOk, Exp2RK, KeepsWaiting, ListsOk, KindOk, Behave, CodeComp, Compared, DescValue, Base, ReadyValue, Pair, Stacked;
    CodeCompOk(m, fs, op, cond, e1, e2, start);
    ComparedPair(fs, e1, e2);
    SecondGone(m, fs, e1, e2, start, o);
  }
}
