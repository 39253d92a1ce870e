/** Literals on the left of `and` and `or`: when a jump that carries a value is spliced into the wrong list. */
module CgSplice {
  import opened CgCode
  import opened CgState
  import opened CgExp
  import opened CgReg
  import opened CgOperand
  import opened CgCond
  import opened CgNot
  import opened CgArith
  import opened CgCompile
  import opened CgTheorems
  import opened Wrappers

  /** Expressions that the compiler may keep as a constant. */
  predicate MayBeConstant(e: Expr) {
    match e
    case ELocal(_) => false
    case ENot(x) => MayBeConstant(x)
    case EMinus(x) => MayBeConstant(x)
    case ELen(_) => false
    case EBin(op, x, y) => if op.BAnd? || op.BOr? then MayBeConstant(y) else op.BArith?
    case _ => true
  }

  /** Expressions that the compiler may keep as the literal true or false. */
  predicate MayBeLiteral(e: Expr) {
    match e
    case ETrue => true
    case EFalse => true
    case ENot(x) => MayBeConstant(x)
    case EBin(op, _, y) => (op.BAnd? || op.BOr?) && MayBeLiteral(y)
    case _ => false
  }

  /** No `and` or `or` has a left operand that is a literal to the compiler. */
  predicate NoLiteralLeft(e: Expr) {
    match e
    case ENot(x) => NoLiteralLeft(x)
    case EMinus(x) => NoLiteralLeft(x)
    case ELen(x) => NoLiteralLeft(x)
    case EBin(op, x, y) => NoLiteralLeft(x) && NoLiteralLeft(y) && (op.BAnd? || op.BOr? ==> !MayBeLiteral(x))
    case _ => true
  }

  predicate IsConstant(k: Kind) {
    k.VNil? || k.VTrue? || k.VFalse? || k.VK? || k.VKNum?
  }

  lemma NotKinds(fs: Fs, e: Exp)
    ensures var k := CodeNot(fs, e).1.kind; IsConstant(k) ==> IsConstant(e.kind)
  {
  }

  lemma ArithKinds(fs: Fs, op: ArithOp, e1: Exp, e2: Exp)
    ensures var k := CodeArith(fs, op, e1, e2).1.kind; k.VKNum? || k.VReloc?
  {
    hide Exp2RK, Emit, FreeBoth;
  }

  lemma PrefixKinds(fs: Fs, op: UnaryOp, e: Exp)
    ensures var k := Prefix(fs, op, e).1.kind; k.VReloc? || (k.VKNum? && op.Unm? && (e.kind.VKNum? || Exp2AnyReg(fs, e).1.kind.VKNum?))
  {
    hide Exp2RK, Emit, Exp2AnyReg;
  }

  lemma AnyRegKind(fs: Fs, e: Exp)
    ensures Exp2AnyReg(fs, e).1.kind.VNonReloc?
  {
    hide Exp2Reg;
  }

  lemma {:induction false} CompiledKinds(fs: Fs, e: Expr)
    ensures var k := Compile(fs, e).1.kind;
            && (IsConstant(k) ==> MayBeConstant(e))
            && (k.VTrue? || k.VFalse? ==> MayBeLiteral(e))
    decreases e
  {
    hide CodeNot, Prefix, Infix, CodeArith, CodeComp;
    match e
    case ENot(x) =>
      CompiledKinds(fs, x);
      NotKinds(Compile(fs, x).0, Compile(fs, x).1);
    case EMinus(x) =>
      CompiledKinds(fs, x);
      PrefixKinds(Compile(fs, x).0, Unm, Compile(fs, x).1);
      AnyRegKind(Compile(fs, x).0, Compile(fs, x).1);
    case ELen(x) =>
      PrefixKinds(Compile(fs, x).0, Len, Compile(fs, x).1);
    case EBin(op, x, y) =>
      var (f1, d1) := Compile(fs, x);
      var (f2, e1) := Infix(f1, op, d1);
      CompiledKinds(f2, y);
      var (f3, d2) := Compile(f2, y);
      match op {
        case BArith(a) => ArithKinds(f3, a, e1, d2);
        case BRel(c) => CompKinds(f3, CmpOf(c).0, CmpOf(c).1, e1, d2);
        case _ =>
      }
    case _ =>
  }

  lemma CompKinds(fs: Fs, op: CmpOp, cond: bool, e1: Exp, e2: Exp)
    ensures CodeComp(fs, op, cond, e1, e2).1.kind.VJmp?
  {
    hide Exp2RK, CondJump, FreeExp;
  }

  /** Without literals on the left the value theorem applies, whatever was compiled before. */
  lemma {:induction false} NoLiteralIsExact(fs: Fs, e: Expr)
    requires NoLiteralLeft(e)
    ensures Exact(fs, e) && Sound(fs, e)
    decreases e
  {
    hide CodeNot, Prefix, Infix, Posfix, NoCarrier;
    match e
    case ENot(x) => NoLiteralIsExact(fs, x);
    case EMinus(x) => NoLiteralIsExact(fs, x);
    case ELen(x) => NoLiteralIsExact(fs, x);
    case EBin(op, x, y) =>
      NoLiteralIsExact(fs, x);
      CompiledKinds(fs, x);
      var (f1, d1) := Compile(fs, x);
      var (f2, _) := Infix(f1, op, d1);
      NoLiteralIsExact(f2, y);
    case _ =>
  }

  /** The value theorem for expressions without literals on the left of `and` and `or`. */
  lemma ValueWithoutLiterals(m: Ops, fs: Fs, e: Expr, start: Regs)
    requires CanCompile(fs, e) && FreshFrame(start, fs.nactvar) && NumbersOk(m) && NoLiteralLeft(e)
    ensures ToNextReg(fs, e).1 == Register(fs.freereg) && ToNextReg(fs, e).0.freereg == fs.freereg + 1
    ensures Yields(m, fs, ToNextReg(fs, e).0, e, start)
  {
    hide FsOk, Yields, Exact, ToNextReg;
    NoLiteralIsExact(fs, e);
    ExactInAnyRun(m, fs, e, start);
    ValueTheorem(m, fs, e, start);
  }

  // ---------------------------------------------------------------- exactly when a literal on the left is delivered

  /** `x and y` or `x or y`, between operands that are exact in the run. */
  predicate BetweenExact(m: Ops, fs: Fs, e: Expr, start: Regs) {
    && e.EBin? && (e.op.BAnd? || e.op.BOr?)
    && var (f1, d1) := Compile(fs, e.l);
    && ExactIn(m, fs, e.l, start) && ExactIn(m, Infix(f1, e.op, d1).0, e.r, start)
  }

  /** `x or y` where the compiler keeps `x` as true, or `x and y` where it keeps it as false. */
  ghost predicate LiteralLeft(m: Ops, fs: Fs, e: Expr, start: Regs) {
    BetweenExact(m, fs, e, start) && IsLiteral(Compile(fs, e.l).1, e.op.BOr?)
  }

  /** luaK_jump at the literal: control is on the list of the exits, where it came from. */
  lemma LiteralLeaves(m: Ops, f1: Fs, d1: Exp, sense: bool, start: Regs)
    requires DescOk(f1, d1) && IsLiteral(d1, sense) && Misdelivers(m, f1, start, sense)
    ensures var o := Run(m, f1.code, f1.k, 0, start);
            var (f2, out) := if sense then GoIfFalse(f1, d1) else GoIfTrue(f1, d1);
            && Behave(m, f2, start) == o && o.pc in out
            && Carries(f2.code, o.pc) && f2.code[o.pc-1].b == f1.code[o.pc-1].b
  {
    hide CodeOk, KOk, LabelOk, CacheOk, KindOk;
    var o := Run(m, f1.code, f1.k, 0, start);
    var (gs, pcs) := Jump(f1);
    JumpRuns(m, f1, start);
    JumpOk(f1);
    var closed := if sense then d1.f else d1.t;
    assert gs.code == f1.code + [Jmp(None)];
    assert LeaveOk(f1, d1, gs, pcs) by { LeaveByJump(f1, d1); }
    PatchToHereOk(gs, closed);
    PatchToHereRuns(m, gs, closed, start);
    assert o.pc !in closed;
    OutKept(gs.code, PatchToHere(gs, closed).code, o.pc, o.regs, Nil, sense);
  }

  /** The right operand and the join leave control where it is, with the value its jump carries. */
  lemma LiteralDelivers(m: Ops, f2: Fs, out: seq<nat>, f3: Fs, d: Exp, y: Expr, sense: bool, start: Regs, j: nat, r1: Regs, r: Regs, n: nat, w: Value)
    requires CompiledOk(f2, f3, d) && Means(m, f2, f3, d, y, start, true) && OutWaits(f2, out)
    requires Behave(m, f2, start) == At(j, r1) && j in out && SameBelow(r, r1, n)
    requires Carries(f2.code, j) && Get(r1, f2.code[j-1].b) == w
    ensures Delivers(m, f3, Joined(d, out, sense), start, r, n, w)
  {
    hide FsOk, Behave, ListsOk, KeepsWaiting, KindOk, Kept, DescValue, Base, CompiledOk;
    JoinedOk(f2, f3, d, out, sense);
    OutKept(f2.code, f3.code, j, r1, w, sense);
  }

  /** What the jump carries. */
  function CarriedValue(m: Ops, fs: Fs, start: Regs): Value {
    var o := Run(m, fs.code, fs.k, 0, start);
    if o.At? && 0 < o.pc <= |fs.code| && fs.code[o.pc-1].TestSet? then Get(o.regs, fs.code[o.pc-1].b) else Nil
  }

  /** The descriptor of the whole delivers that value. */
  lemma LiteralCarries(m: Ops, fs: Fs, e: Expr, start: Regs)
    requires CanCompile(fs, e) && FreshFrame(start, fs.nactvar) && NumbersOk(m) && LiteralLeft(m, fs, e, start)
    requires Misdelivers(m, Compile(fs, e.l).0, start, e.op.BOr?)
    ensures var (gs, d) := Compile(fs, e);
            && CompiledOk(fs, gs, d)
            && Delivers(m, gs, d, start, Behave(m, fs, start).regs, fs.freereg, CarriedValue(m, Compile(fs, e.l).0, start))
  {
    hide FsOk, KeepsWaiting, ListsOk, KindOk, ExactIn, NumbersOk, GoIfTrue, GoIfFalse, CondOk, CompiledOk, DescOk, OutWaits,
         Delivers, Means, FreshFrame, Run, Eval;
    var sense := e.op.BOr?;
    var (f1, d1) := Compile(fs, e.l);
    Compiles(m, fs, e.l, start, true);
    CompiledFacts(fs, f1, d1);
    LogicState(fs, e.l, e.r, e.op, f1, d1);
    var (f2, out) := if sense then GoIfFalse(f1, d1) else GoIfTrue(f1, d1);
    LiteralLeaves(m, f1, d1, sense, start);
    Compiles(m, f2, e.r, start, true);
    var (f3, d2) := Compile(f2, e.r);
    var d := DischargeVars(d2);
    ClosedVars(m, f2, f3, d2, e.r, start, true);
    if sense { GoIfFalseOk(f1, d1); } else { GoIfTrueOk(f1, d1); }
    JoinedGrows(fs, f1, d1, f2, out, f3, d, sense);
    LiteralValue(m, fs, e, f1, d1, start);
    var o := Run(m, f1.code, f1.k, 0, start);
    LiteralDelivers(m, f2, out, f3, d, e.r, sense, start, o.pc, o.regs, Behave(m, fs, start).regs, fs.freereg,
                    CarriedValue(m, f1, start));
    assert Compile(fs, e) == (f3, Joined(d, out, sense));
  }

  /** What is delivered is not the literal. */
  lemma LiteralLost(m: Ops, fs: Fs, e: Expr, start: Regs)
    requires CanCompile(fs, e) && FreshFrame(start, fs.nactvar) && NumbersOk(m) && LiteralLeft(m, fs, e, start)
    requires Misdelivers(m, Compile(fs, e.l).0, start, e.op.BOr?)
    ensures !Yields(m, fs, ToNextReg(fs, e).0, e, start)
  {
    hide FsOk, KeepsWaiting, ListsOk, KindOk, ExactIn, NumbersOk, CompiledOk, Delivers, Means, FreshFrame, Compile, Eval, Exp2NextReg;
    LiteralCarries(m, fs, e, start);
    Compiles(m, fs, e.l, start, true);
    LiteralValue(m, fs, e, Compile(fs, e.l).0, Compile(fs, e.l).1, start);
    var (gs, d) := Compile(fs, e);
    CompiledFacts(fs, gs, d);
    Exp2NextRegDelivers(m, gs, d, start, Behave(m, fs, start).regs, fs.freereg, CarriedValue(m, Compile(fs, e.l).0, start));
  }

  /** Control came to the expression, whose value is the literal. */
  lemma LiteralValue(m: Ops, fs: Fs, e: Expr, f1: Fs, d1: Exp, start: Regs)
    requires e.EBin? && (e.op.BAnd? || e.op.BOr?) && IsLiteral(d1, e.op.BOr?)
    requires Means(m, fs, f1, d1, e.l, start, true) && Misdelivers(m, f1, start, e.op.BOr?)
    ensures Behave(m, fs, start).Here?
    ensures var r := Behave(m, fs, start).regs;
            Eval(m, e, r) == Bool(e.op.BOr?) && SameBelow(r, Run(m, f1.code, f1.k, 0, start).regs, fs.freereg)
  {
    hide Run;
  }

  /**
   * Between exact operands the value theorem fails in exactly one case: a literal is on the left of `and`
   * or `or`, and control comes to it by a jump that carries another value, because luaK_jump has put that
   * jump on the list of the exits.
   */
  lemma LiteralExact(m: Ops, fs: Fs, e: Expr, start: Regs)
    requires CanCompile(fs, e) && FreshFrame(start, fs.nactvar) && NumbersOk(m) && BetweenExact(m, fs, e, start)
    ensures Yields(m, fs, ToNextReg(fs, e).0, e, start) <==>
              Delivering(m, Compile(fs, e.l).0, Compile(fs, e.l).1, e.op.BOr?, start)
  {
    hide FsOk, NumbersOk, FreshFrame, Misdelivers, IsLiteral, Yields, Compile, ToNextReg;
    if Delivering(m, Compile(fs, e.l).0, Compile(fs, e.l).1, e.op.BOr?, start) {
      assert ExactIn(m, fs, e, start);
      ValueTheorem(m, fs, e, start);
    } else {
      LiteralLost(m, fs, e, start);
    }
  }

  // ---------------------------------------------------------------- ((1 or false) and true) or false

  function Empty(): Fs {
    Fs([], [], -1, 0, 0, [], map[])
  }

  lemma EmptyOk()
    ensures FsOk(Empty())
  {
  }

  /** A function without code yet runs nowhere. */
  lemma EmptyRuns(m: Ops, start: Regs)
    ensures Behave(m, Empty(), start) == Here(start)
  {
  }

  const ONE_OR_FALSE: Expr := EBin(BOr, ENum(1), EFalse)
  const THEN_TRUE: Expr := EBin(BAnd, ONE_OR_FALSE, ETrue)
  const SPLICED: Expr := EBin(BOr, THEN_TRUE, EFalse)

  function Tested1(): Code {
    [LoadK(0, 0), TestSet(None, 0, true), Jmp(None)]
  }

  lemma PatchEmpty(code: Code, reg: Option<nat>, v: nat, d: Option<nat>)
    ensures Patch(code, [], reg, v, d) == code
  {
    PatchNothing(code, reg, v, d);
  }

  lemma JoinNil(list: seq<nat>)
    ensures list + [] == list && [] + list == list
  {
  }

  /** A constant put to the test in a fresh function. */
  lemma TestOne()
    ensures GoIfFalse(Empty(), Exp(VKNum(1), [], [])) == (Fs(Tested1(), [], 3, 0, 0, [Num(1)], map[Num(1) := 0]), [2])
  {
    hide Patch;
    var fs := Empty();
    var d := Exp(VKNum(1), [], []);
    var g := Fs([], [], -1, 1, 0, [Num(1)], map[Num(1) := 0]);
    assert AddK(Reserve(fs), Num(1)) == (g, 0) by { assert [] + [Num(1)] == [Num(1)]; }
    var h := g.(code := [LoadK(0, 0)]);
    assert Emit(g, LoadK(0, 0)) == h by {
      PatchEmpty(g.code, None, 0, Some(0));
      assert g.code + [LoadK(0, 0)] == [LoadK(0, 0)];
    }
    assert Discharge2AnyReg(fs, d) == (h, Exp(VNonReloc(0), [], []));
    var h0 := h.(freereg := 0);
    assert Tested(fs, d) == (h0, 0);
    var test: Instr := TestSet(None, 0, true);
    assert CondJump(h0, test) == (h0.(code := Tested1()), 2) by {
      PatchEmpty(h0.code, None, 1, Some(1));
      assert h0.code + [test] + [Jmp(None)] == Tested1();
    }
    JoinNil([2]);
    JoinNil([]);
    assert GoIfFalse(fs, d).0 == PatchToHere(h0.(code := Tested1()), []);
  }

  lemma CompileOne()
    ensures Compile(Empty(), ONE_OR_FALSE) ==
              (Fs(Tested1(), [], 3, 0, 0, [Num(1)], map[Num(1) := 0]), Exp(VFalse, [2], []))
  {
    hide GoIfFalse;
    TestOne();
    JoinNil([2]);
    assert Compile(Empty(), ENum(1)) == (Empty(), Exp(VKNum(1), [], []));
  }

  /** An unconditional exit while nothing else waits on the same side. */
  lemma LeaveFalse(fs: Fs, t: seq<nat>)
    requires fs.jpc == []
    ensures GoIfTrue(fs, Exp(VFalse, t, [])) ==
              (fs.(code := fs.code + [Jmp(None)], jpc := t, lasttarget := |fs.code| + 1), [|fs.code|])
  {
    JoinNil([|fs.code|]);
    JoinNil(t);
  }

  /** Here the jumps waiting for the next instruction are spliced. */
  lemma LeaveTrue(fs: Fs, f: seq<nat>)
    ensures GoIfFalse(fs, Exp(VTrue, [], f)) ==
              (fs.(code := fs.code + [Jmp(None)], jpc := f, lasttarget := |fs.code| + 1), [|fs.code|] + fs.jpc)
  {
    JoinNil([|fs.code|] + fs.jpc);
    JoinNil(f);
  }

  lemma CompileThenTrue()
    ensures Compile(Empty(), THEN_TRUE) ==
              (Fs(Tested1() + [Jmp(None)], [2], 4, 0, 0, [Num(1)], map[Num(1) := 0]), Exp(VTrue, [], [3]))
  {
    hide GoIfTrue;
    CompileOne();
    LeaveFalse(Compile(Empty(), ONE_OR_FALSE).0, [2]);
    JoinNil([3]);
  }

  lemma CompileSpliced()
    ensures Compile(Empty(), SPLICED) ==
              (Fs(Tested1() + [Jmp(None)] + [Jmp(None)], [3], 5, 0, 0, [Num(1)], map[Num(1) := 0]), Exp(VFalse, [4, 2], []))
  {
    hide GoIfFalse;
    CompileThenTrue();
    LeaveTrue(Compile(Empty(), THEN_TRUE).0, [3]);
    JoinNil([4, 2]);
    assert [4] + [2] == [4, 2];
  }

  /** The code of the whole expression, with the value asked for in register 0. */
  function SplicedCode(): Code {
    [LoadK(0, 0), Test(0, true), Jmp(Some(9)), Jmp(Some(5)), Jmp(Some(8)),
     LoadBool(0, false, false), Jmp(None), LoadBool(0, false, true), LoadBool(0, true, false)]
  }

  /** The fallthrough value in register 0, with the jumps to here settled. */
  function SplicedStart(): Code {
    [LoadK(0, 0), TestSet(None, 0, true), Jmp(None), Jmp(Some(5)), Jmp(None), LoadBool(0, false, false)]
  }

  lemma SplicedDischarge(gs: Fs)
    requires gs == Fs(Tested1() + [Jmp(None)] + [Jmp(None)], [3], 5, 1, 0, [Num(1)], map[Num(1) := 0])
    ensures Discharge2Reg(gs, Exp(VFalse, [4, 2], []), 0) == gs.(code := SplicedStart(), jpc := [])
  {
    hide Patch;
    PatchThree(gs.code);
    assert SplicedStart()[..5] + [LoadBool(0, false, false)] == SplicedStart();
  }

  lemma SplicedToReg()
    ensures ToNextReg(Empty(), SPLICED).0 == Fs(SplicedCode(), [6], 9, 1, 0, [Num(1)], map[Num(1) := 0])
  {
    hide Compile, Patch, Loads, Discharge2Reg;
    CompileSpliced();
    var gs := Fs(Tested1() + [Jmp(None)] + [Jmp(None)], [3], 5, 1, 0, [Num(1)], map[Num(1) := 0]);
    var d := Exp(VFalse, [4, 2], []);
    assert ToNextReg(Empty(), SPLICED).0 == Exp2Reg(gs, d, 0);
    SplicedDischarge(gs);
    var g1 := gs.(code := SplicedStart(), jpc := []);
    assert NeedValue(SplicedStart(), [4, 2]) by { assert !Carries(SplicedStart(), 4); }
    var c2 := WithLoads(SplicedStart() + [Jmp(None)], 0);
    LoadsShape(g1, 0, false);
    assert Final(g1, d, 0) == g1.(code := c2, lasttarget := 9, jpc := [6]) by { JoinNil([6]); }
    PatchEmpty(c2, Some(0), 9, Some(7));
    PatchLast(c2);
  }

  lemma PatchThree(code: Code)
    requires code == Tested1() + [Jmp(None)] + [Jmp(None)]
    ensures Patch(code, [3], None, 5, Some(5)) == [LoadK(0, 0), TestSet(None, 0, true), Jmp(None), Jmp(Some(5)), Jmp(None)]
  {
    var list: seq<nat> := [3];
    assert forall i: nat :: i in list <==> i == 3;
  }

  lemma PatchLast(code: Code)
    requires code == [LoadK(0, 0), TestSet(None, 0, true), Jmp(None), Jmp(Some(5)), Jmp(None), LoadBool(0, false, false),
                      Jmp(None), LoadBool(0, false, true), LoadBool(0, true, false)]
    ensures Patch(code, [4, 2], Some(0), 9, Some(8)) == SplicedCode()
  {
    var list: seq<nat> := [4, 2];
    assert forall i: nat :: i in list <==> i == 4 || i == 2;
  }

  /**
   * The value theorem fails for this literal: the expression is true, the code leaves 1. The
   * branch theorem does cover it.
   */
  lemma SplicedValue(m: Ops)
    ensures CanCompile(Empty(), SPLICED) && FreshFrame(map[], Empty().nactvar)
    ensures Behave(m, Empty(), map[]) == Here(map[])
    ensures Eval(m, SPLICED, map[]) == Bool(true)
    ensures Behave(m, ToNextReg(Empty(), SPLICED).0, map[]) == Here(map[0 := Num(1)])
    ensures !Exact(Empty(), SPLICED) && Sound(Empty(), SPLICED)
    ensures NumbersOk(m) ==> !ExactIn(m, Empty(), SPLICED, map[])
  {
    hide ToNextReg, Compile, Exact, Sound, ExactIn, NumbersOk;
    if NumbersOk(m) && ExactIn(m, Empty(), SPLICED, map[]) {
      ValueTheorem(m, Empty(), SPLICED, map[]) by { EmptyOk(); }
    }
    EmptyOk();
    EmptyRuns(m, map[]);
    SplicedToReg();
    RunSpliced(m);
    SplicedHazard();
    assert Eval(m, ENum(1), map[]) == Num(1);
    assert Eval(m, ONE_OR_FALSE, map[]) == Num(1);
    assert Eval(m, THEN_TRUE, map[]) == Bool(true);
  }

  lemma RunSpliced(m: Ops)
    ensures Run(m, SplicedCode(), [Num(1)], 0, map[]) == Here(map[0 := Num(1)])
  {
    var r: Regs := map[0 := Num(1)];
    assert Run(m, SplicedCode(), [Num(1)], 9, r) == Here(r);
    assert Run(m, SplicedCode(), [Num(1)], 1, r) == Here(r);
  }

  lemma SplicedHazard()
    ensures !Exact(Empty(), SPLICED) && Sound(Empty(), SPLICED)
  {
    hide GoIfTrue, GoIfFalse, Compile;
    CompileThenTrue();
    var (f1, d1) := Compile(Empty(), THEN_TRUE);
    assert 2 in f1.jpc && Carries(f1.code, 2);
    assert !SpliceFree(f1, BOr, d1);
    assert Sound(Empty(), ONE_OR_FALSE);
    assert Sound(Empty(), THEN_TRUE);
  }

  // ---------------------------------------------------------------- (((1 or false) and true) or false) == true

  const ONE_IS_TRUE: Expr := EBin(BRel(OpEq), ENum(1), ETrue)
  const SPLICED_IS_TRUE: Expr := EBin(BRel(OpEq), SPLICED, ETrue)

  /** To the code around it, the spliced expression is 1. */
  lemma SplicedMeansOne(m: Ops)
    ensures var (gs, d) := Compile(Empty(), SPLICED);
            CompiledOk(Empty(), gs, d) && Means(m, Empty(), gs, d, ENum(1), map[], true)
  {
    hide Compile, FsOk, CompiledOk;
    EmptyOk();
    CompileStructure(Empty(), SPLICED);
    CompileSpliced();
    EmptyRuns(m, map[]);
    var r: Regs := map[0 := Num(1)];
    var code := Tested1() + [Jmp(None)] + [Jmp(None)];
    assert Run(m, code, [Num(1)], 1, r) == At(2, r);
    assert Run(m, code, [Num(1)], 0, map[]) == At(2, r);
  }

  /**
   * The branch theorem fails where a value is needed: the condition is true, and control goes where
   * `1 == true` sends it, so it leaves if 1 and true are different.
   */
  lemma SplicedBranch(m: Ops)
    ensures CanCompile(Empty(), SPLICED_IS_TRUE) && FreshFrame(map[], Empty().nactvar)
    ensures var (hs, out) := Cond(Empty(), SPLICED_IS_TRUE);
            && Decides(m, Empty(), hs, out, ONE_IS_TRUE, map[])
            && (Decides(m, Empty(), hs, out, SPLICED_IS_TRUE, map[]) <==>
                  m.cmp(Eq, Num(1), Bool(true)) == m.cmp(Eq, Bool(true), Bool(true)))
  {
    hide Compile, CompiledOk, Means, Decide, Infix, LeftReady, CodeComp, Behave, Eval;
    EmptyOk();
    EmptyRuns(m, map[]);
    SplicedMeansOne(m);
    var (f1, d1) := Compile(Empty(), SPLICED);
    LeftState(m, Empty(), ENum(1), ETrue, BRel(OpEq), f1, d1, map[]);
    var (f2, e1) := Infix(f1, BRel(OpEq), d1);
    var d2 := Exp(VTrue, [], []);
    TrueLiteral(f2);
    Literal(m, f2, ETrue, d2, map[], true);
    CompileRel(m, Empty(), OpEq, ENum(1), ETrue, f2, e1, f2, d2, map[]);
    var (hs, d) := Compile(Empty(), SPLICED_IS_TRUE);
    SplicedCompared();
    Inexact(m, Empty(), hs, d, ONE_IS_TRUE, map[], false);
    MeansDecides(m, Empty(), hs, d, ONE_IS_TRUE, map[]);
    SplicedMeaning(m);
  }

  lemma TrueLiteral(fs: Fs)
    ensures Compile(fs, ETrue) == (fs, Exp(VTrue, [], []))
  {
  }

  lemma SplicedCompared()
    ensures var (f1, d1) := Compile(Empty(), SPLICED);
            var (f2, e1) := Infix(f1, BRel(OpEq), d1);
            Compile(Empty(), SPLICED_IS_TRUE) == CodeComp(f2, Eq, true, e1, Exp(VTrue, [], []))
  {
    hide Infix, CodeComp;
    var (f1, d1) := Compile(Empty(), SPLICED);
    TrueLiteral(Infix(f1, BRel(OpEq), d1).0);
  }

  lemma SplicedMeaning(m: Ops)
    ensures Eval(m, ONE_IS_TRUE, map[]) == Bool(m.cmp(Eq, Num(1), Bool(true)))
    ensures Eval(m, SPLICED_IS_TRUE, map[]) == Bool(m.cmp(Eq, Bool(true), Bool(true)))
  {
    assert Eval(m, ENum(1), map[]) == Num(1);
    assert Eval(m, ONE_OR_FALSE, map[]) == Num(1);
    assert Eval(m, THEN_TRUE, map[]) == Bool(true);
    assert Eval(m, SPLICED, map[]) == Bool(true);
  }
}
