/** What compiled expressions compute, for every expression and every state of the registers. */
module CgTheorems {
  import opened CgCode
  import opened CgState
  import opened CgExp
  import opened CgReg
  import opened CgOperand
  import opened CgCond
  import opened CgNot
  import opened CgArith
  import opened CgCompile

  ghost predicate CanCompile(fs: Fs, e: Expr) {
    FsOk(fs) && fs.nactvar <= fs.freereg && Scoped(e, fs.nactvar)
  }

  lemma LeftState(m: Ops, fs: Fs, x: Expr, y: Expr, op: BinOp, f1: Fs, d1: Exp, start: Regs)
    requires CanCompile(fs, EBin(op, x, y)) && FreshFrame(start, fs.nactvar)
    requires CompiledOk(fs, f1, d1) && Means(m, fs, f1, d1, x, start, true) && (op.BArith? || op.BRel?)
    ensures var (f2, e1) := Infix(f1, op, d1);
            LeftReady(m, fs, f2, e1, x, start) && CanCompile(f2, y) && f2.nactvar == fs.nactvar
            && (op.BRel? ==> !e1.kind.VKNum?)
  {
    hide FsOk, Behave, Means, Exp2RK, CompiledOk, KeepsWaiting, ListsOk, KindOk;
    if op.BArith? && IsNumeral(d1) {
      LeftByNumeral(m, fs, x, f1, d1, start);
    } else {
      LeftByRK(m, fs, x, f1, d1, start);
    }
  }

  lemma LogicState(fs: Fs, x: Expr, y: Expr, op: BinOp, f1: Fs, d1: Exp)
    requires CanCompile(fs, EBin(op, x, y)) && CompiledOk(fs, f1, d1) && (op.BAnd? || op.BOr?)
    ensures var (f2, _) := Infix(f1, op, d1); CanCompile(f2, y) && f2.nactvar == fs.nactvar
  {
    hide FsOk, GoIfTrue, GoIfFalse, KeepsWaiting, ListsOk, KindOk;
    GoIfTrueOk(f1, d1);
    GoIfFalseOk(f1, d1);
  }

  /**
   * Compilation is correct: the descriptor denotes the value of the expression, whatever the code
   * around it. With `exact` this covers the values that jumps carry; without, only their truth.
   */
  lemma {:induction false} Compiles(m: Ops, fs: Fs, e: Expr, start: Regs, exact: bool)
    requires CanCompile(fs, e) && FreshFrame(start, fs.nactvar) && NumbersOk(m)
    requires if exact then ExactIn(m, fs, e, start) else SoundIn(m, fs, e, start)
    ensures var (gs, d) := Compile(fs, e); CompiledOk(fs, gs, d) && Means(m, fs, gs, d, e, start, exact)
    decreases e
  {
    hide FsOk, CompiledOk, Means, NumbersOk, Eval, Infix, Prefix, CodeNot, FreshFrame, Posfix, DescValue, Delivering;
    match e
    case ENil => Literal(m, fs, e, Exp(VNil, [], []), start, exact);
    case ETrue => Literal(m, fs, e, Exp(VTrue, [], []), start, exact);
    case EFalse => Literal(m, fs, e, Exp(VFalse, [], []), start, exact);
    case ENum(n) => Literal(m, fs, e, Exp(VKNum(n), [], []), start, exact);
    case ELocal(x) => Literal(m, fs, e, Exp(VLocal(x), [], []), start, exact);
    case EStr(id) => NewString(m, fs, id, start, exact);
    case ENot(x) =>
      Compiles(m, fs, x, start, false);
      var (gs, d) := Compile(fs, x);
      CompileNot(m, fs, x, gs, d, start, exact);
      Inexact(m, fs, CodeNot(gs, d).0, CodeNot(gs, d).1, e, start, exact);
    case EMinus(x) =>
      Compiles(m, fs, x, start, true);
      CompilePrefix(m, fs, Unm, x, Compile(fs, x).0, Compile(fs, x).1, start, exact);
    case ELen(x) =>
      Compiles(m, fs, x, start, true);
      CompilePrefix(m, fs, Len, x, Compile(fs, x).0, Compile(fs, x).1, start, exact);
    case EBin(op, x, y) =>
      if op.BAnd? || op.BOr? {
        Compiles(m, fs, x, start, exact);
        var (f1, d1) := Compile(fs, x);
        LogicState(fs, x, y, op, f1, d1);
        var (f2, e1) := Infix(f1, op, d1);
        Compiles(m, f2, y, start, exact);
        LogicCase(m, fs, e, f1, d1, Compile(f2, y).0, Compile(f2, y).1, start, exact);
      } else {
        Compiles(m, fs, x, start, true);
        var (f1, d1) := Compile(fs, x);
        LeftState(m, fs, x, y, op, f1, d1, start);
        var (f2, e1) := Infix(f1, op, d1);
        Compiles(m, f2, y, start, true);
        ValueCase(m, fs, e, f2, e1, Compile(f2, y).0, Compile(f2, y).1, start, exact);
      }
  }

  lemma Literal(m: Ops, fs: Fs, e: Expr, d: Exp, start: Regs, exact: bool)
    requires CanCompile(fs, e) && !HasJumps(d) && (e.ENil? || e.ETrue? || e.EFalse? || e.ENum? || e.ELocal?)
    requires (fs, d) == Compile(fs, e)
    ensures CompiledOk(fs, fs, d) && Means(m, fs, fs, d, e, start, exact)
  {
    hide FsOk, CompiledOk, Means;
    NewExp(m, fs, e, d, start, exact);
  }

  lemma LogicCase(m: Ops, fs: Fs, e: Expr, f1: Fs, d1: Exp, f3: Fs, d2: Exp, start: Regs, exact: bool)
    requires CanCompile(fs, e) && FreshFrame(start, fs.nactvar) && e.EBin? && (e.op.BAnd? || e.op.BOr?)
    requires CompiledOk(fs, f1, d1) && Means(m, fs, f1, d1, e.l, start, exact)
    requires exact ==> Delivering(m, f1, d1, e.op.BOr?, start)
    requires var (f2, e1) := Infix(f1, e.op, d1); CompiledOk(f2, f3, d2) && Means(m, f2, f3, d2, e.r, start, exact)
    ensures var (hs, d) := Posfix(f3, e.op, Infix(f1, e.op, d1).1, d2);
            CompiledOk(fs, hs, d) && Means(m, fs, hs, d, e, start, exact)
  {
    hide FsOk, CompiledOk, Means, Eval, GoIfTrue, GoIfFalse, FreshFrame, Delivering;
    LeftAt(m, fs, start);
    CompileLogic(m, fs, e.l, e.r, e.op.BOr?, f1, d1, f3, d2, start, exact);
  }

  lemma ValueCase(m: Ops, fs: Fs, e: Expr, f2: Fs, e1: Exp, f3: Fs, d2: Exp, start: Regs, exact: bool)
    requires CanCompile(fs, e) && FreshFrame(start, fs.nactvar) && NumbersOk(m) && e.EBin? && (e.op.BArith? || e.op.BRel?)
    requires LeftReady(m, fs, f2, e1, e.l, start) && (e.op.BRel? ==> !e1.kind.VKNum?)
    requires CompiledOk(f2, f3, d2) && Means(m, f2, f3, d2, e.r, start, true)
    ensures var (hs, d) := Posfix(f3, e.op, e1, d2); CompiledOk(fs, hs, d) && Means(m, fs, hs, d, e, start, exact)
  {
    hide FsOk, CompiledOk, Means, Eval, FreshFrame, NumbersOk, LeftReady, CodeArith, CodeComp;
    if e.op.BArith? {
      CompileArith(m, fs, e.op.op, e.l, e.r, f2, e1, f3, d2, start);
    } else {
      CompileRel(m, fs, e.op.rel, e.l, e.r, f2, e1, f3, d2, start);
    }
    var (hs, d) := Posfix(f3, e.op, e1, d2);
    Inexact(m, fs, hs, d, e, start, exact);
  }

  // ---------------------------------------------------------------- structure without meaning

  function SomeOps(): Ops {
    Ops((o, v, w) => Nil, v => Nil, v => Nil, (o, v, w) => true)
  }

  lemma NotStructure(fs: Fs, gs: Fs, d: Exp)
    requires CompiledOk(fs, gs, d)
    ensures CompiledOk(fs, CodeNot(gs, d).0, CodeNot(gs, d).1)
  {
    hide FsOk, Behave, ListsOk, KindOk, CodeNot, Denotes, Gone, KeepsWaiting;
    CodeNotDenotes(SomeOps(), gs, d, map[], map[], 0, Nil);
    GrowsTransitive(fs, gs, CodeNot(gs, d).0, {}, Own(d));
    NotConstant(gs, d);
  }

  lemma PrefixStructure(fs: Fs, op: UnaryOp, gs: Fs, d: Exp)
    requires CompiledOk(fs, gs, d) && !op.Not?
    ensures CompiledOk(fs, Prefix(gs, op, d).0, Prefix(gs, op, d).1)
    ensures !(op.Unm? && IsNumeral(d)) ==>
              UnaryOperand(op, Exp2AnyReg(gs, d).1) && DescOk(Exp2AnyReg(gs, d).0, Exp2AnyReg(gs, d).1)
  {
    hide FsOk, ListsOk, KindOk, KeepsWaiting, Exp2AnyReg, CodeUnary;
    if op.Unm? && IsNumeral(d) {
      CodeUnaryOk(SomeOps(), gs, op, d, map[]);
      GrowsTransitive(fs, gs, CodeUnary(gs, op, d).0, {}, {});
      PlainResult(fs, CodeUnary(gs, op, d).0, CodeUnary(gs, op, d).1);
    } else {
      Exp2AnyRegOk(gs, d);
      var (f1, y) := Exp2AnyReg(gs, d);
      SlotAbove(gs, d);
      RegisterDesc(f1, Slot(gs, d), y);
      CodeUnaryOk(SomeOps(), f1, op, y, map[]);
      var (hs, z) := CodeUnary(f1, op, y);
      GrowsTransitive(fs, gs, f1, {}, Own(d));
      GrowsTransitive(fs, f1, hs, {}, {});
      PlainResult(fs, hs, z);
    }
  }

  /** The left operand of an operator on values, once it is ready. */
  ghost predicate LeftOperand(fs: Fs, gs: Fs, e1: Exp) {
    DescOk(gs, e1) && Ready(e1) && Grows(fs, gs, {}) && Slot(gs, e1) == fs.freereg && fs.freereg <= gs.freereg
  }

  lemma InfixStructure(fs: Fs, op: BinOp, f1: Fs, d1: Exp)
    requires CompiledOk(fs, f1, d1) && (op.BArith? || op.BRel?) && fs.nactvar <= fs.freereg
    ensures var (f2, e1) := Infix(f1, op, d1); LeftOperand(fs, f2, e1) && (op.BRel? ==> !e1.kind.VKNum?)
  {
    hide FsOk, ListsOk, KindOk, KeepsWaiting, Exp2RK;
    if !(op.BArith? && IsNumeral(d1)) {
      Exp2RKOk(f1, d1);
      var (f2, e1, o1) := Exp2RK(f1, d1);
      GrowsTransitive(fs, f1, f2, {}, Own(d1));
      SmallIndex(f1, d1);
      OperandDesc(f2, fs.freereg, e1, o1);
    }
  }

  lemma PosfixStructure(fs: Fs, op: BinOp, f2: Fs, e1: Exp, f3: Fs, d2: Exp)
    requires LeftOperand(fs, f2, e1) && CompiledOk(f2, f3, d2) && (op.BArith? || (op.BRel? && !e1.kind.VKNum?))
    ensures CompiledOk(fs, Posfix(f3, op, e1, d2).0, Posfix(f3, op, e1, d2).1)
    ensures Pair(f3, e1, d2)
  {
    hide FsOk, ListsOk, KindOk, KeepsWaiting, CodeArith, CodeComp;
    assert Pair(f3, e1, d2) && Slot(f3, e1) == fs.freereg by { StillReady(f2, f3, e1); }
    var (hs, e) := Posfix(f3, op, e1, d2);
    if op.BArith? {
      CodeArithOk(SomeOps(), f3, op.op, e1, d2, map[]);
    } else {
      CodeCompOk(SomeOps(), f3, CmpOf(op.rel).0, CmpOf(op.rel).1, e1, d2, map[]);
    }
    GrowsTransitive(fs, f2, f3, {}, {});
    GrowsTransitive(fs, f3, hs, {}, Own(d2));
    PlainResult(fs, hs, e);
  }

  lemma LogicStructure(fs: Fs, op: BinOp, f1: Fs, d1: Exp, f3: Fs, d2: Exp)
    requires CompiledOk(fs, f1, d1) && (op.BAnd? || op.BOr?)
    requires CompiledOk(Infix(f1, op, d1).0, f3, d2)
    ensures CompiledOk(fs, Posfix(f3, op, Infix(f1, op, d1).1, d2).0, Posfix(f3, op, Infix(f1, op, d1).1, d2).1)
  {
    hide FsOk, ListsOk, KindOk, KeepsWaiting, GoIfTrue, GoIfFalse, CompiledOk, CondOk;
    CompiledFacts(fs, f1, d1);
    GoIfTrueOk(f1, d1);
    GoIfFalseOk(f1, d1);
    var (f2, out) := if op.BOr? then GoIfFalse(f1, d1) else GoIfTrue(f1, d1);
    VarsStructure(f2, f3, d2);
    JoinedGrows(fs, f1, d1, f2, out, f3, DischargeVars(d2), op.BOr?);
  }

  lemma VarsStructure(fs: Fs, gs: Fs, d: Exp)
    requires CompiledOk(fs, gs, d)
    ensures CompiledOk(fs, gs, DischargeVars(d))
  {
    hide FsOk, KeepsWaiting, ListsOk, KindOk;
    DischargeVarsKind(gs, d);
    if d.kind.VLocal? { LocalActive(gs, d); }
  }

  /** Whatever is compiled, the generator stays in order: jumps and registers of others are not touched. */
  lemma {:induction false} CompileStructure(fs: Fs, e: Expr)
    requires CanCompile(fs, e)
    ensures CompiledOk(fs, Compile(fs, e).0, Compile(fs, e).1)
    decreases e
  {
    hide FsOk, CompiledOk, Infix, Prefix, CodeNot, Posfix;
    match e
    case EStr(id) => NewString(SomeOps(), fs, id, map[], false);
    case ENot(x) =>
      CompileStructure(fs, x);
      NotStructure(fs, Compile(fs, x).0, Compile(fs, x).1);
    case EMinus(x) =>
      CompileStructure(fs, x);
      PrefixStructure(fs, Unm, Compile(fs, x).0, Compile(fs, x).1);
    case ELen(x) =>
      CompileStructure(fs, x);
      PrefixStructure(fs, Len, Compile(fs, x).0, Compile(fs, x).1);
    case EBin(op, x, y) =>
      CompileStructure(fs, x);
      var (f1, d1) := Compile(fs, x);
      if op.BAnd? || op.BOr? {
        LogicState(fs, x, y, op, f1, d1);
        CompileStructure(Infix(f1, op, d1).0, y);
        LogicStructure(fs, op, f1, d1, Compile(Infix(f1, op, d1).0, y).0, Compile(Infix(f1, op, d1).0, y).1);
      } else {
        InfixStructure(fs, op, f1, d1);
        RightState(fs, x, y, op, f1, d1);
        var (f2, e1) := Infix(f1, op, d1);
        CompileStructure(f2, y);
        PosfixStructure(fs, op, f2, e1, Compile(f2, y).0, Compile(f2, y).1);
      }
    case _ => Literal(SomeOps(), fs, e, Compile(fs, e).1, map[], false);
  }

  lemma RightState(fs: Fs, x: Expr, y: Expr, op: BinOp, f1: Fs, d1: Exp)
    requires CanCompile(fs, EBin(op, x, y)) && LeftOperand(fs, Infix(f1, op, d1).0, Infix(f1, op, d1).1)
    ensures CanCompile(Infix(f1, op, d1).0, y)
  {
    hide FsOk, Infix, ListsOk, KindOk, KeepsWaiting;
  }

  // ---------------------------------------------------------------- the theorems

  /** The state in which the value of `e` has been put into the next register. */
  function ToNextReg(fs: Fs, e: Expr): (Fs, Exp) {
    var (gs, d) := Compile(fs, e);
    Exp2NextReg(gs, d)
  }

  /** Control that came to the expression goes on with the value in the first free register. */
  ghost predicate Yields(m: Ops, fs: Fs, hs: Fs, e: Expr, start: Regs) {
    match Behave(m, fs, start)
    case Here(r) => Holds(m, hs, start, r, fs.freereg, fs.freereg, Eval(m, e, r))
    case At(_, _) => Behave(m, hs, start) == Behave(m, fs, start)
  }

  /** Control that came to the condition falls through if it is true, and leaves by the list if it is not. */
  ghost predicate Decides(m: Ops, fs: Fs, hs: Fs, out: seq<nat>, e: Expr, start: Regs) {
    var o := Behave(m, hs, start);
    match Behave(m, fs, start)
    case Here(r) =>
      SameBelow(r, o.regs, fs.freereg) && if Truthy(Eval(m, e, r)) then o.Here? else o.At? && o.pc in out
    case At(_, _) => o == Behave(m, fs, start)
  }

  /**
   * The value theorem: in a run in which no jump brings another value to a literal, the code leaves the value of the expression in the first free register,
   * changes no register below it, and leaves one more register in use; jumps that wait elsewhere
   * and control that had left already are not touched.
   */
  lemma ValueTheorem(m: Ops, fs: Fs, e: Expr, start: Regs)
    requires CanCompile(fs, e) && FreshFrame(start, fs.nactvar) && NumbersOk(m) && ExactIn(m, fs, e, start)
    ensures var (hs, d) := ToNextReg(fs, e);
            && d == Register(fs.freereg) && hs.freereg == fs.freereg + 1
            && FsOk(hs) && Grows(fs, hs, {})
            && Yields(m, fs, hs, e, start)
  {
    hide FsOk, KeepsWaiting, CompiledOk, Means, Exp2NextReg, ExactIn, Yields;
    Compiles(m, fs, e, start, true);
    MeansYields(m, fs, Compile(fs, e).0, Compile(fs, e).1, e, start);
  }

  /** A descriptor that denotes the value of the expression gives it to the next register. */
  lemma MeansYields(m: Ops, fs: Fs, gs: Fs, d: Exp, e: Expr, start: Regs)
    requires CompiledOk(fs, gs, d) && Means(m, fs, gs, d, e, start, true) && FreshFrame(start, fs.nactvar)
    ensures var (hs, x) := Exp2NextReg(gs, d);
            && x == Register(fs.freereg) && hs.freereg == fs.freereg + 1
            && FsOk(hs) && Grows(fs, hs, {})
            && Yields(m, fs, hs, e, start)
  {
    hide FsOk, Behave, KeepsWaiting, ListsOk, KindOk, Denotes, Gone, Exp2NextReg, Holds, Eval;
    Exp2NextRegOk(gs, d);
    GrowsTransitive(fs, gs, Exp2NextReg(gs, d).0, {}, Own(d));
    match Behave(m, fs, start)
    case Here(r) => Exp2NextRegRuns(m, gs, d, start, r, fs.freereg, Eval(m, e, r));
    case At(_, _) => Exp2NextRegGone(m, gs, d, start, Behave(m, fs, start));
  }

  /** cond of lparser.c: a nil condition counts as false; the result lists the jumps for a false condition. */
  function Cond(fs: Fs, e: Expr): (Fs, seq<nat>) {
    var (gs, d) := Compile(fs, e);
    Decide(gs, d)
  }

  function Decide(gs: Fs, d: Exp): (Fs, seq<nat>) {
    GoIfTrue(gs, if d.kind.VNil? then d.(kind := VFalse) else d)
  }

  /** What is common to every condition: the state is in order and the jumps of the list wait for a target. */
  ghost predicate BranchOk(fs: Fs, hs: Fs, out: seq<nat>) {
    && FsOk(hs) && Grows(fs, hs, {}) && hs.freereg == fs.freereg
    && Waiting(hs.code, out) && Disjoint(out, hs.jpc)
  }

  /**
   * The branch theorem: control falls through exactly if the condition is true and otherwise leaves
   * by a jump on the list; where only the truth of an operand matters, jumps may bring other values to literals.
   */
  lemma BranchTheorem(m: Ops, fs: Fs, e: Expr, start: Regs)
    requires CanCompile(fs, e) && FreshFrame(start, fs.nactvar) && NumbersOk(m) && SoundIn(m, fs, e, start)
    ensures var (hs, out) := Cond(fs, e); BranchOk(fs, hs, out) && Decides(m, fs, hs, out, e, start)
  {
    hide FsOk, Decide, CompiledOk, Means, Decides, BranchOk, SoundIn;
    Compiles(m, fs, e, start, false);
    MeansDecides(m, fs, Compile(fs, e).0, Compile(fs, e).1, e, start);
  }

  /** A descriptor that denotes the truth of the expression decides as it does. */
  lemma MeansDecides(m: Ops, fs: Fs, gs: Fs, d: Exp, e: Expr, start: Regs)
    requires CompiledOk(fs, gs, d) && Means(m, fs, gs, d, e, start, false) && FreshFrame(start, fs.nactvar)
    ensures var (hs, out) := Decide(gs, d); BranchOk(fs, hs, out) && Decides(m, fs, hs, out, e, start)
  {
    hide FsOk, Behave, KeepsWaiting, ListsOk, KindOk, Denotes, Gone, GoIfTrue, Eval;
    var c := if d.kind.VNil? then d.(kind := VFalse) else d;
    FalseForNil(fs, gs, d);
    GoIfTrueOk(gs, c);
    var (hs, out) := Decide(gs, d);
    GrowsTransitive(fs, gs, hs, {}, Own(c));
    match Behave(m, fs, start)
    case Here(r) =>
      var v := Eval(m, e, r);
      if d.kind.VNil? {
        FalseForNilDenotes(m, gs, d, start, r, fs.freereg, v);
        GoIfTrueRuns(m, gs, c, start, r, fs.freereg, if Truthy(v) then v else Bool(false), false);
      } else {
        GoIfTrueRuns(m, gs, c, start, r, fs.freereg, v, false);
      }
    case At(_, _) =>
      FalseForNilGone(m, gs, d, start, Behave(m, fs, start));
      CondGone(m, gs, c, start, Behave(m, fs, start));
  }

  lemma FalseForNil(fs: Fs, gs: Fs, d: Exp)
    requires CompiledOk(fs, gs, d)
    ensures var c := if d.kind.VNil? then d.(kind := VFalse) else d;
            && DescOk(gs, c) && Slot(gs, c) == fs.freereg && TrueConstant(gs, c) && Own(c) == Own(d)
  {
    hide FsOk;
    ListsNotKind(gs, d, d.(kind := VFalse));
  }

  lemma FalseForNilDenotes(m: Ops, fs: Fs, d: Exp, start: Regs, r0: Regs, n: nat, v: Value)
    requires d.kind.VNil? && Denotes(m, fs, d, start, r0, n, v, false)
    ensures Denotes(m, fs, d.(kind := VFalse), start, r0, n, if Truthy(v) then v else Bool(false), false)
  {
    hide Behave;
  }

  lemma FalseForNilGone(m: Ops, fs: Fs, d: Exp, start: Regs, o: Outcome)
    requires Gone(m, fs, d, start, o)
    ensures Gone(m, fs, if d.kind.VNil? then d.(kind := VFalse) else d, start, o)
  {
    hide Behave;
  }
}
