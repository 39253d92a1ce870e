/**
 * What the code of an expression names: registers of its frame only, no more of them than the expression
 * needs, and constants that fit their operands; and every jump without a target is on a list.
 */
module CgTidy {
  import opened CgCode
  import opened CgState
  import opened CgExp
  import opened CgReg
  import opened CgOperand
  import opened CgCond
  import opened CgNot
  import opened CgArith
  import opened CgCompile
  import opened CgTheorems
  import opened Wrappers

  // ---------------------------------------------------------------- what is kept

  predicate OperandInFrame(o: RK, n: nat) {
    match o
    case R(r) => r < n
    case K(i) => i <= MAXINDEXRK
  }

  /** The registers of the instruction are below `n`. */
  predicate InFrame(i: Instr, n: nat) {
    match i
    case Move(a, b) => a < n && b < n
    case LoadK(a, _) => a < n
    case LoadBool(a, _, _) => a < n
    case LoadNil(a, b) => a < n && b < n
    case Arith(_, a, l, r) => a < n && OperandInFrame(l, n) && OperandInFrame(r, n)
    case Unary(_, a, b) => a < n && b < n
    case Jmp(_) => true
    case Cmp(_, _, l, r) => OperandInFrame(l, n) && OperandInFrame(r, n)
    case Test(b, _) => b < n
    case TestSet(reg, b, _) => b < n && (reg.Some? ==> reg.value < n)
  }

  /** A jump without a target waits in `w`, and so does the jump of a TestSet without a register. */
  predicate TidyAt(code: Code, w: set<nat>, n: nat, i: nat)
    requires i < |code|
  {
    && InFrame(code[i], n)
    && (code[i] == Jmp(None) ==> i in w)
    && (code[i].TestSet? && code[i].reg.None? ==> i + 1 < |code| && code[i+1] == Jmp(None))
  }

  ghost predicate TidyCode(code: Code, w: set<nat>, n: nat) {
    forall i: nat | i < |code| :: TidyAt(code, w, n, i)
  }

  /** Besides the jumps to here only those of `w` wait. */
  ghost predicate Tidy(fs: Fs, w: set<nat>, n: nat) {
    TidyCode(fs.code, w + Elems(fs.jpc), n)
  }

  lemma TidyMore(fs: Fs, w: set<nat>, n: nat, w': set<nat>, n': nat)
    requires Tidy(fs, w, n) && w <= w' + Elems(fs.jpc) && n <= n'
    ensures Tidy(fs, w', n')
  {
    forall i: nat | i < |fs.code| ensures TidyAt(fs.code, w' + Elems(fs.jpc), n', i) {
      assert TidyAt(fs.code, w + Elems(fs.jpc), n, i);
    }
  }

  // ---------------------------------------------------------------- primitives

  /** patchlistaux gives every jump of the list its target. */
  lemma PatchTidy(code: Code, list: seq<nat>, reg: Option<nat>, v: nat, d: Option<nat>, w: set<nat>, w': set<nat>, n: nat)
    requires TidyCode(code, w, n) && w <= w' + Elems(list) && (reg.Some? ==> reg.value < n)
    requires d.Some? || !NeedValue(code, list)
    ensures TidyCode(Patch(code, list, reg, v, d), w', n)
  {
    var c := Patch(code, list, reg, v, d);
    forall i: nat | i < |c| ensures TidyAt(c, w', n, i) {
      assert TidyAt(code, w, n, i);
      assert c[i] == PatchedAt(code, list, reg, v, d, i);
      if i + 1 < |c| { assert c[i+1] == PatchedAt(code, list, reg, v, d, i + 1); }
    }
  }

  lemma DischargeTidy(fs: Fs, w: set<nat>, n: nat)
    requires Tidy(fs, w, n)
    ensures Tidy(Discharge(fs), w, n)
  {
    PatchTidy(fs.code, fs.jpc, None, |fs.code|, Some(|fs.code|), w + Elems(fs.jpc), w + Elems([]), n);
  }

  lemma AppendTidy(code: Code, i: Instr, w: set<nat>, n: nat)
    requires TidyCode(code, w, n) && InFrame(i, n) && !i.TestSet? && (i == Jmp(None) ==> |code| in w)
    ensures TidyCode(code + [i], w, n)
  {
    var c := code + [i];
    forall x: nat | x < |c| ensures TidyAt(c, w, n, x) {
      if x < |code| { assert TidyAt(code, w, n, x); }
    }
  }

  lemma EmitTidy(fs: Fs, i: Instr, w: set<nat>, n: nat)
    requires Tidy(fs, w, n) && InFrame(i, n) && !i.TestSet? && !i.Jmp?
    ensures Tidy(Emit(fs, i), w, n)
  {
    DischargeTidy(fs, w, n);
    AppendTidy(Discharge(fs).code, i, w + Elems([]), n);
  }

  lemma WaitMore(code: Code, w: set<nat>, n: nat, w': set<nat>)
    requires TidyCode(code, w, n) && w <= w'
    ensures TidyCode(code, w', n)
  {
    forall i: nat | i < |code| ensures TidyAt(code, w', n, i) {
      assert TidyAt(code, w, n, i);
    }
  }

  lemma JumpTidy(fs: Fs, w: set<nat>, n: nat)
    requires Tidy(fs, w, n)
    ensures Tidy(Jump(fs).0, w + Elems(Jump(fs).1), n)
  {
    var (gs, list) := Jump(fs);
    assert |fs.code| in Elems(list) && Elems(fs.jpc) <= Elems(list);
    WaitMore(fs.code, w + Elems(fs.jpc), n, w + Elems(list) + Elems([]));
    AppendTidy(fs.code, Jmp(None), w + Elems(list) + Elems([]), n);
  }

  lemma CondJumpTidy(fs: Fs, test: Instr, w: set<nat>, n: nat)
    requires Tidy(fs, w, n) && InFrame(test, n) && IsTest(test)
    ensures var (gs, j) := CondJump(fs, test); gs.code[..j-1] == Discharge(fs).code && Tidy(gs, w + {j}, n)
  {
    DischargeTidy(fs, w, n);
    var (gs, j) := CondJump(fs, test);
    var code := Discharge(fs).code;
    assert gs.code == code + [test] + [Jmp(None)];
    forall i: nat | i < |gs.code| ensures TidyAt(gs.code, w + {j} + Elems(gs.jpc), n, i) {
      if i < |code| { assert TidyAt(code, w + Elems([]), n, i); }
    }
  }

  lemma HereTidy(fs: Fs, list: seq<nat>, w: set<nat>, n: nat)
    requires Tidy(fs, w + Elems(list), n)
    ensures Tidy(PatchToHere(fs, list), w, n)
  {
    assert Elems(fs.jpc + list) == Elems(fs.jpc) + Elems(list);
    WaitMore(fs.code, w + Elems(list) + Elems(fs.jpc), n, w + Elems(fs.jpc + list));
  }

  lemma RemoveTidy(code: Code, list: seq<nat>, w: set<nat>, n: nat)
    requires TidyCode(code, w, n)
    ensures TidyCode(RemoveValues(code, list), w, n)
  {
    var c := RemoveValues(code, list);
    forall i: nat | i < |c| ensures TidyAt(c, w, n, i) {
      assert TidyAt(code, w, n, i);
    }
  }

  /** One instruction that is neither a jump nor a TestSet changes into another. */
  lemma ChangeTidy(code: Code, p: nat, i: Instr, w: set<nat>, n: nat)
    requires TidyCode(code, w, n) && p < |code| && InFrame(i, n)
    requires !code[p].Jmp? && !code[p].TestSet? && !i.Jmp? && !i.TestSet?
    ensures TidyCode(code[p := i], w, n)
  {
    var c := code[p := i];
    forall x: nat | x < |c| ensures TidyAt(c, w, n, x) {
      assert TidyAt(code, w, n, x);
    }
  }

  lemma LastDropped(code: Code, w: set<nat>, n: nat)
    requires TidyCode(code, w, n) && 0 < |code| && !code[|code|-1].Jmp?
    ensures TidyCode(code[..|code|-1], w, n)
  {
    var c := code[..|code|-1];
    forall x: nat | x < |c| ensures TidyAt(c, w, n, x) {
      assert TidyAt(code, w, n, x);
    }
  }

  // ---------------------------------------------------------------- values into registers

  lemma LoadNilTidy(fs: Fs, from: nat, w: set<nat>, n: nat)
    requires Tidy(fs, w, n) && from < n
    ensures Tidy(LoadNilTo(fs, from), w, n)
  {
    var pc := |fs.code|;
    if pc > fs.lasttarget && pc > 0 && fs.code[pc-1].LoadNil? && fs.code[pc-1].a <= from <= fs.code[pc-1].b + 1 {
      if from > fs.code[pc-1].b {
        assert TidyAt(fs.code, w + Elems(fs.jpc), n, pc - 1);
        ChangeTidy(fs.code, pc - 1, LoadNil(fs.code[pc-1].a, from), w + Elems(fs.jpc), n);
      }
    } else if !(pc > fs.lasttarget && pc == 0 && from >= fs.nactvar) {
      EmitTidy(fs, LoadNil(from, from), w, n);
    }
  }

  lemma Discharge2RegTidy(fs: Fs, e: Exp, reg: nat, w: set<nat>, n: nat)
    requires Tidy(fs, w, n) && DescOk(fs, e) && reg < n && fs.freereg <= n
    ensures Tidy(Discharge2Reg(fs, e, reg), w, n)
  {
    hide FsOk, ListsOk, Emit;
    match e.kind
    case VNil => LoadNilTidy(fs, reg, w, n);
    case VFalse => EmitTidy(fs, LoadBool(reg, false, false), w, n);
    case VTrue => EmitTidy(fs, LoadBool(reg, true, false), w, n);
    case VK(i) => EmitTidy(fs, LoadK(reg, i), w, n);
    case VKNum(x) => EmitTidy(AddK(fs, Num(x)).0, LoadK(reg, AddK(fs, Num(x)).1), w, n);
    case VReloc(p) =>
      assert TidyAt(fs.code, w + Elems(fs.jpc), n, p);
      ChangeTidy(fs.code, p, SetA(fs.code[p], reg), w + Elems(fs.jpc), n);
    case VNonReloc(r) => if r != reg { EmitTidy(fs, Move(reg, r), w, n); }
    case VLocal(r) => if r != reg { EmitTidy(fs, Move(reg, r), w, n); }
    case VJmp(_) =>
  }

  lemma LoadsTidy(fs: Fs, reg: nat, isJump: bool, w: set<nat>, n: nat)
    requires Tidy(fs, w, n) && reg < n
    ensures Tidy(Loads(fs, reg, isJump), w, n)
  {
    hide Emit;
    var (gs, fj) := if isJump then (fs, []) else Jump(fs);
    if !isJump { JumpTidy(fs, w, n); }
    assert w + Elems([]) == w;
    EmitTidy(Label(gs), LoadBool(reg, false, true), w + Elems(fj), n);
    var h := Emit(Label(gs), LoadBool(reg, false, true));
    EmitTidy(Label(h), LoadBool(reg, true, false), w + Elems(fj), n);
    HereTidy(Emit(Label(h), LoadBool(reg, true, false)), fj, w, n);
  }

  lemma FinalTidy(fs: Fs, e: Exp, reg: nat, w: set<nat>, n: nat)
    requires Tidy(fs, w, n) && reg < n
    ensures Tidy(Final(fs, e, reg), w, n)
  {
    hide Loads;
    if NeedsLoads(fs, e) { LoadsTidy(fs, reg, e.kind.VJmp?, w, n); }
  }

  lemma LandTidy(h: Fs, e: Exp, reg: nat, dF: Option<nat>, dT: Option<nat>, w: set<nat>, n: nat)
    requires Tidy(h, w + Elems(e.t) + Elems(e.f), n) && reg < n && FsOk(h) && ListsOk(h, e)
    requires Landable(h, e.f, reg, dF, false) && Landable(h, e.t, reg, dT, true)
    ensures Tidy(Land(Land(h, e.f, reg, dF), e.t, reg, dT), w, n)
  {
    hide FsOk, ListsOk;
    LandBothOk(h, e, reg, dF, dT);
    var all := w + Elems(e.t) + Elems(e.f) + Elems(h.jpc);
    PatchTidy(h.code, e.f, Some(reg), |h.code|, dF, all, w + Elems(e.t) + Elems(h.jpc), n);
    var g := Land(h, e.f, reg, dF);
    PatchTidy(g.code, e.t, Some(reg), |g.code|, dT, w + Elems(e.t) + Elems(h.jpc), w + Elems(h.jpc), n);
  }

  /** exp2reg settles the lists of the descriptor. */
  lemma Exp2RegTidy(fs: Fs, e: Exp, reg: nat, w: set<nat>, n: nat)
    requires Tidy(fs, w + Own(e), n) && DescOk(fs, e) && (reg < fs.nactvar || reg + 1 == fs.freereg) && fs.freereg <= n
    ensures Tidy(Exp2Reg(fs, e, reg), w, n)
  {
    hide FsOk, ListsOk, KindOk, Discharge2Reg, Final, Land, Landable, Tidy;
    assert reg < n;
    Discharge2RegTidy(fs, e, reg, w + Own(e), n);
    DischargedOk(fs, e, reg);
    var g := Discharge2Reg(fs, e, reg);
    var e' := InReg(e, reg);
    if TrueList(e) == [] && e.f == [] {
      assert w + Own(e) == w;
    } else {
      FinalTidy(g, e, reg, w + Own(e), n);
      FinalOk(g, e', reg);
      var h := Final(g, e', reg);
      assert w + Own(e) == w + Elems(Whole(e').t) + Elems(Whole(e').f);
      LandTidy(h, Whole(e'), reg, LoadOf(g, h, e', false), LoadOf(g, h, e', true), w, n);
    }
  }

  lemma Exp2NextRegTidy(fs: Fs, e: Exp, w: set<nat>, n: nat)
    requires Tidy(fs, w + Own(e), n) && DescOk(fs, e) && Slot(fs, e) < n
    ensures Tidy(Exp2NextReg(fs, e).0, w, n)
  {
    hide FsOk, ListsOk, Exp2Reg;
    DischargeVarsOk(SomeOps(), fs, e, map[]);
    var d := DischargeVars(e);
    NextRegState(fs, d);
    var gs := Reserve(FreeExp(fs, d));
    ReservedDesc(fs, d);
    Exp2RegTidy(gs, d, gs.freereg - 1, w, n);
  }

  lemma ReservedDesc(fs: Fs, d: Exp)
    requires DescOk(fs, d) && !d.kind.VLocal?
    ensures DescOk(Reserve(FreeExp(fs, d)), d)
  {
    hide CodeOk, KOk;
  }

  lemma Exp2AnyRegTidy(fs: Fs, e: Exp, w: set<nat>, n: nat)
    requires Tidy(fs, w + Own(e), n) && DescOk(fs, e) && Slot(fs, e) < n
    ensures var (gs, d) := Exp2AnyReg(fs, e); Tidy(gs, w, n) && d.kind.VNonReloc? && d.kind.info < n
  {
    hide FsOk, ListsOk, Exp2Reg, Exp2NextReg, Tidy;
    DischargeVarsOk(SomeOps(), fs, e, map[]);
    Exp2AnyRegOk(fs, e);
    var d := DischargeVars(e);
    if d.kind.VNonReloc? && !HasJumps(d) {
      assert w + Own(e) == w;
    } else if d.kind.VNonReloc? && d.kind.info >= fs.nactvar {
      Exp2RegTidy(fs, d, d.kind.info, w, n);
    } else {
      Exp2NextRegTidy(fs, d, w, n);
    }
  }

  lemma Exp2RKTidy(fs: Fs, e: Exp, w: set<nat>, n: nat)
    requires Tidy(fs, w + Own(e), n) && DescOk(fs, e) && Slot(fs, e) < n
    ensures var (gs, d, o) := Exp2RK(fs, e); Tidy(gs, w, n) && OperandInFrame(o, n)
  {
    hide ListsOk, KindOk, CodeOk, KOk, Exp2AnyReg, LabelOk;
    Exp2ValOk(fs, e);
    var (gs, d) := Exp2Val(fs, e);
    if HasJumps(e) {
      Exp2AnyRegTidy(fs, e, w, n);
      TidyMore(gs, w, n, w + Own(d), n);
    } else {
      DischargeVarsOk(SomeOps(), fs, e, map[]);
    }
    var c := Constant(d.kind);
    if (c.Some? && |gs.k| <= MAXINDEXRK) || (d.kind.VK? && d.kind.index <= MAXINDEXRK) {
      assert w + Own(d) == w;
    } else {
      Exp2AnyRegTidy(gs, d, w, n);
    }
  }

  // ---------------------------------------------------------------- conditions

  lemma TestedTidy(fs: Fs, e: Exp, w: set<nat>, n: nat)
    requires Tidy(fs, w, n) && DescOk(fs, e) && !e.kind.VLocal? && !e.kind.VJmp? && Slot(fs, e) < n
    ensures var (gs, r) := Tested(fs, e); Tidy(gs, w, n) && r < n
  {
    hide FsOk, ListsOk, Discharge2Reg;
    if !e.kind.VNonReloc? {
      ReservedDesc(fs, e);
      Discharge2RegTidy(Reserve(fs), e, fs.freereg, w, n);
    }
  }

  lemma JumpOnCondTidy(fs: Fs, e: Exp, cond: bool, w: set<nat>, n: nat)
    requires Tidy(fs, w, n) && DescOk(fs, e) && !e.kind.VLocal? && !e.kind.VJmp? && Slot(fs, e) < n
    ensures var (gs, j) := JumpOnCond(fs, e, cond); Tidy(gs, w + {j}, n)
  {
    hide FsOk, ListsOk, CondJump, Tested;
    if IsNot(fs, e) {
      var i := |fs.code| - 1;
      assert TidyAt(fs.code, w + Elems(fs.jpc), n, i);
      LastDropped(fs.code, w + Elems(fs.jpc), n);
      CondJumpTidy(Base(fs, e), Test(fs.code[i].b, !cond), w, n);
    } else {
      TestedTidy(fs, e, w, n);
      var (gs, r) := Tested(fs, e);
      CondJumpTidy(gs, TestSet(None, r, cond), w, n);
    }
  }

  lemma InvertTidy(fs: Fs, e: Exp, w: set<nat>, n: nat)
    requires Tidy(fs, w, n)
    ensures Tidy(InvertJump(fs, e), w, n)
  {
    if e.kind.VJmp? && 1 <= e.kind.jump < |fs.code| && fs.code[e.kind.jump-1].Cmp? {
      var c := fs.code[e.kind.jump-1];
      assert TidyAt(fs.code, w + Elems(fs.jpc), n, e.kind.jump - 1);
      ChangeTidy(fs.code, e.kind.jump - 1, c.(cond := !c.cond), w + Elems(fs.jpc), n);
    }
  }

  /** The new jump, or the one the descriptor has, joins those that wait. */
  lemma LeaveTidy(fs: Fs, d: Exp, w: set<nat>, n: nat)
    requires Tidy(fs, w, n) && DescOk(fs, d) && !d.kind.VLocal? && Slot(fs, d) < n
    ensures var (gs, pcs) := LeaveIfFalse(fs, d); Tidy(gs, w + Elems(pcs), n)
    ensures var (gs, pcs) := LeaveIfTrue(fs, d); Tidy(gs, w + Elems(pcs), n)
  {
    hide FsOk, ListsOk, JumpOnCond, InvertJump, Jump, DescOk;
    JumpTidy(fs, w, n);
    InvertTidy(fs, d, w, n);
    TidyMore(fs, w, n, w + Elems([]), n);
    if d.kind.VJmp? {
      TidyMore(fs, w, n, w + Elems([d.kind.jump]), n);
      TidyMore(InvertJump(fs, d), w, n, w + Elems([d.kind.jump]), n);
    } else {
      JumpOnCondTidy(fs, d, false, w, n);
      JumpOnCondTidy(fs, d, true, w, n);
      assert Elems([JumpOnCond(fs, d, false).1]) == {JumpOnCond(fs, d, false).1};
      assert Elems([JumpOnCond(fs, d, true).1]) == {JumpOnCond(fs, d, true).1};
    }
  }

  lemma GoIfTidy(fs: Fs, e: Exp, w: set<nat>, n: nat)
    requires Tidy(fs, w + Own(e), n) && DescOk(fs, e) && Slot(fs, e) < n
    ensures var (gs, out) := GoIfTrue(fs, e); Tidy(gs, w + Elems(out), n)
    ensures var (gs, out) := GoIfFalse(fs, e); Tidy(gs, w + Elems(out), n)
  {
    hide FsOk, ListsOk, LeaveIfFalse, LeaveIfTrue, DescOk, Tidy, PatchToHere;
    DischargeVarsOk(SomeOps(), fs, e, map[]);
    var d := DischargeVars(e);
    LeaveTidy(fs, d, w + Own(d), n);
    var (g1, p1) := LeaveIfFalse(fs, d);
    OutSet(fs, d, p1, w, d.f, d.t);
    TidyMore(g1, w + Own(d) + Elems(p1), n, w + Elems(d.f + p1) + Elems(d.t), n);
    HereTidy(g1, d.t, w + Elems(d.f + p1), n);
    var (g2, p2) := LeaveIfTrue(fs, d);
    OutSet(fs, d, p2, w, d.t, d.f);
    TidyMore(g2, w + Own(d) + Elems(p2), n, w + Elems(d.t + p2) + Elems(d.f), n);
    HereTidy(g2, d.f, w + Elems(d.t + p2), n);
  }

  /** The descriptor's own jump is among those that leave. */
  lemma OutSet(fs: Fs, d: Exp, pcs: seq<nat>, w: set<nat>, stays: seq<nat>, comes: seq<nat>)
    requires pcs == LeaveIfFalse(fs, d).1 || pcs == LeaveIfTrue(fs, d).1
    requires (stays == d.f && comes == d.t) || (stays == d.t && comes == d.f)
    ensures w + Own(d) + Elems(pcs) <= w + Elems(stays + pcs) + Elems(comes)
  {
    hide JumpOnCond, Jump, InvertJump;
    if d.kind.VJmp? { assert pcs[0] == d.kind.jump; }
  }

  lemma NegatedTidy(fs: Fs, d: Exp, w: set<nat>, n: nat)
    requires Tidy(fs, w, n) && DescOk(fs, d) && !d.kind.VLocal? && Slot(fs, d) < n
    ensures Tidy(Negated(fs, d).0, w, n)
  {
    hide FsOk, ListsOk, Tested, InvertJump, Emit, Tidy;
    if d.kind.VJmp? {
      InvertTidy(fs, d, w, n);
    } else {
      TestedTidy(fs, d, w, n);
      var (hs, r) := Tested(fs, d);
      EmitTidy(hs, Unary(Not, 0, r), w, n);
    }
  }

  lemma CodeNotTidy(fs: Fs, e: Exp, w: set<nat>, n: nat)
    requires Tidy(fs, w + Own(e), n) && DescOk(fs, e) && Slot(fs, e) < n
    ensures Tidy(CodeNot(fs, e).0, w + Own(CodeNot(fs, e).1), n)
  {
    hide FsOk, ListsOk, KindOk, Negated, RemoveValues;
    DischargeVarsOk(SomeOps(), fs, e, map[]);
    var d := DischargeVars(e);
    NegatedTidy(fs, d, w + Own(e), n);
    var (gs, x) := Negated(fs, d);
    assert Own(x) == Own(e) by { NegatedOwn(fs, d); }
    RemoveTidy(gs.code, x.f, w + Own(e) + Elems(gs.jpc), n);
    RemoveTidy(RemoveValues(gs.code, x.f), x.t, w + Own(e) + Elems(gs.jpc), n);
  }

  lemma NegatedOwn(fs: Fs, d: Exp)
    ensures Own(Negated(fs, d).1) == Own(d)
  {
    hide Tested, Emit, InvertJump;
  }

  // ---------------------------------------------------------------- operators

  lemma CodeUnaryTidy(fs: Fs, op: UnaryOp, e: Exp, w: set<nat>, n: nat)
    requires Tidy(fs, w, n) && DescOk(fs, e) && UnaryOperand(op, e) && (e.kind.VNonReloc? ==> e.kind.info < n) && 0 < n
    ensures Tidy(CodeUnary(fs, op, e).0, w, n)
  {
    hide FsOk, ListsOk, Emit;
    if !(op.Unm? && IsNumeral(e)) {
      ReadyRK(fs, e);
      EmitTidy(FreeExp(fs, e), Unary(op, 0, e.kind.info), w, n);
    }
  }

  lemma PrefixTidy(fs: Fs, op: UnaryOp, e: Exp, w: set<nat>, n: nat)
    requires Tidy(fs, w + Own(e), n) && DescOk(fs, e) && !op.Not? && Slot(fs, e) < n
    ensures Tidy(Prefix(fs, op, e).0, w, n)
  {
    hide FsOk, ListsOk, KindOk, Exp2AnyReg, CodeUnary, Tidy;
    if op.Unm? && IsNumeral(e) {
      assert w + Own(e) == w;
      CodeUnaryTidy(fs, op, e, w, n);
    } else {
      Exp2AnyRegTidy(fs, e, w, n);
      Exp2AnyRegOk(fs, e);
      SlotAbove(fs, e);
      RegisterDesc(Exp2AnyReg(fs, e).0, Slot(fs, e), Exp2AnyReg(fs, e).1);
      CodeUnaryTidy(Exp2AnyReg(fs, e).0, op, Exp2AnyReg(fs, e).1, w, n);
    }
  }

  /** Both operands of an operator on values; a number on the left may need a register after the right operand. */
  lemma CodeArithTidy(fs: Fs, op: ArithOp, e1: Exp, e2: Exp, w: set<nat>, n: nat)
    requires Tidy(fs, w + Own(e2), n) && Pair(fs, e1, e2) && fs.freereg < n && (e1.kind.VKNum? ==> fs.freereg + 1 < n)
    ensures Tidy(CodeArith(fs, op, e1, e2).0, w, n)
  {
    hide FsOk, ListsOk, Exp2RK, Emit, Tidy;
    if ConstFold(op, e1, e2).Some? {
      assert w + Own(e2) == w;
    } else {
      Exp2RKTidy(fs, e2, w, n);
      Exp2RKOk(fs, e2);
      var (f1, d2, o2) := Exp2RK(fs, e2);
      if e1.kind.VKNum? {
        NumeralStays(fs, e1, e2);
        assert w + Own(e1) == w;
        Exp2RKTidy(f1, e1, w, n);
      } else {
        ReadyRK(f1, e1);
      }
      var (f2, d1, o1) := Exp2RK(f1, e1);
      var f3 := FreeBoth(f2, d1, o1, d2, o2);
      assert f3.code == f2.code && f3.jpc == f2.jpc;
      SameTidy(f2, f3, w, n);
      EmitTidy(f3, Arith(op, 0, o1, o2), w, n);
    }
  }

  lemma SameTidy(fs: Fs, gs: Fs, w: set<nat>, n: nat)
    requires Tidy(fs, w, n) && gs.code == fs.code && gs.jpc == fs.jpc
    ensures Tidy(gs, w, n)
  {
  }

  lemma NumeralStays(fs: Fs, e1: Exp, e2: Exp)
    requires Pair(fs, e1, e2) && e1.kind.VKNum?
    ensures var f1 := Exp2RK(fs, e2).0; DescOk(f1, e1) && Slot(f1, e1) <= fs.freereg + 1
  {
    hide CodeOk, KOk, LabelOk, CacheOk, Exp2RK, KeepsWaiting;
    Exp2RKOk(fs, e2);
  }

  lemma CodeCompTidy(fs: Fs, op: CmpOp, cond: bool, e1: Exp, e2: Exp, w: set<nat>, n: nat)
    requires Tidy(fs, w + Own(e2), n) && Pair(fs, e1, e2) && !e1.kind.VKNum? && fs.freereg < n
    ensures var (gs, d) := CodeComp(fs, op, cond, e1, e2); Tidy(gs, w + Own(d), n)
  {
    hide FsOk, ListsOk, Exp2RK, CondJump, Tidy;
    ReadyRK(fs, e1);
    Exp2RKTidy(fs, e2, w, n);
    var (_, d1, o1) := Exp2RK(fs, e1);
    var (f2, d2, o2) := Exp2RK(fs, e2);
    var f3 := FreeExp(FreeExp(f2, d2), d1);
    SameTidy(f2, f3, w, n);
    var test := if !cond && op != Eq then Cmp(op, true, o2, o1) else Cmp(op, cond, o1, o2);
    CondJumpTidy(f3, test, w, n);
    var (gs, j) := CondJump(f3, test);
    assert Own(Exp(VJmp(j), d1.t, d1.f)) == {j};
  }

  // ---------------------------------------------------------------- expressions

  /** As many registers as the code of the expression and its value need. */
  function Need(e: Expr): (n: nat)
    ensures 1 <= n
  {
    match e
    case ENot(x) => Need(x)
    case EMinus(x) => Need(x)
    case ELen(x) => Need(x)
    case EBin(op, x, y) =>
      var ny := if op.BAnd? || op.BOr? then Need(y) else 1 + Need(y);
      if Need(x) > ny then Need(x) else ny
    case _ => 1
  }

  /** An expression compiled where there is room in the frame for what it needs. */
  lemma {:induction false} CompileTidy(fs: Fs, e: Expr, w: set<nat>, n: nat)
    requires CanCompile(fs, e) && Tidy(fs, w, n) && fs.freereg + Need(e) <= n
    ensures var (gs, d) := Compile(fs, e); Tidy(gs, w + Own(d), n)
    decreases e
  {
    hide FsOk, CompiledOk, Infix, Prefix, CodeNot, Posfix, Tidy;
    var (gs, d) := Compile(fs, e);
    match e
    case ENot(x) =>
      CompileTidy(fs, x, w, n);
      CompileStructure(fs, x);
      NotTidy(fs, x, w, n);
    case EMinus(x) =>
      CompileTidy(fs, x, w, n);
      CompileStructure(fs, x);
      UnaryTidy(fs, Unm, Compile(fs, x).0, Compile(fs, x).1, w, n);
    case ELen(x) =>
      CompileTidy(fs, x, w, n);
      CompileStructure(fs, x);
      UnaryTidy(fs, Len, Compile(fs, x).0, Compile(fs, x).1, w, n);
    case EBin(op, x, y) =>
      CompileTidy(fs, x, w, n);
      CompileStructure(fs, x);
      var (f1, d1) := Compile(fs, x);
      if op.BAnd? || op.BOr? {
        LogicState(fs, x, y, op, f1, d1);
        LogicTidy(fs, op, f1, d1, w, n);
        var (f2, e1) := Infix(f1, op, d1);
        CompileTidy(f2, y, w + Own(Exp(VNil, e1.t, e1.f)), n);
        JoinTidy(f2, op, e1, Compile(f2, y).0, Compile(f2, y).1, w, n);
      } else {
        InfixStructure(fs, op, f1, d1);
        RightState(fs, x, y, op, f1, d1);
        InfixTidy(fs, op, f1, d1, w, n);
        var (f2, e1) := Infix(f1, op, d1);
        CompileTidy(f2, y, w, n);
        CompileStructure(f2, y);
        PosfixTidy(fs, op, f2, e1, Compile(f2, y).0, Compile(f2, y).1, w, n);
      }
    case _ => LeafTidy(fs, e, w, n);
  }

  lemma LeafTidy(fs: Fs, e: Expr, w: set<nat>, n: nat)
    requires Tidy(fs, w, n) && !e.ENot? && !e.EMinus? && !e.ELen? && !e.EBin?
    ensures var (gs, d) := Compile(fs, e); Tidy(gs, w + Own(d), n)
  {
    var (gs, d) := Compile(fs, e);
    SameTidy(fs, gs, w, n);
    TidyMore(gs, w, n, w + Own(d), n);
  }

  lemma NotTidy(fs: Fs, x: Expr, w: set<nat>, n: nat)
    requires var (gs, d) := Compile(fs, x); Tidy(gs, w + Own(d), n) && CompiledOk(fs, gs, d)
    requires fs.freereg < n
    ensures var (gs, d) := Compile(fs, ENot(x)); Tidy(gs, w + Own(d), n)
  {
    hide FsOk, ListsOk, KindOk, KeepsWaiting, CodeNot, Tidy;
    var (gs, d) := Compile(fs, x);
    CodeNotTidy(gs, d, w, n);
  }

  lemma UnaryTidy(fs: Fs, op: UnaryOp, gs: Fs, d: Exp, w: set<nat>, n: nat)
    requires Tidy(gs, w + Own(d), n) && CompiledOk(fs, gs, d) && !op.Not? && fs.freereg < n
    ensures var (hs, x) := Prefix(gs, op, d); Tidy(hs, w + Own(x), n)
  {
    hide FsOk, ListsOk, KindOk, KeepsWaiting, Prefix, Tidy;
    PrefixTidy(gs, op, d, w, n);
    TidyMore(Prefix(gs, op, d).0, w, n, w + Own(Prefix(gs, op, d).1), n);
  }

  lemma LogicTidy(fs: Fs, op: BinOp, f1: Fs, d1: Exp, w: set<nat>, n: nat)
    requires Tidy(f1, w + Own(d1), n) && CompiledOk(fs, f1, d1) && (op.BAnd? || op.BOr?) && fs.freereg < n
    ensures var (f2, e1) := Infix(f1, op, d1);
            && Tidy(f2, w + Own(Exp(VNil, e1.t, e1.f)), n) && f2.freereg == fs.freereg
            && (if op.BAnd? then e1.t == [] else e1.f == [])
  {
    hide FsOk, ListsOk, KindOk, KeepsWaiting, GoIfTrue, GoIfFalse, Tidy;
    GoIfTidy(f1, d1, w, n);
    GoIfTrueOk(f1, d1);
    GoIfFalseOk(f1, d1);
    var (f2, e1) := Infix(f1, op, d1);
    assert Own(Exp(VNil, e1.t, e1.f)) == Elems(e1.t + e1.f) == Elems(if op.BAnd? then e1.f else e1.t);
  }

  lemma JoinTidy(f2: Fs, op: BinOp, e1: Exp, f3: Fs, d2: Exp, w: set<nat>, n: nat)
    requires Tidy(f3, w + Own(Exp(VNil, e1.t, e1.f)) + Own(d2), n) && (if op.BAnd? then e1.t == [] else op.BOr? && e1.f == [])
    ensures var (gs, d) := Posfix(f3, op, e1, d2); Tidy(gs, w + Own(d), n)
  {
    hide Tidy;
    var (gs, d) := Posfix(f3, op, e1, d2);
    assert w + Own(Exp(VNil, e1.t, e1.f)) + Own(d2) == w + Own(d);
  }

  lemma InfixTidy(fs: Fs, op: BinOp, f1: Fs, d1: Exp, w: set<nat>, n: nat)
    requires Tidy(f1, w + Own(d1), n) && CompiledOk(fs, f1, d1) && (op.BArith? || op.BRel?) && fs.freereg < n
    requires LeftOperand(fs, Infix(f1, op, d1).0, Infix(f1, op, d1).1)
    ensures var (f2, e1) := Infix(f1, op, d1); Tidy(f2, w, n) && f2.freereg <= fs.freereg + 1
  {
    hide FsOk, ListsOk, KeepsWaiting, Exp2RK, Tidy;
    TopInfo(Infix(f1, op, d1).0, Infix(f1, op, d1).1);
    if op.BArith? && IsNumeral(d1) {
      assert w + Own(d1) == w;
    } else {
      Exp2RKTidy(f1, d1, w, n);
    }
  }

  lemma PosfixTidy(fs: Fs, op: BinOp, f2: Fs, e1: Exp, f3: Fs, d2: Exp, w: set<nat>, n: nat)
    requires LeftOperand(fs, f2, e1) && CompiledOk(f2, f3, d2) && (op.BArith? || (op.BRel? && !e1.kind.VKNum?))
    requires Tidy(f3, w + Own(d2), n) && fs.freereg + 1 < n
    ensures var (gs, d) := Posfix(f3, op, e1, d2); Tidy(gs, w + Own(d), n)
  {
    hide FsOk, ListsOk, KindOk, KeepsWaiting, CodeArith, CodeComp, Tidy;
    PosfixStructure(fs, op, f2, e1, f3, d2);
    TopInfo(f2, e1);
    assert f3.freereg == f2.freereg <= fs.freereg + 1 && (e1.kind.VKNum? ==> f3.freereg == fs.freereg);
    var (gs, d) := Posfix(f3, op, e1, d2);
    if op.BArith? {
      CodeArithTidy(f3, op.op, e1, d2, w, n);
      TidyMore(gs, w, n, w + Own(d), n);
    } else {
      CodeCompTidy(f3, CmpOf(op.rel).0, CmpOf(op.rel).1, e1, d2, w, n);
    }
  }
}
