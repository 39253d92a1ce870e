/** The register stack, and operands: how an expression becomes a register or a constant. */
module CgOperand {
  import opened CgCode
  import opened CgState
  import opened CgExp
  import opened CgReg
  import opened Wrappers

  // ---------------------------------------------------------------- the register stack

  /** luaK_reserveregs for one register. */
  function Reserve(fs: Fs): Fs {
    fs.(freereg := fs.freereg + 1)
  }

  /** freereg: registers of active variables are not freed. */
  function FreeReg(fs: Fs, reg: nat): Fs {
    if reg >= fs.nactvar && fs.freereg > 0 then fs.(freereg := fs.freereg - 1) else fs
  }

  /** freeexp. */
  function FreeExp(fs: Fs, e: Exp): Fs {
    if e.kind.VNonReloc? then FreeReg(fs, e.kind.info) else fs
  }

  predicate Temporary(fs: Fs, e: Exp) {
    e.kind.VNonReloc? && e.kind.info >= fs.nactvar
  }

  /** The first register that does not belong to other operands. */
  function Slot(fs: Fs, e: Exp): nat {
    if Temporary(fs, e) then e.kind.info else fs.freereg
  }

  lemma SameCode(fs: Fs, gs: Fs, e: Exp)
    requires gs == fs.(freereg := gs.freereg) && DescOk(fs, e) && fs.nactvar <= gs.freereg
    requires Temporary(fs, e) ==> gs.freereg == fs.freereg
    ensures DescOk(gs, e)
    ensures forall m, start, r0, n, v, x :: Denotes(m, gs, e, start, r0, n, v, x) == Denotes(m, fs, e, start, r0, n, v, x)
    ensures forall m, start, r0, n, v :: Delivers(m, gs, e, start, r0, n, v) == Delivers(m, fs, e, start, r0, n, v)
    ensures forall m, start, o :: Gone(m, gs, e, start, o) == Gone(m, fs, e, start, o)
  {
    hide CodeOk, KOk, LabelOk, CacheOk, Run;
    SameOk(fs, gs);
    SameOk(Base(fs, e), Base(gs, e));
    assert forall m, start :: Behave(m, Base(gs, e), start) == Behave(m, Base(fs, e), start);
  }

  lemma SameOk(fs: Fs, gs: Fs)
    requires gs == fs.(freereg := gs.freereg)
    ensures FsOk(gs) == FsOk(fs)
  {
  }

  // ---------------------------------------------------------------- exp2nextreg, exp2anyreg

  function Register(reg: nat): Exp {
    Exp(VNonReloc(reg), [], [])
  }

  /** luaK_exp2nextreg. */
  function Exp2NextReg(fs: Fs, e: Exp): (Fs, Exp) {
    var d := DischargeVars(e);
    var gs := Reserve(FreeExp(fs, d));
    (Exp2Reg(gs, d, gs.freereg - 1), Register(gs.freereg - 1))
  }

  /** luaK_exp2anyreg: a value that is in a register already stays there. */
  function Exp2AnyReg(fs: Fs, e: Exp): (Fs, Exp) {
    var d := DischargeVars(e);
    if d.kind.VNonReloc? && !HasJumps(d) then (fs, d)
    else if d.kind.VNonReloc? && d.kind.info >= fs.nactvar then (Exp2Reg(fs, d, d.kind.info), Register(d.kind.info))
    else Exp2NextReg(fs, d)
  }

  lemma DischargeVarsOk(m: Ops, fs: Fs, e: Exp, start: Regs)
    requires DescOk(fs, e)
    ensures var d := DischargeVars(e);
            && DescOk(fs, d) && Slot(fs, d) == Slot(fs, e) && Own(d) == Own(e)
            && (forall r0, n, v, x :: Denotes(m, fs, d, start, r0, n, v, x) == Denotes(m, fs, e, start, r0, n, v, x))
            && (forall r0, n, v :: Delivers(m, fs, d, start, r0, n, v) == Delivers(m, fs, e, start, r0, n, v))
            && (forall o :: Gone(m, fs, d, start, o) == Gone(m, fs, e, start, o))
  {
    hide FsOk, Behave;
  }

  /** The value `v` is in `reg`, and control reaches the end. */
  ghost predicate Holds(m: Ops, fs: Fs, start: Regs, r0: Regs, n: nat, reg: nat, v: Value) {
    var o := Behave(m, fs, start);
    o.Here? && SameBelow(r0, o.regs, n) && Get(o.regs, reg) == v
  }

  lemma NextRegState(fs: Fs, e: Exp)
    requires DescOk(fs, e) && !e.kind.VLocal?
    ensures var gs := Reserve(FreeExp(fs, e));
            && gs == fs.(freereg := Slot(fs, e) + 1) && fs.nactvar <= Slot(fs, e)
            && (Temporary(fs, e) ==> gs.freereg == fs.freereg)
  {
    hide FsOk;
  }

  lemma Exp2NextRegOk(fs: Fs, e: Exp)
    requires DescOk(fs, e)
    ensures var (gs, d) := Exp2NextReg(fs, e);
            && FsOk(gs) && Grows(fs, gs, Own(e)) && d == Register(Slot(fs, e)) && gs.freereg == Slot(fs, e) + 1
  {
    hide FsOk, Exp2Reg, ListsOk, KindOk;
    var d := DischargeVars(e);
    assert DescOk(fs, d) && Slot(fs, d) == Slot(fs, e) && Own(d) == Own(e) by { DischargeVarsKind(fs, e); }
    NextRegState(fs, d);
    var hs := Reserve(FreeExp(fs, d));
    SameCode(fs, hs, d);
    Exp2RegOk(hs, d, Slot(fs, d));
  }

  lemma DischargeVarsKind(fs: Fs, e: Exp)
    requires DescOk(fs, e)
    ensures var d := DischargeVars(e); DescOk(fs, d) && Slot(fs, d) == Slot(fs, e) && Own(d) == Own(e)
  {
    hide FsOk;
  }

  /** luaK_exp2nextreg, from every exit of the expression, with the value that is delivered there. */
  lemma Exp2NextRegDelivers(m: Ops, fs: Fs, e: Exp, start: Regs, r0: Regs, n: nat, v: Value)
    requires DescOk(fs, e) && FreshFrame(start, fs.nactvar) && n <= Slot(fs, e)
    requires Delivers(m, fs, e, start, r0, n, v)
    ensures Holds(m, Exp2NextReg(fs, e).0, start, r0, n, Slot(fs, e), v)
  {
    hide FsOk, Exp2Reg, ListsOk, KindOk, Behave, Denotes, Delivers, Gone;
    var d := DischargeVars(e);
    DischargeVarsOk(m, fs, e, start);
    NextRegState(fs, d);
    var hs := Reserve(FreeExp(fs, d));
    SameCode(fs, hs, d);
    Exp2RegRuns(m, hs, d, Slot(fs, d), start, r0, n, v);
  }

  lemma Exp2NextRegRuns(m: Ops, fs: Fs, e: Exp, start: Regs, r0: Regs, n: nat, v: Value)
    requires DescOk(fs, e) && FreshFrame(start, fs.nactvar) && n <= Slot(fs, e)
    requires Denotes(m, fs, e, start, r0, n, v, true)
    ensures Holds(m, Exp2NextReg(fs, e).0, start, r0, n, Slot(fs, e), v)
  {
    hide FsOk, Exp2NextReg, ListsOk, KindOk, Behave, Denotes, Delivers, Gone, Holds;
    DenotesDelivers(m, fs, e, start, r0, n, v);
    Exp2NextRegDelivers(m, fs, e, start, r0, n, v);
  }

  lemma Exp2NextRegGone(m: Ops, fs: Fs, e: Exp, start: Regs, o: Outcome)
    requires DescOk(fs, e) && FreshFrame(start, fs.nactvar) && Gone(m, fs, e, start, o)
    ensures Behave(m, Exp2NextReg(fs, e).0, start) == o
  {
    hide FsOk, Exp2Reg, ListsOk, KindOk, Behave, Denotes, Gone;
    var d := DischargeVars(e);
    DischargeVarsOk(m, fs, e, start);
    NextRegState(fs, d);
    var hs := Reserve(FreeExp(fs, d));
    SameCode(fs, hs, d);
    Exp2RegGone(m, hs, d, Slot(fs, d), start, o);
  }

  /** An operand in a register: of an active variable, or the one on top of the stack. */
  ghost predicate RegisterOk(fs: Fs, slot: nat, d: Exp) {
    && d.kind.VNonReloc? && !HasJumps(d)
    && if d.kind.info < fs.nactvar then fs.freereg == slot else d.kind.info == slot && fs.freereg == slot + 1
  }

  lemma Exp2AnyRegOk(fs: Fs, e: Exp)
    requires DescOk(fs, e)
    ensures var (gs, d) := Exp2AnyReg(fs, e);
            FsOk(gs) && Grows(fs, gs, Own(e)) && RegisterOk(gs, Slot(fs, e), d)
  {
    hide Exp2Reg, ListsOk, CodeOk, KOk, LabelOk, Exp2NextReg;
    DischargeVarsKind(fs, e);
    var d := DischargeVars(e);
    if d.kind.VNonReloc? && !HasJumps(d) {
    } else if d.kind.VNonReloc? && d.kind.info >= fs.nactvar {
      Exp2RegOk(fs, d, d.kind.info);
    } else {
      Exp2NextRegOk(fs, d);
    }
  }

  lemma Exp2AnyRegRuns(m: Ops, fs: Fs, e: Exp, start: Regs, r0: Regs, n: nat, v: Value)
    requires DescOk(fs, e) && FreshFrame(start, fs.nactvar) && n <= Slot(fs, e)
    requires Denotes(m, fs, e, start, r0, n, v, true)
    ensures var (gs, d) := Exp2AnyReg(fs, e); d.kind.VNonReloc? && Holds(m, gs, start, r0, n, d.kind.info, v)
  {
    hide Exp2Reg, ListsOk, FsOk, Exp2NextReg, Behave, Gone;
    DischargeVarsOk(m, fs, e, start);
    var d := DischargeVars(e);
    if d.kind.VNonReloc? && !HasJumps(d) {
    } else if d.kind.VNonReloc? && d.kind.info >= fs.nactvar {
      DenotesDelivers(m, fs, d, start, r0, n, v);
      Exp2RegRuns(m, fs, d, d.kind.info, start, r0, n, v);
    } else {
      Exp2NextRegOk(fs, d);
      Exp2NextRegRuns(m, fs, d, start, r0, n, v);
    }
  }

  lemma Exp2AnyRegGone(m: Ops, fs: Fs, e: Exp, start: Regs, o: Outcome)
    requires DescOk(fs, e) && FreshFrame(start, fs.nactvar) && Gone(m, fs, e, start, o)
    ensures Behave(m, Exp2AnyReg(fs, e).0, start) == o
  {
    hide Exp2Reg, ListsOk, FsOk, Exp2NextReg, Behave, Denotes;
    DischargeVarsOk(m, fs, e, start);
    var d := DischargeVars(e);
    if d.kind.VNonReloc? && !HasJumps(d) {
    } else if d.kind.VNonReloc? && d.kind.info >= fs.nactvar {
      Exp2RegGone(m, fs, d, d.kind.info, start, o);
    } else {
      Exp2NextRegGone(m, fs, d, start, o);
    }
  }

  // ---------------------------------------------------------------- exp2RK

  /** luaK_exp2val. */
  function Exp2Val(fs: Fs, e: Exp): (Fs, Exp) {
    if HasJumps(e) then Exp2AnyReg(fs, e) else (fs, DischargeVars(e))
  }

  function Constant(k: Kind): Option<Value> {
    match k
    case VNil => Some(Nil)
    case VTrue => Some(Bool(true))
    case VFalse => Some(Bool(false))
    case VKNum(n) => Some(Num(n))
    case _ => None
  }

  /** luaK_exp2RK: constants go into the table while their indices fit the operand. */
  function Exp2RK(fs: Fs, e: Exp): (Fs, Exp, RK) {
    var (gs, d) := Exp2Val(fs, e);
    var c := Constant(d.kind);
    if c.Some? && |gs.k| <= MAXINDEXRK then
      var (hs, i) := AddK(gs, c.value);
      (hs, Exp(VK(i), d.t, d.f), K(i))
    else if d.kind.VK? && d.kind.index <= MAXINDEXRK then (gs, d, K(d.kind.index))
    else
      var (hs, x) := Exp2AnyReg(gs, d);
      (hs, x, if x.kind.VNonReloc? then R(x.kind.info) else R(0))
  }

  /** A constant within reach of the operand, or a register as in `RegisterOk`. */
  ghost predicate OperandOk(fs: Fs, slot: nat, d: Exp, o: RK) {
    match o
    case K(i) => d == Exp(VK(i), [], []) && i < |fs.k| && fs.freereg == slot
    case R(r) => RegisterOk(fs, slot, d) && d.kind.info == r
  }

  ghost predicate OperandIs(m: Ops, fs: Fs, start: Regs, r0: Regs, n: nat, o: RK, v: Value) {
    var b := Behave(m, fs, start);
    b.Here? && SameBelow(r0, b.regs, n) && RKValue(o, fs.k, b.regs) == v
  }

  lemma Exp2ValOk(fs: Fs, e: Exp)
    requires DescOk(fs, e)
    ensures var (gs, d) := Exp2Val(fs, e);
            && FsOk(gs) && Grows(fs, gs, Own(e)) && !HasJumps(d) && DescOk(gs, d) && Slot(gs, d) == Slot(fs, e)
            && Own(d) <= Own(e) && (Constant(d.kind).Some? || d.kind.VK? ==> gs == fs && !Temporary(fs, e))
            && !d.kind.VLocal?
  {
    hide CodeOk, KOk, LabelOk, CacheOk, Exp2AnyReg, KeepsWaiting;
    if HasJumps(e) {
      Exp2AnyRegOk(fs, e);
      RegisterDesc(Exp2AnyReg(fs, e).0, Slot(fs, e), Exp2AnyReg(fs, e).1);
    } else {
      DischargeVarsKind(fs, e);
      assert KeepsWaiting(fs, fs, {}) by { KeepsSelf(fs); }
      GrowsMore(fs, fs, Own(e));
    }
  }

  lemma RegisterDesc(fs: Fs, slot: nat, d: Exp)
    requires FsOk(fs) && RegisterOk(fs, slot, d) && fs.nactvar <= slot
    ensures DescOk(fs, d) && Slot(fs, d) == slot && Own(d) == {}
  {
    hide FsOk;
  }

  lemma Exp2RKOk(fs: Fs, e: Exp)
    requires DescOk(fs, e)
    ensures var (gs, d, o) := Exp2RK(fs, e);
            FsOk(gs) && Grows(fs, gs, Own(e)) && OperandOk(gs, Slot(fs, e), d, o)
  {
    hide CodeOk, KOk, LabelOk, CacheOk, Exp2AnyReg, KeepsWaiting, Exp2Val, ListsOk, KindOk;
    Exp2ValOk(fs, e);
    var (gs, d) := Exp2Val(fs, e);
    var c := Constant(d.kind);
    if c.Some? && |gs.k| <= MAXINDEXRK {
      AddKOk(gs, c.value);
      AddKKeeps(gs, c.value);
      GrowsTransitive(fs, gs, AddK(gs, c.value).0, Own(e), {});
    } else if d.kind.VK? && d.kind.index <= MAXINDEXRK {
      ConstantIndex(gs, d);
    } else {
      Exp2AnyRegOk(gs, d);
      GrowsTransitive(fs, gs, Exp2AnyReg(gs, d).0, Own(e), Own(d));
    }
  }

  lemma ConstantIndex(fs: Fs, d: Exp)
    requires DescOk(fs, d) && d.kind.VK?
    ensures d.kind.index < |fs.k|
  {
  }

  lemma AddKKeeps(fs: Fs, v: Value)
    requires FsOk(fs)
    ensures Grows(fs, AddK(fs, v).0, {})
  {
    hide CodeOk, KOk, LabelOk;
  }

  lemma DenotesConstant(m: Ops, fs: Fs, e: Exp, start: Regs, r0: Regs, n: nat, v: Value)
    requires !HasJumps(e) && Denotes(m, fs, e, start, r0, n, v, true)
    requires Constant(e.kind).Some? || e.kind.VK?
    ensures var o := Behave(m, fs, start);
            o.Here? && SameBelow(r0, o.regs, n) && v == (if e.kind.VK? then KAt(fs.k, e.kind.index) else Constant(e.kind).value)
  {
    hide Behave;
  }

  lemma Exp2ValRuns(m: Ops, fs: Fs, e: Exp, start: Regs, r0: Regs, n: nat, v: Value)
    requires DescOk(fs, e) && FreshFrame(start, fs.nactvar) && n <= Slot(fs, e)
    requires Denotes(m, fs, e, start, r0, n, v, true)
    ensures var (gs, d) := Exp2Val(fs, e); Denotes(m, gs, d, start, r0, n, v, true)
  {
    hide FsOk, Exp2AnyReg, KindOk, Behave, ListsOk, Gone;
    if HasJumps(e) {
      Exp2AnyRegRuns(m, fs, e, start, r0, n, v);
    } else {
      DischargeVarsOk(m, fs, e, start);
    }
  }

  lemma Exp2RKRuns(m: Ops, fs: Fs, e: Exp, start: Regs, r0: Regs, n: nat, v: Value)
    requires DescOk(fs, e) && FreshFrame(start, fs.nactvar) && n <= Slot(fs, e)
    requires Denotes(m, fs, e, start, r0, n, v, true)
    ensures var (gs, d, o) := Exp2RK(fs, e); OperandIs(m, gs, start, r0, n, o, v)
  {
    hide FsOk, Exp2AnyReg, KindOk, Behave, ListsOk, Denotes, Exp2Val;
    Exp2ValOk(fs, e);
    Exp2ValRuns(m, fs, e, start, r0, n, v);
    var (gs, d) := Exp2Val(fs, e);
    var c := Constant(d.kind);
    if c.Some? && |gs.k| <= MAXINDEXRK {
      AddKOk(gs, c.value);
      AddKRuns(m, gs, c.value, start);
      DenotesConstant(m, gs, d, start, r0, n, v);
    } else if d.kind.VK? && d.kind.index <= MAXINDEXRK {
      DenotesConstant(m, gs, d, start, r0, n, v);
    } else {
      Exp2AnyRegRuns(m, gs, d, start, r0, n, v);
    }
  }

  lemma Exp2RKGone(m: Ops, fs: Fs, e: Exp, start: Regs, o: Outcome)
    requires DescOk(fs, e) && FreshFrame(start, fs.nactvar) && Gone(m, fs, e, start, o)
    ensures Behave(m, Exp2RK(fs, e).0, start) == o
  {
    hide FsOk, Exp2AnyReg, KindOk, Behave, ListsOk, Denotes;
    Exp2ValOk(fs, e);
    var (gs, d) := Exp2Val(fs, e);
    if HasJumps(e) {
      Exp2AnyRegOk(fs, e);
      Exp2AnyRegGone(m, fs, e, start, o);
    } else {
      DischargeVarsOk(m, fs, e, start);
    }
    assert Gone(m, gs, d, start, o);
    GoneHere(m, gs, d, start, o);
    var c := Constant(d.kind);
    if c.Some? && |gs.k| <= MAXINDEXRK {
      AddKRuns(m, gs, c.value, start);
    } else if d.kind.VK? && d.kind.index <= MAXINDEXRK {
    } else {
      Exp2AnyRegGone(m, gs, d, start, o);
    }
  }

  lemma GoneHere(m: Ops, fs: Fs, e: Exp, start: Regs, o: Outcome)
    requires Gone(m, fs, e, start, o)
    ensures Constant(e.kind).Some? || e.kind.VK? ==> Behave(m, fs, start) == o
  {
  }
}
