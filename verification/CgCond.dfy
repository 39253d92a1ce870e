/** Conditions: luaK_goiftrue, luaK_goiffalse and codenot. */
module CgCond {
  import opened CgCode
  import opened CgState
  import opened CgExp
  import opened CgReg
  import opened CgOperand
  import opened Wrappers

  // ---------------------------------------------------------------- jumponcond

  /** discharge2anyreg: the lists stay with the descriptor. */
  function Discharge2AnyReg(fs: Fs, e: Exp): (Fs, Exp) {
    if e.kind.VNonReloc? then (fs, e)
    else (Discharge2Reg(Reserve(fs), e, fs.freereg), e.(kind := VNonReloc(fs.freereg)))
  }

  /** The descriptor is the result of a Not whose operand can be tested directly. */
  predicate IsNot(fs: Fs, e: Exp) {
    e.kind.VReloc? && 1 <= |fs.code| && fs.code[|fs.code|-1].Unary? && fs.code[|fs.code|-1].uop.Not?
  }

  /** The value is put into a register that is not kept. */
  function Tested(fs: Fs, e: Exp): (Fs, nat) {
    var (gs, d) := Discharge2AnyReg(fs, e);
    (FreeExp(gs, d), d.kind.info)
  }

  /** jumponcond: a jump that is taken if the truth of the value is `cond`. */
  function JumpOnCond(fs: Fs, e: Exp, cond: bool): (Fs, nat) {
    if IsNot(fs, e) then CondJump(Base(fs, e), Test(fs.code[|fs.code|-1].b, !cond))
    else var (gs, r) := Tested(fs, e); CondJump(gs, TestSet(None, r, cond))
  }

  /** invertjump: the comparison in front of the jump is negated. */
  function InvertJump(fs: Fs, e: Exp): Fs {
    if e.kind.VJmp? && 1 <= e.kind.jump < |fs.code| && fs.code[e.kind.jump-1].Cmp? then
      var c := fs.code[e.kind.jump-1];
      fs.(code := fs.code[e.kind.jump-1 := c.(cond := !c.cond)])
    else fs
  }

  // ---------------------------------------------------------------- a value put to the test

  lemma TestedOk(fs: Fs, e: Exp)
    requires DescOk(fs, e) && !e.kind.VLocal? && !e.kind.VJmp?
    ensures var (gs, r) := Tested(fs, e);
            && FsOk(gs) && Grows(fs, gs, {}) && gs.freereg == Slot(fs, e) && ListsKept(fs, gs, e)
            && (forall j | j in gs.jpc :: j in fs.jpc)
  {
    hide FsOk, Discharge2Reg, ListsOk, ListsKept, KeepsWaiting;
    if e.kind.VNonReloc? {
      KeepsSelf(fs);
      ListsAreKept(fs, fs, e);
      NextRegState(fs, e);
      TestedSame(fs, Tested(fs, e).0, e);
    } else {
      var hs := Reserve(fs);
      SameCode(fs, hs, e);
      Discharge2RegOk(hs, e, fs.freereg);
      DischargedJpc(hs, e, fs.freereg);
      TestedSame(Discharge2Reg(hs, e, fs.freereg), Tested(fs, e).0, e);
      ReservedKeeps(fs, hs, Tested(fs, e).0, e);
    }
  }

  lemma TestedSame(fs: Fs, gs: Fs, e: Exp)
    requires gs == fs.(freereg := gs.freereg)
    ensures FsOk(gs) == FsOk(fs)
    ensures forall hs, own :: KeepsWaiting(hs, gs, own) == KeepsWaiting(hs, fs, own)
    ensures forall hs :: ListsKept(hs, gs, e) == ListsKept(hs, fs, e)
  {
    SameOk(fs, gs);
  }

  lemma ReservedKeeps(fs: Fs, hs: Fs, gs: Fs, e: Exp)
    requires hs == fs.(freereg := hs.freereg)
    ensures KeepsWaiting(hs, gs, {}) ==> KeepsWaiting(fs, gs, {})
    ensures ListsKept(hs, gs, e) ==> ListsKept(fs, gs, e)
  {
  }

  lemma TestedRuns(m: Ops, fs: Fs, e: Exp, start: Regs)
    requires DescOk(fs, e) && !e.kind.VLocal? && !e.kind.VJmp? && FreshFrame(start, fs.nactvar)
    ensures var (gs, r) := Tested(fs, e);
            match Behave(m, Base(fs, e), start)
            case At(_, _) => Behave(m, gs, start) == Behave(m, Base(fs, e), start)
            case Here(x) =>
              var o := Behave(m, gs, start);
              o.Here? && SameBelow(x, o.regs, Slot(fs, e)) && Get(o.regs, r) == DescValue(m, fs, e, x)
  {
    hide FsOk, Discharge2Reg, ListsOk, Behave;
    if e.kind.VNonReloc? {
      SameBehave(m, fs, Tested(fs, e).0, start);
    } else {
      var hs := Reserve(fs);
      SameCode(fs, hs, e);
      Discharge2RegRuns(m, hs, e, fs.freereg, start);
      SameBehave(m, Discharge2Reg(hs, e, fs.freereg), Tested(fs, e).0, start);
      SameBehave(m, Base(fs, e), Base(hs, e), start);
    }
  }

  /** A new conditional jump after `fs`, seen from a state `es` it grew out of. */
  ghost predicate NewJump(es: Fs, gs: Fs, e: Exp, j: nat) {
    && FsOk(gs) && Grows(es, gs, {}) && gs.jpc == [] && ListsKept(es, gs, e)
    && |es.code| <= j && j + 1 == |gs.code| && 1 <= j && gs.code[j] == Jmp(None) && IsTest(gs.code[j-1])
  }

  lemma CondJumpKeeps(fs: Fs, gs: Fs, test: Instr, e: Exp)
    requires FsOk(fs) && FreshTest(test) && UsesK(test, |fs.k|) && ListsOk(fs, e)
    requires gs == CondJump(fs, test).0
    ensures NewJump(fs, gs, e, CondJump(fs, test).1) && gs.freereg == fs.freereg
    ensures gs.code[|gs.code|-2] == test
  {
    hide FsOk, KeepsWaiting, ListsOk, ListsKept;
    CondJumpOk(fs, test);
    ListsAreKept(fs, gs, e);
    assert Discharge(fs).code + [test, Jmp(None)] == gs.code;
  }

  lemma NewJumpAfter(fs: Fs, hs: Fs, gs: Fs, e: Exp, j: nat)
    requires Grows(fs, hs, {}) && ListsKept(fs, hs, e) && ListsOk(fs, e)
    requires (forall x | x in hs.jpc :: x in fs.jpc)
    requires NewJump(hs, gs, e, j)
    ensures NewJump(fs, gs, e, j)
  {
    hide FsOk;
    GrowsTransitive(fs, hs, gs, {}, {});
    forall x | (x in e.t || x in e.f) && x < |fs.code| ensures Kept(fs.code, gs.code, x) {
      assert Kept(fs.code, hs.code, x) && Kept(hs.code, gs.code, x);
    }
  }

  lemma BaseKeeps(fs: Fs, e: Exp)
    requires DescOk(fs, e) && e.kind.VReloc?
    ensures Grows(Base(fs, e), fs, {}) && FsOk(Base(fs, e)) && Base(fs, e).jpc == [] && fs.jpc == []
    ensures ListsOk(Base(fs, e), e)
  {
    hide FsOk;
  }

  lemma NotJump(fs: Fs, gs: Fs, e: Exp, j: nat)
    requires DescOk(fs, e) && e.kind.VReloc? && NewJump(Base(fs, e), gs, e, j) && j == |fs.code|
    ensures NewJump(fs, gs, e, j)
  {
    hide FsOk;
    var b := Base(fs, e);
    forall x: nat | x < |fs.code| && fs.code[x] == Jmp(None) ensures Kept(fs.code, gs.code, x) {
      assert Kept(b.code, gs.code, x);
    }
    forall x | (x in e.t || x in e.f) && x < |fs.code| ensures Kept(fs.code, gs.code, x) {
      assert fs.code[x] == Jmp(None);
    }
  }

  lemma JumpOnCondOk(fs: Fs, e: Exp, cond: bool)
    requires DescOk(fs, e) && !e.kind.VLocal? && !e.kind.VJmp?
    ensures var (gs, j) := JumpOnCond(fs, e, cond); NewJump(fs, gs, e, j) && gs.freereg == Slot(fs, e)
  {
    hide FsOk, KeepsWaiting, ListsKept, NewJump, CondJump, Tested;
    if IsNot(fs, e) {
      BaseKeeps(fs, e);
      var b := Base(fs, e);
      var test := Test(fs.code[|fs.code|-1].b, !cond);
      CondJumpKeeps(b, CondJump(b, test).0, test, e);
      CondJumpOk(b, test);
      NotJump(fs, CondJump(b, test).0, e, |fs.code|);
    } else {
      TestedOk(fs, e);
      var (hs, r) := Tested(fs, e);
      var test := TestSet(None, r, cond);
      KeptLists(fs, hs, e);
      CondJumpKeeps(hs, CondJump(hs, test).0, test, e);
      NewJumpAfter(fs, hs, CondJump(hs, test).0, e, CondJump(hs, test).1);
    }
  }

  lemma KeptLists(fs: Fs, hs: Fs, e: Exp)
    requires ListsKept(fs, hs, e)
    ensures ListsOk(hs, e)
  {
  }

  /** Control leaves by the new jump, with the value, exactly if its truth is `cond`. */
  ghost predicate Splits(before: Outcome, after: Outcome, code: Code, j: nat, n: nat, v: Value, cond: bool) {
    match before
    case At(_, _) => after == before
    case Here(x) =>
      && SameBelow(x, after.regs, n)
      && if Truthy(v) == cond then after.At? && after.pc == j && Out(code, j, after.regs, v, cond) else after.Here?
  }

  lemma JumpOnCondRuns(m: Ops, fs: Fs, e: Exp, cond: bool, start: Regs)
    requires DescOk(fs, e) && !e.kind.VLocal? && !e.kind.VJmp? && FreshFrame(start, fs.nactvar)
    ensures var (gs, j) := JumpOnCond(fs, e, cond);
            var before := Behave(m, Base(fs, e), start);
            Splits(before, Behave(m, gs, start), gs.code, j, Slot(fs, e),
                   if before.Here? then DescValue(m, fs, e, before.regs) else Nil, cond)
  {
    hide FsOk, KeepsWaiting, ListsKept, CondJump, Tested, Behave, ListsOk, Grows;
    if IsNot(fs, e) {
      BaseKeeps(fs, e);
      var b := Base(fs, e);
      var test := Test(fs.code[|fs.code|-1].b, !cond);
      CondJumpKeeps(b, CondJump(b, test).0, test, e);
      CondJumpRuns(m, b, test, start);
      CondJumpOk(b, test);
    } else {
      TestedOk(fs, e);
      TestedRuns(m, fs, e, start);
      var (hs, r) := Tested(fs, e);
      var test := TestSet(None, r, cond);
      KeptLists(fs, hs, e);
      CondJumpKeeps(hs, CondJump(hs, test).0, test, e);
      CondJumpRuns(m, hs, test, start);
      CondJumpOk(hs, test);
    }
  }

  // ---------------------------------------------------------------- goiftrue and goiffalse

  lemma InvertedOk(fs: Fs, e: Exp)
    requires DescOk(fs, e) && e.kind.VJmp?
    ensures var c := fs.code[|fs.code|-2]; c.Cmp?
    ensures var c := fs.code[|fs.code|-2];
            CondJump(Base(fs, e), c.(cond := !c.cond)) == (InvertJump(fs, e), e.kind.jump)
    ensures var gs := InvertJump(fs, e);
            && FsOk(gs) && Grows(fs, gs, {e.kind.jump}) && ListsKept(fs, gs, e) && gs.jpc == [] && gs.freereg == fs.freereg
            && |gs.code| == |fs.code| && gs.code[e.kind.jump] == Jmp(None) && gs.code[e.kind.jump-1].Cmp?
  {
    hide CodeOk, KOk, LabelOk, CacheOk;
    JumpBase(fs, e);
    var b := Base(fs, e);
    var c := fs.code[|fs.code|-2];
    var c' := c.(cond := !c.cond);
    CondJumpOk(b, c');
    PatchNothing(b.code, None, |b.code|, Some(|b.code|));
    assert InvertJump(fs, e).code == b.code + [c'] + [Jmp(None)];
  }

  lemma InvertedRuns(m: Ops, fs: Fs, e: Exp, start: Regs)
    requires DescOk(fs, e) && e.kind.VJmp?
    ensures Behave(m, InvertJump(fs, e), start) ==
              match Behave(m, Base(fs, e), start)
              case At(j, r) => At(j, r)
              case Here(r) => if DescValue(m, fs, e, r) == Bool(true) then Here(r) else At(e.kind.jump, r)
  {
    hide FsOk, Behave, CondJump;
    JumpBase(fs, e);
    InvertedOk(fs, e);
    var c := fs.code[|fs.code|-2];
    CondJumpRuns(m, Base(fs, e), c.(cond := !c.cond), start);
  }

  lemma ComparedRuns(m: Ops, fs: Fs, e: Exp, start: Regs)
    requires DescOk(fs, e) && e.kind.VJmp?
    ensures Behave(m, fs, start) ==
              match Behave(m, Base(fs, e), start)
              case At(j, r) => At(j, r)
              case Here(r) => if DescValue(m, fs, e, r) == Bool(true) then At(e.kind.jump, r) else Here(r)
  {
    hide FsOk, Behave, CondJump;
    JumpBase(fs, e);
    CondJumpRuns(m, Base(fs, e), fs.code[|fs.code|-2], start);
  }

  /** No jump that waits for the next instruction carries a value: splicing them into a list loses nothing. */
  predicate NoCarrier(fs: Fs) {
    forall j | j in fs.jpc :: !Carries(fs.code, j)
  }

  /** Control comes by a jump that waits for the next instruction and carries something else than the boolean. */
  predicate Misdelivers(m: Ops, fs: Fs, start: Regs, b: bool) {
    var o := Run(m, fs.code, fs.k, 0, start);
    o.At? && o.pc in fs.jpc && Carries(fs.code, o.pc) && Get(o.regs, fs.code[o.pc-1].b) != Bool(b)
  }

  lemma NoCarrierDelivers(m: Ops, fs: Fs, start: Regs, b: bool)
    requires NoCarrier(fs)
    ensures !Misdelivers(m, fs, start, b)
  {
  }

  /** The jump that leaves and the state it leaves, before the other list is closed. */
  function LeaveIfFalse(fs: Fs, d: Exp): (Fs, seq<nat>) {
    match d.kind
    case VK(_) => (fs, [])
    case VKNum(_) => (fs, [])
    case VTrue => (fs, [])
    case VFalse => Jump(fs)
    case VJmp(j) => (InvertJump(fs, d), [j])
    case _ => var (hs, j) := JumpOnCond(fs, d, false); (hs, [j])
  }

  function LeaveIfTrue(fs: Fs, d: Exp): (Fs, seq<nat>) {
    match d.kind
    case VNil => (fs, [])
    case VFalse => (fs, [])
    case VTrue => Jump(fs)
    case VJmp(j) => (fs, [j])
    case _ => var (hs, j) := JumpOnCond(fs, d, true); (hs, [j])
  }

  /** luaK_goiftrue: the list of the jumps by which control leaves if the value is false. */
  function GoIfTrue(fs: Fs, e: Exp): (Fs, seq<nat>) {
    var d := DischargeVars(e);
    var (gs, pcs) := LeaveIfFalse(fs, d);
    (PatchToHere(gs, d.t), d.f + pcs)
  }

  /** luaK_goiffalse: the list of the jumps by which control leaves if the value is true. */
  function GoIfFalse(fs: Fs, e: Exp): (Fs, seq<nat>) {
    var d := DischargeVars(e);
    var (gs, pcs) := LeaveIfTrue(fs, d);
    (PatchToHere(gs, d.f), d.t + pcs)
  }

  /** The jumps by which control leaves wait, and are on no other list. */
  ghost predicate LeaveOk(fs: Fs, d: Exp, gs: Fs, pcs: seq<nat>) {
    && FsOk(gs) && Grows(fs, gs, Own(d)) && ListsKept(fs, gs, d) && gs.freereg == Slot(fs, d)
    && Waiting(gs.code, pcs) && Disjoint(pcs, gs.jpc) && Disjoint(pcs, d.t) && Disjoint(pcs, d.f)
    && (forall j | j in pcs :: j in fs.jpc || |fs.code| <= j || j in Own(d))
    && (forall j | j in gs.jpc :: j in fs.jpc)
  }

  lemma LeaveByNew(fs: Fs, d: Exp, gs: Fs, j: nat)
    requires DescOk(fs, d) && NewJump(fs, gs, d, j) && gs.freereg == Slot(fs, d)
    ensures LeaveOk(fs, d, gs, [j])
  {
    hide FsOk, KeepsWaiting, KindOk;
    GrowsMore(fs, gs, Own(d));
  }

  lemma LeaveByNone(fs: Fs, d: Exp)
    requires DescOk(fs, d) && !Temporary(fs, d)
    ensures LeaveOk(fs, d, fs, [])
  {
    hide FsOk, KindOk;
  }

  lemma LeaveByJump(fs: Fs, d: Exp)
    requires DescOk(fs, d) && !Temporary(fs, d)
    ensures LeaveOk(fs, d, Jump(fs).0, Jump(fs).1)
  {
    hide CodeOk, KOk, LabelOk, KindOk;
    JumpOk(fs);
    ListsAreKept(fs, Jump(fs).0, d);
  }

  lemma LeaveByComparison(fs: Fs, d: Exp)
    requires DescOk(fs, d) && d.kind.VJmp?
    ensures LeaveOk(fs, d, fs, [d.kind.jump]) && LeaveOk(fs, d, InvertJump(fs, d), [d.kind.jump])
  {
    hide FsOk;
    InvertedOk(fs, d);
    assert d.kind.jump in TrueList(d);
    var gs := InvertJump(fs, d);
    assert KeepsWaiting(fs, gs, {d.kind.jump});
  }

  lemma LeaveIfFalseOk(fs: Fs, d: Exp)
    requires DescOk(fs, d) && !d.kind.VLocal?
    ensures LeaveOk(fs, d, LeaveIfFalse(fs, d).0, LeaveIfFalse(fs, d).1)
  {
    hide FsOk, LeaveOk, NewJump, JumpOnCond, InvertJump, Jump, ListsOk;
    match d.kind
    case VK(_) => LeaveByNone(fs, d);
    case VKNum(_) => LeaveByNone(fs, d);
    case VTrue => LeaveByNone(fs, d);
    case VFalse => LeaveByJump(fs, d);
    case VJmp(j) => LeaveByComparison(fs, d);
    case _ =>
      JumpOnCondOk(fs, d, false);
      LeaveByNew(fs, d, JumpOnCond(fs, d, false).0, JumpOnCond(fs, d, false).1);
  }

  lemma LeaveIfTrueOk(fs: Fs, d: Exp)
    requires DescOk(fs, d) && !d.kind.VLocal?
    ensures LeaveOk(fs, d, LeaveIfTrue(fs, d).0, LeaveIfTrue(fs, d).1)
  {
    hide FsOk, LeaveOk, NewJump, JumpOnCond, Jump, ListsOk;
    match d.kind
    case VNil => LeaveByNone(fs, d);
    case VFalse => LeaveByNone(fs, d);
    case VTrue => LeaveByJump(fs, d);
    case VJmp(j) => LeaveByComparison(fs, d);
    case _ =>
      JumpOnCondOk(fs, d, true);
      LeaveByNew(fs, d, JumpOnCond(fs, d, true).0, JumpOnCond(fs, d, true).1);
  }

  /** Control leaves by one of the jumps exactly if the truth of the value is `sense`. */
  ghost predicate Leaves(before: Outcome, after: Outcome, code: Code, pcs: seq<nat>, n: nat, v: Value, sense: bool, exact: bool) {
    match before
    case At(_, _) => after == before
    case Here(x) =>
      && SameBelow(x, after.regs, n)
      && if Truthy(v) == sense then
           after.At? && after.pc in pcs && (exact ==> Out(code, after.pc, after.regs, v, sense))
         else after.Here?
  }

  lemma SplitLeaves(before: Outcome, after: Outcome, code: Code, j: nat, n: nat, v: Value, sense: bool, exact: bool)
    requires Splits(before, after, code, j, n, v, sense)
    ensures Leaves(before, after, code, [j], n, v, sense, exact)
  {
  }

  /** An unconditional jump: the spliced jumps deliver the boolean too, if the one that is taken does. */
  lemma JumpLeaves(m: Ops, fs: Fs, start: Regs, n: nat, b: bool, exact: bool)
    requires FsOk(fs) && (exact ==> !Misdelivers(m, fs, start, b))
    ensures Leaves(Behave(m, fs, start), Behave(m, Jump(fs).0, start), Jump(fs).0.code, Jump(fs).1, n, Bool(b), b, exact)
  {
    hide CodeOk, KOk, LabelOk;
    JumpRuns(m, fs, start);
    NotControlledAtEnd(fs.code);
    assert Jump(fs).0.code == fs.code + [Jmp(None)];
  }

  lemma StaysLeaves(o: Outcome, code: Code, n: nat, v: Value, sense: bool, exact: bool)
    requires o.Here? ==> Truthy(v) != sense
    ensures Leaves(o, o, code, [], n, v, sense, exact)
  {
  }

  /** The value of a descriptor, if its base code gets control to its end. */
  function ValueThere(m: Ops, fs: Fs, d: Exp, start: Regs): Value {
    var o := Behave(m, Base(fs, d), start);
    if o.Here? then DescValue(m, fs, d, o.regs) else Nil
  }

  /** Constants in the table are numbers and strings. */
  ghost predicate TrueConstant(fs: Fs, d: Exp) {
    d.kind.VK? ==> Truthy(KAt(fs.k, d.kind.index))
  }

  lemma LeaveIfFalseRuns(m: Ops, fs: Fs, d: Exp, start: Regs, exact: bool)
    requires DescOk(fs, d) && !d.kind.VLocal? && FreshFrame(start, fs.nactvar) && TrueConstant(fs, d)
    requires exact && d.kind.VFalse? ==> !Misdelivers(m, fs, start, false)
    ensures var (gs, pcs) := LeaveIfFalse(fs, d);
            Leaves(Behave(m, Base(fs, d), start), Behave(m, gs, start), gs.code, pcs, Slot(fs, d),
                   ValueThere(m, fs, d, start), false, exact)
  {
    hide FsOk, JumpOnCond, InvertJump, Jump, ListsOk, Behave, Leaves, Splits, Out;
    var o := Behave(m, Base(fs, d), start);
    var v := ValueThere(m, fs, d, start);
    match d.kind
    case VK(_) => StaysLeaves(o, fs.code, Slot(fs, d), v, false, exact);
    case VKNum(_) => StaysLeaves(o, fs.code, Slot(fs, d), v, false, exact);
    case VTrue => StaysLeaves(o, fs.code, Slot(fs, d), v, false, exact);
    case VFalse =>
      JumpLeaves(m, fs, start, Slot(fs, d), false, exact);
      LeavesAny(o, Behave(m, Jump(fs).0, start), Jump(fs).0.code, Jump(fs).1, Slot(fs, d), Bool(false), v, false, exact);
    case VJmp(j) =>
      InvertedRuns(m, fs, d, start);
      InvertedOk(fs, d);
      ComparisonLeaves(o, Behave(m, InvertJump(fs, d), start), InvertJump(fs, d).code, j, Slot(fs, d), v, false, exact);
    case _ =>
      JumpOnCondRuns(m, fs, d, false, start);
      var (gs, j) := JumpOnCond(fs, d, false);
      SplitLeaves(o, Behave(m, gs, start), gs.code, j, Slot(fs, d), v, false, exact);
  }

  /** For control that is gone the value does not matter. */
  lemma LeavesAny(o: Outcome, after: Outcome, code: Code, pcs: seq<nat>, n: nat, v: Value, v': Value, sense: bool, exact: bool)
    requires Leaves(o, after, code, pcs, n, v, sense, exact) && (o.Here? ==> v' == v)
    ensures Leaves(o, after, code, pcs, n, v', sense, exact)
  {
  }

  lemma ComparisonLeaves(o: Outcome, after: Outcome, code: Code, j: nat, n: nat, v: Value, sense: bool, exact: bool)
    requires o.At? ==> after == o
    requires o.Here? ==> v.Bool? && after == if v == Bool(sense) then At(j, o.regs) else Here(o.regs)
    requires !Carries(code, j)
    ensures Leaves(o, after, code, [j], n, v, sense, exact)
  {
  }

  lemma LeaveIfTrueRuns(m: Ops, fs: Fs, d: Exp, start: Regs, exact: bool)
    requires DescOk(fs, d) && !d.kind.VLocal? && FreshFrame(start, fs.nactvar)
    requires exact && d.kind.VTrue? ==> !Misdelivers(m, fs, start, true)
    ensures var (gs, pcs) := LeaveIfTrue(fs, d);
            Leaves(Behave(m, Base(fs, d), start), Behave(m, gs, start), gs.code, pcs, Slot(fs, d),
                   ValueThere(m, fs, d, start), true, exact)
  {
    hide FsOk, JumpOnCond, Jump, ListsOk, Behave, Leaves, Splits, Out;
    var o := Behave(m, Base(fs, d), start);
    var v := ValueThere(m, fs, d, start);
    match d.kind
    case VNil => StaysLeaves(o, fs.code, Slot(fs, d), v, true, exact);
    case VFalse => StaysLeaves(o, fs.code, Slot(fs, d), v, true, exact);
    case VTrue =>
      JumpLeaves(m, fs, start, Slot(fs, d), true, exact);
      LeavesAny(o, Behave(m, Jump(fs).0, start), Jump(fs).0.code, Jump(fs).1, Slot(fs, d), Bool(true), v, true, exact);
    case VJmp(j) =>
      ComparedRuns(m, fs, d, start);
      JumpNotCarrying(fs, d);
      ComparisonLeaves(o, Behave(m, fs, start), fs.code, j, Slot(fs, d), v, true, exact);
    case _ =>
      JumpOnCondRuns(m, fs, d, true, start);
      var (gs, j) := JumpOnCond(fs, d, true);
      SplitLeaves(o, Behave(m, gs, start), gs.code, j, Slot(fs, d), v, true, exact);
  }

  lemma JumpNotCarrying(fs: Fs, d: Exp)
    requires DescOk(fs, d) && d.kind.VJmp?
    ensures !Carries(fs.code, d.kind.jump)
  {
  }

  /** After a condition: the exits that are left wait on one list, `out`. */
  ghost predicate CondOk(fs: Fs, e: Exp, gs: Fs, out: seq<nat>) {
    && FsOk(gs) && Grows(fs, gs, Own(e)) && gs.freereg == Slot(fs, e)
    && Waiting(gs.code, out) && Disjoint(out, gs.jpc)
    && forall j | j in out :: j in fs.jpc || |fs.code| <= j || j in Own(e)
  }

  lemma ClosedOk(fs: Fs, d: Exp, gs: Fs, pcs: seq<nat>)
    requires DescOk(fs, d) && LeaveOk(fs, d, gs, pcs)
    ensures CondOk(fs, d, PatchToHere(gs, d.t), d.f + pcs)
    ensures CondOk(fs, d, PatchToHere(gs, d.f), d.t + pcs)
  {
    hide FsOk, KindOk, KeepsWaiting;
    PatchToHereOk(gs, d.t);
    PatchToHereOk(gs, d.f);
    KeepsTransitive(fs, gs, PatchToHere(gs, d.t), Own(d), Elems(d.t));
    KeepsTransitive(fs, gs, PatchToHere(gs, d.f), Own(d), Elems(d.f));
  }

  lemma GoIfTrueOk(fs: Fs, e: Exp)
    requires DescOk(fs, e)
    ensures CondOk(fs, e, GoIfTrue(fs, e).0, GoIfTrue(fs, e).1)
  {
    hide FsOk, KindOk, LeaveOk, LeaveIfFalse, ListsOk, Grows, KeepsWaiting;
    DischargeVarsKind(fs, e);
    var d := DischargeVars(e);
    LeaveIfFalseOk(fs, d);
    ClosedOk(fs, d, LeaveIfFalse(fs, d).0, LeaveIfFalse(fs, d).1);
  }

  lemma GoIfFalseOk(fs: Fs, e: Exp)
    requires DescOk(fs, e)
    ensures CondOk(fs, e, GoIfFalse(fs, e).0, GoIfFalse(fs, e).1)
  {
    hide FsOk, KindOk, LeaveOk, LeaveIfTrue, ListsOk, Grows, KeepsWaiting;
    DischargeVarsKind(fs, e);
    var d := DischargeVars(e);
    LeaveIfTrueOk(fs, d);
    ClosedOk(fs, d, LeaveIfTrue(fs, d).0, LeaveIfTrue(fs, d).1);
  }

  /** Control has left by `out` if the truth of the value is `sense`, and otherwise gets to the next instruction. */
  ghost predicate Branches(m: Ops, gs: Fs, out: seq<nat>, start: Regs, r0: Regs, n: nat, v: Value, sense: bool, exact: bool) {
    match Behave(m, gs, start)
    case Here(r) => SameBelow(r0, r, n) && Truthy(v) != sense
    case At(j, r) =>
      SameBelow(r0, r, n) && j in out && Truthy(v) == sense && (exact ==> Out(gs.code, j, r, v, sense))
  }

  lemma ClosedRuns(m: Ops, fs: Fs, d: Exp, gs: Fs, pcs: seq<nat>, start: Regs, r0: Regs, n: nat, v: Value, sense: bool, exact: bool)
    requires DescOk(fs, d) && LeaveOk(fs, d, gs, pcs) && n <= Slot(fs, d)
    requires Denotes(m, fs, d, start, r0, n, v, exact)
    requires Leaves(Behave(m, Base(fs, d), start), Behave(m, gs, start), gs.code, pcs, Slot(fs, d), ValueThere(m, fs, d, start), sense, exact)
    ensures var hs := PatchToHere(gs, if sense then d.f else d.t);
            Branches(m, hs, (if sense then d.t else d.f) + pcs, start, r0, n, v, sense, exact)
  {
    hide FsOk, KindOk, Behave, Grows, Out, ListsKept;
    var closed := if sense then d.f else d.t;
    PatchToHereRuns(m, gs, closed, start);
    match Behave(m, Base(fs, d), start)
    case Here(x) =>
    case At(j, r) =>
      ExitKept(fs, gs, d, j, r, v, exact);
  }

  /** luaK_goiftrue: control falls through exactly if the value is true and leaves by the list otherwise. */
  lemma GoIfTrueRuns(m: Ops, fs: Fs, e: Exp, start: Regs, r0: Regs, n: nat, v: Value, exact: bool)
    requires DescOk(fs, e) && FreshFrame(start, fs.nactvar) && n <= Slot(fs, e) && TrueConstant(fs, e)
    requires Denotes(m, fs, e, start, r0, n, v, exact)
    requires exact && e.kind.VFalse? ==> !Misdelivers(m, fs, start, false)
    ensures Branches(m, GoIfTrue(fs, e).0, GoIfTrue(fs, e).1, start, r0, n, v, false, exact)
  {
    hide FsOk, KindOk, LeaveOk, LeaveIfFalse, ListsOk, Denotes, Leaves, Branches, Behave, Gone;
    DischargeVarsOk(m, fs, e, start);
    var d := DischargeVars(e);
    LeaveIfFalseOk(fs, d);
    LeaveIfFalseRuns(m, fs, d, start, exact);
    ClosedRuns(m, fs, d, LeaveIfFalse(fs, d).0, LeaveIfFalse(fs, d).1, start, r0, n, v, false, exact);
  }

  lemma GoIfFalseRuns(m: Ops, fs: Fs, e: Exp, start: Regs, r0: Regs, n: nat, v: Value, exact: bool)
    requires DescOk(fs, e) && FreshFrame(start, fs.nactvar) && n <= Slot(fs, e)
    requires Denotes(m, fs, e, start, r0, n, v, exact)
    requires exact && e.kind.VTrue? ==> !Misdelivers(m, fs, start, true)
    ensures Branches(m, GoIfFalse(fs, e).0, GoIfFalse(fs, e).1, start, r0, n, v, true, exact)
  {
    hide FsOk, KindOk, LeaveOk, LeaveIfTrue, ListsOk, Denotes, Leaves, Branches, Behave, Gone;
    DischargeVarsOk(m, fs, e, start);
    var d := DischargeVars(e);
    LeaveIfTrueOk(fs, d);
    LeaveIfTrueRuns(m, fs, d, start, exact);
    ClosedRuns(m, fs, d, LeaveIfTrue(fs, d).0, LeaveIfTrue(fs, d).1, start, r0, n, v, true, exact);
  }

  lemma CondGone(m: Ops, fs: Fs, e: Exp, start: Regs, o: Outcome)
    requires DescOk(fs, e) && FreshFrame(start, fs.nactvar) && Gone(m, fs, e, start, o) && TrueConstant(fs, e)
    ensures Behave(m, GoIfTrue(fs, e).0, start) == o && Behave(m, GoIfFalse(fs, e).0, start) == o
  {
    hide FsOk, KindOk, LeaveOk, LeaveIfTrue, LeaveIfFalse, ListsOk, Denotes, Behave;
    DischargeVarsOk(m, fs, e, start);
    var d := DischargeVars(e);
    assert Gone(m, fs, d, start, o);
    LeaveIfFalseRuns(m, fs, d, start, false);
    LeaveIfTrueRuns(m, fs, d, start, false);
    PatchToHereRuns(m, LeaveIfFalse(fs, d).0, d.t, start);
    PatchToHereRuns(m, LeaveIfTrue(fs, d).0, d.f, start);
  }
}
