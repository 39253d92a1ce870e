/** exp2reg puts the value of an expression into a register, whichever way control leaves the expression. */
module CgReg {
  import opened CgCode
  import opened CgState
  import opened CgExp
  import opened Wrappers

  // ---------------------------------------------------------------- the two loads

  lemma PatchNothing(code: Code, reg: Option<nat>, vtarget: nat, dtarget: Option<nat>)
    ensures Patch(code, [], reg, vtarget, dtarget) == code
  {
  }

  function WithLoads(code: Code, reg: nat): Code {
    code + [LoadBool(reg, false, true), LoadBool(reg, true, false)]
  }

  lemma LoadsShape(fs: Fs, reg: nat, isJump: bool)
    requires isJump ==> fs.jpc == []
    ensures var (gs, fj) := if isJump then (fs, []) else Jump(fs);
            && gs.jpc == []
            && Loads(fs, reg, isJump) == gs.(code := WithLoads(gs.code, reg), lasttarget := |gs.code| + 2, jpc := fj)
  {
    var (gs, fj) := if isJump then (fs, []) else Jump(fs);
    PatchNothing(gs.code, None, |gs.code|, Some(|gs.code|));
    var h := Emit(Label(gs), LoadBool(reg, false, true));
    PatchNothing(h.code, None, |h.code|, Some(|h.code|));
  }

  lemma WithLoadsOk(gs: Fs, reg: nat, fj: seq<nat>)
    requires FsOk(gs) && gs.jpc == [] && Waiting(gs.code, fj)
    ensures FsOk(gs.(code := WithLoads(gs.code, reg), lasttarget := |gs.code| + 2, jpc := fj))
  {
    hide CodeOk, KOk;
    var after := WithLoads(gs.code, reg);
    NotControlledAtEnd(gs.code);
    forall x: nat | x < |after|
      ensures InstrOk(after, x) && UsesK(after[x], |gs.k|) && TargetsUpTo(after[x], x, |gs.code| + 2)
    {
      if x < |gs.code| {
        NextOk(gs.code, x);
        KOkAt(gs.code, |gs.k|, x);
        assert TargetsUpTo(gs.code[x], x, gs.lasttarget);
      }
    }
    IsCodeOk(after);
    IsKOk(after, |gs.k|);
  }

  lemma LoadsOk(fs: Fs, reg: nat, isJump: bool)
    requires FsOk(fs) && (isJump ==> fs.jpc == [])
    ensures var gs := Loads(fs, reg, isJump);
            && FsOk(gs) && KeepsWaiting(fs, gs, {}) && gs.lasttarget == |gs.code|
            && gs == fs.(code := gs.code, lasttarget := gs.lasttarget, jpc := gs.jpc)
            && |fs.code| + 2 <= |gs.code|
            && gs.code[|gs.code|-2..] == [LoadBool(reg, false, true), LoadBool(reg, true, false)]
            && (forall j | j in gs.jpc :: j in fs.jpc || |fs.code| <= j)
  {
    hide CodeOk, KOk, LabelOk;
    LoadsShape(fs, reg, isJump);
    var (gs, fj) := if isJump then (fs, []) else Jump(fs);
    JumpOk(fs);
    WithLoadsOk(gs, reg, fj);
  }

  lemma RunLoads(m: Ops, code: Code, reg: nat, k: seq<Value>, r: Regs)
    ensures Run(m, WithLoads(code, reg), k, |code|, r) == Here(r[reg := Bool(false)])
    ensures Run(m, WithLoads(code, reg), k, |code| + 1, r) == Here(r[reg := Bool(true)])
  {
    var after := WithLoads(code, reg);
    assert after[|code|] == LoadBool(reg, false, true) && after[|code|+1] == LoadBool(reg, true, false);
  }

  /** Falling into the loads is either impossible or means false. */
  lemma LoadsRuns(m: Ops, fs: Fs, reg: nat, isJump: bool, start: Regs)
    requires FsOk(fs) && (isJump ==> fs.jpc == [])
    ensures Behave(m, Loads(fs, reg, isJump), start) ==
              match Behave(m, fs, start)
              case Here(r) => if isJump then Here(r[reg := Bool(false)]) else Here(r)
              case At(j, r) => At(j, r)
  {
    hide CodeOk, KOk, LabelOk, CacheOk;
    LoadsShape(fs, reg, isJump);
    var (gs, fj) := if isJump then (fs, []) else Jump(fs);
    JumpOk(fs);
    JumpRuns(m, fs, start);
    RunAppend(m, gs.code, [LoadBool(reg, false, true), LoadBool(reg, true, false)], gs.k, 0, start);
    RunStops(m, fs.code, fs.k, 0, start);
    forall r { RunLoads(m, gs.code, reg, gs.k, r); }
  }

  // ---------------------------------------------------------------- landing a list

  /** What is loaded for a jump that carries no value. */
  predicate LoadsAt(code: Code, d: nat, reg: nat, b: bool) {
    if b then d + 1 == |code| && code[d] == LoadBool(reg, true, false)
    else d + 2 == |code| && code[d] == LoadBool(reg, false, true) && !IsTest(code[d+1])
  }

  predicate Landable(fs: Fs, list: seq<nat>, reg: nat, dtarget: Option<nat>, b: bool) {
    && fs.lasttarget == |fs.code|
    && (if dtarget.Some? then LoadsAt(fs.code, dtarget.value, reg, b) else !NeedValue(fs.code, list))
    && (forall j | j in list :: j < |fs.code| - 2 || dtarget.None?)
  }

  lemma LandTargets(fs: Fs, list: seq<nat>, reg: nat, dtarget: Option<nat>, b: bool)
    requires FsOk(fs) && Waiting(fs.code, list) && Landable(fs, list, reg, dtarget, b)
    ensures TargetOk(fs.code, list, |fs.code|)
    ensures dtarget.Some? ==> TargetOk(fs.code, list, dtarget.value)
  {
    hide CodeOk;
    NotControlledAtEnd(fs.code);
    if dtarget.Some? && 0 < dtarget.value { NextOk(fs.code, dtarget.value - 1); }
  }

  lemma LandOk(fs: Fs, list: seq<nat>, reg: nat, dtarget: Option<nat>, b: bool)
    requires FsOk(fs) && Waiting(fs.code, list) && Disjoint(list, fs.jpc) && Landable(fs, list, reg, dtarget, b)
    ensures var gs := Land(fs, list, reg, dtarget);
            && FsOk(gs) && KeepsWaiting(fs, gs, Elems(list)) && |gs.code| == |fs.code|
            && (forall i: nat | i < |fs.code| && Plain(fs.code[i]) :: gs.code[i] == fs.code[i])
            && (forall i: nat | i < |fs.code| :: IsTest(gs.code[i]) == IsTest(fs.code[i]))
  {
    hide CodeOk, KOk;
    LandTargets(fs, list, reg, dtarget, b);
    PatchCodeOk(fs.code, list, Some(reg), |fs.code|, dtarget);
    PatchKOk(fs.code, list, Some(reg), |fs.code|, dtarget, |fs.k|);
    var gs := Land(fs, list, reg, dtarget);
    forall i: nat | i < |fs.code|
      ensures TargetsUpTo(gs.code[i], i, gs.lasttarget) && IsTest(gs.code[i]) == IsTest(fs.code[i])
      ensures Plain(fs.code[i]) ==> gs.code[i] == fs.code[i]
    {
      PatchKeepsTests(fs.code, list, Some(reg), |fs.code|, dtarget, i);
      assert TargetsUpTo(fs.code[i], i, fs.lasttarget);
    }
  }

  /** The value with which a jump of the list arrives. */
  function Arrives(code: Code, j: nat, r: Regs, b: bool): Value {
    if Carries(code, j) then Get(r, code[j-1].b) else Bool(b)
  }

  lemma RunFromLoads(m: Ops, code: Code, k: seq<Value>, d: nat, reg: nat, b: bool, r: Regs)
    requires LoadsAt(code, d, reg, b)
    ensures Run(m, code, k, d, r) == Here(r[reg := Bool(b)])
  {
  }

  lemma LandRuns(m: Ops, fs: Fs, list: seq<nat>, reg: nat, dtarget: Option<nat>, b: bool, start: Regs)
    requires FsOk(fs) && Waiting(fs.code, list) && Disjoint(list, fs.jpc) && Landable(fs, list, reg, dtarget, b)
    ensures var o := Behave(m, Land(fs, list, reg, dtarget), start);
            match Behave(m, fs, start)
            case Here(_) => o == Behave(m, fs, start)
            case At(j, r) =>
              if j in list then o.Here? && SameBelow(r, o.regs, reg) && Get(o.regs, reg) == Arrives(fs.code, j, r, b)
              else o == Behave(m, fs, start)
  {
    hide CodeOk, KOk, LabelOk, CacheOk, Rewired, SettleTest;
    LandTargets(fs, list, reg, dtarget, b);
    LandOk(fs, list, reg, dtarget, b);
    PatchRewired(fs.code, list, Some(reg), |fs.code|, dtarget);
    var after := Land(fs, list, reg, dtarget).code;
    RunRewired(m, fs.code, after, fs.k, 0, start);
    match Run(m, fs.code, fs.k, 0, start)
    case Here(_) =>
    case At(j, r) =>
      RunStops(m, fs.code, fs.k, 0, start);
      assert j < |fs.code| && fs.code[j] == Jmp(None);
      if j in list {
        LandOne(m, fs, list, reg, dtarget, b, j, r);
      } else {
        assert after[j] == fs.code[j];
      }
  }

  lemma LandOne(m: Ops, fs: Fs, list: seq<nat>, reg: nat, dtarget: Option<nat>, b: bool, j: nat, r: Regs)
    requires FsOk(fs) && Waiting(fs.code, list) && Disjoint(list, fs.jpc) && Landable(fs, list, reg, dtarget, b)
    requires j in list && j < |fs.code|
    ensures var after := Land(fs, list, reg, dtarget).code;
            var o := Settled(m, after, fs.k, At(j, r));
            o.Here? && SameBelow(r, o.regs, reg) && Get(o.regs, reg) == Arrives(fs.code, j, r, b)
  {
    hide CodeOk, KOk, LabelOk, CacheOk, FsOk, KeepsWaiting, InstrOk;
    LandOk(fs, list, reg, dtarget, b);
    var after := Land(fs, list, reg, dtarget).code;
    assert after[j] == PatchedAt(fs.code, list, Some(reg), |fs.code|, dtarget, j);
    if Carries(fs.code, j) {
      assert after[j] == Jmp(Some(|fs.code|));
      assert after[j-1] == PatchedAt(fs.code, list, Some(reg), |fs.code|, dtarget, j-1);
      assert j - 1 !in list;
      assert Settled(m, after, fs.k, At(j, r)) == Here(Copied(after[j-1], r));
    } else {
      assert dtarget.Some? && after[j] == Jmp(dtarget);
      assert Delivered(after, j, r) == r;
      RunFromLoads(m, after, fs.k, dtarget.value, reg, b, r);
    }
  }

  // ---------------------------------------------------------------- exp2reg

  /** The descriptor with its own jump on the list of true exits. */
  function Whole(e: Exp): Exp {
    e.(t := TrueList(e))
  }

  lemma WholeLists(fs: Fs, e: Exp)
    requires DescOk(fs, e)
    ensures ListsOk(fs, Whole(e))
  {
  }

  /** What holds once the value that falls through is in `reg`. */
  ghost predicate Filled(m: Ops, fs: Fs, e: Exp, start: Regs, r0: Regs, n: nat, reg: nat, v: Value) {
    match Behave(m, fs, start)
    case Here(r) => SameBelow(r0, r, n) && Get(r, reg) == v
    case At(j, r) => SameBelow(r0, r, n) && Lands(fs.code, e, j, r, v)
  }

  /** A jump's test looks the same in `gs`. */
  lemma OutKept(code: Code, code': Code, j: nat, r: Regs, v: Value, b: bool)
    requires j < |code| && Kept(code, code', j)
    ensures Out(code', j, r, v, b) == Out(code, j, r, v, b) && Carries(code', j) == Carries(code, j)
    ensures Carries(code, j) ==> code'[j-1] == code[j-1]
  {
  }

  lemma ExitKept(fs: Fs, gs: Fs, e: Exp, j: nat, r: Regs, v: Value, exact: bool)
    requires ListsOk(fs, e) && ListsKept(fs, gs, e)
    ensures ExitOk(gs.code, e, j, r, v, exact) == ExitOk(fs.code, e, j, r, v, exact)
  {
    hide Out, Kept;
    if j in e.t || j in e.f {
      OutKept(fs.code, gs.code, j, r, v, true);
      OutKept(fs.code, gs.code, j, r, v, false);
    }
  }

  lemma LandsKept(fs: Fs, gs: Fs, e: Exp, j: nat, r: Regs, v: Value)
    requires ListsOk(fs, e) && ListsKept(fs, gs, e)
    ensures Lands(gs.code, e, j, r, v) == Lands(fs.code, e, j, r, v)
  {
    hide Out, Kept;
    if j in e.t || j in e.f {
      OutKept(fs.code, gs.code, j, r, v, true);
      OutKept(fs.code, gs.code, j, r, v, false);
    }
  }

  lemma FilledByDischarge(m: Ops, fs: Fs, e: Exp, reg: nat, start: Regs, r0: Regs, n: nat, v: Value)
    requires DescOk(fs, e) && !e.kind.VJmp? && FreshFrame(start, fs.nactvar) && n <= reg
    requires Delivers(m, fs, e, start, r0, n, v)
    ensures Filled(m, Discharge2Reg(fs, e, reg), Whole(e), start, r0, n, reg, v)
  {
    hide FsOk, Behave, KindOk, DescValue, Discharge2Reg, Lands, ListsOk, ListsKept, Base;
    var gs := Discharge2Reg(fs, e, reg);
    Discharge2RegRuns(m, fs, e, reg, start);
    Discharge2RegOk(fs, e, reg);
    match Behave(m, Base(fs, e), start)
    case Here(r) =>
    case At(j, r) => LandsKept(fs, gs, e, j, r, v);
  }

  lemma JumpBase(fs: Fs, e: Exp)
    requires DescOk(fs, e) && e.kind.VJmp?
    ensures FsOk(Base(fs, e)) && Base(fs, e).jpc == [] && 2 <= |fs.code|
    ensures FreshTest(fs.code[|fs.code|-2]) && UsesK(fs.code[|fs.code|-2], |fs.k|)
    ensures CondJump(Base(fs, e), fs.code[|fs.code|-2]) == (fs, e.kind.jump)
  {
    hide CodeOk, KOk, LabelOk;
    var b := Base(fs, e);
    PatchNothing(b.code, None, |b.code|, Some(|b.code|));
    assert fs.code == b.code + [fs.code[|fs.code|-2]] + [Jmp(None)];
  }

  lemma JumpNeeds(fs: Fs, e: Exp)
    requires DescOk(fs, e) && e.kind.VJmp?
    ensures NeedsLoads(fs, e) && e.kind.jump in TrueList(e)
  {
    assert e.kind.jump in TrueList(e) && !Carries(fs.code, e.kind.jump);
  }

  /** A comparison: the jump means true and falling into the loads means false. */
  lemma FilledByLoads(m: Ops, fs: Fs, e: Exp, reg: nat, start: Regs, r0: Regs, n: nat, v: Value)
    requires DescOk(fs, e) && e.kind.VJmp? && n <= reg
    requires Delivers(m, fs, e, start, r0, n, v)
    ensures Filled(m, Loads(fs, reg, true), Whole(e), start, r0, n, reg, v)
  {
    hide FsOk, Behave, Loads, ListsOk, ListsKept, Base, KindOk, Taken;
    JumpBase(fs, e);
    var gs := Loads(fs, reg, true);
    assert fs.jpc == [] by { JumpPending(fs, e); }
    CondJumpRuns(m, Base(fs, e), fs.code[|fs.code|-2], start);
    LoadsRuns(m, fs, reg, true, start);
    LoadsOk(fs, reg, true);
    WholeLists(fs, e);
    ListsAreKept(fs, gs, Whole(e));
    JumpNeeds(fs, e);
    match Behave(m, Base(fs, e), start)
    case Here(r) =>
      JumpExit(fs, e, r, v);
      LandsKept(fs, gs, Whole(e), e.kind.jump, r, v);
    case At(j, r) =>
      ExitWhole(fs, e, j, r, v);
      LandsKept(fs, gs, Whole(e), j, r, v);
  }

  lemma JumpPending(fs: Fs, e: Exp)
    requires DescOk(fs, e) && e.kind.VJmp?
    ensures fs.jpc == []
  {
  }

  lemma JumpExit(fs: Fs, e: Exp, r: Regs, v: Value)
    requires DescOk(fs, e) && e.kind.VJmp?
    ensures v == Bool(true) ==> Lands(fs.code, Whole(e), e.kind.jump, r, v)
  {
    JumpNeeds(fs, e);
  }

  lemma ExitWhole(fs: Fs, e: Exp, j: nat, r: Regs, v: Value)
    requires Lands(fs.code, e, j, r, v)
    ensures Lands(fs.code, Whole(e), j, r, v)
  {
  }

  lemma LandBothOk(h: Fs, e: Exp, reg: nat, dF: Option<nat>, dT: Option<nat>)
    requires FsOk(h) && ListsOk(h, e)
    requires Landable(h, e.f, reg, dF, false) && Landable(h, e.t, reg, dT, true)
    ensures var g := Land(h, e.f, reg, dF); var gs := Land(g, e.t, reg, dT);
            && FsOk(g) && ListsOk(g, e.(f := [])) && Landable(g, e.t, reg, dT, true)
            && FsOk(gs) && KeepsWaiting(h, gs, Elems(e.t) + Elems(e.f)) && |gs.code| == |h.code|
            && (forall j | j in e.t :: j < |h.code| && Kept(h.code, g.code, j))
  {
    hide FsOk, NeedValue, Land;
    LandOk(h, e.f, reg, dF, false);
    var g := Land(h, e.f, reg, dF);
    LandFields(h, e.f, reg, dF);
    assert forall j | j in e.t :: j < |h.code| && Kept(h.code, g.code, j);
    LandStill(h, g, e.t, reg, dT);
    LandOk(g, e.t, reg, dT, true);
    LandFields(g, e.t, reg, dT);
  }

  /** Both lists landed: whichever way control went, the value is in the register. */
  lemma LandBoth(m: Ops, h: Fs, e: Exp, reg: nat, dF: Option<nat>, dT: Option<nat>, start: Regs, r0: Regs, n: nat, v: Value)
    requires FsOk(h) && ListsOk(h, e) && n <= reg
    requires Landable(h, e.f, reg, dF, false) && Landable(h, e.t, reg, dT, true)
    ensures var gs := Land(Land(h, e.f, reg, dF), e.t, reg, dT);
            && (Filled(m, h, e, start, r0, n, reg, v) ==>
                  var o := Behave(m, gs, start); o.Here? && SameBelow(r0, o.regs, n) && Get(o.regs, reg) == v)
            && (var o := Behave(m, h, start);
                o.At? && o.pc !in e.t && o.pc !in e.f ==> Behave(m, gs, start) == o)
  {
    hide FsOk, Behave, NeedValue, Land, Landable, Kept, KeepsWaiting;
    LandBothOk(h, e, reg, dF, dT);
    var g := Land(h, e.f, reg, dF);
    LandFields(h, e.f, reg, dF);
    LandRuns(m, h, e.f, reg, dF, false, start);
    LandRuns(m, g, e.t, reg, dT, true, start);
    if Behave(m, h, start).At? && Behave(m, h, start).pc in e.t {
      OutKept(h.code, g.code, Behave(m, h, start).pc, Behave(m, h, start).regs, v, true);
    }
  }

  lemma LandFields(h: Fs, list: seq<nat>, reg: nat, d: Option<nat>)
    ensures var g := Land(h, list, reg, d); g == h.(code := g.code) && |g.code| == |h.code|
  {
  }

  lemma LandStill(h: Fs, g: Fs, list: seq<nat>, reg: nat, d: Option<nat>)
    requires Landable(h, list, reg, d, true) && |g.code| == |h.code| && g.lasttarget == h.lasttarget
    requires forall i: nat | i < |h.code| && Plain(h.code[i]) :: g.code[i] == h.code[i]
    requires forall j | j in list :: j < |h.code| && Kept(h.code, g.code, j)
    ensures Landable(g, list, reg, d, true)
  {
    forall j | j in list ensures Carries(g.code, j) == Carries(h.code, j) {
      OutKept(h.code, g.code, j, map[], Nil, true);
    }
  }

  /** What every operation leaves alone: waiting jumps of other lists, the active variables, the constants so far. */
  ghost predicate Grows(fs: Fs, gs: Fs, own: set<nat>) {
    && KeepsWaiting(fs, gs, own)
    && |fs.code| <= |gs.code| && gs.nactvar == fs.nactvar && fs.k <= gs.k
    && forall j | j in gs.jpc :: j in fs.jpc || |fs.code| <= j || j in own
  }

  lemma GrowsTransitive(fs: Fs, gs: Fs, hs: Fs, own: set<nat>, more: set<nat>)
    requires Grows(fs, gs, own) && Grows(gs, hs, more)
    requires forall j: nat | j in more :: j in own || j in fs.jpc || |fs.code| <= j
    ensures Grows(fs, hs, own)
  {
    hide KeepsWaiting;
    KeepsTransitive(fs, gs, hs, own, more);
  }

  function Own(e: Exp): set<nat> {
    Elems(TrueList(e)) + Elems(e.f)
  }

  /** Position by position, what the instructions before landing leave. */
  lemma FinalOk(fs: Fs, e: Exp, reg: nat)
    requires DescOk(fs, e) && (e.kind.VJmp? || e.kind == VNonReloc(reg))
    ensures var h := Final(fs, e, reg);
            && FsOk(h) && Grows(fs, h, {}) && h.freereg == fs.freereg && h.lasttarget == |h.code|
            && ListsKept(fs, h, Whole(e)) && ListsOk(h, Whole(e))
            && Landable(h, e.f, reg, LoadOf(fs, h, e, false), false)
            && Landable(h, TrueList(e), reg, LoadOf(fs, h, e, true), true)
            && (LoadOf(fs, h, e, false).Some? <==> LoadOf(fs, h, e, true).Some?)
  {
    hide FsOk, Loads, KindOk, KeepsWaiting;
    var h := Final(fs, e, reg);
    WholeLists(fs, e);
    if NeedsLoads(fs, e) {
      if e.kind.VJmp? { JumpPending(fs, e); }
      LoadsOk(fs, reg, e.kind.VJmp?);
      var g := Loads(fs, reg, e.kind.VJmp?);
      LabelAgain(g);
      ListsAreKept(fs, g, Whole(e));
      LoadsLandable(g, Whole(e), reg);
    } else {
      LabelHere(fs);
      ListsAreKept(fs, h, Whole(e));
    }
  }

  lemma LoadsLandable(g: Fs, e: Exp, reg: nat)
    requires ListsOk(g, e) && g.lasttarget == |g.code| && 2 <= |g.code|
    requires g.code[|g.code|-2..] == [LoadBool(reg, false, true), LoadBool(reg, true, false)]
    ensures Landable(g, e.f, reg, Some(|g.code|-2), false) && Landable(g, e.t, reg, Some(|g.code|-1), true)
  {
    assert g.code[|g.code|-2] == g.code[|g.code|-2..][0] && g.code[|g.code|-1] == g.code[|g.code|-2..][1];
    assert forall j | j in e.f || j in e.t :: j < |g.code| && g.code[j] == Jmp(None);
  }

  lemma LabelAgain(fs: Fs)
    requires fs.lasttarget == |fs.code|
    ensures Label(fs) == fs
  {
  }

  lemma LabelHere(fs: Fs)
    requires FsOk(fs)
    ensures FsOk(Label(fs)) && KeepsWaiting(fs, Label(fs), {}) && Label(fs).code == fs.code
  {
    hide CodeOk, KOk;
    forall i: nat | i < |fs.code| ensures TargetsUpTo(fs.code[i], i, |fs.code|) {
      assert TargetsUpTo(fs.code[i], i, fs.lasttarget);
    }
  }

  /** The descriptor after discharge2reg. */
  function InReg(e: Exp, reg: nat): Exp {
    if e.kind.VJmp? then e else e.(kind := VNonReloc(reg))
  }

  lemma DischargedOk(fs: Fs, e: Exp, reg: nat)
    requires DescOk(fs, e) && (reg < fs.nactvar || reg + 1 == fs.freereg)
    ensures var g := Discharge2Reg(fs, e, reg);
            && DescOk(g, InReg(e, reg)) && Grows(fs, g, {}) && g.freereg == fs.freereg
            && Final(g, e, reg) == Final(g, InReg(e, reg), reg)
            && TrueList(InReg(e, reg)) == TrueList(e)
            && (e.kind.VJmp? ==> g == fs)
  {
    hide FsOk, Loads, KeepsWaiting, Waiting, Disjoint, Discharge2Reg;
    Discharge2RegOk(fs, e, reg);
    DischargedJpc(fs, e, reg);
  }

  lemma DischargedJpc(fs: Fs, e: Exp, reg: nat)
    ensures forall j | j in Discharge2Reg(fs, e, reg).jpc :: j in fs.jpc
    ensures e.kind.VJmp? ==> Discharge2Reg(fs, e, reg) == fs
  {
  }

  lemma FinalFilled(m: Ops, g: Fs, e: Exp, reg: nat, start: Regs, r0: Regs, n: nat, v: Value)
    requires DescOk(g, e) && e.kind == VNonReloc(reg)
    requires Filled(m, g, Whole(e), start, r0, n, reg, v)
    ensures Filled(m, Final(g, e, reg), Whole(e), start, r0, n, reg, v)
  {
    hide FsOk, Behave, Loads, ListsOk, ListsKept, KindOk, Landable;
    FinalOk(g, e, reg);
    FinalRuns(m, g, e, reg, start);
    WholeLists(g, e);
    match Behave(m, g, start)
    case Here(_) =>
    case At(j, r) => LandsKept(g, Final(g, e, reg), Whole(e), j, r, v);
  }

  lemma FinalRuns(m: Ops, g: Fs, e: Exp, reg: nat, start: Regs)
    requires FsOk(g) && !e.kind.VJmp?
    ensures Behave(m, Final(g, e, reg), start) == Behave(m, g, start)
  {
    hide FsOk, Loads;
    LoadsRuns(m, g, reg, false, start);
    SameBehave(m, Loads(g, reg, false), Label(Loads(g, reg, false)), start);
    SameBehave(m, g, Label(g), start);
  }

  lemma SameBehave(m: Ops, fs: Fs, gs: Fs, start: Regs)
    requires gs.code == fs.code && gs.jpc == fs.jpc && gs.k == fs.k
    ensures Behave(m, gs, start) == Behave(m, fs, start)
  {
  }

  lemma Exp2RegOk(fs: Fs, e: Exp, reg: nat)
    requires DescOk(fs, e) && (reg < fs.nactvar || reg + 1 == fs.freereg)
    ensures var gs := Exp2Reg(fs, e, reg);
            FsOk(gs) && Grows(fs, gs, Own(e)) && gs.freereg == fs.freereg
  {
    hide FsOk, Loads, ListsOk, ListsKept, KindOk, Landable, KeepsWaiting, Discharge2Reg, Final, Land;
    DischargedOk(fs, e, reg);
    var g := Discharge2Reg(fs, e, reg);
    var e' := InReg(e, reg);
    if TrueList(e) == [] && e.f == [] {
      GrowsMore(fs, g, Own(e));
    } else {
      FinalOk(g, e', reg);
      var h := Final(g, e', reg);
      LandBothOk(h, Whole(e'), reg, LoadOf(g, h, e', false), LoadOf(g, h, e', true));
      var gs := Exp2Reg(fs, e, reg);
      LandFields(h, e.f, reg, LoadOf(g, h, e', false));
      LandFields(Land(h, e.f, reg, LoadOf(g, h, e', false)), TrueList(e), reg, LoadOf(g, h, e', true));
      assert Grows(h, gs, Own(e));
      GrowsMore(fs, g, Own(e));
      GrowsMore(g, h, Own(e));
      GrowsTransitive(fs, g, h, Own(e), Own(e));
      GrowsTransitive(fs, h, gs, Own(e), Own(e));
    }
  }

  lemma GrowsMore(fs: Fs, gs: Fs, own: set<nat>)
    requires Grows(fs, gs, {})
    ensures Grows(fs, gs, own)
  {
  }

  lemma GrowsWider(fs: Fs, gs: Fs, own: set<nat>, more: set<nat>)
    requires Grows(fs, gs, own) && own <= more
    ensures Grows(fs, gs, more)
  {
  }

  /** exp2reg: control reaches the end, with the value in the register, from every exit of the expression. */
  lemma Exp2RegRuns(m: Ops, fs: Fs, e: Exp, reg: nat, start: Regs, r0: Regs, n: nat, v: Value)
    requires DescOk(fs, e) && (reg < fs.nactvar || reg + 1 == fs.freereg) && n <= reg && FreshFrame(start, fs.nactvar)
    requires Delivers(m, fs, e, start, r0, n, v)
    ensures var o := Behave(m, Exp2Reg(fs, e, reg), start);
            o.Here? && SameBelow(r0, o.regs, n) && Get(o.regs, reg) == v
  {
    hide FsOk, Behave, Loads, ListsOk, ListsKept, KindOk, Landable, KeepsWaiting, Discharge2Reg, Land, Final, Grows;
    DischargedOk(fs, e, reg);
    var g := Discharge2Reg(fs, e, reg);
    var e' := InReg(e, reg);
    FinalOk(g, e', reg);
    var h := Final(g, e', reg);
    if e.kind.VJmp? {
      JumpNeeds(fs, e);
      FilledByLoads(m, fs, e, reg, start, r0, n, v);
      FilledLabel(m, Loads(fs, reg, true), Whole(e), start, r0, n, reg, v);
      FinalOfJump(fs, e, reg);
    } else {
      FilledByDischarge(m, fs, e, reg, start, r0, n, v);
      FilledSame(m, g, e, e', start, r0, n, reg, v);
      FinalFilled(m, g, e', reg, start, r0, n, v);
    }
    if TrueList(e) == [] && e.f == [] {
      NoExits(m, g, e', start, r0, n, reg, v);
    } else {
      LandBoth(m, h, Whole(e'), reg, LoadOf(g, h, e', false), LoadOf(g, h, e', true), start, r0, n, v);
    }
  }

  lemma FinalOfJump(fs: Fs, e: Exp, reg: nat)
    requires e.kind.VJmp? && NeedsLoads(fs, e)
    ensures Final(fs, e, reg) == Label(Loads(fs, reg, true))
  {
  }

  lemma FilledLabel(m: Ops, fs: Fs, e: Exp, start: Regs, r0: Regs, n: nat, reg: nat, v: Value)
    requires Filled(m, fs, e, start, r0, n, reg, v)
    ensures Filled(m, Label(fs), e, start, r0, n, reg, v)
  {
    hide Behave;
    SameBehave(m, fs, Label(fs), start);
  }

  lemma FilledSame(m: Ops, fs: Fs, e: Exp, e': Exp, start: Regs, r0: Regs, n: nat, reg: nat, v: Value)
    requires Filled(m, fs, Whole(e), start, r0, n, reg, v) && TrueList(e') == TrueList(e) && e'.f == e.f
    ensures Filled(m, fs, Whole(e'), start, r0, n, reg, v)
  {
    hide Behave, Out;
  }

  /** Without lists there is no other exit than the end. */
  lemma NoExits(m: Ops, g: Fs, e: Exp, start: Regs, r0: Regs, n: nat, reg: nat, v: Value)
    requires FsOk(g) && TrueList(e) == [] && e.f == [] && !e.kind.VJmp?
    requires Filled(m, Final(g, e, reg), Whole(e), start, r0, n, reg, v)
    ensures var o := Behave(m, g, start); o.Here? && SameBelow(r0, o.regs, n) && Get(o.regs, reg) == v
  {
    hide FsOk, Behave, Loads;
    FinalRuns(m, g, e, reg, start);
  }

  /** Control that has left by another list stays there. */
  lemma Exp2RegGone(m: Ops, fs: Fs, e: Exp, reg: nat, start: Regs, o: Outcome)
    requires DescOk(fs, e) && (reg < fs.nactvar || reg + 1 == fs.freereg) && FreshFrame(start, fs.nactvar)
    requires Gone(m, fs, e, start, o)
    ensures Behave(m, Exp2Reg(fs, e, reg), start) == o
  {
    hide FsOk, Behave, Loads, ListsOk, ListsKept, KindOk, Landable, KeepsWaiting, Discharge2Reg, Land, Final, Grows, Taken, Base;
    DischargedOk(fs, e, reg);
    var g := Discharge2Reg(fs, e, reg);
    var e' := InReg(e, reg);
    FinalOk(g, e', reg);
    var h := Final(g, e', reg);
    if e.kind.VJmp? {
      JumpBase(fs, e);
      JumpPending(fs, e);
      CondJumpRuns(m, Base(fs, e), fs.code[|fs.code|-2], start);
      LoadsRuns(m, fs, reg, true, start);
      SameBehave(m, Loads(fs, reg, true), Label(Loads(fs, reg, true)), start);
      JumpNeeds(fs, e);
      FinalOfJump(fs, e, reg);
      GoneNotJump(m, fs, e, start, o);
    } else {
      Discharge2RegRuns(m, fs, e, reg, start);
      FinalRuns(m, g, e', reg, start);
    }
    if TrueList(e) != [] || e.f != [] {
      LandBoth(m, h, Whole(e'), reg, LoadOf(g, h, e', false), LoadOf(g, h, e', true), start, map[], 0, Nil);
    }
  }

  lemma GoneNotJump(m: Ops, fs: Fs, e: Exp, start: Regs, o: Outcome)
    requires DescOk(fs, e) && e.kind.VJmp? && Gone(m, fs, e, start, o)
    ensures o.pc != e.kind.jump
  {
    hide CodeOk, KOk, LabelOk;
    RunStops(m, Base(fs, e).code, fs.k, 0, start);
  }
}
