/** The state of the code generator for one function (FuncState), and the primitives that emit code and settle jumps. */
module CgState {
  import opened CgCode
  import opened Wrappers

  /**
   * `jpc` lists the jumps waiting for the next instruction, `lasttarget` is the last position known
   * to be a jump target, `kcache` finds the constants already in `k`.
   */
  datatype Fs = Fs(code: Code, jpc: seq<nat>, lasttarget: int, freereg: nat, nactvar: nat,
                   k: seq<Value>, kcache: map<Value, nat>)

  // ---------------------------------------------------------------- waiting jumps

  ghost predicate Waiting(code: Code, list: seq<nat>) {
    forall j | j in list :: j < |code| && code[j] == Jmp(None)
  }

  function Elems(list: seq<nat>): set<nat> {
    set j | j in list
  }

  /** The jump carries a value out: a TestSet controls it. */
  predicate Carries(code: Code, j: nat) {
    0 < j <= |code| && code[j-1].TestSet?
  }

  /** patchtestreg: the register the TestSet is to fill, or none if no one wants the value. */
  function SettleTest(i: Instr, reg: Option<nat>): Instr {
    if !i.TestSet? then i
    else if reg.Some? && reg.value != i.b then TestSet(reg, i.b, i.c)
    else Test(i.b, i.c)
  }

  function PatchedAt(code: Code, list: seq<nat>, reg: Option<nat>, vtarget: nat, dtarget: Option<nat>, i: nat): Instr
    requires i < |code|
  {
    if i in list then Jmp(if Carries(code, i) then Some(vtarget) else dtarget)
    else if i + 1 in list then SettleTest(code[i], reg)
    else code[i]
  }

  /**
   * patchlistaux: a jump that carries a value goes to `vtarget`, with the value in `reg`; any other
   * goes to `dtarget`.
   */
  function Patch(code: Code, list: seq<nat>, reg: Option<nat>, vtarget: nat, dtarget: Option<nat>): (c: Code)
    ensures |c| == |code| && forall i: nat | i < |code| :: c[i] == PatchedAt(code, list, reg, vtarget, dtarget, i)
  {
    seq(|code|, i requires 0 <= i < |code| => PatchedAt(code, list, reg, vtarget, dtarget, i))
  }

  /** removevalues: the TestSets become Tests, the jumps go on waiting. */
  function RemoveValues(code: Code, list: seq<nat>): (c: Code)
    ensures |c| == |code| && forall i: nat | i < |code| :: c[i] == if i + 1 in list then SettleTest(code[i], None) else code[i]
  {
    seq(|code|, i requires 0 <= i < |code| => if i + 1 in list then SettleTest(code[i], None) else code[i])
  }

  /** need_value: some jump of the list does not carry a value. */
  predicate NeedValue(code: Code, list: seq<nat>) {
    exists j | j in list :: !Carries(code, j)
  }

  predicate TargetOk(code: Code, list: seq<nat>, t: nat) {
    t <= |code| && !Controlled(code, t) && forall j | j in list :: j < t
  }

  lemma PatchKeepsTests(code: Code, list: seq<nat>, reg: Option<nat>, vtarget: nat, dtarget: Option<nat>, i: nat)
    requires Waiting(code, list) && i < |code|
    ensures IsTest(PatchedAt(code, list, reg, vtarget, dtarget, i)) == IsTest(code[i])
    ensures Plain(code[i]) ==> PatchedAt(code, list, reg, vtarget, dtarget, i) == code[i]
    ensures PatchedAt(code, list, reg, vtarget, dtarget, i).Jmp? == code[i].Jmp?
  {
  }

  lemma PatchRewired(code: Code, list: seq<nat>, reg: Option<nat>, vtarget: nat, dtarget: Option<nat>)
    requires CodeOk(code) && Waiting(code, list) && TargetOk(code, list, vtarget)
    requires if dtarget.Some? then TargetOk(code, list, dtarget.value) else !NeedValue(code, list)
    ensures Rewired(code, Patch(code, list, reg, vtarget, dtarget))
  {
    hide CodeOk, InstrOk, Controlled;
    var after := Patch(code, list, reg, vtarget, dtarget);
    forall i: nat | i < |code| ensures Rewire(code, after, i) {
      if i + 1 in list && code[i].TestSet? {
        assert InstrOk(code, i) by { NextOk(code, i); }
        WaitingTest(code, i);
      }
    }
  }

  lemma WaitingTest(code: Code, i: nat)
    requires i < |code| && InstrOk(code, i) && code[i].TestSet? && i + 1 < |code| && code[i+1] == Jmp(None)
    ensures code[i].reg.None?
  {
  }

  lemma PatchCodeOk(code: Code, list: seq<nat>, reg: Option<nat>, vtarget: nat, dtarget: Option<nat>)
    requires CodeOk(code) && Waiting(code, list) && TargetOk(code, list, vtarget)
    requires if dtarget.Some? then TargetOk(code, list, dtarget.value) else !NeedValue(code, list)
    ensures CodeOk(Patch(code, list, reg, vtarget, dtarget))
  {
    hide CodeOk;
    var after := Patch(code, list, reg, vtarget, dtarget);
    forall i: nat | i <= |code| ensures Controlled(after, i) == Controlled(code, i) {
      if 0 < i { PatchKeepsTests(code, list, reg, vtarget, dtarget, i - 1); }
    }
    forall i: nat | i < |after| ensures InstrOk(after, i) {
      NextOk(code, i);
      PatchKeepsTests(code, list, reg, vtarget, dtarget, i);
      if i + 1 < |code| { PatchKeepsTests(code, list, reg, vtarget, dtarget, i + 1); }
    }
    IsCodeOk(after);
  }

  lemma IsCodeOk(code: Code)
    requires forall i: nat | i < |code| :: InstrOk(code, i)
    ensures CodeOk(code)
  {
  }

  lemma RemoveRewired(code: Code, list: seq<nat>)
    requires CodeOk(code) && Waiting(code, list)
    ensures Rewired(code, RemoveValues(code, list)) && CodeOk(RemoveValues(code, list))
    ensures forall j: nat | j < |code| && code[j].Jmp? :: RemoveValues(code, list)[j] == code[j]
  {
    hide CodeOk;
    var after := RemoveValues(code, list);
    forall i: nat | i < |code| ensures Rewire(code, after, i) && InstrOk(after, i) {
      NextOk(code, i);
    }
    IsCodeOk(after);
  }

  // ---------------------------------------------------------------- the invariant of the generator

  predicate TargetsUpTo(i: Instr, pc: nat, last: int) {
    && (i.Jmp? && i.dest.Some? ==> i.dest.value <= last)
    && (i.LoadBool? && i.skip ==> pc + 2 <= last)
  }

  /** Whatever jumps to the end of the code, now or when it grows, is announced in `lasttarget`. */
  ghost predicate LabelOk(fs: Fs) {
    && -1 <= fs.lasttarget <= |fs.code|
    && (fs.jpc != [] ==> fs.lasttarget == |fs.code|)
    && forall i: nat | i < |fs.code| :: TargetsUpTo(fs.code[i], i, fs.lasttarget)
  }

  ghost predicate CacheOk(fs: Fs) {
    forall v | v in fs.kcache :: fs.kcache[v] < |fs.k| && fs.k[fs.kcache[v]] == v
  }

  ghost predicate FsOk(fs: Fs) {
    CodeOk(fs.code) && KOk(fs.code, |fs.k|) && CacheOk(fs) && Waiting(fs.code, fs.jpc) && LabelOk(fs)
  }

  /**
   * Where control is after the code so far has run from the start of the function: `Here` also
   * covers the jumps that wait for the next instruction.
   */
  function Behave(m: Ops, fs: Fs, start: Regs): Outcome {
    match Run(m, fs.code, fs.k, 0, start)
    case Here(r) => Here(r)
    case At(j, r) => if j in fs.jpc then Here(r) else At(j, r)
  }

  /** A waiting jump and its test are as they were. */
  predicate Kept(before: Code, after: Code, j: nat)
    requires j < |before|
  {
    && j < |after| && after[j] == before[j]
    && (0 < j ==> after[j-1] == before[j-1] || (!IsTest(before[j-1]) && !IsTest(after[j-1])))
  }

  /** Jumps that wait on lists of others stay as they are. */
  ghost predicate KeepsWaiting(fs: Fs, gs: Fs, own: set<nat>) {
    forall j: nat | j < |fs.code| && fs.code[j] == Jmp(None) && j !in fs.jpc && j !in own ::
      Kept(fs.code, gs.code, j) && j !in gs.jpc
  }

  lemma KeepsTransitive(fs: Fs, gs: Fs, hs: Fs, own: set<nat>, more: set<nat>)
    requires KeepsWaiting(fs, gs, own) && KeepsWaiting(gs, hs, more)
    requires forall j: nat | j in more :: j in own || j in fs.jpc || |fs.code| <= j
    ensures KeepsWaiting(fs, hs, own)
  {
  }

  // ---------------------------------------------------------------- emitting code

  /** dischargejpc: the jumps in `jpc` get the next position, and their values are dropped. */
  function Discharge(fs: Fs): Fs {
    fs.(code := Patch(fs.code, fs.jpc, None, |fs.code|, Some(|fs.code|)), jpc := [])
  }

  /** luaK_code. */
  function Emit(fs: Fs, i: Instr): Fs {
    var d := Discharge(fs);
    d.(code := d.code + [i])
  }

  /** luaK_getlabel. */
  function Label(fs: Fs): Fs {
    fs.(lasttarget := |fs.code|)
  }

  /** luaK_patchtohere. */
  function PatchToHere(fs: Fs, list: seq<nat>): Fs {
    fs.(lasttarget := |fs.code|, jpc := fs.jpc + list)
  }

  /** luaK_jump: the jumps waiting for this position join the list of the new one. */
  function Jump(fs: Fs): (Fs, seq<nat>) {
    (fs.(code := fs.code + [Jmp(None)], jpc := []), [|fs.code|] + fs.jpc)
  }

  /** condjump. */
  function CondJump(fs: Fs, test: Instr): (Fs, nat) {
    var (gs, list) := Jump(Emit(fs, test));
    (gs, |fs.code| + 1)
  }

  lemma NotControlledAtEnd(code: Code)
    requires CodeOk(code)
    ensures !Controlled(code, |code|)
  {
    if |code| > 0 { NextOk(code, |code| - 1); }
  }

  lemma DischargeTargets(fs: Fs)
    requires FsOk(fs)
    ensures TargetOk(fs.code, fs.jpc, |fs.code|)
  {
    NotControlledAtEnd(fs.code);
  }

  lemma DischargeOk(fs: Fs)
    requires FsOk(fs)
    ensures FsOk(Discharge(fs)) && KeepsWaiting(fs, Discharge(fs), {})
  {
    hide CodeOk, KOk;
    DischargeTargets(fs);
    PatchCodeOk(fs.code, fs.jpc, None, |fs.code|, Some(|fs.code|));
    PatchKOk(fs.code, fs.jpc, None, |fs.code|, Some(|fs.code|), |fs.k|);
    forall i: nat | i < |fs.code| ensures TargetsUpTo(Discharge(fs).code[i], i, fs.lasttarget) {
      assert TargetsUpTo(fs.code[i], i, fs.lasttarget);
    }
  }

  lemma PatchKOk(code: Code, list: seq<nat>, reg: Option<nat>, vtarget: nat, dtarget: Option<nat>, n: nat)
    requires KOk(code, n)
    ensures KOk(Patch(code, list, reg, vtarget, dtarget), n)
  {
    var after := Patch(code, list, reg, vtarget, dtarget);
    forall i: nat | i < |code| ensures UsesK(after[i], n) {
      assert UsesK(code[i], n);
    }
  }

  /** Settling the jumps to here does not change where control goes. */
  lemma DischargeRuns(m: Ops, fs: Fs, start: Regs)
    requires FsOk(fs)
    ensures Behave(m, Discharge(fs), start) == Behave(m, fs, start)
  {
    hide CodeOk, KOk, LabelOk, CacheOk, Rewired;
    DischargeTargets(fs);
    var after := Discharge(fs).code;
    PatchRewired(fs.code, fs.jpc, None, |fs.code|, Some(|fs.code|));
    RunRewired(m, fs.code, after, fs.k, 0, start);
    match Run(m, fs.code, fs.k, 0, start)
    case Here(_) =>
    case At(j, r) =>
      RunStops(m, fs.code, fs.k, 0, start);
      assert 0 < j ==> after[j-1] == PatchedAt(fs.code, fs.jpc, None, |fs.code|, Some(|fs.code|), j-1);
  }

  /** Control stops only at jumps without a target. */
  lemma {:induction false} RunStops(m: Ops, code: Code, k: seq<Value>, pc: nat, r: Regs)
    requires CodeOk(code) && pc <= |code|
    ensures Run(m, code, k, pc, r).At? ==>
              var j := Run(m, code, k, pc, r).pc; pc <= j < |code| && code[j] == Jmp(None)
    decreases |code| - pc
  {
    hide Effect, Taken, Copied, CodeOk;
    if pc < |code| {
      var i := code[pc];
      NextOk(code, pc);
      if i.Jmp? {
        if Target(code, pc).Some? { RunStops(m, code, k, Target(code, pc).value, r); }
      } else if IsTest(i) {
        if !Taken(m, i, k, r) {
          RunStops(m, code, k, pc + 2, r);
        } else if Target(code, pc + 1).Some? {
          RunStops(m, code, k, Target(code, pc + 1).value, Copied(i, r));
        }
      } else {
        RunStops(m, code, k, pc + Width(i), Effect(m, i, k, r));
      }
    }
  }

  function AfterPlain(m: Ops, i: Instr, k: seq<Value>, o: Outcome): Outcome {
    match o
    case Here(r) => Here(Effect(m, i, k, r))
    case At(_, _) => o
  }

  predicate Simple(i: Instr) {
    Plain(i) && !(i.LoadBool? && i.skip)
  }

  lemma AppendOk(fs: Fs, i: Instr)
    requires FsOk(fs) && fs.jpc == [] && Simple(i) && UsesK(i, |fs.k|)
    ensures FsOk(fs.(code := fs.code + [i]))
  {
    hide CodeOk, KOk;
    var after := fs.code + [i];
    NotControlledAtEnd(fs.code);
    forall x: nat | x < |after| ensures InstrOk(after, x) && UsesK(after[x], |fs.k|) && TargetsUpTo(after[x], x, fs.lasttarget) {
      if x < |fs.code| {
        NextOk(fs.code, x);
        KOkAt(fs.code, |fs.k|, x);
      }
    }
    IsCodeOk(after);
    assert KOk(after, |fs.k|) by { IsKOk(after, |fs.k|); }
  }

  lemma IsKOk(code: Code, n: nat)
    requires forall i: nat | i < |code| :: UsesK(code[i], n)
    ensures KOk(code, n)
  {
  }

  lemma AppendRuns(m: Ops, fs: Fs, i: Instr, start: Regs)
    requires FsOk(fs) && fs.jpc == [] && Simple(i)
    ensures Behave(m, fs.(code := fs.code + [i]), start) == AfterPlain(m, i, fs.k, Behave(m, fs, start))
  {
    hide CodeOk, KOk, LabelOk, CacheOk, Waiting;
    RunAppend(m, fs.code, [i], fs.k, 0, start);
    var after := fs.code + [i];
    forall r ensures Run(m, after, fs.k, |fs.code|, r) == Here(Effect(m, i, fs.k, r)) {
      assert after[|fs.code|] == i;
      assert Run(m, after, fs.k, |after|, Effect(m, i, fs.k, r)) == Here(Effect(m, i, fs.k, r));
    }
  }

  lemma EmitOk(fs: Fs, i: Instr)
    requires FsOk(fs) && Simple(i) && UsesK(i, |fs.k|)
    ensures FsOk(Emit(fs, i)) && KeepsWaiting(fs, Emit(fs, i), {})
  {
    hide FsOk;
    DischargeOk(fs);
    AppendOk(Discharge(fs), i);
  }

  /** An instruction that is neither a test nor a jump runs wherever control reached the end. */
  lemma EmitRuns(m: Ops, fs: Fs, i: Instr, start: Regs)
    requires FsOk(fs) && Simple(i)
    ensures Behave(m, Emit(fs, i), start) == AfterPlain(m, i, fs.k, Behave(m, fs, start))
  {
    hide FsOk, Behave;
    DischargeOk(fs);
    DischargeRuns(m, fs, start);
    AppendRuns(m, Discharge(fs), i, start);
  }

  lemma JumpOk(fs: Fs)
    requires FsOk(fs)
    ensures var (gs, list) := Jump(fs);
            && FsOk(gs) && KeepsWaiting(fs, gs, {}) && Waiting(gs.code, list) && gs.jpc == []
  {
    hide CodeOk, KOk;
    var after := fs.code + [Jmp(None)];
    NotControlledAtEnd(fs.code);
    forall x: nat | x < |after| ensures InstrOk(after, x) && UsesK(after[x], |fs.k|) && TargetsUpTo(after[x], x, fs.lasttarget) {
      if x < |fs.code| {
        NextOk(fs.code, x);
        KOkAt(fs.code, |fs.k|, x);
      }
    }
    IsCodeOk(after);
    IsKOk(after, |fs.k|);
  }

  /** After luaK_jump control is nowhere but on its list. */
  lemma JumpRuns(m: Ops, fs: Fs, start: Regs)
    requires FsOk(fs)
    ensures var (gs, list) := Jump(fs);
            match Behave(m, fs, start)
            case At(j, r) => Behave(m, gs, start) == At(j, r)
            case Here(r) =>
              var o := Run(m, fs.code, fs.k, 0, start);
              var j := if o.At? then o.pc else |fs.code|;
              Behave(m, gs, start) == At(j, r) && j in list
  {
    hide CodeOk, KOk, LabelOk, CacheOk;
    RunAppend(m, fs.code, [Jmp(None)], fs.k, 0, start);
    match Run(m, fs.code, fs.k, 0, start)
    case Here(r) =>
      assert |fs.code| in Jump(fs).1;
    case At(j, r) =>
      RunStops(m, fs.code, fs.k, 0, start);
      if j in fs.jpc { assert j in Jump(fs).1; }
  }

  function AfterTest(m: Ops, test: Instr, k: seq<Value>, j: nat, o: Outcome): Outcome {
    match o
    case Here(r) => if Taken(m, test, k, r) then At(j, r) else Here(r)
    case At(_, _) => o
  }

  predicate FreshTest(i: Instr) {
    IsTest(i) && (i.TestSet? ==> i.reg.None?)
  }

  lemma CondJumpOk(fs: Fs, test: Instr)
    requires FsOk(fs) && FreshTest(test) && UsesK(test, |fs.k|)
    ensures var (gs, j) := CondJump(fs, test);
            && FsOk(gs) && KeepsWaiting(fs, gs, {}) && gs.jpc == []
            && gs == Discharge(fs).(code := Discharge(fs).code + [test, Jmp(None)])
            && j == |fs.code| + 1
  {
    hide CodeOk, KOk;
    DischargeOk(fs);
    var d := Discharge(fs);
    var after := d.code + [test, Jmp(None)];
    assert (d.code + [test]) + [Jmp(None)] == after;
    NotControlledAtEnd(d.code);
    forall x: nat | x < |after| ensures InstrOk(after, x) && UsesK(after[x], |d.k|) && TargetsUpTo(after[x], x, d.lasttarget) {
      if x < |d.code| {
        NextOk(d.code, x);
        KOkAt(d.code, |d.k|, x);
      }
    }
    IsCodeOk(after);
    IsKOk(after, |d.k|);
  }

  /** A test with its jump: control leaves by the jump exactly if the test says so. */
  lemma CondJumpRuns(m: Ops, fs: Fs, test: Instr, start: Regs)
    requires FsOk(fs) && FreshTest(test) && UsesK(test, |fs.k|)
    ensures var (gs, j) := CondJump(fs, test);
            Behave(m, gs, start) == AfterTest(m, test, fs.k, j, Behave(m, fs, start))
  {
    hide CodeOk, KOk, LabelOk, CacheOk, Waiting;
    CondJumpOk(fs, test);
    DischargeOk(fs);
    DischargeRuns(m, fs, start);
    var d := Discharge(fs);
    var after := d.code + [test, Jmp(None)];
    RunAppend(m, d.code, [test, Jmp(None)], d.k, 0, start);
    forall r ensures Run(m, after, d.k, |d.code|, r) == if Taken(m, test, d.k, r) then At(|d.code| + 1, r) else Here(r) {
      assert after[|d.code|] == test && after[|d.code| + 1] == Jmp(None);
    }
  }

  lemma PatchToHereOk(fs: Fs, list: seq<nat>)
    requires FsOk(fs) && Waiting(fs.code, list)
    ensures FsOk(PatchToHere(fs, list)) && KeepsWaiting(fs, PatchToHere(fs, list), Elems(list))
  {
    hide CodeOk, KOk;
    var gs := PatchToHere(fs, list);
    forall i: nat | i < |fs.code| ensures TargetsUpTo(gs.code[i], i, gs.lasttarget) {
      assert TargetsUpTo(fs.code[i], i, fs.lasttarget);
    }
  }

  lemma PatchToHereRuns(m: Ops, fs: Fs, list: seq<nat>, start: Regs)
    ensures Behave(m, PatchToHere(fs, list), start) ==
              match Behave(m, fs, start)
              case Here(r) => Here(r)
              case At(j, r) => if j in list then Here(r) else At(j, r)
  {
  }

  // ---------------------------------------------------------------- constants

  /** addk: the index of a constant, which is added if it is new. */
  function AddK(fs: Fs, v: Value): (Fs, nat) {
    if v in fs.kcache then (fs, fs.kcache[v])
    else (fs.(k := fs.k + [v], kcache := fs.kcache[v := |fs.k|]), |fs.k|)
  }

  lemma AddKOk(fs: Fs, v: Value)
    requires FsOk(fs)
    ensures var (gs, i) := AddK(fs, v);
            && FsOk(gs) && i < |gs.k| && gs.k[i] == v && fs.k <= gs.k
            && gs == fs.(k := gs.k, kcache := gs.kcache)
  {
    hide CodeOk;
    var (gs, _) := AddK(fs, v);
    forall i: nat | i < |fs.code| ensures UsesK(gs.code[i], |gs.k|) && TargetsUpTo(gs.code[i], i, gs.lasttarget) {
      assert UsesK(fs.code[i], |fs.k|) && TargetsUpTo(fs.code[i], i, fs.lasttarget);
    }
  }

  lemma AddKRuns(m: Ops, fs: Fs, v: Value, start: Regs)
    requires FsOk(fs)
    ensures Behave(m, AddK(fs, v).0, start) == Behave(m, fs, start)
  {
    hide CodeOk, KOk;
    RunMoreK(m, fs.code, fs.k, AddK(fs, v).0.k, 0, start);
  }
}
