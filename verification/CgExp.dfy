/** Expression descriptors (expdesc), what they denote, and how their value gets into a register. */
module CgExp {
  import opened CgCode
  import opened CgState
  import opened Wrappers

  datatype Kind =
    | VNil | VTrue | VFalse
    | VK(index: nat)
    | VKNum(n: int)
    | VLocal(reg: nat)
    | VNonReloc(info: nat)
    | VReloc(at: nat)
    | VJmp(jump: nat)

  /** `t` and `f` list the jumps by which control leaves when the expression is true or false. */
  datatype Exp = Exp(kind: Kind, t: seq<nat>, f: seq<nat>)

  predicate HasJumps(e: Exp) {
    e.t != [] || e.f != []
  }

  // ---------------------------------------------------------------- what a descriptor denotes

  predicate Relocatable(i: Instr) {
    i.Arith? || i.Unary?
  }

  function SetA(i: Instr, reg: nat): Instr {
    match i
    case Arith(op, _, l, r) => Arith(op, reg, l, r)
    case Unary(op, _, b) => Unary(op, reg, b)
    case _ => i
  }

  function Produced(m: Ops, i: Instr, k: seq<Value>, r: Regs): Value {
    match i
    case Arith(op, _, x, y) => m.arith(op, RKValue(x, k, r), RKValue(y, k, r))
    case Unary(op, _, b) => UnaryValue(m, op, Get(r, b))
    case _ => Nil
  }

  /** The code in front of the instruction (or test and jump) that is still part of the descriptor. */
  function Base(fs: Fs, e: Exp): Fs {
    match e.kind
    case VReloc(_) => if 1 <= |fs.code| then fs.(code := fs.code[..|fs.code|-1]) else fs
    case VJmp(_) => if 2 <= |fs.code| then fs.(code := fs.code[..|fs.code|-2]) else fs
    case _ => fs
  }

  /** The value if control gets to the end of the base code with registers `r`. */
  function DescValue(m: Ops, fs: Fs, e: Exp, r: Regs): Value {
    match e.kind
    case VNil => Nil
    case VTrue => Bool(true)
    case VFalse => Bool(false)
    case VK(i) => KAt(fs.k, i)
    case VKNum(n) => Num(n)
    case VLocal(i) => Get(r, i)
    case VNonReloc(i) => Get(r, i)
    case VReloc(_) => if 1 <= |fs.code| then Produced(m, fs.code[|fs.code|-1], fs.k, r) else Nil
    case VJmp(_) => if 2 <= |fs.code| then Bool(Taken(m, fs.code[|fs.code|-2], fs.k, r)) else Nil
  }

  ghost predicate Disjoint(a: seq<nat>, b: seq<nat>) {
    forall j | j in a :: j !in b
  }

  ghost predicate ListsOk(fs: Fs, e: Exp) {
    && Waiting(fs.code, e.t) && Waiting(fs.code, e.f)
    && Disjoint(e.t, e.f) && Disjoint(e.t, fs.jpc) && Disjoint(e.f, fs.jpc)
  }

  ghost predicate KindOk(fs: Fs, e: Exp) {
    match e.kind
    case VK(i) => i < |fs.k|
    case VLocal(r) => r < fs.nactvar
    case VNonReloc(r) => r < fs.nactvar || r + 1 == fs.freereg
    case VReloc(p) =>
      && p + 1 == |fs.code| && Relocatable(fs.code[p]) && UsesK(fs.code[p], |fs.k|)
      && fs.jpc == [] && FsOk(Base(fs, e))
    case VJmp(p) =>
      && p + 1 == |fs.code| && 1 <= p && fs.code[p] == Jmp(None) && fs.code[p-1].Cmp? && UsesK(fs.code[p-1], |fs.k|)
      && fs.jpc == [] && FsOk(Base(fs, e)) && p !in e.t && p !in e.f
    case _ => true
  }

  ghost predicate DescOk(fs: Fs, e: Exp) {
    FsOk(fs) && fs.nactvar <= fs.freereg && ListsOk(fs, e) && KindOk(fs, e)
  }

  /** A jump that carries a value carries this one; another stands for a boolean. */
  predicate Out(code: Code, j: nat, r: Regs, v: Value, b: bool) {
    if Carries(code, j) then Get(r, code[j-1].b) == v else v == Bool(b)
  }

  /** Control left by a list of the right side; with `exact`, the value that goes with the jump is right too. */
  predicate ExitOk(code: Code, e: Exp, j: nat, r: Regs, v: Value, exact: bool) {
    || (j in e.t && Truthy(v) && (exact ==> Out(code, j, r, v, true)))
    || (j in e.f && !Truthy(v) && (exact ==> Out(code, j, r, v, false)))
  }

  /**
   * The descriptor denotes `v`: whether control reaches the end of the code or leaves by a list, and
   * the registers below `n` are those of `r0`.
   */
  ghost predicate Denotes(m: Ops, fs: Fs, e: Exp, start: Regs, r0: Regs, n: nat, v: Value, exact: bool) {
    match Behave(m, Base(fs, e), start)
    case Here(r) => SameBelow(r0, r, n) && DescValue(m, fs, e, r) == v
    case At(j, r) => SameBelow(r0, r, n) && ExitOk(fs.code, e, j, r, v, exact)
  }

  /** Control left by a list, and the value that goes with the jump is this one, whatever its truth. */
  predicate Lands(code: Code, e: Exp, j: nat, r: Regs, v: Value) {
    (j in e.t && Out(code, j, r, v, true)) || (j in e.f && Out(code, j, r, v, false))
  }

  /** The value that the descriptor delivers, be it the one that is meant or not. */
  ghost predicate Delivers(m: Ops, fs: Fs, e: Exp, start: Regs, r0: Regs, n: nat, v: Value) {
    match Behave(m, Base(fs, e), start)
    case Here(r) => SameBelow(r0, r, n) && DescValue(m, fs, e, r) == v
    case At(j, r) => SameBelow(r0, r, n) && Lands(fs.code, e, j, r, v)
  }

  lemma DenotesDelivers(m: Ops, fs: Fs, e: Exp, start: Regs, r0: Regs, n: nat, v: Value)
    requires Denotes(m, fs, e, start, r0, n, v, true)
    ensures Delivers(m, fs, e, start, r0, n, v)
  {
    hide Behave, Out, DescValue, Base;
  }

  /** Control has left by a jump on a list that is not the descriptor's. */
  ghost predicate Gone(m: Ops, fs: Fs, e: Exp, start: Regs, o: Outcome) {
    Behave(m, Base(fs, e), start) == o && o.At? && o.pc !in e.t && o.pc !in e.f
  }

  /** A frame starts with nil in every register above its active variables. */
  ghost predicate FreshFrame(start: Regs, n: nat) {
    forall i: nat | n <= i :: Get(start, i) == Nil
  }

  // ---------------------------------------------------------------- luaK_nil

  /** luaK_nil for one register: at the start of a function nothing is needed, and a LoadNil just before is extended. */
  function LoadNilTo(fs: Fs, from: nat): Fs {
    var pc := |fs.code|;
    if pc > fs.lasttarget && pc == 0 && from >= fs.nactvar then fs
    else if pc > fs.lasttarget && pc > 0 && fs.code[pc-1].LoadNil? && fs.code[pc-1].a <= from <= fs.code[pc-1].b + 1 then
      if from > fs.code[pc-1].b then fs.(code := fs.code[pc-1 := LoadNil(fs.code[pc-1].a, from)]) else fs
    else Emit(fs, LoadNil(from, from))
  }

  /** Without a jump to the end, the last plain instruction can be taken off. */
  lemma DropLast(fs: Fs)
    requires FsOk(fs) && |fs.code| > 0 && fs.lasttarget < |fs.code| && Simple(fs.code[|fs.code|-1])
    ensures fs.jpc == [] && FsOk(fs.(code := fs.code[..|fs.code|-1]))
    ensures fs.code == fs.code[..|fs.code|-1] + [fs.code[|fs.code|-1]]
  {
    hide CodeOk, KOk;
    var n := |fs.code| - 1;
    var code := fs.code[..n];
    forall i: nat | i < n ensures InstrOk(code, i) && UsesK(code[i], |fs.k|) && TargetsUpTo(code[i], i, fs.lasttarget) {
      NextOk(fs.code, i);
      KOkAt(fs.code, |fs.k|, i);
      assert TargetsUpTo(fs.code[i], i, fs.lasttarget);
    }
    IsCodeOk(code);
    IsKOk(code, |fs.k|);
  }

  lemma LoadNilOk(fs: Fs, from: nat)
    requires FsOk(fs)
    ensures FsOk(LoadNilTo(fs, from)) && KeepsWaiting(fs, LoadNilTo(fs, from), {})
    ensures LoadNilTo(fs, from).freereg == fs.freereg && |fs.code| <= |LoadNilTo(fs, from).code|
  {
    hide FsOk;
    var pc := |fs.code|;
    if pc > fs.lasttarget && pc == 0 && from >= fs.nactvar {
    } else if pc > fs.lasttarget && pc > 0 && fs.code[pc-1].LoadNil? && fs.code[pc-1].a <= from <= fs.code[pc-1].b + 1 {
      DropLast(fs);
      var c := fs.(code := fs.code[..pc-1]);
      AppendOk(c, LoadNil(fs.code[pc-1].a, from));
      assert fs.code[pc-1 := LoadNil(fs.code[pc-1].a, from)] == c.code + [LoadNil(fs.code[pc-1].a, from)];
    } else {
      EmitOk(fs, LoadNil(from, from));
    }
  }

  lemma NilEffect(m: Ops, a: nat, b: nat, b': nat, k: seq<Value>, r: Regs)
    requires a <= b' && b <= b' <= b + 1
    ensures Get(Effect(m, Instr.LoadNil(a, b'), k, r), b') == Nil
    ensures SameBelow(Effect(m, Instr.LoadNil(a, b), k, r), Effect(m, Instr.LoadNil(a, b'), k, r), b')
  {
  }

  /** What an instruction sequence that fills `reg` does, seen from outside. */
  ghost predicate Fills(before: Outcome, after: Outcome, reg: nat, v: Value) {
    match before
    case Here(r) => after.Here? && SameBelow(r, after.regs, reg) && Get(after.regs, reg) == v
    case At(_, _) => after == before
  }

  lemma LoadNilRuns(m: Ops, fs: Fs, from: nat, start: Regs)
    requires FsOk(fs) && FreshFrame(start, fs.nactvar)
    ensures Fills(Behave(m, fs, start), Behave(m, LoadNilTo(fs, from), start), from, Nil)
  {
    hide FsOk, Behave;
    var pc := |fs.code|;
    if pc > fs.lasttarget && pc == 0 && from >= fs.nactvar {
      AtStart(m, fs, start);
    } else if pc > fs.lasttarget && pc > 0 && fs.code[pc-1].LoadNil? && fs.code[pc-1].a <= from <= fs.code[pc-1].b + 1 {
      DropLast(fs);
      var c := fs.(code := fs.code[..pc-1]);
      var last := fs.code[pc-1];
      AppendRuns(m, c, last, start);
      assert fs == c.(code := c.code + [last]);
      if from > last.b {
        var longer := LoadNil(last.a, from);
        AppendRuns(m, c, longer, start);
        assert fs.code[pc-1 := longer] == c.code + [longer];
        forall r { NilEffect(m, last.a, last.b, from, fs.k, r); }
      } else {
        forall r { NilWithin(m, last.a, last.b, from, fs.k, r); }
      }
    } else {
      EmitRuns(m, fs, LoadNil(from, from), start);
    }
  }

  lemma NilWithin(m: Ops, a: nat, b: nat, i: nat, k: seq<Value>, r: Regs)
    requires a <= i <= b
    ensures Get(Effect(m, Instr.LoadNil(a, b), k, r), i) == Nil
  {
  }

  lemma AtStart(m: Ops, fs: Fs, start: Regs)
    requires fs.code == []
    ensures Behave(m, fs, start) == Here(start)
  {
  }

  // ---------------------------------------------------------------- discharge2reg

  /** luaK_dischargevars. */
  function DischargeVars(e: Exp): Exp {
    if e.kind.VLocal? then e.(kind := VNonReloc(e.kind.reg)) else e
  }

  /** discharge2reg: a comparison is left as it is. */
  function Discharge2Reg(fs: Fs, e: Exp, reg: nat): Fs {
    match e.kind
    case VNil => LoadNilTo(fs, reg)
    case VFalse => Emit(fs, LoadBool(reg, false, false))
    case VTrue => Emit(fs, LoadBool(reg, true, false))
    case VK(i) => Emit(fs, LoadK(reg, i))
    case VKNum(n) => var (gs, i) := AddK(fs, Num(n)); Emit(gs, LoadK(reg, i))
    case VReloc(p) => if p < |fs.code| then fs.(code := fs.code[p := SetA(fs.code[p], reg)]) else fs
    case VNonReloc(r) => if r == reg then fs else Emit(fs, Move(reg, r))
    case VLocal(r) => if r == reg then fs else Emit(fs, Move(reg, r))
    case VJmp(_) => fs
  }

  lemma Discharge2RegOk(fs: Fs, e: Exp, reg: nat)
    requires DescOk(fs, e)
    ensures var gs := Discharge2Reg(fs, e, reg);
            && FsOk(gs) && KeepsWaiting(fs, gs, {}) && gs.freereg == fs.freereg && gs.nactvar == fs.nactvar
            && |fs.code| <= |gs.code| && ListsKept(fs, gs, e) && fs.k <= gs.k
  {
    hide FsOk, ListsOk, ListsKept, KeepsWaiting;
    match e.kind {
      case VNil => LoadNilOk(fs, reg);
      case VFalse => EmitOk(fs, LoadBool(reg, false, false));
      case VTrue => EmitOk(fs, LoadBool(reg, true, false));
      case VK(i) => EmitOk(fs, LoadK(reg, i));
      case VKNum(n) => ConstantOk(fs, Num(n), reg);
      case VReloc(p) => RelocOk(fs, e, reg);
      case VNonReloc(r) => if r != reg { EmitOk(fs, Move(reg, r)); } else { KeepsSelf(fs); }
      case VLocal(r) => if r != reg { EmitOk(fs, Move(reg, r)); } else { KeepsSelf(fs); }
      case VJmp(_) => KeepsSelf(fs);
    }
    ListsAreKept(fs, Discharge2Reg(fs, e, reg), e);
  }

  lemma KeepsSelf(fs: Fs)
    ensures KeepsWaiting(fs, fs, {})
  {
  }

  lemma ConstantOk(fs: Fs, v: Value, reg: nat)
    requires FsOk(fs)
    ensures var (gs, i) := AddK(fs, v);
            && FsOk(Emit(gs, LoadK(reg, i))) && KeepsWaiting(fs, Emit(gs, LoadK(reg, i)), {}) && fs.k <= gs.k
  {
    hide FsOk;
    AddKOk(fs, v);
    var (gs, i) := AddK(fs, v);
    EmitOk(gs, LoadK(reg, i));
  }

  lemma RelocOk(fs: Fs, e: Exp, reg: nat)
    requires FsOk(fs) && KindOk(fs, e) && e.kind.VReloc?
    ensures FsOk(Discharge2Reg(fs, e, reg)) && KeepsWaiting(fs, Discharge2Reg(fs, e, reg), {})
  {
    hide FsOk;
    var p := e.kind.at;
    AppendOk(Base(fs, e), SetA(fs.code[p], reg));
    assert fs.code[p := SetA(fs.code[p], reg)] == Base(fs, e).code + [SetA(fs.code[p], reg)];
  }

  /** The descriptor's lists still wait, with the same tests. */
  ghost predicate ListsKept(fs: Fs, gs: Fs, e: Exp) {
    && ListsOk(gs, e)
    && forall j | (j in e.t || j in e.f) && j < |fs.code| :: Kept(fs.code, gs.code, j)
  }

  lemma ListsAreKept(fs: Fs, gs: Fs, e: Exp)
    requires ListsOk(fs, e) && KeepsWaiting(fs, gs, {})
    ensures ListsKept(fs, gs, e)
  {
  }

  lemma Discharge2RegRuns(m: Ops, fs: Fs, e: Exp, reg: nat, start: Regs)
    requires DescOk(fs, e) && !e.kind.VJmp? && FreshFrame(start, fs.nactvar)
    ensures var before := Behave(m, Base(fs, e), start);
            Fills(before, Behave(m, Discharge2Reg(fs, e, reg), start), reg,
                  if before.Here? then DescValue(m, fs, e, before.regs) else Nil)
  {
    hide FsOk, Behave;
    match e.kind
    case VNil => LoadNilRuns(m, fs, reg, start);
    case VFalse => EmitRuns(m, fs, LoadBool(reg, false, false), start);
    case VTrue => EmitRuns(m, fs, LoadBool(reg, true, false), start);
    case VK(i) => EmitRuns(m, fs, LoadK(reg, i), start);
    case VKNum(n) =>
      AddKOk(fs, Num(n));
      AddKRuns(m, fs, Num(n), start);
      EmitRuns(m, AddK(fs, Num(n)).0, LoadK(reg, AddK(fs, Num(n)).1), start);
    case VReloc(p) =>
      AppendRuns(m, Base(fs, e), SetA(fs.code[p], reg), start);
      assert fs.code[p := SetA(fs.code[p], reg)] == Base(fs, e).code + [SetA(fs.code[p], reg)];
    case VNonReloc(r) => if r != reg { EmitRuns(m, fs, Move(reg, r), start); }
    case VLocal(r) => if r != reg { EmitRuns(m, fs, Move(reg, r), start); }
  }

  // ---------------------------------------------------------------- exp2reg

  /** The two instructions that load the value of a jump that carries none, and the jump around them. */
  function Loads(fs: Fs, reg: nat, isJump: bool): Fs {
    var (gs, fj) := if isJump then (fs, []) else Jump(fs);
    var h := Emit(Label(gs), LoadBool(reg, false, true));
    PatchToHere(Emit(Label(h), LoadBool(reg, true, false)), fj)
  }

  /** The jumps of a list reach the end with their value in `reg`. */
  function Land(fs: Fs, list: seq<nat>, reg: nat, dtarget: Option<nat>): Fs {
    fs.(code := Patch(fs.code, list, Some(reg), |fs.code|, dtarget))
  }

  function TrueList(e: Exp): seq<nat> {
    if e.kind.VJmp? then e.t + [e.kind.jump] else e.t
  }

  /** Whether some jump of the expression does not carry a value out. */
  predicate NeedsLoads(fs: Fs, e: Exp) {
    NeedValue(fs.code, TrueList(e)) || NeedValue(fs.code, e.f)
  }

  function Final(fs: Fs, e: Exp, reg: nat): Fs {
    Label(if NeedsLoads(fs, e) then Loads(fs, reg, e.kind.VJmp?) else fs)
  }

  function LoadOf(fs: Fs, g: Fs, e: Exp, b: bool): Option<nat> {
    if NeedsLoads(fs, e) && 2 <= |g.code| then Some(|g.code| - (if b then 1 else 2)) else None
  }

  /** exp2reg. */
  function Exp2Reg(fs: Fs, e: Exp, reg: nat): Fs {
    var g := Discharge2Reg(fs, e, reg);
    if TrueList(e) == [] && e.f == [] then g
    else
      var h := Final(g, e, reg);
      Land(Land(h, e.f, reg, LoadOf(g, h, e, false)), TrueList(e), reg, LoadOf(g, h, e, true))
  }
}
