/** Results that still have to be given a register, and codenot. */
module CgNot {
  import opened CgCode
  import opened CgState
  import opened CgExp
  import opened CgReg
  import opened CgOperand
  import opened CgCond
  import opened Wrappers

  // ---------------------------------------------------------------- an instruction without its register

  lemma EmitRelocOk(m: Ops, fs: Fs, i: Instr, e: Exp, start: Regs)
    requires FsOk(fs) && fs.nactvar <= fs.freereg && Relocatable(i) && UsesK(i, |fs.k|) && ListsOk(fs, e)
    requires e.kind == VReloc(|fs.code|)
    ensures var gs := Emit(fs, i);
            && DescOk(gs, e) && Grows(fs, gs, {}) && ListsKept(fs, gs, e) && gs.freereg == fs.freereg
            && Behave(m, Base(gs, e), start) == Behave(m, fs, start)
            && (forall r :: DescValue(m, gs, e, r) == Produced(m, i, fs.k, r))
            && gs.code[|gs.code|-1] == i && |gs.code| == |fs.code| + 1
  {
    hide FsOk, Behave, KeepsWaiting, ListsOk, ListsKept;
    EmitOk(fs, i);
    DischargeOk(fs);
    DischargeRuns(m, fs, start);
    ListsAreKept(fs, Emit(fs, i), e);
    KeptLists(fs, Emit(fs, i), e);
    var gs := Emit(fs, i);
    assert gs.code[..|gs.code|-1] == Discharge(fs).code;
    assert Base(gs, e) == Discharge(fs);
  }

  // ---------------------------------------------------------------- removevalues on both lists

  function RemoveBoth(fs: Fs, e: Exp): Fs {
    fs.(code := RemoveValues(RemoveValues(fs.code, e.f), e.t))
  }

  lemma RemoveTake(code: Code, list: seq<nat>, n: nat)
    requires n <= |code|
    ensures RemoveValues(code, list)[..n] == RemoveValues(code[..n], list)
  {
  }

  lemma RemoveBothBase(fs: Fs, e: Exp)
    ensures Base(RemoveBoth(fs, e), e) == RemoveBoth(Base(fs, e), e)
  {
    var n := |Base(fs, e).code|;
    RemoveTake(fs.code, e.f, n);
    RemoveTake(RemoveValues(fs.code, e.f), e.t, n);
    assert fs.code[..|fs.code|] == fs.code;
    assert RemoveBoth(fs, e).code[..|fs.code|] == RemoveBoth(fs, e).code;
  }

  lemma RemoveListOk(fs: Fs, list: seq<nat>)
    requires FsOk(fs) && Waiting(fs.code, list)
    ensures FsOk(fs.(code := RemoveValues(fs.code, list)))
  {
    hide CodeOk, KOk;
    RemoveRewired(fs.code, list);
    var after := RemoveValues(fs.code, list);
    forall i: nat | i < |after| ensures UsesK(after[i], |fs.k|) && TargetsUpTo(after[i], i, fs.lasttarget) {
      KOkAt(fs.code, |fs.k|, i);
      assert TargetsUpTo(fs.code[i], i, fs.lasttarget);
    }
    IsKOk(after, |fs.k|);
  }

  lemma RemoveListRuns(m: Ops, fs: Fs, list: seq<nat>, start: Regs)
    requires FsOk(fs) && Waiting(fs.code, list)
    ensures Behave(m, fs.(code := RemoveValues(fs.code, list)), start) == Behave(m, fs, start)
  {
    hide CodeOk, KOk, LabelOk, CacheOk, Rewired;
    RemoveRewired(fs.code, list);
    RunRewired(m, fs.code, RemoveValues(fs.code, list), fs.k, 0, start);
    RunStops(m, fs.code, fs.k, 0, start);
  }

  lemma StillWaiting(code: Code, list: seq<nat>, other: seq<nat>)
    requires CodeOk(code) && Waiting(code, list) && Waiting(code, other)
    ensures Waiting(RemoveValues(code, list), other)
  {
    RemoveRewired(code, list);
  }

  lemma RemoveBothOk(m: Ops, fs: Fs, t: seq<nat>, f: seq<nat>, e: Exp, start: Regs)
    requires FsOk(fs) && Waiting(fs.code, t) && Waiting(fs.code, f) && e.t == t && e.f == f
    ensures FsOk(RemoveBoth(fs, e)) && Behave(m, RemoveBoth(fs, e), start) == Behave(m, fs, start)
  {
    hide CodeOk, KOk, LabelOk, CacheOk, Behave;
    RemoveListOk(fs, f);
    RemoveListRuns(m, fs, f, start);
    StillWaiting(fs.code, f, t);
    RemoveListOk(fs.(code := RemoveValues(fs.code, f)), t);
    RemoveListRuns(m, fs.(code := RemoveValues(fs.code, f)), t, start);
  }

  lemma RemovedAt(fs: Fs, e: Exp, i: nat)
    requires i < |fs.code|
    ensures |RemoveBoth(fs, e).code| == |fs.code|
    ensures RemoveBoth(fs, e).code[i] == if i + 1 in e.t || i + 1 in e.f then SettleTest(fs.code[i], None) else fs.code[i]
  {
  }

  lemma RemovedKeeps(fs: Fs, e: Exp)
    requires ListsOk(fs, e)
    ensures KeepsWaiting(fs, RemoveBoth(fs, e), Elems(e.t) + Elems(e.f))
    ensures ListsOk(RemoveBoth(fs, e), e)
    ensures forall j | j in e.t || j in e.f :: !Carries(RemoveBoth(fs, e).code, j)
  {
    var gs := RemoveBoth(fs, e);
    forall j: nat | j < |fs.code| ensures gs.code[j].Jmp? || fs.code[j].Jmp? ==> gs.code[j] == fs.code[j] {
      RemovedAt(fs, e, j);
    }
    forall j: nat | j < |fs.code| && fs.code[j] == Jmp(None) && j !in fs.jpc && j !in Elems(e.t) + Elems(e.f)
      ensures Kept(fs.code, gs.code, j)
    {
      RemovedAt(fs, e, j);
      if 0 < j { RemovedAt(fs, e, j - 1); }
    }
    forall j | j in e.t || j in e.f ensures !Carries(gs.code, j) {
      if 0 < j { RemovedAt(fs, e, j - 1); }
    }
  }

  lemma RemovedKind(fs: Fs, e: Exp)
    requires KindOk(fs, e) && ListsOk(fs, e) && FsOk(RemoveBoth(Base(fs, e), e))
    ensures KindOk(RemoveBoth(fs, e), e)
    ensures forall m, r :: DescValue(m, RemoveBoth(fs, e), e, r) == DescValue(m, fs, e, r)
  {
    hide FsOk, ListsOk;
    RemoveBothBase(fs, e);
    if |fs.code| >= 1 { RemovedAt(fs, e, |fs.code| - 1); }
    if |fs.code| >= 2 { RemovedAt(fs, e, |fs.code| - 2); }
  }

  /** Once the values are removed, what is left of the lists stands for booleans. */
  lemma RemovedDenotes(m: Ops, fs: Fs, e: Exp, start: Regs, r0: Regs, n: nat, b: bool)
    requires DescOk(fs, e)
    ensures var gs := RemoveBoth(fs, e);
            && DescOk(gs, e) && Grows(fs, gs, Own(e)) && gs.freereg == fs.freereg
            && (Denotes(m, fs, e, start, r0, n, Bool(b), false) ==> Denotes(m, gs, e, start, r0, n, Bool(b), true))
            && (forall o :: Gone(m, gs, e, start, o) == Gone(m, fs, e, start, o))
  {
    hide FsOk, Behave, KeepsWaiting, ListsOk, KindOk, DescValue;
    var gs := RemoveBoth(fs, e);
    WaitingLists(fs, e);
    RemoveBothOk(m, fs, e.t, e.f, e, start);
    BaseWaiting(fs, e);
    RemoveBothOk(m, Base(fs, e), e.t, e.f, e, start);
    RemoveBothBase(fs, e);
    RemovedKeeps(fs, e);
    RemovedKind(fs, e);
    GrowsWider(fs, gs, Elems(e.t) + Elems(e.f), Own(e));
  }

  lemma WaitingLists(fs: Fs, e: Exp)
    requires ListsOk(fs, e)
    ensures Waiting(fs.code, e.t) && Waiting(fs.code, e.f)
  {
  }

  lemma BaseWaiting(fs: Fs, e: Exp)
    requires DescOk(fs, e)
    ensures FsOk(Base(fs, e)) && Waiting(Base(fs, e).code, e.t) && Waiting(Base(fs, e).code, e.f)
  {
    hide CodeOk, KOk, LabelOk, CacheOk;
  }

  // ---------------------------------------------------------------- codenot

  /** codenot without the removal of the values. */
  function Negated(fs: Fs, d: Exp): (Fs, Exp) {
    var (gs, kind) :=
      match d.kind
      case VNil => (fs, VTrue)
      case VFalse => (fs, VTrue)
      case VK(_) => (fs, VFalse)
      case VKNum(_) => (fs, VFalse)
      case VTrue => (fs, VFalse)
      case VJmp(_) => (InvertJump(fs, d), d.kind)
      case _ => var (hs, r) := Tested(fs, d); (Emit(hs, Unary(Not, 0, r)), VReloc(|hs.code|));
    (gs, Exp(kind, d.f, d.t))
  }

  /** codenot. */
  function CodeNot(fs: Fs, e: Exp): (Fs, Exp) {
    var (gs, d) := Negated(fs, DischargeVars(e));
    (RemoveBoth(gs, d), d)
  }

  function Swapped(e: Exp): Exp {
    Exp(e.kind, e.f, e.t)
  }

  lemma SwappedLists(fs: Fs, e: Exp)
    ensures ListsOk(fs, Swapped(e)) == ListsOk(fs, e)
  {
  }

  lemma InvertedDesc(m: Ops, fs: Fs, d: Exp)
    requires DescOk(fs, d) && d.kind.VJmp?
    ensures var gs := InvertJump(fs, d);
            && DescOk(gs, Swapped(d)) && Base(gs, Swapped(d)) == Base(fs, d)
            && (forall r :: DescValue(m, gs, Swapped(d), r) == Bool(!Truthy(DescValue(m, fs, d, r))))
  {
    hide FsOk, ListsOk;
    InvertedOk(fs, d);
    SwappedLists(InvertJump(fs, d), d);
    var gs := InvertJump(fs, d);
    assert gs.code[..|gs.code|-2] == fs.code[..|fs.code|-2];
    KeptLists(fs, gs, d);
  }

  /** The lists change sides with the value. */
  lemma NegatedExit(code: Code, code': Code, e: Exp, d: Exp, j: nat, r: Regs, v: Value)
    requires ExitOk(code, e, j, r, v, false) && d.t == e.f && d.f == e.t
    ensures ExitOk(code', d, j, r, Bool(!Truthy(v)), false)
  {
  }

  lemma NegatedKinds(fs: Fs, d: Exp)
    requires DescOk(fs, d) && !d.kind.VLocal? && !d.kind.VJmp? && !d.kind.VReloc? && !d.kind.VNonReloc?
    ensures DescOk(fs, Negated(fs, d).1) && Negated(fs, d).0 == fs && Own(Negated(fs, d).1) == Own(d)
  {
    hide FsOk, ListsOk;
    SwappedLists(fs, d);
    ListsNotKind(fs, Swapped(d), Negated(fs, d).1);
  }

  lemma ListsNotKind(fs: Fs, e: Exp, d: Exp)
    requires e.t == d.t && e.f == d.f
    ensures ListsOk(fs, e) == ListsOk(fs, d)
  {
  }

  lemma NegatedDenotes(m: Ops, fs: Fs, d: Exp, start: Regs, r0: Regs, n: nat, v: Value)
    requires DescOk(fs, d) && !d.kind.VLocal? && FreshFrame(start, fs.nactvar) && TrueConstant(fs, d)
    ensures var (gs, d') := Negated(fs, d);
            && DescOk(gs, d') && Grows(fs, gs, Own(d)) && gs.freereg == Slot(fs, d) && Own(d') == Own(d)
            && (n <= Slot(fs, d) && Denotes(m, fs, d, start, r0, n, v, false) ==>
                  Denotes(m, gs, d', start, r0, n, Bool(!Truthy(v)), false))
            && (forall o :: Gone(m, fs, d, start, o) ==> Gone(m, gs, d', start, o))
  {
    hide FsOk, Behave, KeepsWaiting, ListsOk, Tested, InvertJump, Base, Emit;
    match d.kind
    case VJmp(_) =>
      InvertedOk(fs, d);
      InvertedDesc(m, fs, d);
      assert d.kind.jump in TrueList(d);
      GrowsWider(fs, InvertJump(fs, d), {d.kind.jump}, Own(d));
    case VReloc(_) => TestedNegated(m, fs, d, start, r0, n, v);
    case VNonReloc(_) => TestedNegated(m, fs, d, start, r0, n, v);
    case _ => 
      NegatedKinds(fs, d);
      LiteralNegated(m, fs, d, start, r0, n, v);
  }

  lemma LiteralNegated(m: Ops, fs: Fs, d: Exp, start: Regs, r0: Regs, n: nat, v: Value)
    requires DescOk(fs, d) && !d.kind.VLocal? && !d.kind.VJmp? && !d.kind.VReloc? && !d.kind.VNonReloc? && TrueConstant(fs, d)
    ensures var (gs, d') := Negated(fs, d);
            && Grows(fs, gs, Own(d)) && gs.freereg == Slot(fs, d)
            && (n <= Slot(fs, d) && Denotes(m, fs, d, start, r0, n, v, false) ==>
                  Denotes(m, gs, d', start, r0, n, Bool(!Truthy(v)), false))
            && (forall o :: Gone(m, fs, d, start, o) ==> Gone(m, gs, d', start, o))
  {
    hide FsOk, Behave, ListsOk;
  }

  lemma TestedNegated(m: Ops, fs: Fs, d: Exp, start: Regs, r0: Regs, n: nat, v: Value)
    requires DescOk(fs, d) && (d.kind.VReloc? || d.kind.VNonReloc?) && FreshFrame(start, fs.nactvar)
    ensures var (gs, d') := Negated(fs, d);
            && DescOk(gs, d') && Grows(fs, gs, Own(d)) && gs.freereg == Slot(fs, d) && Own(d') == Own(d)
            && (n <= Slot(fs, d) && Denotes(m, fs, d, start, r0, n, v, false) ==>
                  Denotes(m, gs, d', start, r0, n, Bool(!Truthy(v)), false))
            && (forall o :: Gone(m, fs, d, start, o) ==> Gone(m, gs, d', start, o))
  {
    hide FsOk, Behave, KeepsWaiting, ListsOk, ListsKept, Tested, Base, Emit, KindOk, DescValue, ExitOk;
    TestedOk(fs, d);
    TestedRuns(m, fs, d, start);
    var (hs, r) := Tested(fs, d);
    var d' := Exp(VReloc(|hs.code|), d.f, d.t);
    KeptLists(fs, hs, d);
    SwappedLists(hs, d);
    ListsNotKind(hs, Swapped(d), d');
    SlotAbove(fs, d);
    EmitRelocOk(m, hs, Unary(Not, 0, r), d', start);
    GrowsTransitive(fs, hs, Emit(hs, Unary(Not, 0, r)), {}, {});
    GrowsMore(fs, Emit(hs, Unary(Not, 0, r)), Own(d));
    if n <= Slot(fs, d) && Denotes(m, fs, d, start, r0, n, v, false) && Behave(m, Base(fs, d), start).At? {
      var o := Behave(m, Base(fs, d), start);
      NegatedExit(fs.code, Emit(hs, Unary(Not, 0, r)).code, d, d', o.pc, o.regs, v);
    }
  }

  lemma SlotAbove(fs: Fs, d: Exp)
    requires DescOk(fs, d)
    ensures fs.nactvar <= Slot(fs, d)
  {
    hide FsOk, ListsOk;
  }

  /** codenot: the descriptor denotes the negation, and every exit of it delivers a boolean. */
  lemma CodeNotDenotes(m: Ops, fs: Fs, e: Exp, start: Regs, r0: Regs, n: nat, v: Value)
    requires DescOk(fs, e) && FreshFrame(start, fs.nactvar) && TrueConstant(fs, e)
    ensures var (gs, d) := CodeNot(fs, e);
            && DescOk(gs, d) && Grows(fs, gs, Own(e)) && gs.freereg == Slot(fs, e) && Own(d) == Own(e)
            && (n <= Slot(fs, e) && Denotes(m, fs, e, start, r0, n, v, false) ==>
                  Denotes(m, gs, d, start, r0, n, Bool(!Truthy(v)), true))
            && (forall o :: Gone(m, fs, e, start, o) ==> Gone(m, gs, d, start, o))
  {
    hide FsOk, Behave, KeepsWaiting, ListsOk, Negated, RemoveBoth, Denotes, Gone, KindOk, Grows;
    DischargeVarsOk(m, fs, e, start);
    var x := DischargeVars(e);
    NegatedDenotes(m, fs, x, start, r0, n, v);
    var (gs, d) := Negated(fs, x);
    RemovedDenotes(m, gs, d, start, r0, n, !Truthy(v));
    GrowsTransitive(fs, gs, RemoveBoth(gs, d), Own(e), Own(d));
  }
}
