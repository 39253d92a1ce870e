/** A branch with something behind it: `if e then v = y end`, as ifstat and assignment of lparser.c compile it. */
module CgBranch {
  import opened CgCode
  import opened CgState
  import opened CgExp
  import opened CgReg
  import opened CgArith
  import opened CgCompile
  import opened CgTheorems

  /** The condition, the assignment to the register, and luaK_patchtohere for the jumps of a false condition. */
  function IfThen(fs: Fs, e: Expr, y: Expr, reg: nat): Fs {
    var (f1, out) := Cond(fs, e);
    var (f2, d) := Compile(f1, y);
    PatchToHere(Exp2Reg(f2, d, reg), out)
  }

  /** What the statement leaves: `y` in the register if the condition is true, otherwise what was there. */
  ghost predicate Chooses(m: Ops, e: Expr, y: Expr, reg: nat, r: Regs, o: Outcome) {
    && o.Here? && SameBelow(r, o.regs, reg)
    && Get(o.regs, reg) == if Truthy(Eval(m, e, r)) then Eval(m, y, r) else Get(r, reg)
  }

  /** The register is the last one in use; the expressions may read it if it is a local. */
  ghost predicate CanBranch(fs: Fs, e: Expr, y: Expr, reg: nat) {
    CanCompile(fs, e) && Scoped(y, fs.nactvar) && reg + 1 == fs.freereg
  }

  /** The jumps of a false condition wait while the assignment is compiled. */
  lemma OutKeepsWaiting(f1: Fs, f2: Fs, d: Exp, reg: nat, out: seq<nat>)
    requires CompiledOk(f1, f2, d) && (reg < f2.nactvar || reg + 1 == f2.freereg)
    requires Waiting(f1.code, out) && Disjoint(out, f1.jpc)
    ensures var f3 := Exp2Reg(f2, d, reg);
            FsOk(f3) && f3.freereg == f1.freereg && Grows(f1, f3, {}) && Waiting(f3.code, out) && Disjoint(out, f3.jpc)
  {
    hide FsOk, ListsOk, KindOk, Exp2Reg;
    Exp2RegOk(f2, d, reg);
    GrowsTransitive(f1, f2, Exp2Reg(f2, d, reg), {}, Own(d));
  }

  /** Control that came to the assignment goes on with the value in the register; other control stays where it is. */
  ghost predicate Assigned(m: Ops, y: Expr, reg: nat, before: Outcome, after: Outcome) {
    match before
    case Here(r) => after.Here? && SameBelow(r, after.regs, reg) && Get(after.regs, reg) == Eval(m, y, r)
    case At(_, _) => after == before
  }

  /** Where control goes from the condition on. */
  lemma ThenRuns(m: Ops, f1: Fs, f2: Fs, d: Exp, y: Expr, reg: nat, start: Regs)
    requires CompiledOk(f1, f2, d) && Means(m, f1, f2, d, y, start, true)
    requires reg + 1 == f1.freereg && FreshFrame(start, f1.nactvar)
    ensures Assigned(m, y, reg, Behave(m, f1, start), Behave(m, Exp2Reg(f2, d, reg), start))
  {
    hide FsOk, Behave, KeepsWaiting, ListsOk, KindOk, Denotes, Delivers, Gone, Exp2Reg, Eval;
    match Behave(m, f1, start)
    case Here(r) =>
      DenotesFrom(m, f2, d, start, r, r, reg, f1.freereg, Eval(m, y, r), true);
      DenotesDelivers(m, f2, d, start, r, reg, Eval(m, y, r));
      Exp2RegRuns(m, f2, d, reg, start, r, reg, Eval(m, y, r));
    case At(_, _) =>
      Exp2RegGone(m, f2, d, reg, start, Behave(m, f1, start));
  }

  /** The condition, the assignment and the jumps that come back, together. */
  lemma BranchChooses(m: Ops, e: Expr, y: Expr, reg: nat, r: Regs, o1: Outcome, o2: Outcome, out: seq<nat>, o3: Outcome)
    requires SameBelow(r, o1.regs, reg + 1) && Scoped(y, reg + 1)
    requires if Truthy(Eval(m, e, r)) then o1.Here? else o1.At? && o1.pc in out
    requires Assigned(m, y, reg, o1, o2)
    requires o3 == if o2.At? && o2.pc in out then Here(o2.regs) else o2
    ensures Chooses(m, e, y, reg, r, o3)
  {
    hide Eval;
    EvalSame(m, y, r, o1.regs, reg + 1);
  }

  /** The statement, whatever was compiled before: control that comes to it leaves it with the right value in the register. */
  lemma IfTheorem(m: Ops, fs: Fs, e: Expr, y: Expr, reg: nat, start: Regs)
    requires CanBranch(fs, e, y, reg) && FreshFrame(start, fs.nactvar) && NumbersOk(m) && Behave(m, fs, start).Here?
    requires SoundIn(m, fs, e, start) && ExactIn(m, Cond(fs, e).0, y, start)
    ensures var hs := IfThen(fs, e, y, reg);
            FsOk(hs) && hs.freereg == fs.freereg && Chooses(m, e, y, reg, Behave(m, fs, start).regs, Behave(m, hs, start))
  {
    hide FsOk, Behave, SoundIn, ExactIn, NumbersOk, Means, CompiledOk, Eval, Cond, Compile, Exp2Reg, KeepsWaiting,
         SameBelow, Waiting, FreshFrame, Chooses, Assigned;
    BranchTheorem(m, fs, e, start);
    var (f1, out) := Cond(fs, e);
    Compiles(m, f1, y, start, true);
    var (f2, d) := Compile(f1, y);
    CompiledFrame(f1, f2, d);
    OutKeepsWaiting(f1, f2, d, reg, out);
    ThenRuns(m, f1, f2, d, y, reg, start);
    var f3 := Exp2Reg(f2, d, reg);
    PatchToHereOk(f3, out);
    PatchToHereRuns(m, f3, out, start);
    ScopedMore(y, fs.nactvar, fs.freereg);
    BranchChooses(m, e, y, reg, Behave(m, fs, start).regs, Behave(m, f1, start), Behave(m, f3, start), out,
                  Behave(m, PatchToHere(f3, out), start));
  }

  lemma CompiledFrame(fs: Fs, gs: Fs, d: Exp)
    requires CompiledOk(fs, gs, d)
    ensures gs.freereg == fs.freereg
  {
    hide FsOk;
  }
}
