/** The generator working in place and the virtual machine on the words it leaves, together. */
module CgEndToEnd {
  import opened CgCode
  import opened CgState
  import opened CgLists
  import opened CgExp
  import opened CgArith
  import opened CgCompile
  import opened CgTheorems
  import opened CgSplice
  import opened CgFuncState
  import opened CgWords
  import opened CgReg
  import opened CgBranch

  /** An expression is compiled behind code that is there, and its jumps to here are settled; then the words run. */
  method CompileValue(m: Ops, s: FuncState, e: Expr, ghost start: Regs) returns (reg: nat)
    requires s.Rep() && CanCompile(s.model, e) && ExactIn(m, s.model, e, start)
    requires FreshFrame(start, s.model.nactvar) && NumbersOk(m) && Behave(m, s.model, start).Here?
    modifies s
    ensures s.Rep() && reg == old(s.freereg) && s.freereg == reg + 1
    ensures var r := Behave(m, old(s.model), start).regs;
            var o := Execute(m, s.code, s.k, 0, start);
            o.Here? && Get(o.regs, reg) == Eval(m, e, r) && SameBelow(r, o.regs, reg)
  {
    hide FsOk, ExactIn, Encodes, ToNextReg, Eval, Execute, Grows, IsList, Behave, Yields;
    ghost var fs := s.model;
    ValueTheorem(m, fs, e, start);
    reg := s.ExprToNextReg(e);
    SettledCode(s.model);
    s.DischargeJpc();
    ExecuteValue(m, fs, e, s.code, start);
  }

  /** `if e then v = y end`, compiled behind code that is there, for the last register in use; then the words run. */
  method CompileIf(m: Ops, s: FuncState, e: Expr, y: Expr, reg: nat, ghost start: Regs)
    requires s.Rep() && CanBranch(s.model, e, y, reg)
    requires SoundIn(m, s.model, e, start) && ExactIn(m, Cond(s.model, e).0, y, start)
    requires FreshFrame(start, s.model.nactvar) && NumbersOk(m) && Behave(m, s.model, start).Here?
    modifies s
    ensures s.Rep() && s.freereg == old(s.freereg)
    ensures Chooses(m, e, y, reg, Behave(m, old(s.model), start).regs, Execute(m, s.code, s.k, 0, start))
  {
    hide FsOk, SoundIn, ExactIn, Encodes, Cond, Compile, Exp2Reg, Execute, Grows, IsList, Behave, SameBelow, Eval, CompiledOk, LinksKept;
    ghost var fs := s.model;
    IfTheorem(m, fs, e, y, reg, start);
    BranchTheorem(m, fs, e, start);
    var out, l := s.CondOf(e);
    ghost var f1, c1 := s.model, s.code;
    ThenState(fs, f1, y);
    CompileStructure(f1, y);
    var x, d := s.SubExpr(y);
    ghost var f2 := s.model;
    CompiledDesc(f1, f2, d);
    CompiledFrame(f1, f2, d);
    OutKeepsWaiting(f1, f2, d, reg, l);
    ghost var c2 := s.code;
    s.ExpToReg(x, reg, d);
    ThenLinks(c1, c2, s.code, f1, f2, d, out, l);
    s.PatchHere(out, l);
    SettledCode(s.model);
    s.DischargeJpc();
    ExecuteSettled(m, IfThen(fs, e, y, reg), s.code, start);
  }

  lemma SettledCode(fs: Fs)
    requires FsOk(fs)
    ensures CodeOk(fs.code) && Discharge(fs).k == fs.k && Discharge(fs).freereg == fs.freereg
  {
  }

  lemma ThenState(fs: Fs, f1: Fs, y: Expr)
    requires FsOk(f1) && Grows(fs, f1, {}) && f1.freereg == fs.freereg && fs.nactvar <= fs.freereg && Scoped(y, fs.nactvar)
    ensures CanCompile(f1, y) && f1.nactvar == fs.nactvar
  {
    hide FsOk, KeepsWaiting;
  }

  /** The list of the condition is not touched by the code of the assignment. */
  lemma ThenLinks(c1: seq<Word>, c2: seq<Word>, c3: seq<Word>, f1: Fs, f2: Fs, d: Exp, head: int, l: seq<nat>)
    requires IsList(c1, head, l) && Waiting(f1.code, l) && Disjoint(l, f1.jpc) && CompiledOk(f1, f2, d)
    requires Encodes(c1, f1.code) && Encodes(c2, f2.code) && LinksKept(c1, c2, f1, {}) && LinksKept(c2, c3, f2, Own(d))
    ensures IsList(c3, head, l)
  {
    hide FsOk, IsList, LinksKept, ListsOk, KindOk, KeepsWaiting, Encodes;
    LengthOf(c1, f1.code);
    LengthOf(c2, f2.code);
    LinksTransitive(c1, c2, c3, f1, f2, {}, Own(d), {});
    ListStays(c1, c3, f1, head, l);
  }

  /** The frame of a function that was called with these arguments. */
  function Frame(args: seq<Value>): Regs {
    map i | 0 <= i < |args| :: args[i]
  }

  lemma FreshBehaves(m: Ops, fs: Fs, start: Regs)
    requires fs.code == [] && fs.jpc == []
    ensures Behave(m, fs, start) == Here(start)
  {
  }

  /** An expression over the parameters of a function, without literals on the left of `and` and `or`. */
  method RunExpression(m: Ops, e: Expr, args: seq<Value>) returns (v: Value)
    requires NumbersOk(m) && Scoped(e, |args|) && NoLiteralLeft(e)
    ensures v == Eval(m, e, Frame(args))
  {
    hide Eval, Execute, Encodes, IsList, ExactIn, Exact, NoLiteralLeft, Behave, NumbersOk;
    var s := new FuncState(|args|);
    ghost var start := Frame(args);
    NoLiteralIsExact(s.model, e);
    ExactInAnyRun(m, s.model, e, start);
    FreshBehaves(m, s.model, start);
    var reg := CompileValue(m, s, e, start);
    v := Get(Execute(m, s.code, s.k, 0, Frame(args)).regs, reg);
  }

  /** `if e then v = y end; return v`, where `v` is the last parameter, without literals on the left of `and` and `or`. */
  method RunIf(m: Ops, e: Expr, y: Expr, args: seq<Value>) returns (v: Value)
    requires NumbersOk(m) && args != [] && Scoped(e, |args|) && Scoped(y, |args|) && NoLiteralLeft(e) && NoLiteralLeft(y)
    ensures v == if Truthy(Eval(m, e, Frame(args))) then Eval(m, y, Frame(args)) else args[|args|-1]
  {
    hide Eval, Execute, Encodes, IsList, Cond, ExactIn, SoundIn, Exact, Sound, NoLiteralLeft, Behave, NumbersOk;
    var s := new FuncState(|args|);
    ghost var start := Frame(args);
    NoLiteralIsExact(s.model, e);
    ExactInAnyRun(m, s.model, e, start);
    NoLiteralIsExact(Cond(s.model, e).0, y);
    ExactInAnyRun(m, Cond(s.model, e).0, y, start);
    FreshBehaves(m, s.model, start);
    CompileIf(m, s, e, y, |args| - 1, start);
    v := Get(Execute(m, s.code, s.k, 0, Frame(args)).regs, |args| - 1);
  }
}
