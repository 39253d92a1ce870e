/** The bytecode checker on what the code generator makes of `return e`: the assertion of close_func (lparser.c). */
module CgAccepted {
  import opened CgCode
  import opened CgState
  import opened CgLists
  import opened CgExp
  import opened CgOperand
  import opened CgCompile
  import opened CgTheorems
  import opened CgFuncState
  import opened CgTidy
  import opened Wrappers
  import ChkProto
  import ChkCode
  import ChkSafe

  // ---------------------------------------------------------------- words in their fields

  const MAXARG_BX: nat := 262143

  /** What luaK_code and fixjump can store: registers, a constant, a jump that is not too long. */
  predicate Fits(w: Word) {
    match w
    case LoadK(a, bx) => a < 256 && bx <= MAXARG_BX
    case Jmp(d) => -ChkProto.MAXARG_SBX <= d <= ChkProto.MAXARG_SBX
    case Move(a, b) => a < 256 && b < 256
    case LoadBool(a, _, _) => a < 256
    case LoadNil(a, b) => a < 256 && b < 256
    case Arith(_, a, l, r) => a < 256 && Operand(l) < 512 && Operand(r) < 512
    case Unary(_, a, b) => a < 256 && b < 256
    case Cmp(_, _, l, r) => Operand(l) < 512 && Operand(r) < 512
    case Test(b, _) => b < 256
    case TestSet(reg, b, _) => reg.Some? && reg.value < 256 && b < 256
  }

  function ArithCode(op: ArithOp): ChkProto.Op {
    match op
    case Add => ChkProto.ADD
    case Sub => ChkProto.SUB
    case Mul => ChkProto.MUL
    case Div => ChkProto.DIV
    case Mod => ChkProto.MOD
    case Pow => ChkProto.POW
  }

  function UnaryCode(op: UnaryOp): ChkProto.Op {
    match op
    case Unm => ChkProto.UNM
    case Not => ChkProto.NOT
    case Len => ChkProto.LEN
  }

  function CmpCode(op: CmpOp): ChkProto.Op {
    match op
    case Eq => ChkProto.EQ
    case Lt => ChkProto.LT
    case Le => ChkProto.LE
  }

  function Flag(b: bool): ChkProto.Arg8 {
    if b then 1 else 0
  }

  /** CREATE_ABC and CREATE_ABx. */
  function Assembled(w: Word): ChkProto.Word
    requires Fits(w)
  {
    match w
    case Move(a, b) => ChkProto.Word(ChkProto.MOVE, a, b, 0)
    case LoadK(a, bx) => ChkProto.Word(ChkProto.LOADK, a, bx / 512, bx % 512)
    case LoadBool(a, v, skip) => ChkProto.Word(ChkProto.LOADBOOL, a, Flag(v), Flag(skip))
    case LoadNil(a, b) => ChkProto.Word(ChkProto.LOADNIL, a, b, 0)
    case Arith(op, a, l, r) => ChkProto.Word(ArithCode(op), a, Operand(l), Operand(r))
    case Unary(op, a, b) => ChkProto.Word(UnaryCode(op), a, b, 0)
    case Jmp(d) =>
      var bx := d + ChkProto.MAXARG_SBX;
      ChkProto.Word(ChkProto.JMP, 0, bx / 512, bx % 512)
    case Cmp(op, cond, l, r) => ChkProto.Word(CmpCode(op), Flag(cond), Operand(l), Operand(r))
    case Test(b, c) => ChkProto.Word(ChkProto.TEST, b, 0, Flag(c))
    case TestSet(reg, b, c) => ChkProto.Word(ChkProto.TESTSET, reg.value, b, Flag(c))
  }

  predicate AllFit(words: seq<Word>) {
    forall i: nat | i < |words| :: Fits(words[i])
  }

  /** luaK_ret for the value of the expression, and for the end of the function. */
  function ReturnWord(first: ChkProto.Arg8, nret: nat): ChkProto.Word
    requires nret < 511
  {
    ChkProto.Word(ChkProto.RETURN, first, nret + 1, 0)
  }

  function AssembledAll(words: seq<Word>): (code: seq<ChkProto.Word>)
    requires AllFit(words)
    ensures |code| == |words| && forall i: nat | i < |words| :: code[i] == Assembled(words[i])
  {
    seq(|words|, i requires 0 <= i < |words| => Assembled(words[i]))
  }

  function ConstantOf(v: Value): ChkProto.Constant {
    if v.Other? then ChkProto.Str else ChkProto.NoStr
  }

  function ConstantsOf(k: seq<Value>): (c: seq<ChkProto.Constant>)
    ensures |c| == |k|
  {
    seq(|k|, i requires 0 <= i < |k| => ConstantOf(k[i]))
  }

  /** The function that close_func leaves. */
  function Closed(words: seq<Word>, first: ChkProto.Arg8, k: seq<Value>, parameters: nat, frame: nat): (p: ChkProto.Proto)
    requires AllFit(words)
  {
    var code := AssembledAll(words) + [ReturnWord(first, 1), ReturnWord(0, 0)];
    ChkProto.Proto(code, ConstantsOf(k), [], parameters, false, false, false, frame, 0, 0, |code|)
  }

  // ---------------------------------------------------------------- accepted

  /** Nothing waits any more, and the code names a frame of `frame` registers only. */
  ghost predicate Finished(fs: Fs, frame: nat) {
    FsOk(fs) && fs.jpc == [] && TidyCode(fs.code, {}, frame) && 2 <= frame <= ChkProto.MAXSTACK && fs.nactvar <= frame
  }

  /** There is no SETLIST, so every word is an instruction. */
  lemma AllInstructions(words: seq<Word>, first: ChkProto.Arg8, k: seq<Value>, parameters: nat, frame: nat, pc: int)
    requires AllFit(words) && 0 <= pc < |words| + 2
    ensures ChkProto.IsInstr(Closed(words, first, k, parameters, frame).code, pc)
    ensures !ChkProto.OpenSetlist(Closed(words, first, k, parameters, frame).code[pc])
  {
    var code := Closed(words, first, k, parameters, frame).code;
    assert forall i: nat | i < |words| :: code[i] == Assembled(words[i]);
  }

  lemma SplitBx(bx: nat)
    requires bx <= MAXARG_BX
    ensures bx / 512 * 512 + bx % 512 == bx && bx / 512 < 512
  {
  }

  /** The registers and constants of one word pass, jumps apart. */
  lemma WordFormat(w: Word, i: Instr, frame: nat, p: ChkProto.Proto)
    requires Fits(w) && !i.Jmp? && w == Retarget(i, 0) && InFrame(i, frame) && UsesK(i, |p.k|)
    requires 2 <= frame <= ChkProto.MAXSTACK && p.maxstacksize == frame
    ensures ChkCode.CheckReg(p, Assembled(w).a) && ChkCode.FormatOk(p, Assembled(w))
  {
    if w.LoadK? { SplitBx(w.bx); }
  }

  /** The opcode of one word, and what it is checked for by that. */
  lemma WordOpcode(w: Word, i: Instr)
    requires Fits(w) && !i.Jmp? && w == Retarget(i, 0)
    ensures ChkProto.GetOpMode(Assembled(w).op) != ChkProto.IAsBx
    ensures ChkProto.TestTMode(Assembled(w).op) <==> IsTest(i)
    ensures Assembled(w).op in {ChkProto.MOVE, ChkProto.LOADK, ChkProto.LOADBOOL, ChkProto.LOADNIL, ChkProto.ADD, ChkProto.SUB,
              ChkProto.MUL, ChkProto.DIV, ChkProto.MOD, ChkProto.POW, ChkProto.UNM, ChkProto.NOT, ChkProto.LEN, ChkProto.EQ,
              ChkProto.LT, ChkProto.LE, ChkProto.TEST, ChkProto.TESTSET}
    ensures Assembled(w).op == ChkProto.LOADBOOL ==> (Assembled(w).c == 1 <==> i.LoadBool? && i.skip) && Assembled(w).c <= 1
  {
  }

  /** A jump in front of the returns goes to an instruction. */
  lemma JumpChecked(fs: Fs, words: seq<Word>, first: ChkProto.Arg8, parameters: nat, frame: nat, pc: nat)
    requires Finished(fs, frame) && Encodes(words, fs.code) && AllFit(words) && pc < |words| && words[pc].Jmp?
    ensures ChkCode.Checked(Closed(words, first, fs.k, parameters, frame), pc)
    ensures !ChkSafe.UncheckedSkip(Closed(words, first, fs.k, parameters, frame), pc)
  {
    hide KOk, LabelOk, CacheOk, Waiting, ChkProto.IsCount, InFrame, Assembled, Fits, Closed, ChkProto.IsInstr;
    ClosedFields(words, first, fs.k, parameters, frame);
    assert TidyAt(fs.code, {}, frame, pc);
    assert InstrOk(fs.code, pc);
    assert EncodesAt(words, fs.code, pc);
    JumpAssembled(words[pc]);
    AllInstructions(words, first, fs.k, parameters, frame, fs.code[pc].dest.value);
  }

  /** What is known of an instruction of finished code that is no jump. */
  lemma FinishedAt(fs: Fs, words: seq<Word>, frame: nat, pc: nat)
    requires Finished(fs, frame) && Encodes(words, fs.code) && pc < |words| && !words[pc].Jmp?
    ensures |words| == |fs.code| && !fs.code[pc].Jmp? && words[pc] == Retarget(fs.code[pc], 0)
    ensures InFrame(fs.code[pc], frame) && UsesK(fs.code[pc], |fs.k|)
    ensures IsTest(fs.code[pc]) ==> pc + 1 < |words| && words[pc+1].Jmp?
    ensures fs.code[pc].LoadBool? && fs.code[pc].skip ==> pc + 2 <= |words|
  {
    hide KOk, LabelOk, CacheOk, Waiting, InFrame, UsesK;
    assert TidyAt(fs.code, {}, frame, pc);
    assert InstrOk(fs.code, pc);
    KOkAt(fs.code, |fs.k|, pc);
    assert EncodesAt(words, fs.code, pc);
    if IsTest(fs.code[pc]) { assert EncodesAt(words, fs.code, pc + 1); }
  }

  /** Any other instruction in front of the returns passes. */
  lemma InstructionChecked(fs: Fs, words: seq<Word>, first: ChkProto.Arg8, parameters: nat, frame: nat, pc: nat)
    requires Finished(fs, frame) && Encodes(words, fs.code) && AllFit(words) && pc < |words| && !words[pc].Jmp?
    ensures ChkCode.Checked(Closed(words, first, fs.k, parameters, frame), pc)
    ensures !ChkSafe.UncheckedSkip(Closed(words, first, fs.k, parameters, frame), pc)
  {
    hide FsOk, TidyCode, Encodes, ChkProto.IsCount, InFrame, UsesK, Assembled, Fits, Closed, ChkProto.IsInstr, ChkCode.FormatOk;
    var p := Closed(words, first, fs.k, parameters, frame);
    ClosedFields(words, first, fs.k, parameters, frame);
    FinishedAt(fs, words, frame, pc);
    var i := fs.code[pc];
    WordFormat(words[pc], i, frame, p);
    WordOpcode(words[pc], i);
    if IsTest(i) {
      JumpAssembled(words[pc+1]);
    }
    if i.LoadBool? && i.skip {
      AllInstructions(words, first, fs.k, parameters, frame, pc + 1);
    }
  }

  lemma JumpAssembled(w: Word)
    requires Fits(w) && w.Jmp?
    ensures Assembled(w).op == ChkProto.JMP && Assembled(w).a == 0 && ChkProto.SBx(Assembled(w)) == w.dest
  {
    SplitBx(w.dest + ChkProto.MAXARG_SBX);
  }

  lemma ClosedFields(words: seq<Word>, first: ChkProto.Arg8, k: seq<Value>, parameters: nat, frame: nat)
    requires AllFit(words)
    ensures var p := Closed(words, first, k, parameters, frame);
            && |p.code| == |words| + 2 && |p.k| == |k| && p.maxstacksize == frame && p.numparams == parameters
            && (forall i: nat | i < |words| :: p.code[i] == Assembled(words[i]))
            && p.code[|words|] == ReturnWord(first, 1) && p.code[|words|+1] == ReturnWord(0, 0)
  {
  }

  /** Finished code, followed by the returns, is accepted, and its LOADBOOLs are plain. */
  lemma FinishedAccepted(fs: Fs, words: seq<Word>, first: ChkProto.Arg8, frame: nat)
    requires Finished(fs, frame) && Encodes(words, fs.code) && AllFit(words) && first < frame
    ensures ChkCode.Accepts(Closed(words, first, fs.k, fs.nactvar, frame))
    ensures ChkSafe.PlainLoadBools(Closed(words, first, fs.k, fs.nactvar, frame))
  {
    hide FsOk, TidyCode, ChkProto.IsCount, Encodes, AllFit, Closed, ChkCode.Checked, ChkSafe.UncheckedSkip;
    var p := Closed(words, first, fs.k, fs.nactvar, frame);
    ClosedFields(words, first, fs.k, fs.nactvar, frame);
    ClosedPasses(words, first, fs.k, fs.nactvar, frame);
    forall pc: nat | pc < |p.code| ensures ChkCode.Checked(p, pc) && !ChkSafe.UncheckedSkip(p, pc) {
      if pc < |words| && words[pc].Jmp? {
        JumpChecked(fs, words, first, fs.nactvar, frame, pc);
      } else if pc < |words| {
        InstructionChecked(fs, words, first, fs.nactvar, frame, pc);
      } else {
        ReturnChecked(p, pc);
      }
    }
  }

  lemma ReturnChecked(p: ChkProto.Proto, pc: nat)
    requires pc < |p.code| && p.code[pc].op == ChkProto.RETURN && p.code[pc].c == 0 && p.code[pc].b <= 2
    requires p.code[pc].a < p.maxstacksize
    ensures ChkCode.Checked(p, pc) && !ChkSafe.UncheckedSkip(p, pc)
  {
  }

  lemma ClosedPasses(words: seq<Word>, first: ChkProto.Arg8, k: seq<Value>, parameters: nat, frame: nat)
    requires AllFit(words) && parameters <= frame <= ChkProto.MAXSTACK
    ensures ChkCode.PreCheck(Closed(words, first, k, parameters, frame))
  {
  }

  // ---------------------------------------------------------------- return e

  /** retstat for one value: it is put into some register, and the jumps to the RETURN are settled. */
  function Returned(fs: Fs, e: Expr): (Fs, Exp) {
    var (gs, d) := Compile(fs, e);
    var (hs, x) := Exp2AnyReg(gs, d);
    (Discharge(hs), x)
  }

  /** The frame that the expression may need behind the parameters; registers 0 and 1 are always there. */
  function FrameFor(parameters: nat, e: Expr): (n: nat)
    ensures 2 <= n && parameters + Need(e) <= n
  {
    if parameters + Need(e) < 2 then 2 else parameters + Need(e)
  }

  lemma ReturnedFinished(fs: Fs, e: Expr, frame: nat)
    requires CanCompile(fs, e) && fs.code == [] && fs.jpc == [] && 2 <= frame <= ChkProto.MAXSTACK
    requires fs.freereg + Need(e) <= frame
    ensures var (hs, x) := Returned(fs, e);
            Finished(hs, frame) && hs.nactvar == fs.nactvar && x.kind.VNonReloc? && x.kind.info < frame
  {
    hide FsOk, ListsOk, KindOk, KeepsWaiting, Compile, Exp2AnyReg, TidyCode;
    assert Tidy(fs, {}, frame) by { NothingTidy(fs, frame); }
    CompileTidy(fs, e, {}, frame);
    CompileStructure(fs, e);
    var (gs, d) := Compile(fs, e);
    Exp2AnyRegTidy(gs, d, {}, frame);
    Exp2AnyRegOk(gs, d);
    var (hs, x) := Exp2AnyReg(gs, d);
    DischargeTidy(hs, {}, frame);
    DischargeOk(hs);
    assert {} + Elems([]) == {};
  }

  lemma NothingTidy(fs: Fs, n: nat)
    requires fs.code == []
    ensures Tidy(fs, {}, n)
  {
  }

  /** open_func, with the active variables that are parameters. */
  function Fresh(parameters: nat): Fs {
    Fs([], [], -1, parameters, parameters, [], map[])
  }

  /**
   * A function of `parameters` parameters with the statement `return e`, from open_func to close_func: it passes
   * luaG_checkcode. There is none if an instruction does not fit its fields or the frame is too large.
   */
  method CompileReturn(parameters: nat, e: Expr) returns (p: Option<ChkProto.Proto>, ghost words: seq<Word>)
    requires Scoped(e, parameters)
    ensures p.Some? ==> ChkCode.Accepts(p.value) && ChkSafe.PlainLoadBools(p.value) && p.value.numparams == parameters
    ensures p.Some? <==> FrameFor(parameters, e) <= ChkProto.MAXSTACK && AllFit(words)
    ensures FrameFor(parameters, e) <= ChkProto.MAXSTACK ==> Encodes(words, Returned(Fresh(parameters), e).0.code)
    ensures p.Some? ==>
              var (hs, x) := Returned(Fresh(parameters), e);
              && x.kind.VNonReloc? && x.kind.info < 256
              && p.value == Closed(words, x.kind.info, hs.k, parameters, FrameFor(parameters, e))
  {
    hide FsOk, Compile, Exp2AnyReg, Encodes, IsList, CompiledOk, Finished, ChkCode.Accepts, ChkSafe.PlainLoadBools, AllFit;
    var frame := FrameFor(parameters, e);
    words := [];
    if frame > ChkProto.MAXSTACK {
      return None, words;
    }
    var s := new FuncState(parameters);
    ghost var fs := s.model;
    ReturnedFinished(fs, e, frame);
    CompileStructure(fs, e);
    var x, d := s.SubExpr(e);
    CompiledDesc(fs, s.model, d);
    Exp2AnyRegOk(s.model, d);
    OkCode(Exp2AnyReg(s.model, d).0);
    var y, r := s.ExpToAnyReg(x, d);
    s.DischargeJpc();
    words := s.code;
    if !AllFit(s.code) {
      return None, words;
    }
    FinishedAccepted(s.model, s.code, y.kind.info, frame);
    p := Some(Closed(s.code, y.kind.info, s.k, s.nactvar, frame));
    ClosedFields(s.code, y.kind.info, s.k, s.nactvar, frame);
  }

  /** So a run of such a function stays inside it: the interpreter reaches instructions only, whose operands are there. */
  lemma ReturnStays(fs: Fs, words: seq<Word>, first: ChkProto.Arg8, frame: nat, run: seq<int>, i: nat)
    requires Finished(fs, frame) && Encodes(words, fs.code) && AllFit(words) && first < frame
    requires var p := Closed(words, first, fs.k, fs.nactvar, frame); ChkSafe.IsRun(p, run) && i < |run|
    ensures var p := Closed(words, first, fs.k, fs.nactvar, frame);
            ChkProto.IsInstr(p.code, run[i]) && ChkProto.OperandsIn(p, run[i])
  {
    hide Finished, Encodes, AllFit, Closed, ChkSafe.IsRun, ChkCode.Accepts, ChkProto.OperandsIn;
    FinishedAccepted(fs, words, first, frame);
    ChkSafe.RunsStay(Closed(words, first, fs.k, fs.nactvar, frame), run, i);
  }
}
