/** The interpreter loop of lvm.c on assembled words: they do what the model of the code does. */
module CgInterpret {
  import opened CgCode
  import opened CgState
  import opened CgLists
  import opened CgExp
  import opened CgOperand
  import opened CgArith
  import opened CgCompile
  import opened CgTheorems
  import opened CgTidy
  import opened CgAccepted
  import opened Wrappers
  import ChkProto

  type Image = seq<ChkProto.Word>

  /** RKB and RKC. */
  function Fetch(x: nat, k: seq<Value>, r: Regs): Value {
    if x >= ChkProto.BITRK then KAt(k, x - ChkProto.BITRK) else Get(r, x)
  }

  /** The arithmetic that an opcode stands for. */
  function ArithOf(op: ChkProto.Op): Option<ArithOp> {
    match op
    case ADD => Some(Add)
    case SUB => Some(Sub)
    case MUL => Some(Mul)
    case DIV => Some(Div)
    case MOD => Some(Mod)
    case POW => Some(Pow)
    case _ => None
  }

  function CmpOfOp(op: ChkProto.Op): Option<CmpOp> {
    match op
    case EQ => Some(Eq)
    case LT => Some(Lt)
    case LE => Some(Le)
    case _ => None
  }

  /** dojump, for the jump behind a test. */
  function Jumped(code: Image, pc: nat): int {
    if pc + 1 < |code| then pc + 2 + ChkProto.SBx(code[pc+1]) else pc + 2
  }

  /** One turn of luaV_execute; calls, tables, upvalues, closures and loops are not part of an expression. */
  function Turn(m: Ops, code: Image, k: seq<Value>, pc: nat, r: Regs): Option<(int, Regs)>
    requires pc < |code|
  {
    var w := code[pc];
    match w.op
    case MOVE => Some((pc + 1, r[w.a := Get(r, w.b)]))
    case LOADK => Some((pc + 1, r[w.a := KAt(k, ChkProto.Bx(w))]))
    case LOADBOOL => Some((if w.c != 0 then pc + 2 else pc + 1, r[w.a := Bool(w.b != 0)]))
    case LOADNIL => Some((pc + 1, map j | j in r && !(w.a <= j <= w.b) :: r[j]))
    case UNM => Some((pc + 1, r[w.a := m.unm(Get(r, w.b))]))
    case NOT => Some((pc + 1, r[w.a := Bool(!Truthy(Get(r, w.b)))]))
    case LEN => Some((pc + 1, r[w.a := m.len(Get(r, w.b))]))
    case JMP => Some((pc + 1 + ChkProto.SBx(w), r))
    case TEST => Some((if Truthy(Get(r, w.a)) == (w.c != 0) then Jumped(code, pc) else pc + 2, r))
    case TESTSET =>
      Some(if Truthy(Get(r, w.b)) == (w.c != 0) then (Jumped(code, pc), r[w.a := Get(r, w.b)]) else (pc + 2, r))
    case _ =>
      if ArithOf(w.op).Some? then Some((pc + 1, r[w.a := m.arith(ArithOf(w.op).value, Fetch(w.b, k, r), Fetch(w.c, k, r))]))
      else if CmpOfOp(w.op).Some? then
        Some((if m.cmp(CmpOfOp(w.op).value, Fetch(w.b, k, r), Fetch(w.c, k, r)) == (w.a != 0) then Jumped(code, pc) else pc + 2, r))
      else None
  }

  /** luaV_execute up to the RETURN of one value; a backward jump does not occur in the code of an expression. */
  function Interpret(m: Ops, code: Image, k: seq<Value>, pc: nat, r: Regs): Option<Value>
    decreases |code| - pc
  {
    if pc >= |code| then None
    else if code[pc].op == ChkProto.RETURN then if code[pc].b == 2 then Some(Get(r, code[pc].a)) else None
    else
      var t :- Turn(m, code, k, pc, r);
      if t.0 <= pc then None else Interpret(m, code, k, t.0, t.1)
  }

  /** What the bytecode checker takes for the successors of an instruction are those. */
  lemma TurnSteps(m: Ops, p: ChkProto.Proto, k: seq<Value>, pc: nat, r: Regs)
    requires pc < |p.code| && Turn(m, p.code, k, pc, r).Some?
    requires ChkProto.TestTMode(p.code[pc].op) ==> pc + 1 < |p.code|
    ensures ChkProto.Steps(p, pc, Turn(m, p.code, k, pc, r).value.0)
  {
  }

  // ---------------------------------------------------------------- assembled words

  lemma FetchOperand(o: RK, k: seq<Value>, r: Regs, n: nat)
    requires OperandInFrame(o, n) && n <= ChkProto.BITRK
    ensures Fetch(Operand(o), k, r) == RKValue(o, k, r)
  {
  }

  /** Where control goes from an instruction that is neither test nor jump, and what it does. */
  lemma PlainTurn(m: Ops, code: Image, k: seq<Value>, pc: nat, r: Regs, w: Word, i: Instr, frame: nat)
    requires pc < |code| && Fits(w) && code[pc] == Assembled(w) && w == Retarget(i, 0) && Plain(i)
    requires InFrame(i, frame) && frame <= ChkProto.MAXSTACK
    ensures Turn(m, code, k, pc, r) == Some((pc + Width(i), Effect(m, i, k, r))) && code[pc].op != ChkProto.RETURN
  {
    if i.LoadK? { SplitBx(w.bx); }
    if i.Arith? {
      FetchOperand(i.l, k, r, frame);
      FetchOperand(i.r, k, r, frame);
    }
  }

  lemma TestTurn(m: Ops, code: Image, k: seq<Value>, pc: nat, r: Regs, w: Word, i: Instr, frame: nat)
    requires pc < |code| && Fits(w) && code[pc] == Assembled(w) && w == Retarget(i, 0) && IsTest(i)
    requires InFrame(i, frame) && frame <= ChkProto.MAXSTACK
    ensures code[pc].op != ChkProto.RETURN
    ensures Turn(m, code, k, pc, r) ==
              Some(if Taken(m, i, k, r) then (Jumped(code, pc), Copied(i, r)) else (pc + 2, r))
  {
    if i.Cmp? {
      FetchOperand(i.l, k, r, frame);
      FetchOperand(i.r, k, r, frame);
    }
  }

  /** The target of a jump of finished code, in the words. */
  lemma JumpTurn(fs: Fs, words: seq<Word>, frame: nat, j: nat)
    requires Finished(fs, frame) && Encodes(words, fs.code) && AllFit(words) && j < |words| && words[j].Jmp?
    ensures |words| == |fs.code| && Assembled(words[j]).op == ChkProto.JMP
    ensures Target(fs.code, j) == Some(j + 1 + ChkProto.SBx(Assembled(words[j])))
  {
    hide KOk, LabelOk, CacheOk, Waiting, InFrame, Assembled, Fits;
    assert TidyAt(fs.code, {}, frame, j);
    assert InstrOk(fs.code, j);
    assert EncodesAt(words, fs.code, j);
    JumpAssembled(words[j]);
  }

  lemma OneTurn(m: Ops, code: Image, k: seq<Value>, pc: nat, r: Regs, pc': nat, r': Regs)
    requires pc < pc' && pc < |code| && code[pc].op != ChkProto.RETURN && Turn(m, code, k, pc, r) == Some((pc', r'))
    ensures Interpret(m, code, k, pc, r) == Interpret(m, code, k, pc', r')
  {
    hide Turn;
  }

  /** One instruction of finished code and its word do the same. */
  lemma SameTurn(m: Ops, fs: Fs, words: seq<Word>, first: ChkProto.Arg8, frame: nat, pc: nat, r: Regs)
    requires Finished(fs, frame) && Encodes(words, fs.code) && AllFit(words) && pc < |words| == |fs.code|
    ensures var code := Closed(words, first, fs.k, fs.nactvar, frame).code;
            var (pc', r') := After(m, fs, pc, r);
            && pc < pc' <= |words| && Interpret(m, code, fs.k, pc, r) == Interpret(m, code, fs.k, pc', r')
  {
    hide Finished, Encodes, AllFit, Closed, Effect, Taken, Copied, Assembled, Turn, InFrame, UsesK, Retarget, Interpret, CodeOk;
    var code := Closed(words, first, fs.k, fs.nactvar, frame).code;
    ClosedFields(words, first, fs.k, fs.nactvar, frame);
    FinishedParts(fs, words, frame);
    NextOk(fs.code, pc);
    FitsAt(words, pc);
    var i := fs.code[pc];
    var (pc', r') := After(m, fs, pc, r);
    if words[pc].Jmp? {
      JumpTurn(fs, words, frame, pc);
      JumpAway(m, code, fs.k, pc, r);
    } else {
      FinishedAt(fs, words, frame, pc);
      if IsTest(i) {
        TestTurn(m, code, fs.k, pc, r, words[pc], i, frame);
        JumpTurn(fs, words, frame, pc + 1);
        FitsAt(words, pc + 1);
      } else {
        PlainTurn(m, code, fs.k, pc, r, words[pc], i, frame);
      }
    }
    OneTurn(m, code, fs.k, pc, r, pc', r');
  }

  /** Where the model is after the instruction, if no jump waits. */
  function After(m: Ops, fs: Fs, pc: nat, r: Regs): (nat, Regs)
    requires pc < |fs.code|
  {
    var i := fs.code[pc];
    if i.Jmp? then (if Target(fs.code, pc).Some? then Target(fs.code, pc).value else pc, r)
    else if !IsTest(i) then (pc + Width(i), Effect(m, i, fs.k, r))
    else if !Taken(m, i, fs.k, r) then (pc + 2, r)
    else (if Target(fs.code, pc + 1).Some? then Target(fs.code, pc + 1).value else pc, Copied(i, r))
  }

  lemma RunAfter(m: Ops, fs: Fs, pc: nat, r: Regs)
    requires pc < |fs.code| && Run(m, fs.code, fs.k, pc, r).Here?
    ensures Run(m, fs.code, fs.k, pc, r) == Run(m, fs.code, fs.k, After(m, fs, pc, r).0, After(m, fs, pc, r).1)
  {
    hide Effect, Taken, Copied;
  }

  lemma AtReturn(m: Ops, code: Image, k: seq<Value>, pc: nat, r: Regs, first: ChkProto.Arg8)
    requires pc < |code| && code[pc] == ReturnWord(first, 1)
    ensures Interpret(m, code, k, pc, r) == Some(Get(r, first))
  {
  }

  /** The words up to the RETURN do what the model does, and the value in the register is returned. */
  lemma {:induction false} InterpretRuns(m: Ops, fs: Fs, words: seq<Word>, first: ChkProto.Arg8, frame: nat, pc: nat, r: Regs)
    requires Finished(fs, frame) && Encodes(words, fs.code) && AllFit(words) && pc <= |words|
    requires Run(m, fs.code, fs.k, pc, r).Here?
    ensures var o := Run(m, fs.code, fs.k, pc, r);
            Interpret(m, Closed(words, first, fs.k, fs.nactvar, frame).code, fs.k, pc, r) == Some(Get(o.regs, first))
    decreases |words| - pc
  {
    hide Finished, Encodes, AllFit, Closed, Run, After, Interpret;
    ClosedFields(words, first, fs.k, fs.nactvar, frame);
    FinishedParts(fs, words, frame);
    if pc < |words| {
      SameTurn(m, fs, words, first, frame, pc, r);
      RunAfter(m, fs, pc, r);
      InterpretRuns(m, fs, words, first, frame, After(m, fs, pc, r).0, After(m, fs, pc, r).1);
    } else {
      AtReturn(m, Closed(words, first, fs.k, fs.nactvar, frame).code, fs.k, pc, r, first);
      assert Run(m, fs.code, fs.k, pc, r) == Here(r) by { RunEnd(m, fs, pc, r); }
    }
  }

  lemma RunEnd(m: Ops, fs: Fs, pc: nat, r: Regs)
    requires pc == |fs.code|
    ensures Run(m, fs.code, fs.k, pc, r) == Here(r)
  {
  }

  lemma FinishedParts(fs: Fs, words: seq<Word>, frame: nat)
    requires Finished(fs, frame) && Encodes(words, fs.code)
    ensures CodeOk(fs.code) && |words| == |fs.code| && frame <= ChkProto.MAXSTACK
    ensures forall i: nat | i < |words| :: words[i].Jmp? == fs.code[i].Jmp?
  {
    hide KOk, LabelOk, CacheOk, Waiting, TidyCode, CodeOk;
    forall i: nat | i < |words| ensures words[i].Jmp? == fs.code[i].Jmp? {
      assert EncodesAt(words, fs.code, i);
    }
  }

  lemma FitsAt(words: seq<Word>, i: nat)
    requires AllFit(words) && i < |words|
    ensures Fits(words[i])
  {
  }

  lemma JumpAway(m: Ops, code: Image, k: seq<Value>, pc: nat, r: Regs)
    requires pc < |code| && code[pc].op == ChkProto.JMP
    ensures Turn(m, code, k, pc, r) == Some((pc + 1 + ChkProto.SBx(code[pc]), r))
  {
  }

  // ---------------------------------------------------------------- return e

  /** The function of `return e`, called with the arguments in its first registers, returns the value of the expression. */
  lemma ReturnTheorem(m: Ops, fs: Fs, e: Expr, words: seq<Word>, frame: nat, start: Regs)
    requires CanCompile(fs, e) && fs.code == [] && fs.jpc == [] && 2 <= frame <= ChkProto.MAXSTACK
    requires fs.freereg + Need(e) <= frame && FreshFrame(start, fs.nactvar) && NumbersOk(m) && ExactIn(m, fs, e, start)
    requires Encodes(words, Returned(fs, e).0.code) && AllFit(words)
    ensures var (hs, x) := Returned(fs, e);
            && x.kind.VNonReloc? && x.kind.info < frame
            && Interpret(m, Closed(words, x.kind.info, hs.k, hs.nactvar, frame).code, hs.k, 0, start) == Some(Eval(m, e, start))
  {
    hide FsOk, ListsOk, KindOk, KeepsWaiting, Compile, Exp2AnyReg, TidyCode, ExactIn, NumbersOk, Eval, Encodes, AllFit, Run,
         Interpret, Denotes, FreshFrame, Finished, Closed, Discharge;
    ReturnedFinished(fs, e, frame);
    Compiles(m, fs, e, start, true);
    var (gs, d) := Compile(fs, e);
    var (hs, x) := Exp2AnyReg(gs, d);
    assert Behave(m, fs, start) == Here(start) by { NothingRuns(m, fs, start); }
    Exp2AnyRegOk(gs, d);
    Exp2AnyRegRuns(m, gs, d, start, start, fs.freereg, Eval(m, e, start));
    DischargeRuns(m, hs, start);
    DischargedHere(m, hs, start);
    InterpretRuns(m, Discharge(hs), words, x.kind.info, frame, 0, start);
  }

  lemma NothingRuns(m: Ops, fs: Fs, start: Regs)
    requires fs.code == []
    ensures Behave(m, fs, start) == Here(start)
  {
  }

  lemma DischargedHere(m: Ops, fs: Fs, start: Regs)
    ensures var gs := Discharge(fs); Behave(m, gs, start) == Run(m, gs.code, gs.k, 0, start)
  {
  }
}
