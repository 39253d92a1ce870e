/** Which code luaG_checkcode accepts, in terms of what the instructions mean (lopcodes.h, lvm.c). */
module ChkExact {
  import opened ChkProto
  import opened ChkCode
  import opened ChkSafe

  /** The fields an opcode leaves unused are 0, or at least no larger than a register may be. */
  predicate FieldsOk(p: Proto, w: Word) {
    match w.op
    case MOVE | LOADNIL | GETUPVAL | SETUPVAL | UNM | NOT | LEN | RETURN | VARARG => w.c == 0
    case TFORLOOP => w.b == 0
    case CLOSE => w.b == 0 && w.c == 0
    case TEST => Reg(p, w.b)
    case JMP | EQ | LT | LE => Reg(p, w.a)
    case _ => true
  }

  predicate IsTest(op: Op) {
    op == EQ || op == LT || op == LE || op == TEST || op == TESTSET || op == TFORLOOP
  }

  /** All values up to the top of the stack are the operands. */
  predicate OpenOperand(w: Word) {
    (w.op == CALL || w.op == TAILCALL || w.op == RETURN || w.op == SETLIST) && w.b == 0
  }

  /** The results of the instruction are all there are. */
  predicate OpenResults(w: Word) {
    ((w.op == CALL || w.op == TAILCALL) && w.c == 0) || (w.op == VARARG && w.b == 0)
  }

  /**
   * What an instruction names is there, control goes from it to instructions, a test is followed by its jump,
   * open results by an instruction that takes them, and there are extra arguments if they are asked for.
   */
  ghost predicate WellFormed(p: Proto, pc: int)
    requires 0 <= pc < |p.code|
  {
    var w := p.code[pc];
    && OperandsIn(p, pc) && FieldsOk(p, w)
    && (!UncheckedSkip(p, pc) ==> forall pc' | Steps(p, pc, pc') :: IsInstr(p.code, pc'))
    && (IsTest(w.op) ==> pc + 1 < |p.code| && p.code[pc+1].op == JMP)
    && (OpenResults(w) ==> pc + 1 < |p.code| && OpenOperand(p.code[pc+1]))
    && (w.op == VARARG ==> p.isVararg && !p.needsArg)
  }

  /**
   * What precheck asks: registers for the parameters, for `arg` if there is one, and no more than 250; upvalue
   * names and line information for all or for none; a return at the end.
   */
  predicate FrameOk(p: Proto) {
    && p.numparams + (if p.hasArg then 1 else 0) <= p.maxstacksize <= 250
    && (p.needsArg ==> p.hasArg)
    && p.sizeupvalues <= p.nups && (p.sizelineinfo == 0 || p.sizelineinfo == |p.code|)
    && p.code != [] && p.code[|p.code|-1].op == RETURN
  }

  lemma CheckedWellFormed(p: Proto, pc: nat)
    requires Accepts(p) && IsInstr(p.code, pc)
    ensures WellFormed(p, pc)
  {
    hide IsCount, Steps, OperandsIn;
    OperandsStay(p, pc);
    forall pc' | Steps(p, pc, pc') && !UncheckedSkip(p, pc) ensures IsInstr(p.code, pc') {
      StepStays(p, pc, pc');
    }
    assert Checked(p, pc);
  }

  /** Where control may go, asked of the positions themselves. */
  lemma Goes(p: Proto, pc: nat, pc': int)
    requires pc < |p.code| && WellFormed(p, pc) && !UncheckedSkip(p, pc) && Steps(p, pc, pc')
    ensures IsInstr(p.code, pc')
  {
    hide IsInstr, OperandsIn, FieldsOk, Steps;
  }

  /** The operands pass, whatever the format. */
  lemma FormatPasses(p: Proto, pc: nat)
    requires pc < |p.code| && OperandsIn(p, pc) && FieldsOk(p, p.code[pc])
    ensures !p.code[pc].op.Invalid? && CheckReg(p, p.code[pc].a) && FormatOk(p, p.code[pc])
  {
  }

  lemma LoadBoolPasses(p: Proto, pc: nat)
    requires PreCheck(p) && IsInstr(p.code, pc) && WellFormed(p, pc) && p.code[pc].op == LOADBOOL
    ensures OpOk(p, pc)
  {
    hide IsCount, OperandsIn, FieldsOk, PreCheck, WellFormed, SkipOk;
    if p.code[pc].c == 1 {
      Goes(p, pc, pc + 2);
      SkipStays(p, pc);
    }
  }

  lemma SetlistPasses(p: Proto, pc: nat)
    requires IsInstr(p.code, pc) && WellFormed(p, pc) && p.code[pc].op == SETLIST
    ensures OpOk(p, pc)
  {
    hide IsCount;
    if p.code[pc].c == 0 {
      Goes(p, pc, pc + 2);
    }
  }

  lemma ClosurePasses(p: Proto, pc: nat)
    requires IsInstr(p.code, pc) && WellFormed(p, pc) && p.code[pc].op == CLOSURE
    ensures OpOk(p, pc)
  {
    hide IsCount;
    Goes(p, pc, pc + 1 + p.p[Bx(p.code[pc])].nups);
  }

  lemma OtherPasses(p: Proto, pc: nat)
    requires pc < |p.code| && WellFormed(p, pc) && p.code[pc].op !in {LOADBOOL, SETLIST, CLOSURE}
    ensures OpOk(p, pc)
  {
    hide IsInstr, FieldsOk, Steps;
  }

  lemma WellFormedChecked(p: Proto, pc: nat)
    requires PreCheck(p) && IsInstr(p.code, pc) && WellFormed(p, pc)
    ensures Checked(p, pc)
  {
    hide IsCount, FieldsOk, PreCheck, OperandsIn, OpOk, FormatOk;
    FormatPasses(p, pc);
    var w := p.code[pc];
    if w.op == LOADBOOL { LoadBoolPasses(p, pc); }
    else if w.op == SETLIST { SetlistPasses(p, pc); }
    else if w.op == CLOSURE { ClosurePasses(p, pc); }
    else { OtherPasses(p, pc); }
    if GetOpMode(w.op) == IAsBx {
      Goes(p, pc, pc + 1 + SBx(w));
    }
    if TestTMode(w.op) {
      Goes(p, pc, pc + 2);
    }
  }

  /** luaG_checkcode accepts exactly the functions all of whose instructions are well formed. */
  lemma AcceptsExactly(p: Proto)
    ensures Accepts(p) <==> FrameOk(p) && forall pc | IsInstr(p.code, pc) :: WellFormed(p, pc)
  {
    hide IsCount, Checked, WellFormed;
    if Accepts(p) {
      forall pc | IsInstr(p.code, pc) ensures WellFormed(p, pc) {
        CheckedWellFormed(p, pc);
      }
    }
    if PreCheck(p) && forall pc | IsInstr(p.code, pc) :: WellFormed(p, pc) {
      forall pc | IsInstr(p.code, pc) ensures Checked(p, pc) {
        WellFormedChecked(p, pc);
      }
    }
  }
}
