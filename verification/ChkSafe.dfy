/** What luaG_checkcode promises of the code it accepts. */
module ChkSafe {
  import opened ChkProto
  import opened ChkCode

  /** A LOADBOOL whose C operand is neither 0 nor 1: the interpreter skips, the checker does not look. */
  predicate UncheckedSkip(p: Proto, pc: int)
    requires 0 <= pc < |p.code|
  {
    p.code[pc].op == LOADBOOL && p.code[pc].c > 1
  }

  /** The code generator emits only 0 and 1. */
  ghost predicate PlainLoadBools(p: Proto) {
    forall pc | IsInstr(p.code, pc) :: !UncheckedSkip(p, pc)
  }

  /** Control goes from instructions to instructions only. */
  ghost predicate Closed(p: Proto) {
    forall pc, pc' | IsInstr(p.code, pc) && Steps(p, pc, pc') :: IsInstr(p.code, pc')
  }

  /** A run from the first instruction on, as far as control goes. */
  ghost predicate IsRun(p: Proto, run: seq<int>) {
    && 0 < |run| && run[0] == 0
    && forall i: nat | i + 1 < |run| :: StepsFrom(p, run[i], run[i+1])
  }

  ghost predicate StepsFrom(p: Proto, pc: int, pc': int) {
    0 <= pc < |p.code| && Steps(p, pc, pc')
  }

  /** The return at the end: an instruction that goes on is not the last word. */
  lemma NotLast(p: Proto, pc: int)
    requires PreCheck(p) && 0 <= pc < |p.code| && p.code[pc].op != RETURN
    ensures pc + 1 < |p.code|
  {
  }

  lemma FallsThrough(p: Proto, pc: int)
    requires PreCheck(p) && IsInstr(p.code, pc) && p.code[pc].op != RETURN && !OpenSetlist(p.code[pc])
    ensures IsInstr(p.code, pc + 1)
  {
    NotLast(p, pc);
  }

  /** The words behind a CLOSURE are instructions, and so is the one behind them. */
  lemma {:induction false} BehindCaptures(p: Proto, pc: nat, nup: nat, j: nat)
    requires PreCheck(p) && IsInstr(p.code, pc) && p.code[pc].op == CLOSURE
    requires pc + nup < |p.code| && CapturesOk(p, pc, nup) && j <= nup
    ensures IsInstr(p.code, pc + 1 + j)
  {
    hide IsCount;
    if j == 0 {
      FallsThrough(p, pc);
    } else {
      BehindCaptures(p, pc, nup, j - 1);
      assert p.code[pc+j].op in {GETUPVAL, MOVE};
      FallsThrough(p, pc + j);
    }
  }

  /** A test is followed by a jump, which is an instruction, and so is the word behind the jump. */
  lemma BehindTest(p: Proto, pc: nat)
    requires Accepts(p) && IsInstr(p.code, pc) && TestTMode(p.code[pc].op)
    ensures pc + 2 < |p.code| && IsInstr(p.code, pc + 2) && IsInstr(p.code, pc + 2 + SBx(p.code[pc+1]))
  {
    hide IsCount, OpOk, FormatOk;
    assert Checked(p, pc);
    FallsThrough(p, pc);
    FallsThrough(p, pc + 1);
    assert Checked(p, pc + 1);
  }

  lemma JumpStays(p: Proto, pc: nat, pc': int)
    requires Accepts(p) && IsInstr(p.code, pc) && Steps(p, pc, pc') && GetOpMode(p.code[pc].op) == IAsBx
    ensures IsInstr(p.code, pc')
  {
    hide IsCount, OpOk, FormatOk;
    assert Checked(p, pc);
    FallsThrough(p, pc);
  }

  lemma OpChecked(p: Proto, pc: nat)
    requires Accepts(p) && IsInstr(p.code, pc)
    ensures PreCheck(p) && OpOk(p, pc)
  {
    hide IsCount, OpOk, FormatOk;
    assert Checked(p, pc);
  }

  /** Where control goes from an instruction of accepted code, unless the checker has not looked at its skip. */
  lemma StepStays(p: Proto, pc: nat, pc': int)
    requires Accepts(p) && IsInstr(p.code, pc) && Steps(p, pc, pc') && !UncheckedSkip(p, pc)
    ensures IsInstr(p.code, pc')
  {
    hide IsCount, FormatOk, Accepts, PreCheck;
    OpChecked(p, pc);
    var w := p.code[pc];
    if TestTMode(w.op) {
      hide OpOk;
      BehindTest(p, pc);
    } else if GetOpMode(w.op) == IAsBx {
      hide OpOk;
      JumpStays(p, pc, pc');
    } else if w.op == CLOSURE {
      BehindCaptures(p, pc, p.p[Bx(w)].nups, p.p[Bx(w)].nups);
    } else if w.op == SETLIST {
      AfterInstr(p, pc);
      NotLast(p, pc);
    } else if w.op == LOADBOOL && w.c == 1 {
      SkipStays(p, pc);
    } else if w.op != RETURN {
      hide OpOk;
      FallsThrough(p, pc);
    }
  }

  /** A skip of LOADBOOL is safe exactly if the word it skips is no SETLIST with a count, and not the last. */
  lemma SkipStays(p: Proto, pc: nat)
    requires PreCheck(p) && IsInstr(p.code, pc) && p.code[pc].op == LOADBOOL
    ensures IsInstr(p.code, pc + 2) <==> SkipOk(p, pc)
  {
    FallsThrough(p, pc);
  }

  /**
   * Control stays on the instructions of accepted code exactly if the skips that the checker does not
   * look at, those of a LOADBOOL with a C operand above 1, meet the test it makes of the others.
   */
  lemma ClosedExactly(p: Proto)
    requires Accepts(p)
    ensures Closed(p) <==> forall pc | IsInstr(p.code, pc) && UncheckedSkip(p, pc) :: SkipOk(p, pc)
  {
    hide IsCount, Checked, PreCheck, SkipOk;
    forall pc, pc' | IsInstr(p.code, pc) && Steps(p, pc, pc') && (UncheckedSkip(p, pc) ==> SkipOk(p, pc)) ensures IsInstr(p.code, pc') {
      if UncheckedSkip(p, pc) {
        SkipStays(p, pc);
      } else {
        StepStays(p, pc, pc');
      }
    }
    forall pc | Closed(p) && IsInstr(p.code, pc) && UncheckedSkip(p, pc) ensures SkipOk(p, pc) {
      assert Steps(p, pc, pc + 2);
      SkipStays(p, pc);
    }
  }

  /** What an accepted instruction names is there. */
  lemma OperandsStay(p: Proto, pc: nat)
    requires Accepts(p) && IsInstr(p.code, pc)
    ensures OperandsIn(p, pc)
  {
    hide IsCount;
    assert Checked(p, pc);
    if p.code[pc].op == CLOSURE {
      hide OperandsIn;
      CapturesStay(p, pc, p.p[Bx(p.code[pc])].nups);
    }
  }

  lemma CapturesStay(p: Proto, pc: nat, nup: nat)
    requires Accepts(p) && IsInstr(p.code, pc) && p.code[pc].op == CLOSURE
    requires pc + nup < |p.code| && CapturesOk(p, pc, nup)
    ensures Captures(p, pc, nup)
  {
    hide IsCount;
    forall i | pc < i <= pc + nup ensures 0 <= i < |p.code| && Capture(p, p.code[i]) {
      BehindCaptures(p, pc, nup, i - pc - 1);
      assert Checked(p, i);
    }
  }

  /**
   * Accepted code, with the LOADBOOLs that the code generator emits: no run leaves the code or reaches the
   * count of a SETLIST, and every instruction it reaches names registers, constants, upvalues and
   * prototypes that are there.
   */
  lemma {:induction false} RunsStay(p: Proto, run: seq<int>, i: nat)
    requires Accepts(p) && PlainLoadBools(p) && IsRun(p, run) && i < |run|
    ensures IsInstr(p.code, run[i]) && OperandsIn(p, run[i])
  {
    hide IsCount, Checked, OperandsIn, Steps;
    if i > 0 {
      RunsStay(p, run, i - 1);
      assert StepsFrom(p, run[i-1], run[i-1+1]);
      StepStays(p, run[i-1], run[i]);
    } else {
      Start(p.code);
    }
    OperandsStay(p, run[i]);
  }

  /** A LOADBOOL that skips with C = 2, in front of the return at the end. */
  function SkipsOut(): Proto {
    Proto([Word(LOADBOOL, 0, 0, 2), Word(RETURN, 0, 1, 0)], [], [], 0, false, false, false, 2, 0, 0, 0)
  }

  /** It is accepted, and its run leaves the code. */
  lemma SkipsOutOfTheCode()
    ensures Accepts(SkipsOut()) && IsRun(SkipsOut(), [0, 2]) && !IsInstr(SkipsOut().code, 2)
  {
    var p := SkipsOut();
    assert Checked(p, 0) && Checked(p, 1);
    forall i: nat | i + 1 < |[0, 2]| ensures StepsFrom(p, [0, 2][i], [0, 2][i+1]) {
      assert i == 0;
    }
  }
}
