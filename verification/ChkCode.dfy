/** The bytecode checker: precheck, checkArgMode and symbexec of ldebug.c, as luaG_checkcode calls them. */
module ChkCode {
  import opened ChkProto

  // ---------------------------------------------------------------- what is checked

  predicate PreCheck(p: Proto) {
    && p.maxstacksize <= MAXSTACK
    && p.numparams + (if p.hasArg then 1 else 0) <= p.maxstacksize
    && (p.needsArg ==> p.hasArg)
    && p.sizeupvalues <= p.nups
    && (p.sizelineinfo == |p.code| || p.sizelineinfo == 0)
    && 0 < |p.code| && p.code[|p.code|-1].op == RETURN
  }

  predicate CheckReg(p: Proto, r: int) {
    r < p.maxstacksize
  }

  predicate CheckArgMode(p: Proto, r: int, mode: ArgMode) {
    match mode
    case ArgN => r == 0
    case ArgU => true
    case ArgR => CheckReg(p, r)
    case ArgK => if r >= BITRK then r - BITRK < |p.k| else r < p.maxstacksize
  }

  predicate CheckOpenOp(w: Word) {
    w.op in {CALL, TAILCALL, RETURN, SETLIST} && w.b == 0
  }

  /** The operands that the format of an instruction has. */
  predicate FormatOk(p: Proto, w: Word) {
    match GetOpMode(w.op)
    case IABC => CheckArgMode(p, w.b, GetBMode(w.op)) && CheckArgMode(p, w.c, GetCMode(w.op))
    case IABx => GetBMode(w.op) == ArgK ==> Bx(w) < |p.k|
    case IAsBx => true
  }

  predicate SkipOk(p: Proto, pc: int)
    requires 0 <= pc
  {
    pc + 2 < |p.code| && !OpenSetlist(p.code[pc+1])
  }

  predicate CapturesOk(p: Proto, pc: int, nup: nat)
    requires 0 <= pc && pc + nup < |p.code|
  {
    forall i | pc < i <= pc + nup :: p.code[i].op in {GETUPVAL, MOVE}
  }

  /** The tests of the last switch of symbexec. */
  predicate OpOk(p: Proto, pc: int)
    requires 0 <= pc < |p.code|
  {
    var w := p.code[pc];
    match w.op
    case LOADBOOL => w.c == 1 ==> SkipOk(p, pc)
    case GETUPVAL | SETUPVAL => w.b < p.nups
    case GETGLOBAL | SETGLOBAL => StringK(p, Bx(w))
    case SELF => CheckReg(p, w.a + 1)
    case CONCAT => w.b < w.c
    case TFORLOOP => 1 <= w.c && CheckReg(p, w.a + 2 + w.c)
    case FORLOOP | FORPREP => CheckReg(p, w.a + 3)
    case CALL | TAILCALL =>
      && (w.b != 0 ==> CheckReg(p, w.a + w.b - 1))
      && (w.c == 0 ==> pc + 1 < |p.code| && CheckOpenOp(p.code[pc+1]))
      && (w.c > 1 ==> CheckReg(p, w.a + w.c - 2))
    case RETURN => w.b > 1 ==> CheckReg(p, w.a + w.b - 2)
    case SETLIST => (w.b > 0 ==> CheckReg(p, w.a + w.b)) && (w.c == 0 ==> pc + 1 < |p.code| - 1)
    case CLOSURE => Bx(w) < |p.p| && pc + p.p[Bx(w)].nups < |p.code| && CapturesOk(p, pc, p.p[Bx(w)].nups)
    case VARARG =>
      && p.isVararg && !p.needsArg
      && (w.b == 0 ==> pc + 1 < |p.code| && CheckOpenOp(p.code[pc+1]))
      && CheckReg(p, w.a + w.b - 2)
    case _ => true
  }

  /** All that symbexec checks at an instruction: a jump goes to an instruction, not to a count. */
  ghost predicate Checked(p: Proto, pc: int)
    requires 0 <= pc < |p.code|
  {
    var w := p.code[pc];
    && !w.op.Invalid? && CheckReg(p, w.a) && FormatOk(p, w)
    && (GetOpMode(w.op) == IAsBx ==> IsInstr(p.code, pc + 1 + SBx(w)))
    && (TestTMode(w.op) ==> pc + 2 < |p.code| && p.code[pc+1].op == JMP)
    && OpOk(p, pc)
  }

  ghost predicate Accepts(p: Proto) {
    PreCheck(p) && forall pc | IsInstr(p.code, pc) :: Checked(p, pc)
  }

  // ---------------------------------------------------------------- the parity of the words that look like SETLIST

  /** `j` words in front of `dest` look like a SETLIST with a count, and the one in front of them does not. */
  ghost predicate LookAlikes(code: seq<Word>, dest: nat, j: nat)
    requires dest < |code|
  {
    && j <= dest
    && (forall i | dest - j <= i < dest :: OpenSetlist(code[i]))
    && (j < dest ==> !OpenSetlist(code[dest-j-1]))
  }

  /** From an instruction on, every second word of a row of such words is a count. */
  lemma {:induction false} Alternate(code: seq<Word>, start: nat, t: nat)
    requires start + t < |code| && !IsCount(code, start) && forall i | start <= i < start + t :: OpenSetlist(code[i])
    ensures IsCount(code, start + t) <==> t % 2 == 1
  {
    if t > 0 { Alternate(code, start, t - 1); }
  }

  lemma Parity(code: seq<Word>, dest: nat, j: nat)
    requires dest < |code| && LookAlikes(code, dest, j)
    ensures !IsCount(code, dest) <==> j % 2 == 0
  {
    assert !IsCount(code, dest - j);
    Alternate(code, dest - j, j);
  }

  /** The test of a jump in symbexec: it finds out, from the words in front, whether the target is a count. */
  method CheckDest(p: Proto, pc: nat, sbx: int) returns (ok: bool)
    requires pc < |p.code|
    ensures ok <==> IsInstr(p.code, pc + 1 + sbx)
  {
    var dest := pc + 1 + sbx;
    if !(0 <= dest < |p.code|) {
      return false;
    }
    ok := true;
    if dest > 0 {
      var j: nat := 0;
      while j < dest
        invariant j <= dest && forall i | dest - j <= i < dest :: OpenSetlist(p.code[i])
      {
        var d := p.code[dest-1-j];
        if !(d.op == SETLIST && d.c == 0) {
          break;
        }
        j := j + 1;
      }
      Parity(p.code, dest, j);
      ok := j % 2 == 0;
    }
  }

  // ---------------------------------------------------------------- symbexec

  method CheckCaptures(p: Proto, pc: nat, nup: nat) returns (ok: bool)
    requires pc + nup < |p.code|
    ensures ok <==> CapturesOk(p, pc, nup)
  {
    var j := 1;
    while j <= nup
      invariant 1 <= j <= nup + 1 && forall i | pc < i < pc + j :: p.code[i].op in {GETUPVAL, MOVE}
    {
      var op1 := p.code[pc+j].op;
      if !(op1 == GETUPVAL || op1 == MOVE) {
        return false;
      }
      j := j + 1;
    }
    ok := true;
  }

  /** The checks that a turn of symbexec makes before it looks at the single opcode. */
  method CheckFormat(p: Proto, pc: nat) returns (ok: bool)
    requires pc < |p.code|
    ensures ok <==>
              var w := p.code[pc];
              && !w.op.Invalid? && CheckReg(p, w.a) && FormatOk(p, w)
              && (GetOpMode(w.op) == IAsBx ==> IsInstr(p.code, pc + 1 + SBx(w)))
              && (TestTMode(w.op) ==> pc + 2 < |p.code| && p.code[pc+1].op == JMP)
  {
    hide IsCount;
    var w := p.code[pc];
    if w.op.Invalid? || !CheckReg(p, w.a) {
      return false;
    }
    if GetOpMode(w.op) == IABC {
      if !CheckArgMode(p, w.b, GetBMode(w.op)) || !CheckArgMode(p, w.c, GetCMode(w.op)) {
        return false;
      }
    } else if GetOpMode(w.op) == IABx {
      if GetBMode(w.op) == ArgK && !(Bx(w) < |p.k|) {
        return false;
      }
    } else if GetBMode(w.op) == ArgR {
      var inside := CheckDest(p, pc, SBx(w));
      if !inside {
        return false;
      }
    }
    if TestTMode(w.op) {
      if !(pc + 2 < |p.code|) || p.code[pc+1].op != JMP {
        return false;
      }
    }
    ok := true;
  }

  /** The switch over the opcodes. */
  method CheckOp(p: Proto, pc: nat) returns (ok: bool)
    requires pc < |p.code| && PreCheck(p) && (p.code[pc].op in {GETGLOBAL, SETGLOBAL} ==> Bx(p.code[pc]) < |p.k|)
    ensures ok <==> OpOk(p, pc)
  {
    hide CapturesOk, CheckOpenOp;
    var w := p.code[pc];
    var a, b, c := w.a, w.b, w.c;
    ok := true;
    if w.op == LOADBOOL {
      if c == 1 {
        ok := pc + 2 < |p.code| && (p.code[pc+1].op != SETLIST || p.code[pc+1].c != 0);
      }
    } else if w.op == GETUPVAL || w.op == SETUPVAL {
      ok := b < p.nups;
    } else if w.op == GETGLOBAL || w.op == SETGLOBAL {
      ok := p.k[Bx(w)] == Str;
    } else if w.op == SELF {
      ok := CheckReg(p, a + 1);
    } else if w.op == CONCAT {
      ok := b < c;
    } else if w.op == TFORLOOP {
      ok := c >= 1 && CheckReg(p, a + 2 + c);
    } else if w.op == FORLOOP || w.op == FORPREP {
      ok := CheckReg(p, a + 3);
    } else if w.op == CALL || w.op == TAILCALL {
      if b != 0 && !CheckReg(p, a + b - 1) {
        return false;
      }
      if c - 1 == -1 {
        ok := CheckOpenOp(p.code[pc+1]);
      } else if c - 1 != 0 {
        ok := CheckReg(p, a + (c - 1) - 1);
      }
    } else if w.op == RETURN {
      ok := b - 1 > 0 ==> CheckReg(p, a + (b - 1) - 1);
    } else if w.op == SETLIST {
      if b > 0 && !CheckReg(p, a + b) {
        return false;
      }
      ok := c == 0 ==> pc + 1 < |p.code| - 1;
    } else if w.op == CLOSURE {
      if !(Bx(w) < |p.p|) || !(pc + p.p[Bx(w)].nups < |p.code|) {
        return false;
      }
      ok := CheckCaptures(p, pc, p.p[Bx(w)].nups);
    } else if w.op == VARARG {
      if !(p.isVararg && !p.needsArg) {
        return false;
      }
      if b - 1 == -1 && !CheckOpenOp(p.code[pc+1]) {
        return false;
      }
      ok := CheckReg(p, a + (b - 1) - 1);
    }
  }

  /** luaG_checkcode: symbexec over all the code, without tracing a register. */
  method CheckCode(p: Proto) returns (ok: bool)
    ensures ok <==> Accepts(p)
  {
    hide IsCount, OpOk, FormatOk;
    if !PreCheck(p) {
      return false;
    }
    var pc: nat := 0;
    Start(p.code);
    while pc < |p.code|
      invariant pc <= |p.code| && (pc < |p.code| ==> IsInstr(p.code, pc))
      invariant forall i | i < pc && IsInstr(p.code, i) :: Checked(p, i)
    {
      ok := CheckFormat(p, pc);
      if !ok {
        return;
      }
      GlobalName(p, p.code[pc]);
      ok := CheckOp(p, pc);
      if !ok {
        return;
      }
      AfterInstr(p, pc);
      if OpenSetlist(p.code[pc]) {
        pc := pc + 1;
      }
      pc := pc + 1;
    }
    ok := true;
  }

  lemma GlobalName(p: Proto, w: Word)
    requires FormatOk(p, w)
    ensures w.op in {GETGLOBAL, SETGLOBAL} ==> Bx(w) < |p.k|
  {
  }

  lemma Start(code: seq<Word>)
    requires 0 < |code|
    ensures IsInstr(code, 0)
  {
  }

  /** What follows an instruction is an instruction, or a count and then an instruction. */
  lemma AfterInstr(p: Proto, pc: nat)
    requires PreCheck(p) && IsInstr(p.code, pc) && OpOk(p, pc)
    ensures OpenSetlist(p.code[pc]) ==> IsInstr(p.code, pc + 2) && IsCount(p.code, pc + 1)
    ensures !OpenSetlist(p.code[pc]) && pc + 1 < |p.code| ==> IsInstr(p.code, pc + 1)
  {
    assert OpenSetlist(p.code[pc]) ==> pc + 2 < |p.code|;
  }
}
