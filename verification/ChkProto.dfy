/** Function prototypes as the bytecode checker (ldebug.c) and the interpreter (lvm.c) see them. */
module ChkProto {

  datatype Op =
      MOVE | LOADK | LOADBOOL | LOADNIL | GETUPVAL | GETGLOBAL | GETTABLE | SETGLOBAL | SETUPVAL | SETTABLE | NEWTABLE
    | SELF | ADD | SUB | MUL | DIV | MOD | POW | UNM | NOT | LEN | CONCAT | JMP | EQ | LT | LE | TEST | TESTSET
    | CALL | TAILCALL | RETURN | FORLOOP | FORPREP | TFORLOOP | SETLIST | CLOSE | CLOSURE | VARARG
    | Invalid(code: int)

  type Arg8 = x: int | 0 <= x < 256
  type Arg9 = x: int | 0 <= x < 512

  /** An instruction word with its fields of 6, 8, 9 and 9 bits; Bx is made of B and C. */
  datatype Word = Word(op: Op, a: Arg8, b: Arg9, c: Arg9)

  const BITRK: int := 256
  const MAXARG_SBX: int := 131071
  const MAXSTACK: int := 250

  function Bx(w: Word): nat {
    w.b * 512 + w.c
  }

  function SBx(w: Word): int {
    Bx(w) - MAXARG_SBX
  }

  /** A constant, of which the checker asks only whether it is a string. */
  datatype Constant = Str | NoStr

  datatype Proto = Proto(code: seq<Word>, k: seq<Constant>, p: seq<Proto>, numparams: nat,
                         hasArg: bool, isVararg: bool, needsArg: bool, maxstacksize: nat,
                         nups: nat, sizeupvalues: nat, sizelineinfo: nat)

  // ---------------------------------------------------------------- luaP_opmodes

  datatype OpMode = IABC | IABx | IAsBx
  datatype ArgMode = ArgN | ArgU | ArgR | ArgK

  function GetOpMode(op: Op): OpMode {
    match op
    case LOADK | GETGLOBAL | SETGLOBAL | CLOSURE => IABx
    case JMP | FORLOOP | FORPREP => IAsBx
    case _ => IABC
  }

  function GetBMode(op: Op): ArgMode {
    match op
    case MOVE | LOADNIL | GETTABLE | SELF | UNM | NOT | LEN | CONCAT | JMP | TEST | TESTSET | FORLOOP | FORPREP => ArgR
    case LOADK | GETGLOBAL | SETGLOBAL | SETTABLE | ADD | SUB | MUL | DIV | MOD | POW | EQ | LT | LE => ArgK
    case TFORLOOP | CLOSE => ArgN
    case _ => ArgU
  }

  function GetCMode(op: Op): ArgMode {
    match op
    case CONCAT => ArgR
    case GETTABLE | SETTABLE | SELF | ADD | SUB | MUL | DIV | MOD | POW | EQ | LT | LE => ArgK
    case LOADBOOL | NEWTABLE | TEST | TESTSET | CALL | TAILCALL | TFORLOOP | SETLIST => ArgU
    case _ => ArgN
  }

  predicate TestTMode(op: Op) {
    op in {EQ, LT, LE, TEST, TESTSET, TFORLOOP}
  }

  // ---------------------------------------------------------------- the words that are no instructions

  /** A SETLIST whose count is the next word. */
  predicate OpenSetlist(w: Word) {
    w.op == SETLIST && w.c == 0
  }

  /** The word is the count of the SETLIST in front of it. */
  ghost predicate IsCount(code: seq<Word>, pc: nat)
    requires pc < |code|
  {
    pc > 0 && OpenSetlist(code[pc-1]) && !IsCount(code, pc - 1)
  }

  ghost predicate IsInstr(code: seq<Word>, pc: int) {
    0 <= pc < |code| && !IsCount(code, pc)
  }

  // ---------------------------------------------------------------- what the interpreter does

  /** Where luaV_execute may go from an instruction; a call comes back to the next one, a return ends. */
  ghost predicate Steps(p: Proto, pc: int, pc': int)
    requires 0 <= pc < |p.code|
  {
    var w := p.code[pc];
    match w.op
    case LOADBOOL => pc' == if w.c != 0 then pc + 2 else pc + 1
    case JMP | FORPREP => pc' == pc + 1 + SBx(w)
    case FORLOOP => pc' == pc + 1 || pc' == pc + 1 + SBx(w)
    case EQ | LT | LE | TEST | TESTSET | TFORLOOP =>
      pc' == pc + 2 || (pc + 1 < |p.code| && pc' == pc + 2 + SBx(p.code[pc+1]))
    case RETURN => false
    case SETLIST => pc' == if w.c == 0 then pc + 2 else pc + 1
    case CLOSURE => pc' == pc + 1 + if Bx(w) < |p.p| then p.p[Bx(w)].nups else 0
    case _ => pc' == pc + 1
  }

  predicate Reg(p: Proto, r: int) {
    0 <= r < p.maxstacksize
  }

  /** The registers from `r` on, as many as `n` says. */
  predicate Regs(p: Proto, r: int, n: int) {
    n > 0 ==> Reg(p, r) && Reg(p, r + n - 1)
  }

  predicate RK(p: Proto, x: int) {
    if x >= BITRK then x - BITRK < |p.k| else Reg(p, x)
  }

  predicate StringK(p: Proto, i: int) {
    0 <= i < |p.k| && p.k[i] == Str
  }

  /** What the instruction names is there: registers, constants, upvalues, prototypes. */
  ghost predicate OperandsIn(p: Proto, pc: int)
    requires 0 <= pc < |p.code|
  {
    var w := p.code[pc];
    match w.op
    case MOVE | UNM | NOT | LEN | TESTSET => Reg(p, w.a) && Reg(p, w.b)
    case LOADK => Reg(p, w.a) && Bx(w) < |p.k|
    case LOADBOOL | NEWTABLE | TEST | CLOSE => Reg(p, w.a)
    case LOADNIL => Reg(p, w.a) && Reg(p, w.b)
    case GETUPVAL | SETUPVAL => Reg(p, w.a) && w.b < p.nups
    case GETGLOBAL | SETGLOBAL => Reg(p, w.a) && StringK(p, Bx(w))
    case GETTABLE => Reg(p, w.a) && Reg(p, w.b) && RK(p, w.c)
    case SETTABLE | ADD | SUB | MUL | DIV | MOD | POW => Reg(p, w.a) && RK(p, w.b) && RK(p, w.c)
    case SELF => Regs(p, w.a, 2) && Reg(p, w.b) && RK(p, w.c)
    case CONCAT => Reg(p, w.a) && w.b < w.c && Regs(p, w.b, w.c - w.b + 1)
    case JMP => true
    case EQ | LT | LE => RK(p, w.b) && RK(p, w.c)
    case CALL | TAILCALL => Reg(p, w.a) && Regs(p, w.a, w.b) && Regs(p, w.a, w.c - 1)
    case RETURN => Reg(p, w.a) && Regs(p, w.a, w.b - 1)
    case FORLOOP | FORPREP => Regs(p, w.a, 4)
    case TFORLOOP => 1 <= w.c && Regs(p, w.a, 3 + w.c)
    case SETLIST => Reg(p, w.a) && Regs(p, w.a + 1, w.b)
    case CLOSURE => Reg(p, w.a) && Bx(w) < |p.p| && Captures(p, pc, p.p[Bx(w)].nups)
    case VARARG => Reg(p, w.a) && Regs(p, w.a, w.b - 1)
    case Invalid(_) => false
  }

  /** The words behind a CLOSURE name registers and upvalues of the enclosing function. */
  ghost predicate Captures(p: Proto, pc: int, nup: nat) {
    forall i | pc < i <= pc + nup :: 0 <= i < |p.code| && Capture(p, p.code[i])
  }

  ghost predicate Capture(p: Proto, w: Word) {
    if w.op == GETUPVAL then w.b < p.nups else w.op == MOVE && Reg(p, w.b)
  }
}
