/** The format of precompiled functions, byte by byte: the header, the instruction words, and one function in full. */
module DmpLayout {
  import opened DmpBytes
  import opened DmpFormat
  import C = ChkProto
  import opened Wrappers

  // ---------------------------------------------------------------- the header

  /** The signature `\27Lua`, version 5.1, format 0, little-endian, and the sizes of int, size_t, instruction and number. */
  predicate IsHeader(h: Bytes) {
    && |h| == 12 && h[0] == 27 && h[1] == 'L' as int && h[2] == 'u' as int && h[3] == 'a' as int
    && h[4] == 5 * 16 + 1 && h[5] == 0 && h[6] == 1
    && h[7] == 4 && h[8] == 8 && h[9] == 4 && h[10] == 8 && h[11] == 1
  }

  /** A chunk whose header differs anywhere is refused; behind the header it is read as a function called `=?`. */
  lemma HeaderDecides(s: Bytes, d: nat)
    ensures Undump(s, d) == if 12 <= |s| && IsHeader(s[..12]) then GetFunction(s[12..], Some(['=' as int, '?' as int]), d) else None
  {
    hide GetFunction;
    if 12 <= |s| && IsHeader(s[..12]) {
      assert s[..12] == HEADER;
    }
  }

  // ---------------------------------------------------------------- instruction words

  /** luaP_opnames. */
  const OPNAMES: seq<string> := [
    "MOVE", "LOADK", "LOADBOOL", "LOADNIL", "GETUPVAL", "GETGLOBAL", "GETTABLE", "SETGLOBAL", "SETUPVAL", "SETTABLE",
    "NEWTABLE", "SELF", "ADD", "SUB", "MUL", "DIV", "MOD", "POW", "UNM", "NOT", "LEN", "CONCAT", "JMP", "EQ", "LT", "LE",
    "TEST", "TESTSET", "CALL", "TAILCALL", "RETURN", "FORLOOP", "FORPREP", "TFORLOOP", "SETLIST", "CLOSE", "CLOSURE",
    "VARARG"]

  function NameOf(op: C.Op): string {
    match op
    case MOVE => "MOVE" case LOADK => "LOADK" case LOADBOOL => "LOADBOOL" case LOADNIL => "LOADNIL"
    case GETUPVAL => "GETUPVAL" case GETGLOBAL => "GETGLOBAL" case GETTABLE => "GETTABLE" case SETGLOBAL => "SETGLOBAL"
    case SETUPVAL => "SETUPVAL" case SETTABLE => "SETTABLE" case NEWTABLE => "NEWTABLE" case SELF => "SELF"
    case ADD => "ADD" case SUB => "SUB" case MUL => "MUL" case DIV => "DIV" case MOD => "MOD" case POW => "POW"
    case UNM => "UNM" case NOT => "NOT" case LEN => "LEN" case CONCAT => "CONCAT" case JMP => "JMP"
    case EQ => "EQ" case LT => "LT" case LE => "LE" case TEST => "TEST" case TESTSET => "TESTSET"
    case CALL => "CALL" case TAILCALL => "TAILCALL" case RETURN => "RETURN" case FORLOOP => "FORLOOP"
    case FORPREP => "FORPREP" case TFORLOOP => "TFORLOOP" case SETLIST => "SETLIST" case CLOSE => "CLOSE"
    case CLOSURE => "CLOSURE" case VARARG => "VARARG" case Invalid(_) => ""
  }

  /** The opcodes are numbered in the order of their names, and there are no others. */
  lemma OpcodeOrder(n: nat)
    ensures if n < |OPNAMES| then NameOf(OpOf(n)) == OPNAMES[n] else OpOf(n) == C.Invalid(n)
  {
    hide NameOf, OpOf;
    if n < 19 {
      FirstOpcodes(n);
    } else {
      LastOpcodes(n);
    }
  }

  lemma FirstOpcodes(n: nat)
    requires n < 19
    ensures NameOf(OpOf(n)) == OPNAMES[n]
  {
  }

  lemma LastOpcodes(n: nat)
    requires 19 <= n
    ensures if n < |OPNAMES| then NameOf(OpOf(n)) == OPNAMES[n] else OpOf(n) == C.Invalid(n)
  {
  }

  /** From the lowest bit on: 6 bits of opcode, 8 of A, 9 of C, 9 of B; Bx takes the place of both, and sBx is Bx less half of its range. */
  lemma Fields(i: U32)
    ensures var w := Decode(i);
            && w.op == OpOf(i % 64)
            && i == i % 64 + 64 * w.a + 64 * 256 * w.c + 64 * 256 * 512 * w.b
            && C.Bx(w) == i / (64 * 256) && C.SBx(w) == i / (64 * 256) - 131071
  {
    var a, b := i / 64, i / 64 / 256;
    assert i / 0x4000 == b && i / 0x80_0000 == b / 512;
  }

  // ---------------------------------------------------------------- one function in full

  const NAME: TString := Some([64, 97])

  /** A function inside the next one, with the same source name. */
  function InnerSample(): Proto {
    Proto(NAME, 7, 8, 1, 2, 0, 3, [0x80_001E], [], [], [], [], [])
  }

  function Sample(): Proto {
    Proto(NAME, 1, 2, 3, 4, 5, 6, [0x0102_0304], [Nil, Boolean(true), Number(-2), String(Some([107]))], [InnerSample()],
          [9], [LocVar(Some([120]), 10, 11)], [Some([117])])
  }

  /** The source name, both lines, and the four bytes. */
  const HEAD: Bytes := [3, 0, 0, 0, 0, 0, 0, 0, 64, 97, 0] + [1, 0, 0, 0] + [2, 0, 0, 0] + [3, 4, 5, 6]
  const CODE: Bytes := [1, 0, 0, 0] + [4, 3, 2, 1]
  const CONSTANTS: Bytes :=
    [4, 0, 0, 0] + [0] + [1, 1] + [3, 254, 255, 255, 255, 255, 255, 255, 255] + [4, 2, 0, 0, 0, 0, 0, 0, 0, 107, 0]
  /** No source name of its own, lines, bytes, code, no constants and functions, no debug information. */
  const INNER: Bytes :=
    [0, 0, 0, 0, 0, 0, 0, 0] + [7, 0, 0, 0] + [8, 0, 0, 0] + [1, 2, 0, 3] + [1, 0, 0, 0] + [30, 0, 128, 0] +
    [0, 0, 0, 0] + [0, 0, 0, 0] + [0, 0, 0, 0] + [0, 0, 0, 0] + [0, 0, 0, 0]
  const LINES: Bytes := [1, 0, 0, 0] + [9, 0, 0, 0]
  const LOCALS: Bytes := [1, 0, 0, 0] + [2, 0, 0, 0, 0, 0, 0, 0, 120, 0] + [10, 0, 0, 0] + [11, 0, 0, 0]
  const NAMES: Bytes := [1, 0, 0, 0] + [2, 0, 0, 0, 0, 0, 0, 0, 117, 0]

  lemma Words32(x: nat)
    requires x < 256
    ensures PutInt32(x) == [x, 0, 0, 0] && PutLong(x) == [x, 0, 0, 0, 0, 0, 0, 0]
  {
    Zeros();
    assert Little(4, x) == [x] + Little(3, 0);
    assert Little(8, x) == [x] + Little(7, 0);
  }

  lemma Zeros()
    ensures Little(3, 0) == [0, 0, 0] && Little(7, 0) == [0, 0, 0, 0, 0, 0, 0]
  {
    assert Little(2, 0) == [0, 0];
    assert Little(4, 0) == [0] + Little(3, 0);
    assert Little(5, 0) == [0] + Little(4, 0);
    assert Little(6, 0) == [0] + Little(5, 0);
  }

  lemma SampleHead(f: Proto)
    requires f == Sample()
    ensures PutHead(NAME, f) == HEAD
  {
    hide PutInt32, PutLong;
    Words32(3);
    Words32(1);
    Words32(2);
    assert PutString(NAME) == [3, 0, 0, 0, 0, 0, 0, 0] + ([64, 97] + [0]);
    assert [f.nups] + ([f.numparams] + ([f.isVararg] + [f.maxstacksize])) == [3, 4, 5, 6];
  }

  lemma OneElement<T>(x: T, put: T -> Bytes)
    ensures PutVector([x], put) == PutInt32(1) + put(x)
  {
    assert [x][1..] == [];
    assert PutAll([x], put) == put(x) + PutAll([x][1..], put);
  }

  lemma NoElements<T>(put: T -> Bytes)
    ensures PutVector([], put) == PutInt32(0)
  {
  }

  lemma LittleStep(n: nat, low: nat, high: nat)
    requires low < 256
    ensures Little(n + 1, low + 256 * high) == [low] + Little(n, high)
  {
  }

  lemma WordBytes(a: nat, b: nat, c: nat, d: nat)
    requires a < 256 && b < 256 && c < 256 && d < 256
    ensures Little(4, a + 256 * (b + 256 * (c + 256 * d))) == [a, b, c, d]
  {
    hide Little;
    LittleStep(0, d, 0);
    LittleStep(1, c, d);
    LittleStep(2, b, c + 256 * d);
    LittleStep(3, a, b + 256 * (c + 256 * d));
    assert Little(0, 0) == [];
  }

  lemma SampleWords()
    ensures PutU32(0x0102_0304) == [4, 3, 2, 1] && PutU32(0x80_001E) == [30, 0, 128, 0]
  {
    hide Little;
    WordBytes(4, 3, 2, 1);
    WordBytes(30, 0, 128, 0);
  }

  lemma SampleCode()
    ensures PutVector(Sample().code, PutU32) == CODE && PutVector(InnerSample().code, PutU32) == [1, 0, 0, 0] + [30, 0, 128, 0]
  {
    hide PutInt32, PutVector, PutU32;
    Words32(1);
    SampleWords();
    OneElement<U32>(0x0102_0304, PutU32);
    OneElement<U32>(0x80_001E, PutU32);
  }

  lemma MinusTwo()
    ensures PutLong(-2) == [254, 255, 255, 255, 255, 255, 255, 255]
  {
    hide Little;
    WordBytes(255, 255, 255, 255);
    LittleStep(4, 255, 0xFFFF_FFFF);
    LittleStep(5, 255, 0xFF_FFFF_FFFF);
    LittleStep(6, 255, 0xFFFF_FFFF_FFFF);
    LittleStep(7, 254, 0xFF_FFFF_FFFF_FFFF);
  }

  lemma EachConstant()
    ensures PutConstant(Nil) == [0] && PutConstant(Boolean(true)) == [1, 1]
    ensures PutConstant(Number(-2)) == [3, 254, 255, 255, 255, 255, 255, 255, 255]
    ensures PutConstant(String(Some([107]))) == [4, 2, 0, 0, 0, 0, 0, 0, 0, 107, 0]
  {
    hide PutLong;
    MinusTwo();
    Words32(2);
    assert PutString(Some([107])) == [2, 0, 0, 0, 0, 0, 0, 0] + ([107] + [0]);
  }

  lemma PutFour<T>(a: T, b: T, c: T, d: T, put: T -> Bytes)
    ensures PutVector([a, b, c, d], put) == PutInt32(4) + put(a) + put(b) + put(c) + put(d)
  {
    hide PutInt32;
    var k := [a, b, c, d];
    assert k[1..] == [b, c, d] && [b, c, d][1..] == [c, d] && [c, d][1..] == [d] && [d][1..] == [];
    assert PutAll([d], put) == put(d) + PutAll([d][1..], put);
    assert PutAll([c, d], put) == put(c) + PutAll([c, d][1..], put);
    assert PutAll([b, c, d], put) == put(b) + PutAll([b, c, d][1..], put);
  }

  lemma SampleConstants(k: seq<Constant>)
    requires k == [Nil, Boolean(true), Number(-2), String(Some([107]))]
    ensures PutVector(k, PutConstant) == CONSTANTS
  {
    hide PutVector, PutConstant, PutInt32;
    Words32(4);
    EachConstant();
    PutFour<Constant>(Nil, Boolean(true), Number(-2), String(Some([107])), PutConstant);
  }

  lemma SampleDebug(f: Proto)
    requires f == Sample()
    ensures PutDebug(f, false) == LINES + (LOCALS + NAMES)
  {
    hide PutVector, PutInt32, PutString;
    SampleLines();
    SampleLocals();
    SampleNames();
  }

  lemma SampleLines()
    ensures PutVector(Sample().lineinfo, PutInt32) == LINES
  {
    hide PutVector;
    OneElement<Int32>(9, PutInt32);
    Words32(1);
    Words32(9);
  }

  lemma SampleLocals()
    ensures PutVector(Sample().locvars, PutLocVar) == LOCALS
  {
    hide PutInt32, PutLong, PutVector;
    OneElement(LocVar(Some([120]), 10, 11), PutLocVar);
    Words32(1);
    Words32(2);
    Words32(10);
    Words32(11);
    assert PutString(Some([120])) == [2, 0, 0, 0, 0, 0, 0, 0] + ([120] + [0]);
  }

  lemma SampleNames()
    ensures PutVector(Sample().upvalues, PutString) == NAMES
  {
    hide PutInt32, PutLong, PutVector;
    OneElement<TString>(Some([117]), PutString);
    Words32(1);
    Words32(2);
    assert PutString(Some([117])) == [2, 0, 0, 0, 0, 0, 0, 0] + ([117] + [0]);
  }

  lemma InnerHead(f: Proto)
    requires f == InnerSample()
    ensures PutHead(None, f) == [0, 0, 0, 0, 0, 0, 0, 0] + [7, 0, 0, 0] + [8, 0, 0, 0] + [1, 2, 0, 3]
  {
    hide PutInt32, PutLong;
    Words32(0);
    Words32(7);
    Words32(8);
    assert [f.nups] + ([f.numparams] + ([f.isVararg] + [f.maxstacksize])) == [1, 2, 0, 3];
  }

  lemma InnerRest(f: Proto)
    requires f == InnerSample()
    ensures AllSized(f) && PutDebug(f, false) == [0, 0, 0, 0] + ([0, 0, 0, 0] + [0, 0, 0, 0])
    ensures PutVector(f.k, PutConstant) == [0, 0, 0, 0] && PutInt32(|f.p|) == [0, 0, 0, 0] && PutInner(f, 0, false) == []
  {
    hide PutInt32, PutLong, PutVector;
    Words32(0);
    NoElements<Constant>(PutConstant);
    NoElements<Int32>(PutInt32);
    NoElements<LocVar>(PutLocVar);
    NoElements<TString>(PutString);
  }

  lemma SampleInner()
    ensures AllSized(InnerSample()) && PutFunction(InnerSample(), NAME, false) == INNER
  {
    hide PutVector, PutInt32, PutHead, PutDebug, PutInner;
    var f := InnerSample();
    SampleCode();
    InnerHead(f);
    InnerRest(f);
  }

  /** The dump of the function, part by part. */
  lemma SampleDump()
    ensures AllSized(Sample())
    ensures Dump(Sample(), false) == HEADER + HEAD + CODE + CONSTANTS + [1, 0, 0, 0] + INNER + LINES + LOCALS + NAMES
  {
    hide PutVector, PutInt32, PutHead, PutDebug, PutInner;
    var f := Sample();
    SampleInner();
    SampleHead(f);
    SampleCode();
    SampleConstants(f.k);
    SampleDebug(f);
    Words32(1);
    InnerOnly(f);
    InARow(HEADER, HEAD, CODE, CONSTANTS, [1, 0, 0, 0], INNER, LINES, LOCALS, NAMES);
    assert PutFunction(f, None, false) ==
             HEAD + (CODE + (CONSTANTS + ([1, 0, 0, 0] + (INNER + (LINES + (LOCALS + NAMES))))));
  }

  lemma InARow(a: Bytes, b: Bytes, c: Bytes, d: Bytes, e: Bytes, f: Bytes, g: Bytes, h: Bytes, i: Bytes)
    ensures a + (b + (c + (d + (e + (f + (g + (h + i))))))) == a + b + c + d + e + f + g + h + i
  {
  }

  lemma InnerOnly(f: Proto)
    requires f == Sample()
    ensures AllSized(f) && PutInner(f, 0, false) == INNER
  {
    hide PutFunction;
    SampleInner();
    assert PutInner(f, 1, false) == [];
    assert PutInner(f, 0, false) == INNER + [];
  }
}
