/** The format of precompiled functions: what ldump.c writes and lundump.c reads. */
module DmpFormat {
  import opened DmpBytes
  import C = ChkProto
  import ChkCode
  import opened Wrappers

  datatype Constant = Nil | Boolean(b: bool) | Number(n: Long) | String(s: TString)

  datatype LocVar = LocVar(varname: TString, startpc: Nat31, endpc: Nat31)

  datatype Proto = Proto(source: TString, linedefined: Nat31, lastlinedefined: Nat31,
                         nups: Byte, numparams: Byte, isVararg: Byte, maxstacksize: Byte,
                         code: seq<U32>, k: seq<Constant>, p: seq<Proto>,
                         lineinfo: seq<Int32>, locvars: seq<LocVar>, upvalues: seq<TString>)

  // ---------------------------------------------------------------- as the checker sees a function

  function OpOf(n: nat): C.Op {
    if n == 0 then C.MOVE else if n == 1 then C.LOADK else if n == 2 then C.LOADBOOL else if n == 3 then C.LOADNIL
    else if n == 4 then C.GETUPVAL else if n == 5 then C.GETGLOBAL else if n == 6 then C.GETTABLE
    else if n == 7 then C.SETGLOBAL else if n == 8 then C.SETUPVAL else if n == 9 then C.SETTABLE
    else if n == 10 then C.NEWTABLE else if n == 11 then C.SELF else if n == 12 then C.ADD else if n == 13 then C.SUB
    else if n == 14 then C.MUL else if n == 15 then C.DIV else if n == 16 then C.MOD else if n == 17 then C.POW
    else if n == 18 then C.UNM else if n == 19 then C.NOT else if n == 20 then C.LEN else if n == 21 then C.CONCAT
    else if n == 22 then C.JMP else if n == 23 then C.EQ else if n == 24 then C.LT else if n == 25 then C.LE
    else if n == 26 then C.TEST else if n == 27 then C.TESTSET else if n == 28 then C.CALL else if n == 29 then C.TAILCALL
    else if n == 30 then C.RETURN else if n == 31 then C.FORLOOP else if n == 32 then C.FORPREP
    else if n == 33 then C.TFORLOOP else if n == 34 then C.SETLIST else if n == 35 then C.CLOSE
    else if n == 36 then C.CLOSURE else if n == 37 then C.VARARG else C.Invalid(n)
  }

  /** GET_OPCODE and the GETARG macros. */
  function Decode(i: U32): C.Word {
    C.Word(OpOf(i % 64), (i / 64) % 256, (i / 0x80_0000) % 512, (i / 0x4000) % 512)
  }

  function CodeOf(code: seq<U32>): seq<C.Word> {
    seq(|code|, i requires 0 <= i < |code| => Decode(code[i]))
  }

  function ConstantsOf(k: seq<Constant>): seq<C.Constant> {
    seq(|k|, i requires 0 <= i < |k| => if k[i].String? then C.Str else C.NoStr)
  }

  function ToChecker(f: Proto): C.Proto {
    C.Proto(CodeOf(f.code), ConstantsOf(f.k), seq(|f.p|, i requires 0 <= i < |f.p| => ToChecker(f.p[i])),
            f.numparams, f.isVararg % 2 == 1, f.isVararg / 2 % 2 == 1, f.isVararg / 4 % 2 == 1,
            f.maxstacksize, f.nups, |f.upvalues|, |f.lineinfo|)
  }

  ghost predicate Accepted(f: Proto) {
    ChkCode.Accepts(ToChecker(f))
  }

  // ---------------------------------------------------------------- constants and debug information

  function PutConstant(o: Constant): Bytes {
    match o
    case Nil => [0]
    case Boolean(b) => [1] + [if b then 1 else 0]
    case Number(n) => [3] + PutLong(n)
    case String(s) => [4] + PutString(s)
  }

  function GetConstant(s: Bytes): Parsed<Constant> {
    var t :- GetByte(s);
    if t.0 == 0 then Some((Nil, t.1))
    else if t.0 == 1 then var b :- GetByte(t.1); Some((Boolean(b.0 != 0), b.1))
    else if t.0 == 3 then var n :- GetLong(t.1); Some((Number(n.0), n.1))
    else if t.0 == 4 then var x :- GetString(t.1); Some((String(x.0), x.1))
    else None
  }

  function PutLocVar(v: LocVar): Bytes {
    PutString(v.varname) + (PutInt32(v.startpc) + PutInt32(v.endpc))
  }

  function GetLocVar(s: Bytes): Parsed<LocVar> {
    var n :- GetString(s);
    var a :- GetInt(n.1);
    var b :- GetInt(a.1);
    Some((LocVar(n.0, a.0, b.0), b.1))
  }

  /** A vector behind its size. */
  function PutVector<T>(xs: seq<T>, put: T -> Bytes): Bytes
    requires |xs| < 0x8000_0000
  {
    PutInt32(|xs|) + PutAll(xs, put)
  }

  function GetVector<T>(s: Bytes, one: Bytes -> Parsed<T>): Parsed<seq<T>> {
    var n :- GetInt(s);
    GetAll(n.0, n.1, one)
  }

  /** The debug information, or none of it. */
  function PutDebug(f: Proto, strip: bool): Bytes
    requires Sized(f)
  {
    PutVector(if strip then [] else f.lineinfo, PutInt32) +
    (PutVector(if strip then [] else f.locvars, PutLocVar) +
     PutVector(if strip then [] else f.upvalues, PutString))
  }

  type Debug = (seq<Int32>, seq<LocVar>, seq<TString>)

  function GetDebug(s: Bytes): Parsed<Debug> {
    var l :- GetVector(s, GetInt32);
    var v :- GetVector(l.1, GetLocVar);
    var u :- GetVector(v.1, GetString);
    Some(((l.0, v.0, u.0), u.1))
  }

  /** The sizes of the vectors are integers of the machine. */
  predicate Sized(f: Proto) {
    && |f.code| < 0x8000_0000 && |f.k| < 0x8000_0000 && |f.p| < 0x8000_0000
    && |f.lineinfo| < 0x8000_0000 && |f.locvars| < 0x8000_0000 && |f.upvalues| < 0x8000_0000
  }

  // ---------------------------------------------------------------- what is in front of the constants

  function PutHead(source: TString, f: Proto): Bytes {
    PutString(source) + (PutInt32(f.linedefined) + (PutInt32(f.lastlinedefined) +
      ([f.nups] + ([f.numparams] + ([f.isVararg] + [f.maxstacksize])))))
  }

  /** A function of which only the head is known. */
  function Headed(source: TString, f: Proto): Proto {
    Proto(source, f.linedefined, f.lastlinedefined, f.nups, f.numparams, f.isVararg, f.maxstacksize, [], [], [], [], [], [])
  }

  function GetHead(s: Bytes): Parsed<Proto> {
    var n :- GetString(s);
    var l :- GetInt(n.1);
    var m :- GetInt(l.1);
    var a :- GetByte(m.1);
    var b :- GetByte(a.1);
    var c :- GetByte(b.1);
    var d :- GetByte(c.1);
    Some((Proto(n.0, l.0, m.0, a.0, b.0, c.0, d.0, [], [], [], [], [], []), d.1))
  }

  // ---------------------------------------------------------------- functions

  /** Every function in the tree has sizes that fit and is accepted, and the tree has at most `d` levels. */
  ghost predicate Dumpable(f: Proto, d: nat) {
    && 0 < d && Sized(f) && Accepted(f)
    && forall i | 0 <= i < |f.p| :: Dumpable(f.p[i], d - 1)
  }

  predicate AllSized(f: Proto) {
    Sized(f) && forall i | 0 <= i < |f.p| :: AllSized(f.p[i])
  }

  /** DumpFunction: the source name is left out if it is that of the enclosing function. */
  function PutFunction(f: Proto, p: TString, strip: bool): Bytes
    requires AllSized(f)
    decreases f, |f.p| + 1
  {
    PutHead(if f.source == p || strip then None else f.source, f) +
    (PutVector(f.code, PutU32) + (PutVector(f.k, PutConstant) +
      (PutInt32(|f.p|) + (PutInner(f, 0, strip) + PutDebug(f, strip)))))
  }

  function PutInner(f: Proto, i: nat, strip: bool): Bytes
    requires AllSized(f) && i <= |f.p|
    decreases f, |f.p| - i
  {
    if i == |f.p| then [] else PutFunction(f.p[i], f.source, strip) + PutInner(f, i + 1, strip)
  }

  /** LoadFunction, with `d` levels left: a missing source name is that of the enclosing function. */
  ghost function GetFunction(s: Bytes, p: TString, d: nat): Parsed<Proto>
    decreases d, 0
  {
    if d == 0 then None
    else
      var h :- GetHead(s);
      var source := if h.0.source.None? then p else h.0.source;
      var c :- GetVector(h.1, GetU32);
      var k :- GetVector(c.1, GetConstant);
      var ps :- GetVector(k.1, Inner(source, d - 1));
      var g :- GetDebug(ps.1);
      var f := h.0.(source := source, code := c.0, k := k.0, p := ps.0, lineinfo := g.0.0, locvars := g.0.1, upvalues := g.0.2);
      if Accepted(f) then Some((f, g.1)) else None
  }

  /** The reader of the functions inside one with that source name. */
  ghost function Inner(source: TString, d: nat): Bytes -> Parsed<Proto>
    decreases d, 1
  {
    s => GetFunction(s, source, d)
  }

  /**
   * What is loaded of a dumped function: `p` was the source name of the enclosing function in the dump,
   * `q` is that of the loaded one.
   */
  function Loaded(f: Proto, p: TString, q: TString, strip: bool): Proto {
    var source := LoadedSource(f, p, q, strip);
    var inner := seq(|f.p|, i requires 0 <= i < |f.p| => Loaded(f.p[i], f.source, source, strip));
    if strip then f.(source := source, p := inner, lineinfo := [], locvars := [], upvalues := [])
    else f.(source := source, p := inner)
  }

  function LoadedSource(f: Proto, p: TString, q: TString, strip: bool): TString {
    if strip || f.source == p || f.source.None? then q else f.source
  }

  /** A function without debug information, with the source name `q` everywhere. */
  function Erased(f: Proto, q: TString): Proto {
    f.(source := q, lineinfo := [], locvars := [], upvalues := [],
       p := seq(|f.p|, i requires 0 <= i < |f.p| => Erased(f.p[i], q)))
  }

  /** Every function of the tree has a source name. */
  predicate Named(f: Proto) {
    f.source.Some? && forall i | 0 <= i < |f.p| :: Named(f.p[i])
  }

  // ---------------------------------------------------------------- luaU_dump and luaU_undump

  /** luaU_header: the signature, the version and format, and the sizes of the machine. */
  const HEADER: Bytes := [27, 76, 117, 97, 0x51, 0, 1, 4, 8, 4, 8, 1]

  function Dump(f: Proto, strip: bool): Bytes
    requires AllSized(f)
  {
    HEADER + PutFunction(f, None, strip)
  }

  /** The name `=?`. */
  const UNKNOWN: TString := Some([61, 63])

  ghost function Undump(s: Bytes, d: nat): Parsed<Proto> {
    var h :- TakeBlock(s, |HEADER|);
    if h.0 == HEADER then GetFunction(h.1, UNKNOWN, d) else None
  }
}
