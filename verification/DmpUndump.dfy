/** Loading (lundump.c) from a buffered stream. */
module DmpUndump {
  import opened DmpBytes
  import opened DmpFormat
  import opened DmpZio
  import ChkCode
  import DmpRoundTrip
  import opened Wrappers

  const LUAI_MAXCCALLS: nat := 200

  /** A loader did on the stream what the format says; after an error the stream is not used any more. */
  predicate Agrees<T(==)>(spec: Parsed<T>, r: Option<T>, rest: Bytes) {
    if r.None? then spec.None? else spec == Some((r.value, rest))
  }

  /** What is read so far in front of what is still to be read. */
  function Prepend<T>(xs: seq<T>, p: Parsed<seq<T>>): Parsed<seq<T>> {
    if p.None? then None else Some((xs + p.value.0, p.value.1))
  }

  lemma ReadOneMore<T>(xs: seq<T>, x: T, n: nat, s: Bytes, s': Bytes, one: Bytes -> Parsed<T>)
    requires 0 < n && one(s) == Some((x, s'))
    ensures Prepend(xs, GetAll(n, s, one)) == Prepend(xs + [x], GetAll(n - 1, s', one))
  {
    var p := GetAll(n - 1, s', one);
    if p.Some? { assert xs + ([x] + p.value.0) == (xs + [x]) + p.value.0; }
  }

  lemma ReadNone<T>(n: nat, s: Bytes, one: Bytes -> Parsed<T>)
    ensures Prepend([], GetAll(n, s, one)) == GetAll(n, s, one)
  {
    var p := GetAll(n, s, one);
    if p.Some? { assert [] + p.value.0 == p.value.0; }
  }

  lemma ReadAll<T>(xs: seq<T>, s: Bytes, one: Bytes -> Parsed<T>)
    ensures Prepend(xs, GetAll(0, s, one)) == Some((xs, s))
  {
    assert xs + [] == xs;
  }

  /** LoadBlock. */
  method LoadBlock(z: Zio, size: nat) returns (r: Option<Bytes>)
    requires z.Valid()
    modifies z
    ensures z.Valid() && Agrees(TakeBlock(old(z.Rest()), size), r, z.Rest())
  {
    var b, missing := z.Read(size);
    if missing != 0 {
      return None;
    }
    TakeBack(b, z.Rest());
    r := Some(b);
  }

  method LoadByte(z: Zio) returns (r: Option<Byte>)
    requires z.Valid()
    modifies z
    ensures z.Valid() && Agrees(GetByte(old(z.Rest())), r, z.Rest())
  {
    var b :- LoadBlock(z, 1);
    r := Some(b[0]);
  }

  /** A word of an instruction or of line information. */
  method LoadWord(z: Zio) returns (r: Option<U32>)
    requires z.Valid()
    modifies z
    ensures z.Valid() && Agrees(GetU32(old(z.Rest())), r, z.Rest())
  {
    Sizes();
    var b :- LoadBlock(z, SIZE_INT);
    r := Some(Unlittle(b));
  }

  method LoadSigned(z: Zio) returns (r: Option<Int32>)
    requires z.Valid()
    modifies z
    ensures z.Valid() && Agrees(GetInt32(old(z.Rest())), r, z.Rest())
  {
    var w :- LoadWord(z);
    var x: int := w;
    r := Some(if x >= 0x8000_0000 then x - 0x1_0000_0000 else x);
  }

  /** LoadInt. */
  method LoadInt(z: Zio) returns (r: Option<Nat31>)
    requires z.Valid()
    modifies z
    ensures z.Valid() && Agrees(GetInt(old(z.Rest())), r, z.Rest())
  {
    var x :- LoadSigned(z);
    if x < 0 {
      return None;
    }
    r := Some(x);
  }

  /** LoadNumber, and the size of a string. */
  method LoadLong(z: Zio) returns (r: Option<Long>)
    requires z.Valid()
    modifies z
    ensures z.Valid() && Agrees(GetLong(old(z.Rest())), r, z.Rest())
  {
    Sizes();
    var b :- LoadBlock(z, SIZE_LONG);
    var x: int := Unlittle(b);
    r := Some(if x >= 0x8000_0000_0000_0000 then x - 0x1_0000_0000_0000_0000 else x);
  }

  /** LoadString. */
  method LoadString(z: Zio) returns (r: Option<TString>)
    requires z.Valid()
    modifies z
    ensures z.Valid() && Agrees(GetString(old(z.Rest())), r, z.Rest())
  {
    hide GetLong;
    var size :- LoadLong(z);
    if size == 0 {
      return Some(None);
    }
    if size < 0 {
      return None;
    }
    var b :- LoadBlock(z, size);
    r := Some(Some(b[..size-1]));
  }

  /** LoadCode. */
  method LoadCode(z: Zio) returns (r: Option<seq<U32>>)
    requires z.Valid()
    modifies z
    ensures z.Valid() && Agrees(GetVector(old(z.Rest()), GetU32), r, z.Rest())
  {
    hide GetInt, GetU32;
    var n :- LoadInt(z);
    ghost var start := z.Rest();
    var xs: seq<U32> := [];
    ReadNone(n, start, GetU32);
    while |xs| < n
      invariant z.Valid() && |xs| <= n && GetAll(n, start, GetU32) == Prepend(xs, GetAll(n - |xs|, z.Rest(), GetU32))
    {
      ghost var before := z.Rest();
      var x :- LoadWord(z);
      ReadOneMore(xs, x, n - |xs|, before, z.Rest(), GetU32);
      xs := xs + [x];
    }
    ReadAll(xs, z.Rest(), GetU32);
    r := Some(xs);
  }

  /** The line information. */
  method LoadLines(z: Zio) returns (r: Option<seq<Int32>>)
    requires z.Valid()
    modifies z
    ensures z.Valid() && Agrees(GetVector(old(z.Rest()), GetInt32), r, z.Rest())
  {
    hide GetInt, GetInt32;
    var n :- LoadInt(z);
    ghost var start := z.Rest();
    var xs: seq<Int32> := [];
    ReadNone(n, start, GetInt32);
    while |xs| < n
      invariant z.Valid() && |xs| <= n && GetAll(n, start, GetInt32) == Prepend(xs, GetAll(n - |xs|, z.Rest(), GetInt32))
    {
      ghost var before := z.Rest();
      var x :- LoadSigned(z);
      ReadOneMore(xs, x, n - |xs|, before, z.Rest(), GetInt32);
      xs := xs + [x];
    }
    ReadAll(xs, z.Rest(), GetInt32);
    r := Some(xs);
  }

  method LoadConstant(z: Zio) returns (r: Option<Constant>)
    requires z.Valid()
    modifies z
    ensures z.Valid() && Agrees(GetConstant(old(z.Rest())), r, z.Rest())
  {
    hide GetByte, GetLong, GetString;
    var t :- LoadByte(z);
    if t == 0 {
      r := Some(Nil);
    } else if t == 1 {
      var b :- LoadByte(z);
      r := Some(Boolean(b != 0));
    } else if t == 3 {
      var n :- LoadLong(z);
      r := Some(Number(n));
    } else if t == 4 {
      var s :- LoadString(z);
      r := Some(String(s));
    } else {
      r := None;
    }
  }

  /** The first loop of LoadConstants. */
  method LoadConstants(z: Zio) returns (r: Option<seq<Constant>>)
    requires z.Valid()
    modifies z
    ensures z.Valid() && Agrees(GetVector(old(z.Rest()), GetConstant), r, z.Rest())
  {
    hide GetInt, GetConstant;
    var n :- LoadInt(z);
    ghost var start := z.Rest();
    var xs: seq<Constant> := [];
    ReadNone(n, start, GetConstant);
    while |xs| < n
      invariant z.Valid() && |xs| <= n && GetAll(n, start, GetConstant) == Prepend(xs, GetAll(n - |xs|, z.Rest(), GetConstant))
    {
      ghost var before := z.Rest();
      var x :- LoadConstant(z);
      ReadOneMore(xs, x, n - |xs|, before, z.Rest(), GetConstant);
      xs := xs + [x];
    }
    ReadAll(xs, z.Rest(), GetConstant);
    r := Some(xs);
  }

  method LoadLocVars(z: Zio) returns (r: Option<seq<LocVar>>)
    requires z.Valid()
    modifies z
    ensures z.Valid() && Agrees(GetVector(old(z.Rest()), GetLocVar), r, z.Rest())
  {
    hide GetInt, GetString;
    var n :- LoadInt(z);
    ghost var start := z.Rest();
    var xs: seq<LocVar> := [];
    ReadNone(n, start, GetLocVar);
    while |xs| < n
      invariant z.Valid() && |xs| <= n && GetAll(n, start, GetLocVar) == Prepend(xs, GetAll(n - |xs|, z.Rest(), GetLocVar))
    {
      ghost var before := z.Rest();
      var name :- LoadString(z);
      var startpc :- LoadInt(z);
      var endpc :- LoadInt(z);
      var x := LocVar(name, startpc, endpc);
      ReadOneMore(xs, x, n - |xs|, before, z.Rest(), GetLocVar);
      xs := xs + [x];
    }
    ReadAll(xs, z.Rest(), GetLocVar);
    r := Some(xs);
  }

  method LoadNames(z: Zio) returns (r: Option<seq<TString>>)
    requires z.Valid()
    modifies z
    ensures z.Valid() && Agrees(GetVector(old(z.Rest()), GetString), r, z.Rest())
  {
    hide GetInt, GetString;
    var n :- LoadInt(z);
    ghost var start := z.Rest();
    var xs: seq<TString> := [];
    ReadNone(n, start, GetString);
    while |xs| < n
      invariant z.Valid() && |xs| <= n && GetAll(n, start, GetString) == Prepend(xs, GetAll(n - |xs|, z.Rest(), GetString))
    {
      ghost var before := z.Rest();
      var x :- LoadString(z);
      ReadOneMore(xs, x, n - |xs|, before, z.Rest(), GetString);
      xs := xs + [x];
    }
    ReadAll(xs, z.Rest(), GetString);
    r := Some(xs);
  }

  /** LoadDebug. */
  method LoadDebug(z: Zio) returns (r: Option<Debug>)
    requires z.Valid()
    modifies z
    ensures z.Valid() && Agrees(GetDebug(old(z.Rest())), r, z.Rest())
  {
    hide GetVector;
    var lines :- LoadLines(z);
    var locvars :- LoadLocVars(z);
    var upvalues :- LoadNames(z);
    r := Some((lines, locvars, upvalues));
  }

  /** What LoadFunction reads first. */
  method LoadHead(z: Zio) returns (r: Option<Proto>)
    requires z.Valid()
    modifies z
    ensures z.Valid() && Agrees(GetHead(old(z.Rest())), r, z.Rest())
  {
    hide GetInt, GetString, GetByte;
    var source :- LoadString(z);
    var linedefined :- LoadInt(z);
    var lastlinedefined :- LoadInt(z);
    var nups :- LoadByte(z);
    var numparams :- LoadByte(z);
    var isVararg :- LoadByte(z);
    var maxstacksize :- LoadByte(z);
    r := Some(Proto(source, linedefined, lastlinedefined, nups, numparams, isVararg, maxstacksize, [], [], [], [], [], []));
  }

  /** LoadFunction: it builds the function field by field, and has its code checked. */
  method LoadFunction(z: Zio, p: TString, nCcalls: nat) returns (r: Option<Proto>)
    requires z.Valid() && nCcalls <= LUAI_MAXCCALLS
    modifies z
    ensures z.Valid() && Agrees(GetFunction(old(z.Rest()), p, LUAI_MAXCCALLS - nCcalls), r, z.Rest())
    decreases LUAI_MAXCCALLS - nCcalls, 1
  {
    hide GetHead, GetVector, GetDebug, ChkCode.Accepts, ToChecker, Inner;
    if nCcalls + 1 > LUAI_MAXCCALLS {
      return None;
    }
    var f :- LoadHead(z);
    if f.source.None? {
      f := f.(source := p);
    }
    var code :- LoadCode(z);
    f := f.(code := code);
    var k :- LoadConstants(z);
    f := f.(k := k);
    var inner :- LoadInner(z, f.source, nCcalls + 1);
    f := f.(p := inner);
    var debug :- LoadDebug(z);
    f := f.(lineinfo := debug.0, locvars := debug.1, upvalues := debug.2);
    var ok := ChkCode.CheckCode(ToChecker(f));
    if !ok {
      return None;
    }
    r := Some(f);
  }

  /** The functions inside: the last loop of LoadConstants. */
  method LoadInner(z: Zio, source: TString, nCcalls: nat) returns (r: Option<seq<Proto>>)
    requires z.Valid() && nCcalls <= LUAI_MAXCCALLS
    modifies z
    ensures z.Valid() && Agrees(GetVector(old(z.Rest()), Inner(source, LUAI_MAXCCALLS - nCcalls)), r, z.Rest())
    decreases LUAI_MAXCCALLS - nCcalls, 2
  {
    hide GetInt, GetFunction;
    var n :- LoadInt(z);
    ghost var start := z.Rest();
    ghost var one := Inner(source, LUAI_MAXCCALLS - nCcalls);
    var xs: seq<Proto> := [];
    ReadNone(n, start, one);
    while |xs| < n
      invariant z.Valid() && |xs| <= n && GetAll(n, start, one) == Prepend(xs, GetAll(n - |xs|, z.Rest(), one))
    {
      ghost var before := z.Rest();
      var x :- LoadFunction(z, source, nCcalls);
      ReadOneMore(xs, x, n - |xs|, before, z.Rest(), one);
      xs := xs + [x];
    }
    ReadAll(xs, z.Rest(), one);
    r := Some(xs);
  }

  /** luaU_undump. */
  method LoadChunk(z: Zio, nCcalls: nat) returns (r: Option<Proto>)
    requires z.Valid() && nCcalls <= LUAI_MAXCCALLS
    modifies z
    ensures z.Valid() && Agrees(Undump(old(z.Rest()), LUAI_MAXCCALLS - nCcalls), r, z.Rest())
  {
    hide GetFunction;
    var h :- LoadBlock(z, |HEADER|);
    if h != HEADER {
      return None;
    }
    r := LoadFunction(z, UNKNOWN, nCcalls);
  }

  /**
   * A dump that is read back, in whatever blocks the reader hands it out: the same tree comes back exactly
   * if all its functions have source names, and a stripped dump gives the erased tree.
   */
  method Reload(f: Proto, strip: bool, blocks: seq<Bytes>, nCcalls: nat) returns (r: Option<Proto>)
    requires nCcalls <= LUAI_MAXCCALLS && Dumpable(f, LUAI_MAXCCALLS - nCcalls) && AllSized(f)
    requires (forall b | b in blocks :: b != []) && Joined(blocks) == Dump(f, strip)
    ensures strip ==> r == Some(Erased(f, UNKNOWN))
    ensures !strip ==> (r == Some(f) <==> Named(f))
  {
    hide Undump, Dump, Dumpable, AllSized, Erased, Named, Joined, Loaded;
    var z := new Zio(blocks);
    DmpRoundTrip.UndumpDump(f, LUAI_MAXCCALLS - nCcalls, []);
    DmpRoundTrip.UndumpLoads(f, strip, LUAI_MAXCCALLS - nCcalls, []);
    assert Dump(f, strip) + [] == Dump(f, strip);
    r := LoadChunk(z, nCcalls);
  }
}
