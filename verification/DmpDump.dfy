/** Dumping (ldump.c) through a writer that may fail. */
module DmpDump {
  import opened DmpBytes
  import opened DmpFormat
  import opened Wrappers

  class DumpState {
    const strip: bool
    /** The result of the writer at each of its calls. */
    const writer: nat -> int
    var calls: nat
    /** The bytes of all the blocks that the writer was given. */
    var out: Bytes
    var status: int
    /** What would have been written without a failure. */
    ghost var meant: Bytes

    /** Nothing is written behind a failure, whose status stays. */
    ghost predicate Valid()
      reads this
    {
      && (if status == 0 then out == meant else out <= meant)
      && (forall i: nat | i + 1 < calls :: writer(i) == 0)
      && status == if calls == 0 then 0 else writer(calls - 1)
    }

    constructor (strip: bool, writer: nat -> int)
      ensures Valid() && this.strip == strip && this.writer == writer && meant == [] && calls == 0
    {
      this.strip, this.writer := strip, writer;
      calls, out, status := 0, [], 0;
      meant := [];
    }

    /** DumpBlock. */
    method DumpBlock(b: Bytes)
      requires Valid()
      modifies this
      ensures Valid() && meant == old(meant) + b
      ensures old(status) != 0 ==> calls == old(calls) && out == old(out)
    {
      if status == 0 {
        status := writer(calls);
        calls := calls + 1;
        out := out + b;
      }
      meant := meant + b;
    }

    /** DumpInt. */
    method DumpInt(x: Nat31)
      requires Valid()
      modifies this
      ensures Valid() && meant == old(meant) + PutInt32(x)
    {
      DumpBlock(PutInt32(x));
    }

    /** DumpChar. */
    method DumpChar(x: Byte)
      requires Valid()
      modifies this
      ensures Valid() && meant == old(meant) + [x]
    {
      DumpBlock([x]);
    }

    /** DumpString. */
    method DumpString(s: TString)
      requires Valid()
      modifies this
      ensures Valid() && meant == old(meant) + PutString(s)
    {
      hide Valid, PutLong;
      if s.None? {
        DumpBlock(PutLong(0));
      } else {
        DumpBlock(PutLong(|s.value| + 1));
        DumpBlock(s.value + [0]);
      }
    }

    /** DumpVector, of words: the size, and all of them in one block. */
    method DumpCode(code: seq<U32>)
      requires Valid() && |code| < 0x8000_0000
      modifies this
      ensures Valid() && meant == old(meant) + PutVector(code, PutU32)
    {
      hide Valid, PutInt32, PutAll;
      DumpInt(|code|);
      DumpBlock(PutAll(code, PutU32));
    }

    method DumpLines(lines: seq<Int32>)
      requires Valid() && |lines| < 0x8000_0000
      modifies this
      ensures Valid() && meant == old(meant) + PutVector(lines, PutInt32)
    {
      hide Valid, PutInt32, PutAll;
      DumpInt(|lines|);
      DumpBlock(PutAll(lines, PutInt32));
    }

    method DumpConstant(o: Constant)
      requires Valid()
      modifies this
      ensures Valid() && meant == old(meant) + PutConstant(o)
    {
      hide Valid, PutLong, PutString;
      match o {
        case Nil =>
          DumpChar(0);
        case Boolean(b) =>
          DumpChar(1);
          DumpChar(if b then 1 else 0);
        case Number(n) =>
          DumpChar(3);
          DumpBlock(PutLong(n));
        case String(s) =>
          DumpChar(4);
          DumpString(s);
      }
    }

    /** The first loop of DumpConstants. */
    method DumpConstants(k: seq<Constant>)
      requires Valid() && |k| < 0x8000_0000
      modifies this
      ensures Valid() && meant == old(meant) + PutVector(k, PutConstant)
    {
      hide Valid, PutInt32, PutConstant;
      DumpInt(|k|);
      ghost var start := meant;
      var i: nat := 0;
      while i < |k|
        invariant Valid() && i <= |k| && meant + PutAll(k[i..], PutConstant) == start + PutAll(k, PutConstant)
      {
        FirstOf(k, i, PutConstant);
        DumpConstant(k[i]);
        i := i + 1;
      }
      assert k[i..] == [] && meant + [] == meant;
      Regroup(old(meant), PutInt32(|k|), PutAll(k, PutConstant));
    }

    method DumpLocVar(v: LocVar)
      requires Valid()
      modifies this
      ensures Valid() && meant == old(meant) + PutLocVar(v)
    {
      hide Valid, PutInt32, PutString;
      DumpString(v.varname);
      DumpInt(v.startpc);
      DumpInt(v.endpc);
    }

    method DumpLocVars(v: seq<LocVar>)
      requires Valid() && |v| < 0x8000_0000
      modifies this
      ensures Valid() && meant == old(meant) + PutVector(v, PutLocVar)
    {
      hide Valid, PutInt32, PutLocVar;
      DumpInt(|v|);
      ghost var start := meant;
      var i: nat := 0;
      while i < |v|
        invariant Valid() && i <= |v| && meant + PutAll(v[i..], PutLocVar) == start + PutAll(v, PutLocVar)
      {
        FirstOf(v, i, PutLocVar);
        DumpLocVar(v[i]);
        i := i + 1;
      }
      assert v[i..] == [] && meant + [] == meant;
      Regroup(old(meant), PutInt32(|v|), PutAll(v, PutLocVar));
    }

    method DumpNames(names: seq<TString>)
      requires Valid() && |names| < 0x8000_0000
      modifies this
      ensures Valid() && meant == old(meant) + PutVector(names, PutString)
    {
      hide Valid, PutInt32, PutString;
      DumpInt(|names|);
      ghost var start := meant;
      var i: nat := 0;
      while i < |names|
        invariant Valid() && i <= |names| && meant + PutAll(names[i..], PutString) == start + PutAll(names, PutString)
      {
        FirstOf(names, i, PutString);
        DumpString(names[i]);
        i := i + 1;
      }
      assert names[i..] == [] && meant + [] == meant;
      Regroup(old(meant), PutInt32(|names|), PutAll(names, PutString));
    }

    /** DumpDebug. */
    method DumpDebug(f: Proto)
      requires Valid() && Sized(f)
      modifies this
      ensures Valid() && meant == old(meant) + PutDebug(f, strip)
    {
      hide Valid, PutVector;
      DumpLines(if strip then [] else f.lineinfo);
      DumpLocVars(if strip then [] else f.locvars);
      DumpNames(if strip then [] else f.upvalues);
    }

    /** What DumpFunction writes first. */
    method DumpHead(source: TString, f: Proto)
      requires Valid()
      modifies this
      ensures Valid() && meant == old(meant) + PutHead(source, f)
    {
      hide Valid, PutString, PutInt32;
      DumpString(source);
      DumpInt(f.linedefined);
      DumpInt(f.lastlinedefined);
      DumpChar(f.nups);
      DumpChar(f.numparams);
      DumpChar(f.isVararg);
      DumpChar(f.maxstacksize);
    }

    /** DumpFunction. */
    method DumpFunction(f: Proto, p: TString)
      requires Valid() && AllSized(f)
      modifies this
      ensures Valid() && meant == old(meant) + PutFunction(f, p, strip)
      decreases f, 1
    {
      hide Valid, PutHead, PutVector, PutDebug, PutInt32, PutInner;
      DumpHead(if f.source == p || strip then None else f.source, f);
      DumpCode(f.code);
      DumpConstants(f.k);
      DumpInner(f);
      DumpDebug(f);
    }

    /** The last loop of DumpConstants. */
    method DumpInner(f: Proto)
      requires Valid() && AllSized(f)
      modifies this
      ensures Valid() && meant == old(meant) + (PutInt32(|f.p|) + PutInner(f, 0, strip))
      decreases f, 0
    {
      hide Valid, PutInt32, PutFunction;
      DumpInt(|f.p|);
      ghost var start := meant;
      var i: nat := 0;
      while i < |f.p|
        invariant Valid() && i <= |f.p| && meant + PutInner(f, i, strip) == start + PutInner(f, 0, strip)
      {
        DumpFunction(f.p[i], f.source);
        i := i + 1;
      }
      assert meant + [] == meant;
      Regroup(old(meant), PutInt32(|f.p|), PutInner(f, 0, strip));
    }
  }

  /**
   * luaU_dump: if the writer never fails it gets the whole dump; otherwise it gets the start of the dump up
   * to the block it failed at, and its status is returned.
   */
  method DumpChunk(f: Proto, strip: bool, writer: nat -> int) returns (status: int, out: Bytes, ghost calls: nat)
    requires AllSized(f)
    ensures status == 0 ==> out == Dump(f, strip)
    ensures status != 0 ==> out <= Dump(f, strip) && 0 < calls && status == writer(calls - 1)
    ensures forall i: nat | i + 1 < calls :: writer(i) == 0
  {
    hide PutFunction, AllSized;
    var d := new DumpState(strip, writer);
    d.DumpBlock(HEADER);
    d.DumpFunction(f, None);
    status, out, calls := d.status, d.out, d.calls;
    assert [] + HEADER + PutFunction(f, None, strip) == Dump(f, strip);
  }

  lemma Regroup(a: Bytes, b: Bytes, c: Bytes)
    ensures (a + b) + c == a + (b + c)
  {
  }

  lemma FirstOf<T>(xs: seq<T>, i: nat, put: T -> Bytes)
    requires i < |xs|
    ensures PutAll(xs[i..], put) == put(xs[i]) + PutAll(xs[i+1..], put)
  {
    assert xs[i..][1..] == xs[i+1..];
  }
}
