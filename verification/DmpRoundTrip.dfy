/** Dumping and undumping: the same tree of functions comes back. */
module DmpRoundTrip {
  import opened DmpBytes
  import opened DmpFormat
  import C = ChkProto
  import ChkCode
  import opened Wrappers

  lemma VectorBack<T(!new)>(xs: seq<T>, put: T -> Bytes, one: Bytes -> Parsed<T>, t: Bytes)
    requires |xs| < 0x8000_0000 && forall x | x in xs :: ComesBack(x, put, one)
    ensures GetVector(PutVector(xs, put) + t, one) == Some((xs, t))
  {
    assert PutVector(xs, put) + t == PutInt32(|xs|) + (PutAll(xs, put) + t);
    IntBack(|xs|, PutAll(xs, put) + t);
    AllBack(xs, put, one, t);
  }

  lemma CodeBack(code: seq<U32>, t: Bytes)
    requires |code| < 0x8000_0000
    ensures GetVector(PutVector(code, PutU32) + t, GetU32) == Some((code, t))
  {
    forall x | x in code ensures ComesBack(x, PutU32, GetU32) {
      forall u ensures GetU32(PutU32(x) + u) == Some((x, u)) { U32Back(x, u); }
    }
    VectorBack(code, PutU32, GetU32, t);
  }

  lemma ConstantBack(o: Constant, t: Bytes)
    ensures GetConstant(PutConstant(o) + t) == Some((o, t))
  {
    hide GetByte, GetLong, PutLong, GetString, PutString;
    match o {
      case Nil =>
        ByteBack(0, t);
      case Boolean(b) =>
        var x := [if b then 1 else 0];
        assert PutConstant(o) + t == [1] + (x + t);
        ByteBack(1, x + t);
        ByteBack(x[0], t);
      case Number(n) =>
        assert PutConstant(o) + t == [3] + (PutLong(n) + t);
        ByteBack(3, PutLong(n) + t);
        LongBack(n, t);
      case String(s) =>
        assert PutConstant(o) + t == [4] + (PutString(s) + t);
        ByteBack(4, PutString(s) + t);
        StringBack(s, t);
    }
  }

  lemma ConstantsBack(k: seq<Constant>, t: Bytes)
    requires |k| < 0x8000_0000
    ensures GetVector(PutVector(k, PutConstant) + t, GetConstant) == Some((k, t))
  {
    forall x | x in k ensures ComesBack(x, PutConstant, GetConstant) {
      forall u ensures GetConstant(PutConstant(x) + u) == Some((x, u)) { ConstantBack(x, u); }
    }
    VectorBack(k, PutConstant, GetConstant, t);
  }

  lemma LocVarBack(v: LocVar, t: Bytes)
    ensures GetLocVar(PutLocVar(v) + t) == Some((v, t))
  {
    var b := PutInt32(v.endpc) + t;
    var a := PutInt32(v.startpc) + b;
    assert PutLocVar(v) + t == PutString(v.varname) + a;
    StringBack(v.varname, a);
    IntBack(v.startpc, b);
    IntBack(v.endpc, t);
  }

  lemma LinesBack(l: seq<Int32>, t: Bytes)
    requires |l| < 0x8000_0000
    ensures GetVector(PutVector(l, PutInt32) + t, GetInt32) == Some((l, t))
  {
    forall x | x in l ensures ComesBack(x, PutInt32, GetInt32) {
      forall u ensures GetInt32(PutInt32(x) + u) == Some((x, u)) { Int32Back(x, u); }
    }
    VectorBack(l, PutInt32, GetInt32, t);
  }

  lemma LocVarsBack(v: seq<LocVar>, t: Bytes)
    requires |v| < 0x8000_0000
    ensures GetVector(PutVector(v, PutLocVar) + t, GetLocVar) == Some((v, t))
  {
    forall x | x in v ensures ComesBack(x, PutLocVar, GetLocVar) {
      forall u ensures GetLocVar(PutLocVar(x) + u) == Some((x, u)) { LocVarBack(x, u); }
    }
    VectorBack(v, PutLocVar, GetLocVar, t);
  }

  lemma NamesBack(n: seq<TString>, t: Bytes)
    requires |n| < 0x8000_0000
    ensures GetVector(PutVector(n, PutString) + t, GetString) == Some((n, t))
  {
    forall x | x in n ensures ComesBack(x, PutString, GetString) {
      forall u ensures GetString(PutString(x) + u) == Some((x, u)) { StringBack(x, u); }
    }
    VectorBack(n, PutString, GetString, t);
  }

  lemma DebugBack(f: Proto, strip: bool, t: Bytes)
    requires Sized(f)
    ensures GetDebug(PutDebug(f, strip) + t) == Some((if strip then ([], [], []) else (f.lineinfo, f.locvars, f.upvalues), t))
  {
    hide PutVector, GetVector;
    var l := if strip then [] else f.lineinfo;
    var v := if strip then [] else f.locvars;
    var u := if strip then [] else f.upvalues;
    var c := PutVector(u, PutString) + t;
    var b := PutVector(v, PutLocVar) + c;
    assert PutDebug(f, strip) + t == PutVector(l, PutInt32) + b;
    LinesBack(l, b);
    LocVarsBack(v, c);
    NamesBack(u, t);
  }

  lemma HeadBack(source: TString, f: Proto, t: Bytes)
    ensures GetHead(PutHead(source, f) + t) == Some((Headed(source, f), t))
  {
    hide GetString, PutString, GetInt, PutInt32, GetByte;
    var d := [f.maxstacksize] + t;
    var c := [f.isVararg] + d;
    var b := [f.numparams] + c;
    var a := [f.nups] + b;
    var m := PutInt32(f.lastlinedefined) + a;
    var l := PutInt32(f.linedefined) + m;
    assert PutHead(source, f) + t == PutString(source) + l;
    StringBack(source, l);
    IntBack(f.linedefined, m);
    IntBack(f.lastlinedefined, a);
    ByteBack(f.nups, b);
    ByteBack(f.numparams, c);
    ByteBack(f.isVararg, d);
    ByteBack(f.maxstacksize, t);
  }

  // ---------------------------------------------------------------- functions

  lemma {:induction false} DumpableSized(f: Proto, d: nat)
    requires Dumpable(f, d)
    ensures AllSized(f)
    decreases f
  {
    forall i | 0 <= i < |f.p| ensures AllSized(f.p[i]) {
      DumpableSized(f.p[i], d - 1);
    }
  }

  lemma LoadedFields(f: Proto, p: TString, q: TString, strip: bool)
    ensures var g := Loaded(f, p, q, strip);
            && g.nups == f.nups && g.source == LoadedSource(f, p, q, strip) && |g.p| == |f.p|
            && forall i | 0 <= i < |f.p| :: g.p[i] == Loaded(f.p[i], f.source, g.source, strip)
  {
  }

  /** The checker accepts what is loaded, with or without debug information. */
  lemma LoadedAccepted(f: Proto, p: TString, q: TString, strip: bool)
    requires Accepted(f)
    ensures Accepted(Loaded(f, p, q, strip))
  {
    hide C.IsCount;
    var g := Loaded(f, p, q, strip);
    var a, b := ToChecker(f), ToChecker(g);
    LoadedFields(f, p, q, strip);
    forall i | 0 <= i < |a.p| ensures b.p[i].nups == a.p[i].nups {
      LoadedFields(f.p[i], f.source, g.source, strip);
      assert b.p[i] == ToChecker(g.p[i]) && a.p[i] == ToChecker(f.p[i]);
    }
    forall pc | C.IsInstr(b.code, pc) ensures ChkCode.Checked(b, pc) {
      assert ChkCode.Checked(a, pc);
      SameChecks(a, b, pc);
    }
  }

  lemma SameChecks(a: C.Proto, b: C.Proto, pc: nat)
    requires pc < |a.code| && b.code == a.code && b.k == a.k && b.maxstacksize == a.maxstacksize && b.nups == a.nups
    requires b.isVararg == a.isVararg && b.needsArg == a.needsArg
    requires |b.p| == |a.p| && forall i | 0 <= i < |a.p| :: b.p[i].nups == a.p[i].nups
    requires ChkCode.Checked(a, pc)
    ensures ChkCode.Checked(b, pc)
  {
    hide C.IsCount;
  }

  /** A dumped function is loaded as it was, but for the source names, or without its debug information. */
  lemma {:induction false} FunctionBack(f: Proto, p: TString, q: TString, strip: bool, d: nat, t: Bytes)
    requires Dumpable(f, d) && AllSized(f)
    ensures GetFunction(PutFunction(f, p, strip) + t, q, d) == Some((Loaded(f, p, q, strip), t))
    decreases f, |f.p| + 1
  {
    hide PutHead, GetHead, PutVector, GetVector, PutDebug, GetDebug, Accepted, PutConstant, GetConstant;
    var written := if f.source == p || strip then None else f.source;
    var source := LoadedSource(f, p, q, strip);
    var e := PutDebug(f, strip) + t;
    var ps := PutInt32(|f.p|) + (PutInner(f, 0, strip) + e);
    var k := PutVector(f.k, PutConstant) + ps;
    var c := PutVector(f.code, PutU32) + k;
    assert PutFunction(f, p, strip) + t == PutHead(written, f) + c;
    HeadBack(written, f, c);
    CodeBack(f.code, k);
    ConstantsBack(f.k, ps);
    InnerBack(f, 0, source, strip, d - 1, e);
    ProtosBack(f, source, strip, d - 1, e);
    DebugBack(f, strip, t);
    LoadedAccepted(f, p, q, strip);
    LoadedParts(f, p, q, strip);
  }

  lemma ProtosBack(f: Proto, source: TString, strip: bool, d: nat, e: Bytes)
    requires AllSized(f)
    requires GetAll(|f.p|, PutInner(f, 0, strip) + e, Inner(source, d)) == Some((LoadedInner(f, 0, source, strip), e))
    ensures GetVector(PutInt32(|f.p|) + (PutInner(f, 0, strip) + e), Inner(source, d)) ==
              Some((LoadedInner(f, 0, source, strip), e))
  {
    IntBack(|f.p|, PutInner(f, 0, strip) + e);
  }

  /** The functions inside `f`, loaded into one with the source name `source`. */
  function LoadedInner(f: Proto, i: nat, source: TString, strip: bool): seq<Proto>
    requires i <= |f.p|
    decreases |f.p| - i
  {
    if i == |f.p| then [] else [Loaded(f.p[i], f.source, source, strip)] + LoadedInner(f, i + 1, source, strip)
  }

  lemma OneMore(n: nat, s: Bytes, source: TString, d: nat, x: Proto, s': Bytes, xs: seq<Proto>, s'': Bytes)
    requires 0 < n && GetFunction(s, source, d) == Some((x, s')) && GetAll(n - 1, s', Inner(source, d)) == Some((xs, s''))
    ensures GetAll(n, s, Inner(source, d)) == Some(([x] + xs, s''))
  {
    hide GetFunction;
  }

  lemma InnerBytes(f: Proto, i: nat, strip: bool, t: Bytes)
    requires AllSized(f) && i < |f.p|
    ensures AllSized(f.p[i])
    ensures PutInner(f, i, strip) + t == PutFunction(f.p[i], f.source, strip) + (PutInner(f, i + 1, strip) + t)
  {
    hide PutFunction, Sized;
    var a, b := PutFunction(f.p[i], f.source, strip), PutInner(f, i + 1, strip);
    assert PutInner(f, i, strip) == a + b;
    assert (a + b) + t == a + (b + t);
  }

  lemma InnerEnd(f: Proto, source: TString, strip: bool, d: nat, t: Bytes)
    requires AllSized(f)
    ensures GetAll(0, PutInner(f, |f.p|, strip) + t, Inner(source, d)) == Some((LoadedInner(f, |f.p|, source, strip), t))
  {
    hide Inner;
    assert PutInner(f, |f.p|, strip) + t == t;
  }

  lemma LoadedStep(f: Proto, i: nat, source: TString, strip: bool)
    requires i < |f.p|
    ensures LoadedInner(f, i, source, strip) == [Loaded(f.p[i], f.source, source, strip)] + LoadedInner(f, i + 1, source, strip)
  {
  }

  lemma {:induction false} InnerBack(f: Proto, i: nat, source: TString, strip: bool, d: nat, t: Bytes)
    requires AllSized(f) && i <= |f.p| && forall j | 0 <= j < |f.p| :: Dumpable(f.p[j], d)
    ensures GetAll(|f.p| - i, PutInner(f, i, strip) + t, Inner(source, d)) == Some((LoadedInner(f, i, source, strip), t))
    decreases f, |f.p| - i
  {
    hide GetFunction, Inner, GetAll, Loaded, Dumpable, AllSized, PutFunction, PutInner, LoadedInner;
    if i == |f.p| {
      InnerEnd(f, source, strip, d, t);
    } else {
      var behind := PutInner(f, i + 1, strip) + t;
      InnerBytes(f, i, strip, t);
      FunctionBack(f.p[i], f.source, source, strip, d, behind);
      InnerBack(f, i + 1, source, strip, d, t);
      OneMore(|f.p| - i, PutInner(f, i, strip) + t, source, d, Loaded(f.p[i], f.source, source, strip), behind,
              LoadedInner(f, i + 1, source, strip), t);
      LoadedStep(f, i, source, strip);
    }
  }

  lemma {:induction false} LoadedAt(f: Proto, i: nat, source: TString, strip: bool)
    requires i <= |f.p|
    ensures |LoadedInner(f, i, source, strip)| == |f.p| - i
    ensures forall j | 0 <= j < |f.p| - i :: LoadedInner(f, i, source, strip)[j] == Loaded(f.p[i+j], f.source, source, strip)
    decreases |f.p| - i
  {
    hide Loaded;
    if i < |f.p| {
      LoadedAt(f, i + 1, source, strip);
    }
  }

  lemma LoadedParts(f: Proto, p: TString, q: TString, strip: bool)
    ensures LoadedInner(f, 0, LoadedSource(f, p, q, strip), strip) == Loaded(f, p, q, strip).p
  {
    LoadedAt(f, 0, LoadedSource(f, p, q, strip), strip);
  }

  // ---------------------------------------------------------------- whole dumps

  /** Without stripping the same tree comes back exactly if every function in it has a source name. */
  lemma {:induction false} SameTree(f: Proto, p: TString, q: TString)
    requires q.Some? && (p.None? || p == q)
    ensures Loaded(f, p, q, false) == f <==> Named(f)
    decreases f
  {
    var g := Loaded(f, p, q, false);
    var source := LoadedSource(f, p, q, false);
    if f.source.Some? {
      forall i | 0 <= i < |f.p| ensures g.p[i] == f.p[i] <==> Named(f.p[i]) {
        SameTree(f.p[i], f.source, source);
      }
      if Named(f) { assert g.p == f.p; }
    }
  }

  /** A stripped function is loaded without debug information, under one name. */
  lemma {:induction false} StrippedTree(f: Proto, p: TString, q: TString)
    ensures Loaded(f, p, q, true) == Erased(f, q)
    decreases f
  {
    forall i | 0 <= i < |f.p| ensures Loaded(f.p[i], f.source, q, true) == Erased(f.p[i], q) {
      StrippedTree(f.p[i], f.source, q);
    }
    assert Loaded(f, p, q, true).p == Erased(f, q).p;
  }

  /**
   * Undumping a dumped function gives the same tree of functions back, exactly if all its functions have
   * source names, and the bytes behind the dump are not touched; a stripped dump gives the tree without
   * debug information, with `=?` for all source names.
   */
  lemma UndumpDump(f: Proto, d: nat, t: Bytes)
    requires Dumpable(f, d) && AllSized(f)
    ensures Undump(Dump(f, false) + t, d) == Some((f, t)) <==> Named(f)
    ensures Undump(Dump(f, true) + t, d) == Some((Erased(f, UNKNOWN), t))
  {
    hide Undump, Dump, Dumpable, AllSized, Loaded, Erased, Named;
    UndumpLoads(f, false, d, t);
    UndumpLoads(f, true, d, t);
    SameTree(f, None, UNKNOWN);
    StrippedTree(f, None, UNKNOWN);
  }

  lemma UndumpLoads(f: Proto, strip: bool, d: nat, t: Bytes)
    requires Dumpable(f, d) && AllSized(f)
    ensures Undump(Dump(f, strip) + t, d) == Some((Loaded(f, None, UNKNOWN, strip), t))
  {
    hide PutFunction, GetFunction, Dumpable, AllSized, Loaded, TakeBlock;
    var body := PutFunction(f, None, strip);
    assert (HEADER + body) + t == HEADER + (body + t);
    TakeBack(HEADER, body + t);
    FunctionBack(f, None, UNKNOWN, strip, d, t);
  }
}
