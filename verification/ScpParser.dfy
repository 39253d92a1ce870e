/** Scopes while parsing (lparser.c): searchvar, singlevaraux, indexupvalue, markupval, the block chain. */
module ScpParser {
  import opened ScpChain
  import opened Wrappers

  datatype VarKind = Global | Local(reg: nat) | Upvalue(index: nat)

  // ---------------------------------------------------------------- marked blocks

  /** The block that a register is declared in, -1 for the body of the function. */
  function Home(bl: seq<Block>, r: nat): (b: int)
    ensures -1 <= b < |bl|
  {
    if bl == [] then -1 else if bl[|bl|-1].nactvar <= r then |bl| - 1 else Home(bl[..|bl|-1], r)
  }

  ghost predicate CapturedIn(captured: set<Var>, level: nat, f: FuncState, b: nat, r: nat) {
    r < |f.actvar| && Home(f.bl, r) == b && Decl(level, f.actvar[r]) in captured
  }

  /** A block is marked exactly if one of its own variables was captured. */
  ghost predicate MarkOk(captured: set<Var>, level: nat, f: FuncState, b: nat)
    requires b < |f.bl|
  {
    f.bl[b].upval <==> exists r: nat :: CapturedIn(captured, level, f, b, r)
  }

  ghost predicate IsInternal(f: FuncState, r: nat) {
    r < |f.actvar| && f.actvar[r] < |f.locvars| ==> f.locvars[f.actvar[r]].Internal?
  }

  /** The blocks nest, they are marked as they should be, and those of loops declare only internal names. */
  ghost predicate BlocksOk(captured: set<Var>, level: nat, f: FuncState) {
    && (forall b: nat | b < |f.bl| :: f.bl[b].nactvar <= |f.actvar|)
    && (forall b: nat, c: nat | b < c < |f.bl| :: f.bl[b].nactvar <= f.bl[c].nactvar)
    && (forall b: nat | b < |f.bl| :: MarkOk(captured, level, f, b))
    && forall r: nat | r < |f.actvar| && Home(f.bl, r) >= 0 && f.bl[Home(f.bl, r)].isbreakable :: IsInternal(f, r)
  }

  /** What was captured are declarations with names of the source. */
  ghost predicate CapturedOk(captured: set<Var>, fs: Chain) {
    forall v | v in captured :: v.level < |fs| && v.index < |fs[v.level].locvars| && fs[v.level].locvars[v.index].Name?
  }

  ghost predicate AllBlocksOk(captured: set<Var>, fs: Chain) {
    forall level: nat | level < |fs| :: BlocksOk(captured, level, fs[level])
  }

  ghost predicate ScopeOk(captured: set<Var>, fs: Chain) {
    ChainOk(fs) && CapturedOk(captured, fs) && AllBlocksOk(captured, fs)
  }

  class LexState {
    var fs: Chain
    /** The variables that inner functions captured since they were declared. */
    ghost var captured: set<Var>

    ghost predicate Valid()
      reads this
    {
      0 < |fs| && ScopeOk(captured, fs)
    }

    constructor ()
      ensures Valid() && |fs| == 1 && fs[0] == FuncState([], [], [], [])
    {
      fs := [FuncState([], [], [], [])];
      captured := {};
    }

    // -------------------------------------------------------------- names

    /** searchvar: the last active variable with the name. */
    method SearchVar(level: nat, n: Name) returns (i: int)
      requires level < |fs| && ActiveOk(fs[level])
      ensures -1 <= i && (i >= 0 ==> Declares(fs, level, i, n))
      ensures forall r: nat | i < r :: !Declares(fs, level, r, n)
    {
      i := |fs[level].actvar| - 1;
      while i >= 0
        invariant -1 <= i < |fs[level].actvar| && forall r: nat | i < r :: !Declares(fs, level, r, n)
      {
        if fs[level].locvars[fs[level].actvar[i]] == n {
          return;
        }
        i := i - 1;
      }
    }

    /** markupval: the block that declares the register is marked. */
    method MarkUpval(level: nat, r: nat)
      requires level < |fs|
      modifies this`fs
      ensures |fs| == |old(fs)| && forall l: nat | l < |fs| && l != level :: fs[l] == old(fs)[l]
      ensures fs[level] == Marked(old(fs)[level], r)
    {
      var bl := fs[level].bl;
      var i: int := |bl| - 1;
      assert bl[..|bl|] == bl;
      while i >= 0 && bl[i].nactvar > r
        invariant -1 <= i < |bl| && Home(bl[..i+1], r) == Home(bl, r)
      {
        assert bl[..i+1][..i] == bl[..i];
        i := i - 1;
      }
      assert i >= 0 ==> bl[..i+1][i] == bl[i];
      if i >= 0 {
        fs := fs[level := fs[level].(bl := bl[i := bl[i].(upval := true)])];
      }
    }

    /** indexupvalue. */
    method IndexUpvalue(level: nat, u: UpvalDesc) returns (i: nat)
      requires level < |fs|
      modifies this`fs
      ensures |fs| == |old(fs)| && forall l: nat | l < |fs| && l != level :: fs[l] == old(fs)[l]
      ensures fs[level] == old(fs)[level] || (u !in old(fs)[level].upvalues && fs[level] == WithUpvalue(old(fs)[level], u))
      ensures i < |fs[level].upvalues| && fs[level].upvalues[i] == u
    {
      i := 0;
      while i < |fs[level].upvalues|
        invariant i <= |fs[level].upvalues| && forall j: nat | j < i :: fs[level].upvalues[j] != u
      {
        if fs[level].upvalues[i] == u {
          return;
        }
        i := i + 1;
      }
      fs := fs[level := WithUpvalue(fs[level], u)];
    }

    /** A variable of the function at depth `level` is going to be an upvalue. */
    method Capture(level: nat, r: nat, n: Name)
      requires Valid() && Declares(fs, level, r, n) && n.Name?
      modifies this
      ensures Valid() && Grows(old(fs), fs) && captured == old(captured) + {Decl(level, fs[level].actvar[r])}
      ensures Declares(fs, level, r, n) && |fs| == |old(fs)|
    {
      hide ScopeOk, Grows, Marked;
      ghost var before := fs;
      MarkUpval(level, r);
      MarkedOk(captured, before, fs, level, r, n);
      captured := captured + {Decl(level, fs[level].actvar[r])};
    }

    /** An upvalue of the function at depth `level`, for what was found in the enclosing function. */
    method UseUpvalue(level: nat, u: UpvalDesc) returns (i: nat)
      requires Valid() && 0 < level < |fs|
      requires u.info < if u.k == VLOCAL then |fs[level-1].actvar| else |fs[level-1].upvalues|
      modifies this`fs
      ensures Valid() && Grows(old(fs), fs) && UpvalsOk(fs)
      ensures i < |fs[level].upvalues| && fs[level].upvalues[i] == u && |fs| == |old(fs)|
      ensures forall l: nat | l < |fs| :: fs[l].actvar == old(fs)[l].actvar
    {
      hide ScopeOk, Grows, UpvalsOk;
      ghost var before := fs;
      i := IndexUpvalue(level, u);
      WithUpvalueOk(captured, before, fs, level, u);
    }

    /** singlevaraux; `where` and `r` tell which declaration it found. */
    method SingleVarAux(level: int, n: Name, base: bool) returns (k: VarKind, ghost where: nat, ghost r: nat)
      requires Valid() && -1 <= level < |fs| && n.Name?
      modifies this
      ensures Valid() && Grows(old(fs), fs) && |fs| == |old(fs)| && (level < 0 ==> k.Global?)
      ensures k.Global? ==> Undeclared(fs, level, n) && captured == old(captured)
      ensures !k.Global? ==> Innermost(fs, level, n, where, r)
      ensures k.Local? ==> where == level && r == k.reg
      ensures k.Upvalue? ==> where < level && StandsFor(fs, level, k.index, where, r)
      ensures !k.Global? ==> captured == old(captured) + if where == level && base then {} else {Decl(where, fs[where].actvar[r])}
      decreases level + 1
    {
      hide ScopeOk, Grows, Undeclared, Innermost, StandsFor;
      where, r := 0, 0;
      if level < 0 {
        GrowsNot(fs);
        NoLevel(fs, level, n);
        return Global, where, r;
      }
      ActiveAt(captured, fs, level);
      var v := SearchVar(level, n);
      if v >= 0 {
        where, r := level, v;
        GrowsNot(fs);
        FoundHere(fs, level, n, v);
        ghost var before := fs;
        if !base {
          Capture(level, v, n);
        }
        InnermostStays(before, fs, level, n, level, v);
        return Local(v), where, r;
      }
      ghost var fs0 := fs;
      k, where, r := SingleVarAux(level - 1, n, false);
      ghost var fs1 := fs;
      NotFoundHere(fs0, fs, level, n, where, r);
      if k.Global? {
        return;
      }
      var u := if k.Local? then UpvalDesc(VLOCAL, k.reg) else UpvalDesc(VUPVAL, k.index);
      FoundOutside(fs, level, n, k, where, r);
      var i := UseUpvalue(level, u);
      GrowsMore(fs0, fs1, fs);
      InnermostStays(fs1, fs, level, n, where, r);
      StandsForToo(captured, fs1, fs, level, k, i, where, r);
      k := Upvalue(i);
    }

    /**
     * singlevar: a local of the current function, an upvalue that stands for the innermost visible
     * declaration further out, or a global if there is none.
     */
    method SingleVar(n: Name) returns (k: VarKind, ghost where: nat, ghost r: nat)
      requires Valid() && n.Name?
      modifies this
      ensures Valid() && Grows(old(fs), fs)
      ensures k.Global? <==> Undeclared(fs, |fs| - 1, n)
      ensures !k.Global? ==> Innermost(fs, |fs| - 1, n, where, r)
      ensures k.Local? ==> where == |fs| - 1 && r == k.reg
      ensures k.Upvalue? ==> where < |fs| - 1 && StandsFor(fs, |fs| - 1, k.index, where, r)
    {
      hide ScopeOk, Grows, StandsFor;
      k, where, r := SingleVarAux(|fs| - 1, n, true);
    }

    // -------------------------------------------------------------- functions and blocks

    /** open_func. */
    method OpenFunc()
      requires Valid()
      modifies this`fs
      ensures Valid() && fs == old(fs) + [FuncState([], [], [], [])]
    {
      hide Home, BlocksOk;
      OpenOk(captured, fs);
      fs := fs + [FuncState([], [], [], [])];
    }

    /** close_func, of an inner function: its upvalues are what pushclosure then makes code for. */
    method CloseFunc() returns (upvalues: seq<UpvalDesc>)
      requires Valid() && 1 < |fs|
      modifies this
      ensures Valid() && fs == old(fs)[..|old(fs)|-1] && upvalues == old(fs)[|old(fs)|-1].upvalues
      ensures captured <= old(captured) && forall v | v in old(captured) && v.level < |fs| :: v in captured
    {
      hide Home, BlocksOk;
      upvalues := fs[|fs|-1].upvalues;
      ghost var captured' := set v | v in captured && v.level < |fs| - 1;
      CloseOk(captured, captured', fs);
      fs := fs[..|fs|-1];
      captured := captured';
    }

    /** new_localvar and adjustlocalvars; a loop block declares only names that the source cannot mention. */
    method Declare(n: Name)
      requires Valid() && (InLoopBlock(fs[|fs|-1]) ==> n.Internal?)
      modifies this`fs
      ensures Valid() && fs == old(fs)[|old(fs)|-1 := WithLocal(old(fs)[|old(fs)|-1], n)]
      ensures Innermost(fs, |fs| - 1, n, |fs| - 1, |fs[|fs|-1].actvar| - 1)
    {
      hide BlocksOk;
      DeclareOk(captured, fs, n);
      fs := fs[|fs|-1 := WithLocal(fs[|fs|-1], n)];
    }

    /** enterblock. */
    method EnterBlock(isbreakable: bool)
      requires Valid()
      modifies this`fs
      ensures Valid() && fs == old(fs)[|old(fs)|-1 := WithBlock(old(fs)[|old(fs)|-1], isbreakable)]
    {
      hide Home, BlocksOk;
      EnterOk(captured, fs, isbreakable);
      fs := fs[|fs|-1 := WithBlock(fs[|fs|-1], isbreakable)];
    }

    /** leaveblock: a CLOSE is made exactly if an inner function captured a variable that goes out of scope. */
    method LeaveBlock() returns (closeFrom: Option<nat>)
      requires Valid() && fs[|fs|-1].bl != []
      modifies this`fs
      ensures Valid() && fs == old(fs)[|old(fs)|-1 := WithoutBlock(old(fs)[|old(fs)|-1])]
      ensures closeFrom.Some? <==> CapturedFrom(captured, |fs| - 1, old(fs)[|fs|-1], |fs[|fs|-1].actvar|)
      ensures closeFrom.Some? ==> closeFrom.value == |fs[|fs|-1].actvar|
    {
      hide BlocksOk;
      var f := fs[|fs|-1];
      var b := f.bl[|f.bl|-1];
      LeaveOk(captured, fs);
      fs := fs[|fs|-1 := WithoutBlock(f)];
      closeFrom := if b.upval then Some(b.nactvar) else None;
    }

    /** breakstat: the same for all the blocks that are left, up to the one of the loop. */
    method BreakStat() returns (found: bool, closeFrom: Option<nat>, ghost loop: nat)
      requires Valid()
      ensures found <==> HasLoop(fs[|fs|-1].bl)
      ensures found ==> IsInnerLoop(fs[|fs|-1].bl, loop)
      ensures found ==> (closeFrom.Some? <==> CapturedFrom(captured, |fs| - 1, fs[|fs|-1], fs[|fs|-1].bl[loop].nactvar))
      ensures found && closeFrom.Some? ==> closeFrom.value == fs[|fs|-1].bl[loop].nactvar
    {
      hide BlocksOk, Home, CapturedOk, CapturedFrom;
      var bl := fs[|fs|-1].bl;
      var upval := false;
      var i: int := |bl| - 1;
      closeFrom, loop := None, 0;
      while i >= 0 && !bl[i].isbreakable
        invariant -1 <= i < |bl| && forall b: nat | i < b < |bl| :: !bl[b].isbreakable
        invariant upval <==> exists b: nat :: i < b < |bl| && bl[b].upval
      {
        upval := upval || bl[i].upval;
        i := i - 1;
      }
      found := i >= 0;
      if found {
        loop := i;
        LoopLeft(captured, fs, loop);
        closeFrom := if upval then Some(bl[i].nactvar) else None;
      }
    }
  }

  function Marked(f: FuncState, r: nat): FuncState {
    var b := Home(f.bl, r);
    if b >= 0 then f.(bl := f.bl[b := f.bl[b].(upval := true)]) else f
  }

  function WithUpvalue(f: FuncState, u: UpvalDesc): FuncState {
    f.(upvalues := f.upvalues + [u])
  }

  /** The upvalue stands for the variable in register `r` of the function at depth `where`. */
  ghost predicate StandsFor(fs: Chain, level: nat, i: nat, where: nat, r: nat) {
    && UpvalsOk(fs) && level < |fs| && i < |fs[level].upvalues|
    && where < |fs| && r < |fs[where].actvar|
    && Captured(fs, level, i) == Decl(where, fs[where].actvar[r])
  }

  // ---------------------------------------------------------------- the steps of a search

  lemma NoLevel(fs: Chain, level: int, n: Name)
    requires level < 0
    ensures Undeclared(fs, level, n)
  {
  }

  lemma ActiveAt(captured: set<Var>, fs: Chain, level: nat)
    requires ScopeOk(captured, fs) && level < |fs|
    ensures ActiveOk(fs[level]) && UpvalsOk(fs)
  {
  }

  lemma FoundHere(fs: Chain, level: nat, n: Name, v: nat)
    requires Declares(fs, level, v, n) && forall r: nat | v < r :: !Declares(fs, level, r, n)
    ensures Innermost(fs, level, n, level, v)
  {
  }

  lemma NotFoundHere(fs: Chain, fs': Chain, level: nat, n: Name, where: nat, r: nat)
    requires Grows(fs, fs') && forall s: nat :: !Declares(fs, level, s, n)
    ensures Undeclared(fs', level - 1, n) ==> Undeclared(fs', level, n)
    ensures Innermost(fs', level - 1, n, where, r) ==> Innermost(fs', level, n, where, r)
  {
    DeclaresStays(fs, fs');
  }

  lemma FoundOutside(fs: Chain, level: nat, n: Name, k: VarKind, where: nat, r: nat)
    requires 0 < level < |fs| && Innermost(fs, level, n, where, r) && !k.Global?
    requires k.Local? ==> where == level - 1 && r == k.reg
    requires k.Upvalue? ==> StandsFor(fs, level - 1, k.index, where, r)
    ensures k.Local? ==> k.reg < |fs[level-1].actvar|
    ensures k.Upvalue? ==> k.index < |fs[level-1].upvalues|
    ensures where < |fs| && r < |fs[where].actvar|
  {
  }

  lemma StandsForToo(captured: set<Var>, fs: Chain, fs': Chain, level: nat, k: VarKind, i: nat, where: nat, r: nat)
    requires ScopeOk(captured, fs) && UpvalsOk(fs') && Grows(fs, fs') && 0 < level < |fs| && i < |fs'[level].upvalues|
    requires where < |fs| && r < |fs[where].actvar|
    requires !k.Global?
    requires k.Local? ==> where == level - 1 && r == k.reg && fs'[level].upvalues[i] == UpvalDesc(VLOCAL, k.reg)
    requires k.Upvalue? ==>
               StandsFor(fs, level - 1, k.index, where, r) && fs'[level].upvalues[i] == UpvalDesc(VUPVAL, k.index)
    ensures StandsFor(fs', level, i, where, r)
  {
    assert UpvalOk(fs', level, i);
    assert FuncGrows(fs[where], fs'[where]);
    if k.Upvalue? {
      CapturedStays(fs, fs', level - 1, k.index);
    }
  }

  lemma WithUpvalueOk(captured: set<Var>, fs: Chain, fs': Chain, level: nat, u: UpvalDesc)
    requires ScopeOk(captured, fs) && 0 < level < |fs| && |fs'| == |fs|
    requires forall l: nat | l < |fs| && l != level :: fs'[l] == fs[l]
    requires fs'[level] == fs[level] || (u !in fs[level].upvalues && fs'[level] == WithUpvalue(fs[level], u))
    requires u.info < if u.k == VLOCAL then |fs[level-1].actvar| else |fs[level-1].upvalues|
    ensures ScopeOk(captured, fs') && Grows(fs, fs') && UpvalsOk(fs')
  {
    hide BlocksOk;
    forall l: nat, i: nat | l < |fs'| && i < |fs'[l].upvalues| ensures UpvalOk(fs', l, i) {
      if l != level || i < |fs[l].upvalues| { assert UpvalOk(fs, l, i); }
    }
    forall l: nat, i: nat, j: nat | l < |fs'| && i < j < |fs'[l].upvalues| ensures fs'[l].upvalues[i] != fs'[l].upvalues[j] {
      if j < |fs[l].upvalues| { assert fs[l].upvalues[i] != fs[l].upvalues[j]; }
    }
    forall l: nat | l < |fs| ensures FuncGrows(fs[l], fs'[l]) && ActiveOk(fs'[l]) && BlocksOk(captured, l, fs'[l]) {
      assert ActiveOk(fs[l]) && BlocksOk(captured, l, fs[l]);
      SameBlocksOk(captured, l, fs[l], fs'[l]);
    }
  }

  lemma SameBlocksOk(captured: set<Var>, level: nat, f: FuncState, f': FuncState)
    requires f'.bl == f.bl && f'.actvar == f.actvar && f'.locvars == f.locvars
    ensures BlocksOk(captured, level, f') <==> BlocksOk(captured, level, f)
  {
    hide Home;
    forall b: nat | b < |f.bl| ensures MarkOk(captured, level, f', b) <==> MarkOk(captured, level, f, b) {
      forall r: nat ensures CapturedIn(captured, level, f', b, r) <==> CapturedIn(captured, level, f, b, r) {
      }
    }
    assert forall r: nat :: IsInternal(f', r) <==> IsInternal(f, r);
  }

  // ---------------------------------------------------------------- marks

  lemma {:induction false} SameHome(bl: seq<Block>, bl': seq<Block>, r: nat)
    requires SameBlocks(bl, bl')
    ensures Home(bl', r) == Home(bl, r)
  {
    if bl != [] { SameHome(bl[..|bl|-1], bl'[..|bl|-1], r); }
  }

  lemma MarkedSame(f: FuncState, r: nat)
    ensures FuncGrows(f, Marked(f, r)) && Marked(f, r).upvalues == f.upvalues
    ensures forall x: nat :: Home(Marked(f, r).bl, x) == Home(f.bl, x)
  {
    forall x: nat ensures Home(Marked(f, r).bl, x) == Home(f.bl, x) {
      SameHome(f.bl, Marked(f, r).bl, x);
    }
  }

  /** In the function of the captured variable just the home block of the variable is marked. */
  lemma MarkedBlocks(captured: set<Var>, level: nat, f: FuncState, r: nat)
    requires BlocksOk(captured, level, f) && ActiveOk(f) && r < |f.actvar|
    ensures BlocksOk(captured + {Decl(level, f.actvar[r])}, level, Marked(f, r))
  {
    hide Home;
    var f' := Marked(f, r);
    var captured' := captured + {Decl(level, f.actvar[r])};
    MarkedSame(f, r);
    forall b: nat | b < |f'.bl| ensures MarkOk(captured', level, f', b) {
      assert MarkOk(captured, level, f, b);
      if b == Home(f.bl, r) {
        assert CapturedIn(captured', level, f', b, r);
      } else {
        forall x: nat ensures CapturedIn(captured', level, f', b, x) <==> CapturedIn(captured, level, f, b, x) {
          if CapturedIn(captured', level, f', b, x) && f.actvar[x] == f.actvar[r] { SameRegister(f, x, r); }
        }
      }
    }
    forall x: nat | x < |f'.actvar| && Home(f'.bl, x) >= 0 && f'.bl[Home(f'.bl, x)].isbreakable ensures IsInternal(f', x) {
      assert IsInternal(f, x);
    }
  }

  lemma OtherLevel(captured: set<Var>, level: nat, f: FuncState, v: Var)
    requires BlocksOk(captured, level, f) && v.level != level
    ensures BlocksOk(captured + {v}, level, f)
  {
    forall b: nat | b < |f.bl| ensures MarkOk(captured + {v}, level, f, b) {
      assert MarkOk(captured, level, f, b);
      forall x: nat ensures CapturedIn(captured + {v}, level, f, b, x) <==> CapturedIn(captured, level, f, b, x) {
      }
    }
  }

  lemma MarkedOk(captured: set<Var>, fs: Chain, fs': Chain, level: nat, r: nat, n: Name)
    requires ScopeOk(captured, fs) && Declares(fs, level, r, n) && n.Name? && |fs'| == |fs|
    requires (forall l: nat | l < |fs| && l != level :: fs'[l] == fs[l]) && fs'[level] == Marked(fs[level], r)
    ensures Grows(fs, fs') && Declares(fs', level, r, n)
    ensures ScopeOk(captured + {Decl(level, fs'[level].actvar[r])}, fs')
  {
    hide BlocksOk, Marked;
    MarkedSame(fs[level], r);
    var v := Decl(level, fs[level].actvar[r]);
    forall l: nat | l < |fs| ensures FuncGrows(fs[l], fs'[l]) && ActiveOk(fs'[l]) && BlocksOk(captured + {v}, l, fs'[l]) {
      assert ActiveOk(fs[l]) && BlocksOk(captured, l, fs[l]);
      if l == level { MarkedBlocks(captured, l, fs[l], r); } else { OtherLevel(captured, l, fs[l], v); }
    }
    forall l: nat, i: nat | l < |fs'| && i < |fs'[l].upvalues| ensures UpvalOk(fs', l, i) {
      assert UpvalOk(fs, l, i);
    }
    assert Distinct(fs');
  }

  // ---------------------------------------------------------------- functions and blocks

  function WithLocal(f: FuncState, n: Name): FuncState {
    f.(locvars := f.locvars + [n], actvar := f.actvar + [|f.locvars|])
  }

  function WithBlock(f: FuncState, isbreakable: bool): FuncState {
    f.(bl := f.bl + [Block(|f.actvar|, false, isbreakable)])
  }

  /** removevars, and the block is gone. */
  function WithoutBlock(f: FuncState): FuncState
    requires f.bl != []
  {
    var n := f.bl[|f.bl|-1].nactvar;
    f.(bl := f.bl[..|f.bl|-1], actvar := if n <= |f.actvar| then f.actvar[..n] else f.actvar)
  }

  predicate InLoopBlock(f: FuncState) {
    f.bl != [] && f.bl[|f.bl|-1].isbreakable
  }

  ghost predicate HasLoop(bl: seq<Block>) {
    exists b: nat :: b < |bl| && bl[b].isbreakable
  }

  predicate IsInnerLoop(bl: seq<Block>, b: nat) {
    b < |bl| && bl[b].isbreakable && forall c: nat | b < c < |bl| :: !bl[c].isbreakable
  }

  /** Some active variable in a register from `from` on was captured. */
  ghost predicate CapturedFrom(captured: set<Var>, level: nat, f: FuncState, from: nat) {
    exists r: nat :: from <= r < |f.actvar| && Decl(level, f.actvar[r]) in captured
  }

  lemma OpenOk(captured: set<Var>, fs: Chain)
    requires ScopeOk(captured, fs)
    ensures ScopeOk(captured, fs + [FuncState([], [], [], [])])
  {
    hide Home, BlocksOk;
    var f: FuncState := FuncState([], [], [], []);
    var fs' := fs + [f];
    EmptyBlocks(captured, |fs|, f);
    forall l: nat | l < |fs'| ensures ActiveOk(fs'[l]) && BlocksOk(captured, l, fs'[l]) {
      if l < |fs| { assert ActiveOk(fs[l]) && BlocksOk(captured, l, fs[l]); }
    }
    forall l: nat, i: nat | l < |fs'| && i < |fs'[l].upvalues| ensures UpvalOk(fs', l, i) {
      assert UpvalOk(fs, l, i);
    }
  }

  lemma EmptyBlocks(captured: set<Var>, level: nat, f: FuncState)
    requires f == FuncState([], [], [], [])
    ensures BlocksOk(captured, level, f)
  {
  }

  lemma CloseOk(captured: set<Var>, captured': set<Var>, fs: Chain)
    requires ScopeOk(captured, fs) && 0 < |fs| && captured' == set v | v in captured && v.level < |fs| - 1
    ensures ScopeOk(captured', fs[..|fs|-1])
  {
    hide Home, BlocksOk;
    var fs' := fs[..|fs|-1];
    forall l: nat | l < |fs'| ensures ActiveOk(fs'[l]) && BlocksOk(captured', l, fs'[l]) {
      assert ActiveOk(fs[l]) && BlocksOk(captured, l, fs[l]);
      FewerCaptured(captured, captured', l, fs[l]);
    }
    forall l: nat, i: nat | l < |fs'| && i < |fs'[l].upvalues| ensures UpvalOk(fs', l, i) {
      assert UpvalOk(fs, l, i);
    }
    assert Distinct(fs');
  }

  lemma FewerCaptured(captured: set<Var>, captured': set<Var>, level: nat, f: FuncState)
    requires BlocksOk(captured, level, f) && forall i :: Decl(level, i) in captured' <==> Decl(level, i) in captured
    ensures BlocksOk(captured', level, f)
  {
    forall b: nat | b < |f.bl| ensures MarkOk(captured', level, f, b) {
      assert MarkOk(captured, level, f, b);
      forall x: nat ensures CapturedIn(captured', level, f, b, x) <==> CapturedIn(captured, level, f, b, x) {
      }
    }
  }

  /** The current function changes its variables and blocks, but not its upvalues. */
  lemma LastChanged(captured: set<Var>, fs: Chain, f: FuncState)
    requires ScopeOk(captured, fs) && 0 < |fs| && f.upvalues == fs[|fs|-1].upvalues && ActiveOk(f)
    requires BlocksOk(captured, |fs| - 1, f)
    requires |f.locvars| >= |fs[|fs|-1].locvars| && f.locvars[..|fs[|fs|-1].locvars|] == fs[|fs|-1].locvars
    ensures ScopeOk(captured, fs[|fs|-1 := f])
  {
    hide Home, BlocksOk;
    var fs' := fs[|fs|-1 := f];
    forall l: nat | l < |fs'| ensures ActiveOk(fs'[l]) && BlocksOk(captured, l, fs'[l]) {
      if l < |fs| - 1 { assert ActiveOk(fs[l]) && BlocksOk(captured, l, fs[l]); }
    }
    forall l: nat, i: nat | l < |fs'| && i < |fs'[l].upvalues| ensures UpvalOk(fs', l, i) {
      assert UpvalOk(fs, l, i);
    }
    forall v | v in captured ensures v.level < |fs'| && v.index < |fs'[v.level].locvars| && fs'[v.level].locvars[v.index].Name? {
      if v.level == |fs| - 1 { assert f.locvars[..|fs[|fs|-1].locvars|][v.index] == f.locvars[v.index]; }
    }
    assert Distinct(fs') by {
      forall l: nat, i: nat, j: nat | l < |fs'| && i < j < |fs'[l].upvalues| ensures fs'[l].upvalues[i] != fs'[l].upvalues[j] {
        assert fs[l].upvalues[i] != fs[l].upvalues[j];
      }
    }
  }

  lemma LastOk(captured: set<Var>, fs: Chain)
    requires ScopeOk(captured, fs) && 0 < |fs|
    ensures ActiveOk(fs[|fs|-1]) && BlocksOk(captured, |fs| - 1, fs[|fs|-1])
    ensures forall v | v in captured && v.level == |fs| - 1 :: v.index < |fs[|fs|-1].locvars| && fs[|fs|-1].locvars[v.index].Name?
  {
  }

  lemma DeclareOk(captured: set<Var>, fs: Chain, n: Name)
    requires ScopeOk(captured, fs) && 0 < |fs| && (InLoopBlock(fs[|fs|-1]) ==> n.Internal?)
    ensures ScopeOk(captured, fs[|fs|-1 := WithLocal(fs[|fs|-1], n)])
    ensures ActiveOk(fs[|fs|-1])
  {
    LastOk(captured, fs);
    hide ScopeOk;
    var f := fs[|fs|-1];
    var f' := WithLocal(f, n);
    var level := |fs| - 1;
    forall b: nat | b < |f'.bl| ensures MarkOk(captured, level, f', b) {
      assert MarkOk(captured, level, f, b);
      forall x: nat ensures CapturedIn(captured, level, f', b, x) <==> CapturedIn(captured, level, f, b, x) {
      }
    }
    HomeOfNew(f.bl, |f.actvar|);
    forall x: nat | x < |f'.actvar| && Home(f'.bl, x) >= 0 && f'.bl[Home(f'.bl, x)].isbreakable ensures IsInternal(f', x) {
      if x < |f.actvar| { assert IsInternal(f, x); }
    }
    LastChanged(captured, fs, f');
  }

  lemma HomeOfNew(bl: seq<Block>, r: nat)
    requires forall b: nat | b < |bl| :: bl[b].nactvar <= r
    ensures Home(bl, r) == |bl| - 1
  {
  }

  lemma EnterOk(captured: set<Var>, fs: Chain, isbreakable: bool)
    requires ScopeOk(captured, fs) && 0 < |fs|
    ensures ScopeOk(captured, fs[|fs|-1 := WithBlock(fs[|fs|-1], isbreakable)])
  {
    LastOk(captured, fs);
    hide ScopeOk;
    var f := fs[|fs|-1];
    var f' := WithBlock(f, isbreakable);
    var level := |fs| - 1;
    assert f'.bl[..|f'.bl|-1] == f.bl;
    assert forall x: nat | x < |f.actvar| :: Home(f'.bl, x) == Home(f.bl, x);
    forall b: nat | b < |f'.bl| ensures MarkOk(captured, level, f', b) {
      if b < |f.bl| {
        assert MarkOk(captured, level, f, b);
        forall x: nat ensures CapturedIn(captured, level, f', b, x) <==> CapturedIn(captured, level, f, b, x) {
        }
      }
    }
    forall x: nat | x < |f'.actvar| && Home(f'.bl, x) >= 0 && f'.bl[Home(f'.bl, x)].isbreakable ensures IsInternal(f', x) {
      assert IsInternal(f, x);
    }
    LastChanged(captured, fs, f');
  }

  lemma LeaveOk(captured: set<Var>, fs: Chain)
    requires ScopeOk(captured, fs) && 0 < |fs| && fs[|fs|-1].bl != []
    ensures ScopeOk(captured, fs[|fs|-1 := WithoutBlock(fs[|fs|-1])])
    ensures var f := fs[|fs|-1]; var b := f.bl[|f.bl|-1];
            b.nactvar == |WithoutBlock(f).actvar| && (b.upval <==> CapturedFrom(captured, |fs| - 1, f, b.nactvar))
  {
    LastOk(captured, fs);
    hide ScopeOk;
    var f := fs[|fs|-1];
    var f' := WithoutBlock(f);
    var level := |fs| - 1;
    var top := |f.bl| - 1;
    assert MarkOk(captured, level, f, top);
    forall r: nat | r < |f.actvar| ensures Home(f.bl, r) == (if f.bl[top].nactvar <= r then top else Home(f'.bl, r)) {
    }
    if CapturedFrom(captured, level, f, f.bl[top].nactvar) {
      var r: nat :| f.bl[top].nactvar <= r < |f.actvar| && Decl(level, f.actvar[r]) in captured;
      assert CapturedIn(captured, level, f, top, r);
    }
    forall b: nat | b < |f'.bl| ensures MarkOk(captured, level, f', b) {
      assert MarkOk(captured, level, f, b);
      forall x: nat ensures CapturedIn(captured, level, f', b, x) <==> CapturedIn(captured, level, f, b, x) {
      }
    }
    forall x: nat | x < |f'.actvar| && Home(f'.bl, x) >= 0 && f'.bl[Home(f'.bl, x)].isbreakable ensures IsInternal(f', x) {
      assert IsInternal(f, x);
    }
    LastChanged(captured, fs, f');
  }

  lemma {:induction false} HomeAbove(bl: seq<Block>, b: nat, r: nat)
    requires b < |bl| && forall c: nat, d: nat | c < d < |bl| :: bl[c].nactvar <= bl[d].nactvar
    ensures bl[b].nactvar <= r <==> b <= Home(bl, r)
  {
    var top := |bl| - 1;
    if b < top && bl[top].nactvar > r {
      assert bl[..top][b] == bl[b];
      HomeAbove(bl[..top], b, r);
    }
  }

  /** A captured variable inside a loop is not in the block of the loop itself, so an inner block is marked. */
  lemma CapturedIsMarked(captured: set<Var>, level: nat, f: FuncState, loop: nat, r: nat)
    requires BlocksOk(captured, level, f) && loop < |f.bl| && f.bl[loop].isbreakable && !IsInternal(f, r)
    requires f.bl[loop].nactvar <= r < |f.actvar| && Decl(level, f.actvar[r]) in captured
    ensures loop < Home(f.bl, r) && f.bl[Home(f.bl, r)].upval
  {
    HomeAbove(f.bl, loop, r);
    hide Home;
    var b: nat := Home(f.bl, r);
    assert CapturedIn(captured, level, f, b, r) && MarkOk(captured, level, f, b);
  }

  lemma MarkedIsCaptured(captured: set<Var>, level: nat, f: FuncState, loop: nat, b: nat)
    requires BlocksOk(captured, level, f) && loop < b < |f.bl| && f.bl[b].upval
    ensures CapturedFrom(captured, level, f, f.bl[loop].nactvar)
  {
    hide Home, IsInternal;
    assert MarkOk(captured, level, f, b);
    var r: nat :| CapturedIn(captured, level, f, b, r);
    HomeAbove(f.bl, b, r);
    assert f.bl[loop].nactvar <= f.bl[b].nactvar <= r;
  }

  lemma NotInternal(captured: set<Var>, fs: Chain, r: nat)
    requires ScopeOk(captured, fs) && 0 < |fs| && r < |fs[|fs|-1].actvar| && Decl(|fs| - 1, fs[|fs|-1].actvar[r]) in captured
    ensures !IsInternal(fs[|fs|-1], r)
  {
    LastOk(captured, fs);
  }

  /** The blocks inside a loop are marked exactly if a variable inside the loop was captured. */
  lemma LoopLeft(captured: set<Var>, fs: Chain, loop: nat)
    requires ScopeOk(captured, fs) && 0 < |fs| && IsInnerLoop(fs[|fs|-1].bl, loop)
    ensures var f := fs[|fs|-1];
            CapturedFrom(captured, |fs| - 1, f, f.bl[loop].nactvar) <==> exists b: nat :: loop < b < |f.bl| && f.bl[b].upval
  {
    LastOk(captured, fs);
    hide ScopeOk, Home, BlocksOk, ActiveOk, IsInternal;
    var f := fs[|fs|-1];
    var level := |fs| - 1;
    if CapturedFrom(captured, level, f, f.bl[loop].nactvar) {
      var r: nat :| f.bl[loop].nactvar <= r < |f.actvar| && Decl(level, f.actvar[r]) in captured;
      NotInternal(captured, fs, r);
      CapturedIsMarked(captured, level, f, loop, r);
    }
    if b: nat :| loop < b < |f.bl| && f.bl[b].upval {
      MarkedIsCaptured(captured, level, f, loop, b);
    }
  }
}
