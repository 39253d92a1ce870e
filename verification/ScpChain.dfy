/** The chain of functions that are being compiled (lparser.c): their variables, blocks and upvalues. */
module ScpChain {

  /** A name of the source, or one that no source can mention, such as `(for index)`. */
  datatype Name = Name(id: nat) | Internal(id: nat)

  /** `upval`: some variable of the block is an upvalue of an inner function. */
  datatype Block = Block(nactvar: nat, upval: bool, isbreakable: bool)

  datatype Kind = VLOCAL | VUPVAL

  /** An upvalue: a register of the enclosing function, or an upvalue of it. */
  datatype UpvalDesc = UpvalDesc(k: Kind, info: nat)

  /** `actvar` maps the registers of the active variables to their declarations in `locvars`. */
  datatype FuncState = FuncState(locvars: seq<Name>, actvar: seq<nat>, bl: seq<Block>, upvalues: seq<UpvalDesc>)

  /** A declaration: the `index`-th of the function at depth `level`. */
  datatype Var = Decl(level: nat, index: nat)

  /** The main function is at depth 0; the one being compiled is the last. */
  type Chain = seq<FuncState>

  // ---------------------------------------------------------------- well-formed chains

  ghost predicate UpvalOk(fs: Chain, level: nat, i: nat)
    requires level < |fs| && i < |fs[level].upvalues|
  {
    0 < level &&
    var u := fs[level].upvalues[i];
    u.info < if u.k == VLOCAL then |fs[level-1].actvar| else |fs[level-1].upvalues|
  }

  ghost predicate UpvalsOk(fs: Chain) {
    forall level: nat, i: nat | level < |fs| && i < |fs[level].upvalues| :: UpvalOk(fs, level, i)
  }

  /** indexupvalue never makes the same entry twice. */
  ghost predicate Distinct(fs: Chain) {
    forall level: nat, i: nat, j: nat | level < |fs| && i < j < |fs[level].upvalues| ::
      fs[level].upvalues[i] != fs[level].upvalues[j]
  }

  ghost predicate ActiveOk(f: FuncState) {
    && (forall r: nat | r < |f.actvar| :: f.actvar[r] < |f.locvars|)
    && (forall r: nat, s: nat | r < s < |f.actvar| :: f.actvar[r] < f.actvar[s])
  }

  ghost predicate AllActiveOk(fs: Chain) {
    forall level: nat | level < |fs| :: ActiveOk(fs[level])
  }

  ghost predicate ChainOk(fs: Chain) {
    UpvalsOk(fs) && Distinct(fs) && AllActiveOk(fs)
  }

  // ---------------------------------------------------------------- what names and upvalues mean

  ghost predicate Declares(fs: Chain, level: nat, r: nat, n: Name) {
    && level < |fs| && r < |fs[level].actvar| && fs[level].actvar[r] < |fs[level].locvars|
    && fs[level].locvars[fs[level].actvar[r]] == n
  }

  /** No declaration of the name is visible from the function at depth `top`. */
  ghost predicate Undeclared(fs: Chain, top: int, n: Name) {
    forall level: nat, r: nat | level <= top :: !Declares(fs, level, r, n)
  }

  /** The innermost visible declaration of a name: no function further in and no later variable has it. */
  ghost predicate Innermost(fs: Chain, top: int, n: Name, level: nat, r: nat) {
    && level <= top && Declares(fs, level, r, n)
    && forall l: nat, s: nat | l <= top && (level < l || (l == level && r < s)) :: !Declares(fs, l, s, n)
  }

  /** The variable that an upvalue stands for, along the chain of functions. */
  ghost function Captured(fs: Chain, level: nat, i: nat): Var
    requires UpvalsOk(fs) && level < |fs| && i < |fs[level].upvalues|
    decreases level
  {
    assert UpvalOk(fs, level, i);
    var u := fs[level].upvalues[i];
    if u.k == VLOCAL then Decl(level - 1, fs[level-1].actvar[u.info]) else Captured(fs, level - 1, u.info)
  }

  /** An upvalue stands for a variable of a function further out. */
  lemma {:induction false} CapturedOutside(fs: Chain, level: nat, i: nat)
    requires UpvalsOk(fs) && level < |fs| && i < |fs[level].upvalues|
    ensures Captured(fs, level, i).level < level
    decreases level
  {
    assert UpvalOk(fs, level, i);
    if fs[level].upvalues[i].k == VUPVAL {
      CapturedOutside(fs, level - 1, fs[level].upvalues[i].info);
    }
  }

  /** A function has at most one upvalue for a variable. */
  lemma {:induction false} OneUpvalue(fs: Chain, level: nat, i: nat, j: nat)
    requires ChainOk(fs) && level < |fs| && i < |fs[level].upvalues| && j < |fs[level].upvalues|
    requires Captured(fs, level, i) == Captured(fs, level, j)
    ensures i == j
    decreases level
  {
    assert UpvalOk(fs, level, i) && UpvalOk(fs, level, j);
    var u, w := fs[level].upvalues[i], fs[level].upvalues[j];
    if u.k == VUPVAL && w.k == VUPVAL {
      OneUpvalue(fs, level - 1, u.info, w.info);
    } else if u.k == VUPVAL {
      CapturedOutside(fs, level - 1, u.info);
    } else if w.k == VUPVAL {
      CapturedOutside(fs, level - 1, w.info);
    } else {
      assert ActiveOk(fs[level-1]);
      SameRegister(fs[level-1], u.info, w.info);
    }
    assert u == w;
  }

  lemma SameRegister(f: FuncState, r: nat, s: nat)
    requires ActiveOk(f) && r < |f.actvar| && s < |f.actvar| && f.actvar[r] == f.actvar[s]
    ensures r == s
  {
  }

  // ---------------------------------------------------------------- the growth of a chain by a search

  predicate SameBlocks(b: seq<Block>, b': seq<Block>) {
    |b'| == |b| && forall i: nat | i < |b| :: b'[i].nactvar == b[i].nactvar && b'[i].isbreakable == b[i].isbreakable
  }

  /** Upvalues are added at the end and blocks are marked; nothing else changes. */
  ghost predicate FuncGrows(f: FuncState, f': FuncState) {
    && f'.locvars == f.locvars && f'.actvar == f.actvar && SameBlocks(f.bl, f'.bl)
    && |f.upvalues| <= |f'.upvalues| && f'.upvalues[..|f.upvalues|] == f.upvalues
  }

  ghost predicate Grows(fs: Chain, fs': Chain) {
    |fs'| == |fs| && forall l: nat | l < |fs| :: FuncGrows(fs[l], fs'[l])
  }

  lemma GrowsMore(a: Chain, b: Chain, c: Chain)
    requires Grows(a, b) && Grows(b, c)
    ensures Grows(a, c)
  {
    forall l: nat | l < |a| ensures FuncGrows(a[l], c[l]) {
      assert FuncGrows(a[l], b[l]) && FuncGrows(b[l], c[l]);
      assert c[l].upvalues[..|a[l].upvalues|] == b[l].upvalues[..|a[l].upvalues|];
    }
  }

  lemma GrowsNot(a: Chain)
    ensures Grows(a, a)
  {
  }

  /** The upvalues that were there stand for the same variables. */
  lemma {:induction false} CapturedStays(fs: Chain, fs': Chain, level: nat, i: nat)
    requires UpvalsOk(fs) && UpvalsOk(fs') && Grows(fs, fs') && level < |fs| && i < |fs[level].upvalues|
    ensures i < |fs'[level].upvalues| && Captured(fs', level, i) == Captured(fs, level, i)
    decreases level
  {
    assert FuncGrows(fs[level], fs'[level]) && UpvalOk(fs, level, i);
    assert fs'[level].upvalues[..|fs[level].upvalues|][i] == fs'[level].upvalues[i];
    assert FuncGrows(fs[level-1], fs'[level-1]);
    if fs[level].upvalues[i].k == VUPVAL {
      CapturedStays(fs, fs', level - 1, fs[level].upvalues[i].info);
    }
  }

  lemma DeclaresStays(fs: Chain, fs': Chain)
    requires Grows(fs, fs')
    ensures forall l: nat, r: nat, n :: Declares(fs', l, r, n) <==> Declares(fs, l, r, n)
  {
    forall l: nat, r: nat, n ensures Declares(fs', l, r, n) <==> Declares(fs, l, r, n) {
      assert l < |fs| ==> FuncGrows(fs[l], fs'[l]);
    }
  }

  lemma InnermostStays(fs: Chain, fs': Chain, top: int, n: Name, level: nat, r: nat)
    requires Grows(fs, fs')
    ensures Innermost(fs', top, n, level, r) <==> Innermost(fs, top, n, level, r)
    ensures Undeclared(fs', top, n) <==> Undeclared(fs, top, n)
  {
    DeclaresStays(fs, fs');
  }
}
