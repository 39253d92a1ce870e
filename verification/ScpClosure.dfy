/** Closures: the words that pushclosure (lparser.c) makes and what OP_CLOSURE (lvm.c) does with them. */
module ScpClosure {
  import opened ScpChain

  /** A variable on the heap or in an open register, which closures share. */
  type Cell = nat

  /** The words behind a CLOSURE. */
  datatype Word = Move(b: nat) | GetUpval(b: nat)

  /** The loop of pushclosure. */
  method PushClosure(upvalues: seq<UpvalDesc>) returns (words: seq<Word>)
    ensures words == WordsOf(upvalues)
  {
    words := [];
    var i: nat := 0;
    while i < |upvalues|
      invariant i <= |upvalues| && words == WordsOf(upvalues)[..i]
    {
      words := words + [if upvalues[i].k == VLOCAL then Move(upvalues[i].info) else GetUpval(upvalues[i].info)];
      i := i + 1;
    }
  }

  function WordsOf(upvalues: seq<UpvalDesc>): seq<Word> {
    seq(|upvalues|, i requires 0 <= i < |upvalues| =>
      if upvalues[i].k == VLOCAL then Move(upvalues[i].info) else GetUpval(upvalues[i].info))
  }

  /** The words name registers and upvalues of the running function. */
  predicate WordsOk(words: seq<Word>, regs: seq<Cell>, upvals: seq<Cell>) {
    forall j | 0 <= j < |words| :: match words[j] case Move(b) => b < |regs| case GetUpval(b) => b < |upvals|
  }

  /** OP_CLOSURE: the cells of a new closure; `regs` are those that luaF_findupval gives for the registers. */
  method NewClosure(words: seq<Word>, regs: seq<Cell>, upvals: seq<Cell>) returns (cells: seq<Cell>)
    requires WordsOk(words, regs, upvals)
    ensures cells == CellsOf(words, regs, upvals)
  {
    cells := [];
    var j: nat := 0;
    while j < |words|
      invariant j <= |words| && cells == CellsOf(words, regs, upvals)[..j]
    {
      match words[j] {
        case GetUpval(b) => cells := cells + [upvals[b]];
        case Move(b) => cells := cells + [regs[b]];
      }
      j := j + 1;
    }
  }

  function CellsOf(words: seq<Word>, regs: seq<Cell>, upvals: seq<Cell>): seq<Cell>
    requires WordsOk(words, regs, upvals)
  {
    seq(|words|, j requires 0 <= j < |words| => match words[j] case Move(b) => regs[b] case GetUpval(b) => upvals[b])
  }

  // ---------------------------------------------------------------- the cell of a name

  /** An activation of a function: its registers hold the cells of its active variables. */
  ghost predicate RegsOk(fs: Chain, level: nat, regs: seq<Cell>, cell: Var -> Cell)
    requires level < |fs|
  {
    |fs[level].actvar| <= |regs| && forall r: nat | r < |fs[level].actvar| :: regs[r] == cell(Decl(level, fs[level].actvar[r]))
  }

  /** Its closure holds the cells of the variables that its upvalues stand for. */
  ghost predicate UpvalsHold(fs: Chain, level: nat, upvals: seq<Cell>, cell: Var -> Cell)
    requires UpvalsOk(fs) && level < |fs|
  {
    |fs[level].upvalues| <= |upvals| && forall i: nat | i < |fs[level].upvalues| :: upvals[i] == cell(Captured(fs, level, i))
  }

  /** A closure made in such an activation holds the right cells, too. */
  lemma ClosureHolds(fs: Chain, level: nat, regs: seq<Cell>, upvals: seq<Cell>, cell: Var -> Cell)
    requires UpvalsOk(fs) && 0 < level < |fs|
    requires RegsOk(fs, level - 1, regs, cell) && UpvalsHold(fs, level - 1, upvals, cell)
    ensures WordsOk(WordsOf(fs[level].upvalues), regs, upvals)
    ensures UpvalsHold(fs, level, CellsOf(WordsOf(fs[level].upvalues), regs, upvals), cell)
  {
    var words := WordsOf(fs[level].upvalues);
    assert forall i: nat | i < |fs[level].upvalues| :: UpvalOk(fs, level, i);
    forall j: nat | j < |words| ensures match words[j] case Move(b) => b < |regs| case GetUpval(b) => b < |upvals| {
      assert UpvalOk(fs, level, j);
    }
    forall i: nat | i < |words| ensures CellsOf(words, regs, upvals)[i] == cell(Captured(fs, level, i)) {
      assert UpvalOk(fs, level, i);
    }
  }

  /** A nest of activations, each closure made by the code of the enclosing function while that was running. */
  ghost predicate Nest(fs: Chain, regs: seq<seq<Cell>>, upvals: seq<seq<Cell>>, cell: Var -> Cell) {
    && |regs| == |fs| && |upvals| == |fs|
    && (forall l: nat | l < |fs| :: RegsOk(fs, l, regs[l], cell))
    && forall l: nat | 0 < l < |fs| ::
         var words := WordsOf(fs[l].upvalues);
         WordsOk(words, regs[l-1], upvals[l-1]) ==> upvals[l] == CellsOf(words, regs[l-1], upvals[l-1])
  }

  /** The main function has no upvalues. */
  lemma MainHasNone(fs: Chain)
    requires UpvalsOk(fs) && 0 < |fs|
    ensures fs[0].upvalues == []
  {
    assert fs[0].upvalues != [] ==> UpvalOk(fs, 0, 0);
  }

  lemma {:induction false} NestHolds(fs: Chain, regs: seq<seq<Cell>>, upvals: seq<seq<Cell>>, cell: Var -> Cell, level: nat)
    requires UpvalsOk(fs) && Nest(fs, regs, upvals, cell) && level < |fs|
    ensures UpvalsHold(fs, level, upvals[level], cell)
  {
    if level == 0 {
      MainHasNone(fs);
    } else {
      NestHolds(fs, regs, upvals, cell, level - 1);
      ClosureHolds(fs, level, regs[level-1], upvals[level-1], cell);
    }
  }

  /**
   * Every function of a nest reaches a variable through its upvalue at the same cell as the function that
   * declares it reaches it in its register; so do two functions with upvalues for the same variable.
   */
  lemma SharedCell(fs: Chain, regs: seq<seq<Cell>>, upvals: seq<seq<Cell>>, cell: Var -> Cell,
                   level: nat, i: nat, where: nat, r: nat)
    requires UpvalsOk(fs) && Nest(fs, regs, upvals, cell)
    requires level < |fs| && i < |fs[level].upvalues| && where < |fs| && r < |fs[where].actvar|
    requires Captured(fs, level, i) == Decl(where, fs[where].actvar[r])
    ensures i < |upvals[level]| && r < |regs[where]| && upvals[level][i] == regs[where][r]
  {
    NestHolds(fs, regs, upvals, cell, level);
    assert RegsOk(fs, where, regs[where], cell);
  }
}
