/** The virtual machine on the words in memory: once no jump waits, they do what the model of the code does. */
module CgWords {
  import opened CgCode
  import opened CgState
  import opened CgLists
  import opened CgExp
  import opened CgArith
  import opened CgCompile
  import opened CgTheorems
  import opened CgReg
  import opened Wrappers

  /** dojump: the target of the jump at `j`, counted from the instruction after it. */
  function Dest(code: seq<Word>, j: nat): Option<nat> {
    if j < |code| && code[j].Jmp? && 0 <= code[j].dest then Some(j + 1 + code[j].dest) else None
  }

  /** luaV_execute on words; a backward jump does not occur in the code of an expression. */
  function Execute(m: Ops, code: seq<Word>, k: seq<Value>, pc: nat, r: Regs): Outcome
    decreases |code| - pc
  {
    if pc >= |code| then Here(r)
    else
      var i := code[pc];
      if i.Jmp? then
        (match Dest(code, pc) case None => At(pc, r) case Some(t) => Execute(m, code, k, t, r))
      else if IsTest(i) then
        if Taken(m, i, k, r) then
          (match Dest(code, pc + 1) case None => At(pc + 1, Copied(i, r)) case Some(t) => Execute(m, code, k, t, Copied(i, r)))
        else Execute(m, code, k, pc + 2, r)
      else Execute(m, code, k, pc + Width(i), Effect(m, i, k, r))
  }

  lemma SameInstruction(m: Ops, i: Instr, k: seq<Value>, r: Regs)
    ensures var w := Retarget(i, 0);
            && Effect(m, w, k, r) == Effect(m, i, k, r) && Taken(m, w, k, r) == Taken(m, i, k, r)
            && Copied(w, r) == Copied(i, r) && Width(w) == Width(i) && IsTest(w) == IsTest(i) && w.Jmp? == i.Jmp?
  {
  }

  lemma SameDest(code: seq<Word>, model: Code, j: nat)
    requires Encodes(code, model) && CodeOk(model) && Target(model, j).Some?
    ensures Dest(code, j) == Target(model, j)
  {
    assert EncodesAt(code, model, j);
  }

  /** Control that gets to the end of the model gets there in the words, with the same registers. */
  lemma {:induction false} ExecuteRuns(m: Ops, code: seq<Word>, model: Code, k: seq<Value>, pc: nat, r: Regs)
    requires Encodes(code, model) && CodeOk(model) && Run(m, model, k, pc, r).Here?
    ensures Execute(m, code, k, pc, r) == Run(m, model, k, pc, r)
    decreases |model| - pc
  {
    hide Effect, Taken, Copied, CodeOk, Encodes, Dest;
    assert |code| == |model| by { LengthOf(code, model); }
    if pc < |model| {
      var i := model[pc];
      EncodesTest(code, model, pc);
      SameInstruction(m, i, k, r);
      NextOk(model, pc);
      if i.Jmp? {
        SameDest(code, model, pc);
        ExecuteRuns(m, code, model, k, Target(model, pc).value, r);
      } else if IsTest(i) {
        if !Taken(m, i, k, r) {
          ExecuteRuns(m, code, model, k, pc + 2, r);
        } else {
          SameDest(code, model, pc + 1);
          ExecuteRuns(m, code, model, k, Target(model, pc + 1).value, Copied(i, r));
        }
      } else {
        ExecuteRuns(m, code, model, k, pc + Width(i), Effect(m, i, k, r));
      }
    }
  }

  lemma LengthOf(code: seq<Word>, model: Code)
    requires Encodes(code, model)
    ensures |code| == |model|
  {
  }

  /** Words whose jumps to here are settled do what the model says of the code so far. */
  lemma ExecuteSettled(m: Ops, fs: Fs, words: seq<Word>, start: Regs)
    requires FsOk(fs) && Behave(m, fs, start).Here? && Encodes(words, Discharge(fs).code)
    ensures Execute(m, words, fs.k, 0, start) == Behave(m, fs, start)
  {
    hide FsOk, Encodes, Run, Execute;
    DischargeOk(fs);
    DischargeRuns(m, fs, start);
    DischargedCode(Discharge(fs));
    DischargedRun(m, Discharge(fs), start);
    ExecuteRuns(m, words, Discharge(fs).code, fs.k, 0, start);
  }

  /**
   * The value theorem on the words: when the jumps to the next instruction have been settled, the
   * virtual machine leaves the value of the expression in the first free register and changes no
   * register below it.
   */
  lemma ExecuteValue(m: Ops, fs: Fs, e: Expr, words: seq<Word>, start: Regs)
    requires CanCompile(fs, e) && FreshFrame(start, fs.nactvar) && NumbersOk(m) && ExactIn(m, fs, e, start)
    requires Behave(m, fs, start).Here?
    requires Encodes(words, Discharge(ToNextReg(fs, e).0).code)
    ensures var r := Behave(m, fs, start).regs; var o := Execute(m, words, ToNextReg(fs, e).0.k, 0, start);
            o.Here? && Get(o.regs, fs.freereg) == Eval(m, e, r) && SameBelow(r, o.regs, fs.freereg)
  {
    hide FsOk, Grows, ExactIn, ToNextReg, Encodes, Eval, Execute, Discharge;
    ValueTheorem(m, fs, e, start);
    ExecuteSettled(m, ToNextReg(fs, e).0, words, start);
  }

  lemma DischargedCode(fs: Fs)
    requires FsOk(fs)
    ensures CodeOk(fs.code)
  {
  }

  lemma DischargedRun(m: Ops, fs: Fs, start: Regs)
    requires fs.jpc == [] && Behave(m, fs, start).Here?
    ensures Run(m, fs.code, fs.k, 0, start) == Behave(m, fs, start)
  {
  }
}
