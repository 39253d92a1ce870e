/**
 * FuncState working on the code in place. Every method is the C function of the same name; its
 * contract says that the model it leaves is the one the specification functions define, and that
 * the lists threaded through the code are the lists of the model.
 */
module CgFuncState {
  import opened CgCode
  import opened CgState
  import opened CgLists
  import opened CgExp
  import opened CgReg
  import opened CgOperand
  import opened CgCond
  import opened CgNot
  import opened CgArith
  import opened CgCompile
  import opened CgTheorems
  import opened Wrappers

  /** expdesc: `t` and `f` are the heads of the lists. */
  datatype Desc = Desc(kind: Kind, t: int, f: int)

  ghost predicate Represents(code: seq<Word>, x: Desc, e: Exp) {
    && x.kind == e.kind && IsList(code, x.t, e.t) && IsList(code, x.f, e.f)
    && (e.kind.VJmp? ==> IsList(code, e.kind.jump, [e.kind.jump]))
  }

  /** The links of the jumps that wait on lists of others are not touched. */
  ghost predicate LinksKept(before: seq<Word>, after: seq<Word>, fs: Fs, own: set<nat>) {
    forall j: nat | j < |before| && j < |fs.code| && fs.code[j] == Jmp(None) && j !in fs.jpc && j !in own ::
      j < |after| && after[j] == before[j]
  }

  class FuncState {
    var code: seq<Word>
    var jpc: int
    var lasttarget: int
    var freereg: nat
    var nactvar: nat
    var k: seq<Value>
    var kcache: map<Value, nat>
    ghost var model: Fs

    ghost predicate Rep()
      reads this
    {
      && Encodes(code, model.code)
      && IsList(code, jpc, model.jpc) && Waiting(model.code, model.jpc)
      && SameFields()
    }

    ghost predicate SameFields()
      reads this
    {
      && lasttarget == model.lasttarget && freereg == model.freereg && nactvar == model.nactvar
      && k == model.k && kcache == model.kcache
    }

    /** open_func, with the active variables that are parameters. */
    constructor (parameters: nat)
      ensures Rep() && model == Fs([], [], -1, parameters, parameters, [], map[]) && FsOk(model)
    {
      code := [];
      jpc := NO_JUMP;
      lasttarget := -1;
      freereg, nactvar := parameters, parameters;
      k := [];
      kcache := map[];
      model := Fs([], [], -1, parameters, parameters, [], map[]);
    }

    // -------------------------------------------------------------- lists

    /** fixjump. */
    method FixJump(pc: nat, dest: int)
      requires pc < |code|
      modifies this`code
      ensures code == old(code)[pc := JumpTo(pc, dest)]
    {
      code := code[pc := JumpTo(pc, dest)];
    }

    /** luaK_concat. */
    method Concat(l1: int, l2: int, ghost a: seq<nat>, ghost b: seq<nat>) returns (l: int)
      requires Encodes(code, model.code) && Waiting(model.code, a)
      requires IsList(code, l1, a) && IsList(code, l2, b) && Disjoint(a, b)
      modifies this`code
      ensures Encodes(code, model.code) && IsList(code, l, a + b)
      ensures |code| == |old(code)| && forall j: nat | j < |code| && j !in a :: code[j] == old(code)[j]
    {
      assert a + [] == a && [] + b == b;
      if l2 == NO_JUMP {
        return l1;
      } else if l1 == NO_JUMP {
        return l2;
      }
      ListInCode(code, l1, a);
      var list: nat := l1;
      ghost var i: nat := 0;
      assert a[0..] == a;
      NextInList(code, a, 0);
      var next := GetJump(code, list);
      while next != NO_JUMP
        invariant i < |a| && list == a[i] && next == GetJump(code, a[i]) && code == old(code)
        invariant IsList(code, a[i], a[i..])
        decreases |a| - i
      {
        NextInList(code, a, i);
        list := next;
        i := i + 1;
        NextInList(code, a, i);
        next := GetJump(code, list);
      }
      NextInList(code, a, i);
      ListJoined(code, code[list := JumpTo(list, b[0])], l1, a, b, l2);
      EncodesSet(code, model.code, list, JumpTo(list, b[0]), model.code[list]);
      assert model.code[list := model.code[list]] == model.code;
      FixJump(list, l2);
      l := l1;
    }

    /** luaK_getlabel. */
    method GetLabel() returns (pc: nat)
      modifies this`lasttarget, this`model
      ensures model == Label(old(model)) && pc == |code| && lasttarget == |code|
    {
      lasttarget := |code|;
      model := Label(model);
      pc := |code|;
    }

    /** patchtestreg: whether the jump carries a value, and its test with the register it is to fill. */
    method PatchTestReg(node: nat, reg: Option<nat>) returns (carried: bool)
      requires Encodes(code, model.code) && node < |code| && code[node].Jmp?
      modifies this`code, this`model
      ensures carried == Carries(old(model).code, node)
      ensures model == old(model).(code := model.code) && Encodes(code, model.code)
      ensures model.code == if carried then old(model).code[node-1 := SettleTest(old(model).code[node-1], reg)] else old(model).code
      ensures forall j: nat | j < |code| && old(code)[j].Jmp? :: code[j] == old(code)[j]
    {
      EncodesTest(code, model.code, node);
      if node >= 1 { EncodesTest(code, model.code, node - 1); }
      var c := if node >= 1 && IsTest(code[node-1]) then node - 1 else node;
      var i := code[c];
      if !i.TestSet? {
        return false;
      }
      var w: Word := if reg.Some? && reg.value != i.b then TestSet(reg, i.b, i.c) else Test(i.b, i.c);
      EncodesSet(code, model.code, c, w, SettleTest(model.code[c], reg));
      code := code[c := w];
      model := model.(code := model.code[c := SettleTest(model.code[c], reg)]);
      carried := true;
    }

    /** One turn of the loop of patchlistaux. */
    method PatchNode(node: nat, vtarget: nat, reg: Option<nat>, dtarget: int, ghost d: Option<nat>)
      requires Encodes(code, model.code) && node < |code| && code[node].Jmp?
      requires if d.Some? then dtarget == d.value else Carries(model.code, node)
      modifies this`code, this`model
      ensures model == old(model).(code := PatchStep(old(model).code, node, reg, vtarget, d)) && Encodes(code, model.code)
      ensures forall j: nat | j < |code| && old(code)[j].Jmp? && j != node :: code[j] == old(code)[j]
    {
      hide SettleTest;
      EncodesTest(code, model.code, node);
      var carried := PatchTestReg(node, reg);
      ghost var x: Instr := if carried then Jmp(Some(vtarget)) else Jmp(d);
      var dest := if carried then vtarget else dtarget;
      EncodesSet(code, model.code, node, JumpTo(node, dest), x);
      FixJump(node, dest);
      model := model.(code := model.code[node := x]);
    }

    /** patchlistaux. */
    method PatchListAux(head: int, vtarget: nat, reg: Option<nat>, dtarget: int, ghost l: seq<nat>, ghost d: Option<nat>)
      requires Encodes(code, model.code) && IsList(code, head, l) && Waiting(model.code, l)
      requires l == [] || CodeOk(model.code)
      requires if d.Some? then dtarget == d.value else !NeedValue(model.code, l)
      modifies this`code, this`model
      ensures model == old(model).(code := Patch(old(model).code, l, reg, vtarget, d)) && Encodes(code, model.code)
      ensures forall j: nat | j < |code| && old(code)[j].Jmp? && j !in l :: code[j] == old(code)[j]
      ensures l == [] ==> code == old(code)
    {
      hide CodeOk, Encodes, IsList, PatchStep, PatchedAt;
      ghost var m0 := model.code;
      ghost var i: nat := 0;
      var list := head;
      assert l[..0] == [] && l[0..] == l;
      PatchNothing(m0, reg, vtarget, d);
      SameLength(code, m0);
      while list != NO_JUMP
        invariant i <= |l| && IsList(code, list, l[i..]) && |code| == |m0|
        invariant model == old(model).(code := Patch(m0, l[..i], reg, vtarget, d)) && Encodes(code, model.code)
        invariant forall j: nat | j < |code| && old(code)[j].Jmp? && j !in l[..i] :: code[j] == old(code)[j]
        invariant i == 0 ==> code == old(code)
        decreases |l| - i
      {
        HeadOf(code, list, l, i);
        var node: nat := list;
        var next := GetJump(code, node);
        ghost var before := code;
        StepFacts(m0, old(code), before, head, l, i, reg, vtarget, d);
        PatchNode(node, vtarget, reg, dtarget, d);
        SameLength(code, model.code);
        RestKept(before, code, l, i, next);
        list := next;
        i := i + 1;
      }
      NoMore(code, list, l, i);
    }

    /** removevalues. */
    method RemoveValuesOf(head: int, ghost l: seq<nat>)
      requires Encodes(code, model.code) && IsList(code, head, l) && Waiting(model.code, l)
      modifies this`code, this`model
      ensures model == old(model).(code := RemoveValues(old(model).code, l)) && Encodes(code, model.code)
      ensures forall j: nat | j < |code| && old(code)[j].Jmp? :: code[j] == old(code)[j]
    {
      hide Encodes, IsList, SettleTest, Carries;
      ghost var m0 := model.code;
      ghost var i: nat := 0;
      var list := head;
      assert l[..0] == [] && l[0..] == l && RemoveValues(m0, []) == m0;
      SameLength(code, m0);
      while list != NO_JUMP
        invariant i <= |l| && IsList(code, list, l[i..]) && |code| == |m0|
        invariant model == old(model).(code := RemoveValues(m0, l[..i])) && Encodes(code, model.code)
        invariant forall j: nat | j < |code| && old(code)[j].Jmp? :: code[j] == old(code)[j]
        decreases |l| - i
      {
        HeadOf(code, list, l, i);
        ghost var before := code;
        assert l[..i] + [l[i]] == l[..i+1];
        WaitingSome(m0, l, i + 1);
        RemoveOneMore(m0, l[..i], l[i]);
        NotAmong(old(code), head, l, i);
        var _ := PatchTestReg(list, None);
        SameLength(code, model.code);
        RestKept(before, code, l, i, GetJump(before, list));
        LinkKept(before, code, list);
        list := GetJump(code, list);
        i := i + 1;
      }
      NoMore(code, list, l, i);
    }

    /** need_value. */
    method NeedValueIn(head: int, ghost l: seq<nat>) returns (need: bool)
      requires Encodes(code, model.code) && IsList(code, head, l) && Waiting(model.code, l)
      ensures need == NeedValue(model.code, l)
    {
      ghost var i: nat := 0;
      var list := head;
      assert l[0..] == l;
      while list != NO_JUMP
        invariant i <= |l| && IsList(code, list, l[i..])
        invariant !NeedValue(model.code, l[..i])
        decreases |l| - i
      {
        HeadOf(code, list, l, i);
        var node: nat := list;
        if node >= 1 { EncodesTest(code, model.code, node - 1); }
        EncodesTest(code, model.code, node);
        var c := if node >= 1 && IsTest(code[node-1]) then node - 1 else node;
        assert l[..i+1] == l[..i] + [l[i]];
        if !code[c].TestSet? {
          assert l[i] in l && !Carries(model.code, l[i]);
          return true;
        }
        list := GetJump(code, node);
        i := i + 1;
      }
      NoMore(code, list, l, i);
      need := false;
    }

    // -------------------------------------------------------------- emitting code

    /** dischargejpc. */
    method DischargeJpc()
      requires Rep() && (model.jpc == [] || CodeOk(model.code))
      modifies this
      ensures Rep() && model == Discharge(old(model)) && |code| == |old(code)| && model.jpc == []
      ensures old(model).jpc == [] ==> code == old(code)
      ensures LinksKept(old(code), code, old(model), {})
    {
      hide CodeOk, PatchedAt;
      PatchListAux(jpc, |code|, None, |code|, model.jpc, Some(|model.code|));
      jpc := NO_JUMP;
      model := model.(jpc := []);
      WaitingAreJumps(old(code), old(model).code);
    }

    /** luaK_code. */
    method Code(w: Word) returns (pc: nat)
      requires Rep() && (model.jpc == [] || CodeOk(model.code)) && !w.Jmp?
      modifies this
      ensures Rep() && model == Emit(old(model), Retarget(w, None)) && pc == |old(code)| && model.jpc == []
      ensures old(model).jpc == [] ==> code == old(code) + [w]
      ensures LinksKept(old(code), code, old(model), {})
    {
      hide CodeOk, Discharge;
      DischargeJpc();
      EncodesAppend(code, model.code, w, Retarget(w, None));
      pc := |code|;
      code := code + [w];
      model := model.(code := model.code + [Retarget(w, None)]);
      SameLength(code, model.code);
    }

    /** luaK_jump. */
    method JumpHere() returns (j: int, ghost list: seq<nat>)
      requires Rep()
      modifies this
      ensures Rep() && (model, list) == Jump(old(model)) && IsList(code, j, list)
      ensures LinksKept(old(code), code, old(model), {})
    {
      var pending := jpc;
      ghost var waiting := model.jpc;
      jpc := NO_JUMP;
      AppendJump(code, model.code, waiting, pending);
      j := |code|;
      code := code + [Jmp(NO_JUMP)];
      model := model.(code := model.code + [Jmp(None)], jpc := []);
      ghost var me: nat := |code| - 1;
      j := Concat(j, pending, [me], waiting);
      list := [me] + waiting;
    }

    /** condjump. */
    method CondJumpTo(w: Word) returns (j: int)
      requires FsOk(model) && Rep() && IsTest(w) && FreshTest(Retarget(w, None)) && UsesK(Retarget(w, None), |model.k|)
      modifies this
      ensures Rep() && (model, j) == CondJump(old(model), Retarget(w, None)) && IsList(code, j, [j])
      ensures LinksKept(old(code), code, old(model), {})
    {
      hide FsOk, Discharge;
      ghost var fs := model;
      assert CodeOk(model.code) by { OkCode(model); }
      var _ := Code(w);
      ghost var gs := model;
      ghost var mid := code;
      EmitKeeps(fs, Retarget(w, None));
      SameLength(mid, gs.code);
      ghost var list;
      j, list := JumpHere();
      assert list == [|fs.code| + 1];
      CondLinks(old(code), mid, code, fs, gs);
    }

    /** luaK_patchtohere. */
    method PatchHere(head: int, ghost l: seq<nat>)
      requires Rep() && IsList(code, head, l) && Waiting(model.code, l) && Disjoint(model.jpc, l)
      modifies this
      ensures Rep() && model == PatchToHere(old(model), l)
      ensures LinksKept(old(code), code, old(model), Elems(l)) && |code| == |old(code)|
    {
      var _ := GetLabel();
      jpc := Concat(jpc, head, model.jpc, l);
      model := model.(jpc := model.jpc + l);
    }

    /** addk. */
    method AddConstant(v: Value) returns (i: nat)
      requires Rep()
      modifies this`k, this`kcache, this`model
      ensures Rep() && (model, i) == AddK(old(model), v) && code == old(code)
    {
      if v in kcache {
        return kcache[v];
      }
      kcache := kcache[v := |k|];
      i := |k|;
      k := k + [v];
      model := model.(k := k, kcache := kcache);
    }

    // -------------------------------------------------------------- registers

    /** luaK_reserveregs for one register. */
    method ReserveOne()
      requires Rep()
      modifies this`freereg, this`model
      ensures Rep() && model == Reserve(old(model)) && code == old(code)
    {
      freereg := freereg + 1;
      model := Reserve(model);
    }

    /** freereg, with its assertion. */
    method FreeOne(reg: nat)
      requires Rep() && (reg >= nactvar ==> reg + 1 == freereg)
      modifies this`freereg, this`model
      ensures Rep() && model == FreeReg(old(model), reg) && code == old(code)
    {
      if reg >= nactvar {
        freereg := freereg - 1;
        assert reg == freereg;
        model := FreeReg(model, reg);
      }
    }

    /** freeexp. */
    method FreeOf(x: Desc, ghost e: Exp)
      requires Rep() && x.kind == e.kind && (Temporary(model, e) ==> e.kind.info + 1 == model.freereg)
      modifies this`freereg, this`model
      ensures Rep() && model == FreeExp(old(model), e) && code == old(code)
    {
      if x.kind.VNonReloc? {
        FreeOne(x.kind.info);
      }
    }

    // -------------------------------------------------------------- values into registers

    /** luaK_nil for one register. */
    method LoadNilOf(from: nat)
      requires Rep() && FsOk(model)
      modifies this
      ensures Rep() && model == LoadNilTo(old(model), from)
      ensures LinksKept(old(code), code, old(model), {})
    {
      hide FsOk, Emit;
      SameLength(code, model.code);
      if |code| > lasttarget {
        if |code| == 0 {
          if from >= nactvar {
            return;
          }
        } else {
          EncodesTest(code, model.code, |code| - 1);
          var last := |code| - 1;
          var previous := code[last];
          if previous.LoadNil? {
            if previous.a <= from <= previous.b + 1 {
              if from > previous.b {
                EncodesSet(code, model.code, last, LoadNil(previous.a, from), LoadNil(previous.a, from));
                NoJumpLinks(code, model, last, LoadNil(previous.a, from));
                code := code[last := LoadNil(previous.a, from)];
                model := model.(code := model.code[last := LoadNil(previous.a, from)]);
              }
              return;
            }
          }
        }
      }
      OkCode(model);
      var _ := Code(LoadNil(from, from));
    }

    /** discharge2reg. */
    method DischargeToReg(x: Desc, reg: nat, ghost e: Exp)
      requires Rep() && DescOk(model, e) && x.kind == e.kind
      modifies this
      ensures Rep() && model == Discharge2Reg(old(model), e, reg)
      ensures LinksKept(old(code), code, old(model), {})
    {
      hide FsOk, Emit, LoadNilTo, ListsOk, AddK;
      OkCode(model);
      SameLength(code, model.code);
      match x.kind {
        case VNil =>
          LoadNilOf(reg);
        case VFalse =>
          var _ := Code(LoadBool(reg, false, false));
        case VTrue =>
          var _ := Code(LoadBool(reg, true, false));
        case VK(i) =>
          var _ := Code(LoadK(reg, i));
        case VKNum(n) =>
          var i := AddConstant(Num(n));
          ConstantKeepsCode(old(model), Num(n));
          var _ := Code(LoadK(reg, i));
        case VReloc(at) =>
          EncodesTest(code, model.code, at);
          ghost var i := model.code[at];
          var w: Word := SetWordA(code[at], reg);
          EncodesSet(code, model.code, at, w, SetA(i, reg));
          NoJumpLinks(code, model, at, w);
          code := code[at := w];
          model := model.(code := model.code[at := SetA(i, reg)]);
        case VNonReloc(r) =>
          if r != reg {
            var _ := Code(Move(reg, r));
          }
        case VLocal(r) =>
          if r != reg {
            var _ := Code(Move(reg, r));
          }
        case VJmp(_) =>
      }
    }

    /** code_label, once for false and once for true. */
    method CodeLabels(reg: nat) returns (p: nat)
      requires Rep() && model.jpc == []
      modifies this
      ensures Rep() && p == |old(code)| && code == old(code) + [LoadBool(reg, false, true), LoadBool(reg, true, false)]
      ensures model == old(model).(code := WithLoads(old(model).code, reg), lasttarget := |old(model).code| + 1)
    {
      hide PatchedAt;
      SameLength(code, model.code);
      ghost var gs := model;
      var _ := GetLabel();
      PatchNothing(gs.code, None, |gs.code|, Some(|gs.code|));
      p := Code(LoadBool(reg, false, true));
      ghost var c1 := gs.code + [LoadBool(reg, false, true)];
      assert model.code == c1;
      var _ := GetLabel();
      PatchNothing(c1, None, |c1|, Some(|c1|));
      var _ := Code(LoadBool(reg, true, false));
      assert model.code == WithLoads(gs.code, reg);
    }

    /** The loads of exp2reg; the result is the position of the first. */
    method CodeLoads(reg: nat, isJump: bool) returns (p: nat)
      requires Rep() && FsOk(model) && (isJump ==> model.jpc == [])
      modifies this
      ensures Rep() && model == Label(Loads(old(model), reg, isJump)) && p + 2 == |code|
      ensures LinksKept(old(code), code, old(model), {})
    {
      hide FsOk, WithLoads, Loads, Encodes;
      ghost var fs := model;
      var fj := NO_JUMP;
      ghost var list: seq<nat> := [];
      if !isJump {
        JumpOk(model);
        fj, list := JumpHere();
      }
      ghost var mid := code;
      ghost var gs := model;
      SameLength(mid, gs.code);
      p := CodeLabels(reg);
      ListInCode(mid, fj, list);
      ListKept(mid, code, fj, list);
      LoadsWait(gs, list, reg);
      ghost var labels := code;
      ghost var hs := model;
      SameLength(labels, hs.code);
      PatchHere(fj, list);
      LoadsLinks(fs, gs, hs, old(code), mid, labels, code, list, reg, isJump);
      LoadsShape(fs, reg, isJump);
      SameLength(code, model.code);
      LoadsLast(fs, reg, isJump);
    }

    /** Both calls of patchlistaux at the end of exp2reg. */
    method LandLists(t: int, f: int, reg: nat, pf: int, pt: int, ghost e: Exp, ghost dF: Option<nat>, ghost dT: Option<nat>)
      requires Rep() && FsOk(model) && ListsOk(model, e) && IsList(code, t, e.t) && IsList(code, f, e.f)
      requires Landable(model, e.f, reg, dF, false) && Landable(model, e.t, reg, dT, true)
      requires (dF.Some? ==> pf == dF.value) && (dT.Some? ==> pt == dT.value)
      modifies this
      ensures Rep() && model == Land(Land(old(model), e.f, reg, dF), e.t, reg, dT)
      ensures LinksKept(old(code), code, old(model), Elems(e.t) + Elems(e.f))
    {
      hide FsOk, NeedValue, Patch, LoadsAt, Encodes, IsList, CodeOk, ListsOk, LinksKept;
      ghost var h := model;
      ghost var c0 := code;
      LandBothOk(h, e, reg, dF, dT);
      LandReady(h, e, reg, dF, dT);
      SameLength(code, h.code);
      PatchListAux(f, |code|, Some(reg), pf, e.f, dF);
      ghost var c1 := code;
      SameLength(code, model.code);
      LandFields(h, e.f, reg, dF);
      OtherKept(c0, c1, h.code, e.f, e.t, t);
      OtherKept(c0, c1, h.code, e.f, h.jpc, jpc);
      PatchListAux(t, |code|, Some(reg), pt, e.t, dT);
      LandFields(Land(h, e.f, reg, dF), e.t, reg, dT);
      SameLength(code, model.code);
      OtherKept(c1, code, Land(h, e.f, reg, dF).code, e.t, h.jpc, jpc);
      LandLinks(c0, c1, code, h, Land(h, e.f, reg, dF), e);
    }

    /** exp2reg once the value that falls through is in the register. */
    method FinishReg(isJump: bool, t: int, f: int, reg: nat, ghost e: Exp)
      requires Rep() && DescOk(model, e) && (e.kind.VJmp? || e.kind == VNonReloc(reg)) && isJump == e.kind.VJmp?
      requires IsList(code, t, TrueList(e)) && IsList(code, f, e.f)
      modifies this
      ensures Rep()
      ensures var h := Final(old(model), e, reg);
              model == Land(Land(h, e.f, reg, LoadOf(old(model), h, e, false)), TrueList(e), reg, LoadOf(old(model), h, e, true))
      ensures LinksKept(old(code), code, old(model), Own(e))
    {
      hide FsOk, Encodes, Loads, Land, KindOk, IsList, NeedValue, Landable, LinksKept;
      ghost var g := model;
      ghost var c0 := code;
      WholeLists(g, e);
      WaitingLists(g, Whole(e));
      FinalOk(g, e, reg);
      var needT := NeedValueIn(t, TrueList(e));
      var needF := NeedValueIn(f, e.f);
      var pf, pt := NO_JUMP, NO_JUMP;
      SameLength(code, model.code);
      if needT || needF {
        if isJump { JumpPending(g, e); }
        pf := CodeLoads(reg, isJump);
        pt := pf + 1;
        SameLength(code, model.code);
      } else {
        LinksSame(c0, g);
        var _ := GetLabel();
      }
      ghost var h := Final(g, e, reg);
      assert model == h;
      ListStays(c0, code, g, t, TrueList(e));
      ListStays(c0, code, g, f, e.f);
      ghost var c1 := code;
      LandLists(t, f, reg, pf, pt, Whole(e), LoadOf(g, h, e, false), LoadOf(g, h, e, true));
      LinksTransitive(c0, c1, code, g, h, {}, Own(e), Own(e));
    }

    /** exp2reg. */
    method ExpToReg(x: Desc, reg: nat, ghost e: Exp)
      requires Rep() && DescOk(model, e) && Represents(code, x, e)
      requires reg < model.nactvar || reg + 1 == model.freereg
      modifies this
      ensures Rep() && model == Exp2Reg(old(model), e, reg)
      ensures LinksKept(old(code), code, old(model), Own(e))
    {
      hide FsOk, Encodes, Discharge2Reg, Loads, Land, ListsOk, KindOk, KeepsWaiting, IsList, Landable, LinksKept, Final;
      ghost var fs := model;
      ghost var c0 := code;
      SameLength(c0, fs.code);
      DischargedOk(fs, e, reg);
      DischargeToReg(x, reg, e);
      ghost var g := model;
      ghost var e' := InReg(e, reg);
      RepresentsStays(c0, code, fs, x, e);
      ghost var c1 := code;
      SameLength(c1, g.code);
      var t := x.t;
      if x.kind.VJmp? {
        OwnJump(g, e);
        t := Concat(x.t, x.kind.jump, e.t, [e.kind.jump]);
        ConcatKeeps(c1, code, g, x, e, jpc);
      } else {
        LinksSame(c1, g);
      }
      ghost var c2 := code;
      SameLength(c2, g.code);
      LinksTransitive(c0, c1, c2, fs, g, {}, Own(e), Own(e));
      HeadsDiffer(c2, g, t, x.f, e', reg);
      if t != x.f {
        FinishReg(x.kind.VJmp?, t, x.f, reg, e');
        GrowsMore(fs, g, Own(e));
        LinksTransitive(c0, c2, code, fs, g, Own(e), Own(e'), Own(e));
      }
    }

    /** luaK_exp2nextreg. */
    method ExpToNextReg(x: Desc, ghost e: Exp) returns (y: Desc)
      requires Rep() && DescOk(model, e) && Represents(code, x, e)
      modifies this
      ensures y.kind.VNonReloc?
      ensures Rep() && (model, Register(y.kind.info)) == Exp2NextReg(old(model), e)
      ensures y == Desc(VNonReloc(y.kind.info), NO_JUMP, NO_JUMP)
      ensures LinksKept(old(code), code, old(model), Own(e))
    {
      hide FsOk, Encodes, CgExp.Exp2Reg, ListsOk, KindOk, IsList, LinksKept;
      ghost var fs := model;
      ghost var d := DischargeVars(e);
      DischargeVarsKind(fs, e);
      NextRegState(fs, d);
      var v := if x.kind.VLocal? then x.(kind := VNonReloc(x.kind.reg)) else x;
      TopInfo(fs, d);
      FreeOf(v, d);
      ReserveOne();
      SameCode(fs, model, d);
      var reg: nat := freereg - 1;
      ExpToReg(v, reg, d);
      SameLinks(fs, Reserve(FreeExp(fs, d)), old(code), code, Own(e));
      y := Desc(VNonReloc(reg), NO_JUMP, NO_JUMP);
    }

    /** luaK_exp2anyreg. */
    method ExpToAnyReg(x: Desc, ghost e: Exp) returns (y: Desc, ghost d: Exp)
      requires Rep() && DescOk(model, e) && Represents(code, x, e)
      modifies this
      ensures Rep() && (model, d) == Exp2AnyReg(old(model), e) && Represents(code, y, d)
      ensures LinksKept(old(code), code, old(model), Own(e))
    {
      hide FsOk, Encodes, CgExp.Exp2Reg, Exp2NextReg, ListsOk, KindOk, LinksKept;
      ghost var fs := model;
      ghost var c := DischargeVars(e);
      DischargeVarsKind(fs, e);
      LinksSame(code, fs);
      Heads(code, fs, x, c);
      var v := if x.kind.VLocal? then x.(kind := VNonReloc(x.kind.reg)) else x;
      if v.kind.VNonReloc? {
        if v.t == v.f {
          return v, c;
        }
        if v.kind.info >= nactvar {
          TopInfo(fs, c);
          ExpToReg(v, v.kind.info, c);
          return Desc(VNonReloc(v.kind.info), NO_JUMP, NO_JUMP), Register(v.kind.info);
        }
      }
      y := ExpToNextReg(v, c);
      d := Register(y.kind.info);
    }

    /** luaK_exp2val. */
    method ExpToVal(x: Desc, ghost e: Exp) returns (y: Desc, ghost d: Exp)
      requires Rep() && DescOk(model, e) && Represents(code, x, e)
      modifies this
      ensures Rep() && (model, d) == Exp2Val(old(model), e) && Represents(code, y, d)
      ensures LinksKept(old(code), code, old(model), Own(e))
    {
      hide FsOk, Encodes, Exp2AnyReg, ListsOk, KindOk, LinksKept;
      LinksSame(code, model);
      Heads(code, model, x, e);
      if x.t != x.f {
        y, d := ExpToAnyReg(x, e);
      } else {
        y := if x.kind.VLocal? then x.(kind := VNonReloc(x.kind.reg)) else x;
        d := DischargeVars(e);
      }
    }

    /** luaK_exp2RK. */
    method ExpToRK(x: Desc, ghost e: Exp) returns (y: Desc, o: RK, ghost d: Exp)
      requires Rep() && DescOk(model, e) && Represents(code, x, e)
      modifies this
      ensures Rep() && (model, d, o) == Exp2RK(old(model), e) && Represents(code, y, d)
      ensures LinksKept(old(code), code, old(model), Own(e))
    {
      hide FsOk, Encodes, Exp2AnyReg, ListsOk, KindOk, LinksKept, Exp2Val, AddK, Grows;
      ghost var fs := model;
      ghost var c0 := code;
      SameLength(c0, fs.code);
      Exp2ValOk(fs, e);
      y, d := ExpToVal(x, e);
      ghost var g := model;
      SameLength(code, g.code);
      var c := Constant(y.kind);
      if c.Some? && |k| <= MAXINDEXRK {
        var i := AddConstant(c.value);
        y := Desc(VK(i), y.t, y.f);
        d := Exp(VK(i), d.t, d.f);
        o := K(i);
      } else if y.kind.VK? && y.kind.index <= MAXINDEXRK {
        o := K(y.kind.index);
      } else {
        ghost var c1 := code;
        ghost var before := d;
        Exp2AnyRegOk(g, before);
        y, d := ExpToAnyReg(y, before);
        LinksTransitive(c0, c1, code, fs, g, Own(e), Own(before), Own(e));
        o := R(y.kind.info);
      }
    }

    // -------------------------------------------------------------- conditions

    /** discharge2anyreg and freeexp, as jumponcond and codenot call them. */
    method TestedOf(x: Desc, ghost e: Exp) returns (r: nat)
      requires Rep() && DescOk(model, e) && Represents(code, x, e) && !e.kind.VLocal? && !e.kind.VJmp?
      modifies this
      ensures Rep() && (model, r) == Tested(old(model), e)
      ensures LinksKept(old(code), code, old(model), {})
    {
      hide FsOk, Encodes, ListsOk, KindOk, IsList, LinksKept, Discharge2Reg;
      ghost var fs := model;
      LinksSame(code, fs);
      TopInfo(fs, e);
      if x.kind.VNonReloc? {
        r := x.kind.info;
        FreeOf(x, e);
      } else {
        ReserveOne();
        SameCode(fs, model, e);
        r := freereg - 1;
        Discharge2RegOk(model, e, r);
        DischargeToReg(x, r, e);
        SameLinks(fs, Reserve(fs), old(code), code, {});
        FreeOne(r);
      }
    }

    /** jumponcond. */
    method JumpOnCondOf(x: Desc, cond: bool, ghost e: Exp) returns (j: int)
      requires Rep() && DescOk(model, e) && Represents(code, x, e) && !e.kind.VLocal? && !e.kind.VJmp?
      modifies this
      ensures Rep() && (model, j) == JumpOnCond(old(model), e, cond) && IsList(code, j, [j])
      ensures LinksKept(old(code), code, old(model), {})
    {
      hide FsOk, ListsOk, KindOk, IsList, LinksKept, Tested, CondJump, Grows, NewJump;
      ghost var fs := model;
      ghost var c0 := code;
      SameLength(c0, fs.code);
      if x.kind.VReloc? {
        RelocLast(fs, e);
        EncodesTest(code, model.code, |code| - 1);
        var ie := code[x.kind.at];
        if ie.Unary? && ie.uop.Not? {
          BaseKeeps(fs, e);
          EncodesTake(code, model.code, |code| - 1);
          TakeLast(c0, fs, e, jpc);
          code := code[..|code|-1];
          model := Base(model, e);
          ghost var c1 := code;
          j := CondJumpTo(Test(ie.b, !cond));
          BaseLinks(c0, c1, code, fs, e);
          return;
        }
      }
      NotNot(fs, e);
      TestedOk(fs, e);
      var r := TestedOf(x, e);
      ghost var gs := model;
      ghost var c1 := code;
      SameLength(c1, gs.code);
      j := CondJumpTo(TestSet(None, r, cond));
      LinksTransitive(c0, c1, code, fs, gs, {}, {}, {});
    }

    /** invertjump. */
    method InvertJumpOf(jump: nat, ghost e: Exp)
      requires Rep() && DescOk(model, e) && e.kind == VJmp(jump)
      modifies this
      ensures Rep() && model == InvertJump(old(model), e)
      ensures forall j: nat | j < |old(code)| && old(code)[j].Jmp? :: j < |code| && code[j] == old(code)[j]
    {
      hide FsOk, ListsOk, LinksKept;
      ghost var fs := model;
      SameLength(code, fs.code);
      ComparisonAt(fs, e);
      EncodesTest(code, model.code, jump - 1);
      var pc := code[jump-1];
      var w: Word := pc.(cond := !pc.cond);
      ghost var c := model.code[jump-1];
      EncodesSet(code, model.code, jump - 1, w, c.(cond := !c.cond));
      NoJumpLinks(code, model, jump - 1, w);
      code := code[jump - 1 := w];
      model := model.(code := model.code[jump-1 := c.(cond := !c.cond)]);
    }

    /** luaK_goiftrue. */
    method GoIfTrueOf(x: Desc, ghost e: Exp) returns (out: int, ghost l: seq<nat>)
      requires Rep() && DescOk(model, e) && Represents(code, x, e)
      modifies this
      ensures Rep() && (model, l) == GoIfTrue(old(model), e) && IsList(code, out, l)
      ensures LinksKept(old(code), code, old(model), Own(e))
    {
      hide FsOk, ListsOk, KindOk, IsList, LinksKept, JumpOnCond, Grows, InvertJump, Encodes;
      ghost var fs := model;
      ghost var d := DischargeVars(e);
      DischargeVarsKind(fs, e);
      LeaveIfFalseOk(fs, d);
      SameLength(code, fs.code);
      var pc := NO_JUMP;
      ghost var pcs: seq<nat> := [];
      EmptyList(code);
      LinksSame(code, fs);
      var kind := if x.kind.VLocal? then VNonReloc(x.kind.reg) else x.kind;
      if kind.VK? || kind.VKNum? || kind.VTrue? {
      } else if kind.VFalse? {
        pc, pcs := JumpHere();
      } else if kind.VJmp? {
        InvertJumpOf(kind.jump, d);
        InvertLinks(old(code), code, fs, kind.jump, d);
        pc, pcs := kind.jump, [kind.jump];
      } else {
        pc := JumpOnCondOf(x.(kind := kind), false, d);
        pcs := [pc];
      }
      LeaveLinks(old(code), code, fs, d);
      assert (model, pcs) == LeaveIfFalse(fs, d);
      out, l := CloseLists(x.f, pc, x.t, fs, d, d.f, d.t, pcs, old(code));
    }

    /** luaK_goiffalse. */
    method GoIfFalseOf(x: Desc, ghost e: Exp) returns (out: int, ghost l: seq<nat>)
      requires Rep() && DescOk(model, e) && Represents(code, x, e)
      modifies this
      ensures Rep() && (model, l) == GoIfFalse(old(model), e) && IsList(code, out, l)
      ensures LinksKept(old(code), code, old(model), Own(e))
    {
      hide FsOk, ListsOk, KindOk, IsList, LinksKept, JumpOnCond, Grows, Encodes;
      ghost var fs := model;
      ghost var d := DischargeVars(e);
      DischargeVarsKind(fs, e);
      LeaveIfTrueOk(fs, d);
      SameLength(code, fs.code);
      var pc := NO_JUMP;
      ghost var pcs: seq<nat> := [];
      EmptyList(code);
      LinksSame(code, fs);
      var kind := if x.kind.VLocal? then VNonReloc(x.kind.reg) else x.kind;
      if kind.VNil? || kind.VFalse? {
      } else if kind.VTrue? {
        pc, pcs := JumpHere();
      } else if kind.VJmp? {
        pc, pcs := kind.jump, [kind.jump];
      } else {
        pc := JumpOnCondOf(x.(kind := kind), true, d);
        pcs := [pc];
      }
      LeaveLinks(old(code), code, fs, d);
      assert (model, pcs) == LeaveIfTrue(fs, d);
      out, l := CloseLists(x.t, pc, x.f, fs, d, d.t, d.f, pcs, old(code));
    }

    /** The end of both: the new jumps join one list, the other list comes here. */
    method CloseLists(kept: int, pc: int, closed: int, ghost fs: Fs, ghost d: Exp,
                      ghost a: seq<nat>, ghost b: seq<nat>, ghost pcs: seq<nat>, ghost c0: seq<Word>)
      returns (out: int, ghost l: seq<nat>)
      requires Rep() && DescOk(fs, d) && LeaveOk(fs, d, model, pcs) && |c0| == |fs.code|
      requires (a == d.f && b == d.t) || (a == d.t && b == d.f)
      requires IsList(c0, kept, a) && IsList(c0, closed, b) && IsList(code, pc, pcs)
      requires forall j | j in a || j in b :: j < |code| && j < |c0| && code[j] == c0[j]
      requires LinksKept(c0, code, fs, Own(d))
      modifies this
      ensures Rep() && model == PatchToHere(old(model), b) && l == a + pcs && IsList(code, out, l)
      ensures LinksKept(c0, code, fs, Own(d))
    {
      hide FsOk, KindOk, IsList, KeepsWaiting;
      ghost var gs := model;
      ghost var c1 := code;
      SameLength(c1, gs.code);
      ListKept(c0, c1, kept, a);
      ListKept(c0, c1, closed, b);
      LeaveLists(fs, d, gs, pcs);
      out := Concat(kept, pc, a, pcs);
      l := a + pcs;
      ghost var c2 := code;
      ListKept(c1, c2, closed, b);
      ListInCode(c1, jpc, gs.jpc);
      ListKept(c1, c2, jpc, gs.jpc);
      PatchHere(closed, b);
      ListInCode(c2, out, l);
      CloseKeeps(c0, c1, c2, code, fs, gs, d, a, b, pcs);
      ListKept(c2, code, out, l);
    }

    // -------------------------------------------------------------- operators

    /** codenot up to the exchange of the lists. */
    method NegateOf(x: Desc, ghost v: Exp) returns (kind: Kind)
      requires Rep() && DescOk(model, v) && Represents(code, x, v) && !v.kind.VLocal?
      modifies this
      ensures Rep() && (model, Exp(kind, v.f, v.t)) == Negated(old(model), v)
      ensures LinksKept(old(code), code, old(model), {})
      ensures kind.VJmp? ==> IsList(code, kind.jump, [kind.jump])
    {
      hide FsOk, KindOk, IsList, LinksKept, Encodes, Tested, InvertJump, Grows, ListsOk, Emit;
      ghost var fs := model;
      ghost var c0 := code;
      SameLength(c0, fs.code);
      LinksSame(c0, fs);
      kind := x.kind;
      if kind.VNil? || kind.VFalse? {
        kind := VTrue;
      } else if kind.VK? || kind.VKNum? || kind.VTrue? {
        kind := VFalse;
      } else if kind.VJmp? {
        InvertJumpOf(kind.jump, v);
        InvertLinks(c0, code, fs, kind.jump, v);
      } else {
        var r := TestedOf(x, v);
        ghost var hs := model;
        ghost var c1 := code;
        TestedOk(fs, v);
        SameLength(c1, hs.code);
        assert CodeOk(hs.code) by { OkCode(hs); }
        var pc := Code(Unary(Not, 0, r));
        kind := VReloc(pc);
        LinksTransitive(c0, c1, code, fs, hs, {}, {}, {});
      }
    }

    /** Both calls of removevalues. */
    method RemoveLists(t: int, f: int, ghost d: Exp)
      requires Rep() && FsOk(model) && ListsOk(model, d) && IsList(code, t, d.t) && IsList(code, f, d.f)
      modifies this
      ensures Rep() && model == RemoveBoth(old(model), d)
      ensures |code| == |old(code)| && forall j: nat | j < |code| && old(code)[j].Jmp? :: code[j] == old(code)[j]
    {
      hide FsOk, IsList, RemoveValues;
      ghost var gs := model;
      ghost var c0 := code;
      SameLength(c0, gs.code);
      WaitingLists(gs, d);
      RemoveValuesOf(f, d.f);
      SameLength(code, model.code);
      ghost var c1 := code;
      RemovedWait(gs, d);
      JumpsKept(c0, c1, t, d.t);
      RemoveValuesOf(t, d.t);
      SameLength(code, model.code);
      JumpsKept(c0, code, jpc, gs.jpc);
    }

    /** codenot. */
    method CodeNotOf(x: Desc, ghost e: Exp) returns (y: Desc, ghost d: Exp)
      requires Rep() && DescOk(model, e) && Represents(code, x, e)
      modifies this
      ensures Rep() && (model, d) == CodeNot(old(model), e) && Represents(code, y, d)
      ensures LinksKept(old(code), code, old(model), {})
    {
      hide FsOk, KindOk, IsList, LinksKept, Encodes, ListsOk, Negated, RemoveBoth;
      ghost var fs := model;
      ghost var c0 := code;
      ghost var v := DischargeVars(e);
      DischargeVarsKind(fs, e);
      NotLists(fs, v);
      var kind := NegateOf(if x.kind.VLocal? then x.(kind := VNonReloc(x.kind.reg)) else x, v);
      ghost var gs := model;
      ghost var c1 := code;
      d := Exp(kind, v.f, v.t);
      NegatedStructure(fs, v);
      ListStays(c0, c1, fs, x.t, v.t);
      ListStays(c0, c1, fs, x.f, v.f);
      RemoveLists(x.f, x.t, d);
      JumpsKept(c1, code, x.f, d.t);
      JumpsKept(c1, code, x.t, d.f);
      if kind.VJmp? { JumpsKept(c1, code, kind.jump, [kind.jump]); }
      NotLinks(c0, c1, code, fs);
      y := Desc(kind, x.f, x.t);
    }

    /** luaK_exp2RK of an operand that luaK_infix has left ready. */
    method ReadyToRK(x: Desc, ghost e: Exp) returns (y: Desc, o: RK, ghost d: Exp)
      requires Rep() && Ready(e) && Represents(code, x, e) && (e.kind.VKNum? ==> DescOk(model, e))
      modifies this
      ensures Rep() && (model, d, o) == Exp2RK(old(model), e) && Represents(code, y, d)
      ensures LinksKept(old(code), code, old(model), Own(e))
      ensures !e.kind.VKNum? ==> model == old(model) && code == old(code)
    {
      hide FsOk, IsList, LinksKept, Encodes, Exp2RK;
      if x.kind.VKNum? {
        y, o, d := ExpToRK(x, e);
      } else {
        ReadyRK(model, e);
        LinksSame(code, model);
        y, d := x, e;
        o := if x.kind.VK? then K(x.kind.index) else R(x.kind.info);
      }
    }

    /** constfolding. */
    method ConstFoldOf(op: ArithOp, x1: Desc, x2: Desc, ghost e1: Exp, ghost e2: Exp) returns (r: Option<int>)
      requires Represents(code, x1, e1) && Represents(code, x2, e2)
      ensures r == ConstFold(op, e1, e2)
    {
      var numeral1 := x1.kind.VKNum? && x1.t == NO_JUMP && x1.f == NO_JUMP;
      var numeral2 := x2.kind.VKNum? && x2.t == NO_JUMP && x2.f == NO_JUMP;
      if !numeral1 || !numeral2 {
        return None;
      }
      if (op == Div || op == Mod) && x2.kind.n == 0 {
        return None;
      }
      r := Some(NumArith(op, x1.kind.n, x2.kind.n));
    }

    /** Both calls of freeexp in codearith. */
    method FreePair(y1: Desc, o1: RK, y2: Desc, o2: RK, ghost base: nat, ghost d1: Exp, ghost d2: Exp)
      requires Rep() && Stacked(model, base, d1, o1, d2, o2) && y1.kind == d1.kind && y2.kind == d2.kind
      modifies this`freereg, this`model
      ensures Rep() && model == FreeBoth(old(model), d1, o1, d2, o2) && code == old(code)
    {
      hide Encodes, IsList, Waiting, FreeExp;
      FreeBothOk(model, base, d1, o1, d2, o2);
      FreedActive(model, if Operand(o1) > Operand(o2) then d1 else d2);
      if Operand(o1) > Operand(o2) {
        FreeOf(y1, d1);
        FreeOf(y2, d2);
      } else {
        FreeOf(y2, d2);
        FreeOf(y1, d1);
      }
    }

    /** codearith for a binary operator. */
    method CodeArithOf(op: ArithOp, x1: Desc, x2: Desc, ghost e1: Exp, ghost e2: Exp) returns (y: Desc, ghost d: Exp)
      requires Rep() && Pair(model, e1, e2) && Represents(code, x1, e1) && Represents(code, x2, e2)
      modifies this
      ensures Rep() && (model, d) == CodeArith(old(model), op, e1, e2) && Represents(code, y, d)
      ensures LinksKept(old(code), code, old(model), Own(e2))
    {
      hide FsOk, ListsOk, KindOk, LinksKept, Encodes, Exp2RK, FreeBoth, Emit, Grows, IsList, Stacked, ConstFold, Waiting, DescOk;
      ghost var fs := model;
      ghost var c0 := code;
      SameLength(c0, fs.code);
      LinksSame(c0, fs);
      var folded := ConstFoldOf(op, x1, x2, e1, e2);
      if folded.Some? {
        FoldedKind(op, e1, e2);
        d := e1.(kind := VKNum(folded.value));
        return x1.(kind := VKNum(folded.value)), d;
      }
      SecondFacts(fs, e1, e2);
      ghost var d1: Exp, d2: Exp;
      var y2, o2, y1, o1;
      y2, o2, d2 := ExpToRK(x2, e2);
      ghost var f1 := model;
      ghost var c1 := code;
      SameLength(c1, f1.code);
      NoListsAtAll(c0, c1, x1, e1);
      y1, o1, d1 := ReadyToRK(x1, e1);
      ghost var f2 := model;
      ghost var c2 := code;
      SameLength(c2, f2.code);
      LinksTransitive(c0, c1, c2, fs, f1, Own(e2), Own(e1), Own(e2));
      FreePair(y1, o1, y2, o2, Slot(fs, e1), d1, d2);
      ghost var f3 := model;
      FreedFields(f2, d1, o1, d2, o2);
      SameOk(f2, f3);
      OkCode(f3);
      var pc := Code(Arith(op, 0, o1, o2));
      SameLinks(f2, f3, c2, code, {});
      LinksTransitive(c0, c2, code, fs, f2, Own(e2), {}, Own(e2));
      y := Desc(VReloc(pc), y1.t, y1.f);
      d := Exp(VReloc(pc), d1.t, d1.f);
      NoListsAtAll(c2, code, y1, d1);
    }

    /** codearith for a unary operator. */
    method CodeUnaryOf(op: UnaryOp, x: Desc, ghost e: Exp) returns (y: Desc, ghost d: Exp)
      requires Rep() && DescOk(model, e) && UnaryOperand(op, e) && Represents(code, x, e)
      modifies this
      ensures Rep() && (model, d) == CodeUnary(old(model), op, e) && Represents(code, y, d)
      ensures LinksKept(old(code), code, old(model), {})
    {
      hide FsOk, ListsOk, KindOk, LinksKept, Encodes, Exp2RK, Emit;
      ghost var fs := model;
      ghost var c0 := code;
      LinksSame(c0, fs);
      if op.Unm? && x.kind.VKNum? && x.t == NO_JUMP && x.f == NO_JUMP {
        d := e.(kind := VKNum(-e.kind.n));
        return x.(kind := VKNum(-x.kind.n)), d;
      }
      RegisterNoNumeral(e);
      ReadyRK(fs, e);
      TopInfo(fs, e);
      var o;
      y, o, d := ReadyToRK(x, e);
      ReadySame(fs, model, e, d);
      FreeOf(y, d);
      SameOk(fs, model);
      OkCode(model);
      ghost var gs := model;
      SameLength(code, gs.code);
      var pc := Code(Unary(op, 0, o.reg));
      SameLinks(fs, gs, c0, code, {});
      NoListsAtAll(c0, code, x, e);
      y, d := Desc(VReloc(pc), x.t, x.f), Exp(VReloc(pc), e.t, e.f);
    }

    /** codecomp. */
    method CodeCompOf(op: CmpOp, cond: bool, x1: Desc, x2: Desc, ghost e1: Exp, ghost e2: Exp) returns (y: Desc, ghost d: Exp)
      requires Rep() && Pair(model, e1, e2) && !e1.kind.VKNum? && Represents(code, x1, e1) && Represents(code, x2, e2)
      modifies this
      ensures Rep() && (model, d) == CodeComp(old(model), op, cond, e1, e2) && Represents(code, y, d)
      ensures LinksKept(old(code), code, old(model), Own(e2))
    {
      hide FsOk, ListsOk, KindOk, LinksKept, Encodes, Exp2RK, CondJump, FreeExp, Grows, Stacked, IsList, Waiting, DescOk;
      ghost var fs := model;
      ghost var c0 := code;
      SameLength(c0, fs.code);
      ComparedPair(fs, e1, e2);
      SecondOk(fs, e1, e2);
      Exp2RKOk(fs, e2);
      ReadyRK(fs, e1);
      var o1 := if x1.kind.VK? then K(x1.kind.index) else R(x1.kind.info);
      ghost var d2: Exp;
      var y2, o2;
      y2, o2, d2 := ExpToRK(x2, e2);
      ghost var f2 := model;
      ghost var c2 := code;
      SameLength(c2, f2.code);
      FreeOf(y2, d2);
      FreeOf(x1, e1);
      ghost var f3 := model;
      SameOk(f2, f3);
      ComparedK(fs, e1, e2);
      var test: Word := if !cond && op != Eq then Cmp(op, true, o2, o1) else Cmp(op, cond, o1, o2);
      var j := CondJumpTo(test);
      SameLinks(f2, f3, c2, code, {});
      LinksTransitive(c0, c2, code, fs, f2, Own(e2), {}, Own(e2));
      NoListsAtAll(c0, code, x1, e1);
      y, d := Desc(VJmp(j), x1.t, x1.f), Exp(VJmp(j), e1.t, e1.f);
    }

    // -------------------------------------------------------------- expressions

    /** luaK_prefix for minus and length. */
    method PrefixOf(op: UnaryOp, x: Desc, ghost fs0: Fs, ghost e: Exp) returns (y: Desc, ghost d: Exp)
      requires Rep() && CompiledOk(fs0, model, e) && Represents(code, x, e) && !op.Not?
      modifies this
      ensures Rep() && (model, d) == Prefix(old(model), op, e) && Represents(code, y, d)
      ensures LinksKept(old(code), code, old(model), Own(e))
    {
      hide FsOk, ListsOk, KindOk, LinksKept, Encodes, Exp2AnyReg, CodeUnary, IsList, DescOk;
      ghost var fs := model;
      ghost var c0 := code;
      SameLength(c0, fs.code);
      PrefixStructure(fs0, op, fs, e);
      CompiledFacts(fs0, fs, e);
      NumeralHeads(c0, x, e);
      if op.Unm? && x.kind.VKNum? && x.t == NO_JUMP && x.f == NO_JUMP {
        y, d := CodeUnaryOf(op, x, e);
        LinksMore(c0, code, fs, Own(e));
      } else {
        Exp2AnyRegOk(fs, e);
        y, d := ExpToAnyReg(x, e);
        ghost var f1 := model;
        ghost var c1 := code;
        SameLength(c1, f1.code);
        y, d := CodeUnaryOf(op, y, d);
        LinksTransitive(c0, c1, code, fs, f1, Own(e), {}, Own(e));
      }
    }

    /** luaK_infix; after `and` and `or` only the lists of the result matter. */
    method InfixOf(op: BinOp, x: Desc, ghost e: Exp) returns (y: Desc, ghost d: Exp)
      requires Rep() && DescOk(model, e) && Represents(code, x, e)
      modifies this
      ensures Rep() && (model, d) == Infix(old(model), op, e)
      ensures IsList(code, y.t, d.t) && IsList(code, y.f, d.f)
      ensures op.BArith? || op.BRel? ==> Represents(code, y, d)
      ensures LinksKept(old(code), code, old(model), Own(e))
    {
      hide FsOk, ListsOk, KindOk, LinksKept, Encodes, Exp2RK, GoIfTrue, GoIfFalse, DescOk;
      LinksSame(code, model);
      ghost var l: seq<nat>;
      match op {
        case BAnd =>
          var out;
          out, l := GoIfTrueOf(x, e);
          y, d := Desc(x.kind, NO_JUMP, out), Exp(e.kind, [], l);
        case BOr =>
          var out;
          out, l := GoIfFalseOf(x, e);
          y, d := Desc(x.kind, out, NO_JUMP), Exp(e.kind, l, []);
        case BArith(_) =>
          NumeralHeads(code, x, e);
          if x.kind.VKNum? && x.t == NO_JUMP && x.f == NO_JUMP {
            y, d := x, e;
          } else {
            var o;
            y, o, d := ExpToRK(x, e);
          }
        case BRel(_) =>
          var o;
          y, o, d := ExpToRK(x, e);
      }
    }

    /** luaK_posfix. */
    method PosfixOf(op: BinOp, x1: Desc, x2: Desc, ghost e1: Exp, ghost e2: Exp) returns (y: Desc, ghost d: Exp)
      requires Rep() && DescOk(model, e2) && Represents(code, x2, e2)
      requires op.BArith? || op.BRel? ==> Pair(model, e1, e2) && Represents(code, x1, e1)
      requires op.BRel? ==> !e1.kind.VKNum?
      requires op.BAnd? ==> Waiting(model.code, e1.f) && JoinsList(code, model, x1.f, e1.f, e2.f, e2)
      requires op.BOr? ==> Waiting(model.code, e1.t) && JoinsList(code, model, x1.t, e1.t, e2.t, e2)
      modifies this
      ensures Rep() && (model, d) == Posfix(old(model), op, e1, e2) && Represents(code, y, d)
      ensures LinksKept(old(code), code, old(model), Own(e2))
    {
      hide FsOk, ListsOk, KindOk, LinksKept, CodeArith, CodeComp, IsList, DescOk;
      match op {
        case BAnd =>
          y, d := JoinOf(x2, x1.f, e1.f, false, e2);
        case BOr =>
          y, d := JoinOf(x2, x1.t, e1.t, true, e2);
        case BArith(a) =>
          y, d := CodeArithOf(a, x1, x2, e1, e2);
        case BRel(c) =>
          y, d := CodeCompOf(CmpOf(c).0, CmpOf(c).1, x1, x2, e1, e2);
      }
    }

    /** The end of `and` and `or`: the exits of the left operand join those of the right one. */
    method JoinOf(x: Desc, head: int, ghost out: seq<nat>, sense: bool, ghost e: Exp) returns (y: Desc, ghost d: Exp)
      requires Rep() && DescOk(model, e) && Represents(code, x, e) && Waiting(model.code, out)
      requires JoinsList(code, model, head, out, if sense then e.t else e.f, e)
      modifies this
      ensures Rep() && model == old(model) && d == Joined(DischargeVars(e), out, sense) && Represents(code, y, d)
      ensures LinksKept(old(code), code, old(model), Own(e))
    {
      hide FsOk, KindOk, IsList;
      ghost var c0 := code;
      ghost var a := if sense then e.t else e.f;
      JoinReady(model, e, out);
      var l := Concat(if sense then x.t else x.f, head, a, out);
      y := if x.kind.VLocal? then x.(kind := VNonReloc(x.kind.reg)) else x;
      y := if sense then y.(t := l) else y.(f := l);
      d := Joined(DischargeVars(e), out, sense);
      JoinKeeps(c0, code, model, x, e, sense, jpc);
    }

    /** subexpr on the tree of an expression: the calls of the generator in the order of the parser. */
    method SubExpr(e: Expr) returns (x: Desc, ghost d: Exp)
      requires Rep() && CanCompile(model, e)
      modifies this
      ensures Rep() && (model, d) == Compile(old(model), e) && Represents(code, x, d)
      ensures LinksKept(old(code), code, old(model), {})
      decreases e, 0
    {
      hide FsOk, LinksKept, Encodes, Infix, Posfix, Prefix, CodeNot, AddK, CompiledOk, IsList, Waiting, LeftOperand, Pair;
      ghost var fs := model;
      ghost var c0 := code;
      SameLength(c0, fs.code);
      LinksSame(c0, fs);
      EmptyList(c0);
      match e {
        case ENil =>
          x, d := Desc(VNil, NO_JUMP, NO_JUMP), Exp(VNil, [], []);
        case ETrue =>
          x, d := Desc(VTrue, NO_JUMP, NO_JUMP), Exp(VTrue, [], []);
        case EFalse =>
          x, d := Desc(VFalse, NO_JUMP, NO_JUMP), Exp(VFalse, [], []);
        case ENum(n) =>
          x, d := Desc(VKNum(n), NO_JUMP, NO_JUMP), Exp(VKNum(n), [], []);
        case EStr(id) =>
          var i := AddConstant(Other(id));
          x, d := Desc(VK(i), NO_JUMP, NO_JUMP), Exp(VK(i), [], []);
        case ELocal(r) =>
          x, d := Desc(VLocal(r), NO_JUMP, NO_JUMP), Exp(VLocal(r), [], []);
        case ENot(a) =>
          CompileStructure(fs, a);
          x, d := SubExpr(a);
          ghost var f1 := model;
          ghost var c1 := code;
          SameLength(c1, f1.code);
          CompiledDesc(fs, f1, d);
          x, d := CodeNotOf(x, d);
          LinksTransitive(c0, c1, code, fs, f1, {}, {}, {});
        case EMinus(a) =>
          x, d := SubPrefix(Unm, a);
        case ELen(a) =>
          x, d := SubPrefix(Len, a);
        case EBin(op, a, b) =>
          CompileStructure(fs, a);
          CompileStructure(fs, e);
          ghost var e1: Exp, d1: Exp, d2: Exp;
          var x1, y1, x2;
          x1, d1 := SubExpr(a);
          ghost var f1 := model;
          ghost var c1 := code;
          SameLength(c1, f1.code);
          CompiledDesc(fs, f1, d1);
          y1, e1 := InfixOf(op, x1, d1);
          ghost var f2 := model;
          ghost var c2 := code;
          SameLength(c2, f2.code);
          BetweenOperands(fs, a, b, op, f1, d1);
          x2, d2 := SubExpr(b);
          ghost var f3 := model;
          ghost var c3 := code;
          SameLength(c3, f3.code);
          CompileStructure(f2, b);
          CompiledDesc(f2, f3, d2);
          AfterOperands(c2, c3, fs, op, f1, d1, y1, f3, d2);
          x, d := PosfixOf(op, y1, x2, e1, d2);
          BinaryLinks(c0, c1, c2, c3, code, fs, f1, f2, f3, d1, d2, op);
      }
    }

    method SubPrefix(op: UnaryOp, a: Expr) returns (x: Desc, ghost d: Exp)
      requires Rep() && CanCompile(model, a) && !op.Not?
      modifies this
      ensures Rep() && (model, d) == Prefix(Compile(old(model), a).0, op, Compile(old(model), a).1) && Represents(code, x, d)
      ensures LinksKept(old(code), code, old(model), {})
      decreases a, 1
    {
      hide FsOk, LinksKept, Encodes, Infix, Posfix, Prefix, CodeNot, AddK, CompiledOk, IsList, Waiting;
      ghost var fs := model;
      ghost var c0 := code;
      SameLength(c0, fs.code);
      CompileStructure(fs, a);
      x, d := SubExpr(a);
      ghost var f1 := model;
      ghost var c1 := code;
      ghost var d1 := d;
      SameLength(c1, f1.code);
      CompiledDesc(fs, f1, d1);
      x, d := PrefixOf(op, x, fs, d1);
      LinksTransitive(c0, c1, code, fs, f1, {}, Own(d1), {});
    }

    /** A value in the next register: expr followed by luaK_exp2nextreg. */
    method ExprToNextReg(e: Expr) returns (r: nat)
      requires Rep() && CanCompile(model, e)
      modifies this
      ensures Rep() && model == ToNextReg(old(model), e).0 && r == old(model).freereg && freereg == r + 1
    {
      hide FsOk, LinksKept, Encodes, Exp2NextReg, CompiledOk, IsList, Waiting, Compile;
      ghost var fs := model;
      CompileStructure(fs, e);
      ghost var d: Exp;
      var x;
      x, d := SubExpr(e);
      CompiledDesc(fs, model, d);
      CompiledFacts(fs, model, d);
      Exp2NextRegOk(model, d);
      x := ExpToNextReg(x, d);
      r := x.kind.info;
    }

    /** cond of lparser.c: the list of the jumps for a false condition. */
    method CondOf(e: Expr) returns (out: int, ghost l: seq<nat>)
      requires Rep() && CanCompile(model, e)
      modifies this
      ensures Rep() && (model, l) == Cond(old(model), e) && IsList(code, out, l)
    {
      hide FsOk, LinksKept, Encodes, GoIfTrue, CompiledOk, IsList, Waiting, Compile;
      ghost var fs := model;
      CompileStructure(fs, e);
      ghost var d: Exp;
      var x;
      x, d := SubExpr(e);
      CompiledDesc(fs, model, d);
      FalseForNil(fs, model, d);
      if x.kind.VNil? {
        x := x.(kind := VFalse);
        d := d.(kind := VFalse);
      }
      out, l := GoIfTrueOf(x, d);
    }
  }

  lemma WaitingSome(code: Code, l: seq<nat>, n: nat)
    requires Waiting(code, l) && n <= |l|
    ensures Waiting(code, l[..n])
  {
  }

  lemma LinkKept(before: seq<Word>, after: seq<Word>, j: nat)
    requires j < |before| == |after| && after[j] == before[j]
    ensures GetJump(after, j) == GetJump(before, j)
  {
  }

  lemma WaitingAreJumps(code: seq<Word>, model: Code)
    requires Encodes(code, model)
    ensures forall j: nat | j < |code| && model[j] == Jmp(None) :: code[j].Jmp?
  {
    forall j: nat | j < |code| && model[j] == Jmp(None) ensures code[j].Jmp? {
      assert EncodesAt(code, model, j);
    }
  }

  lemma EmitKeeps(fs: Fs, i: Instr)
    requires FsOk(fs)
    ensures KeepsWaiting(fs, Emit(fs, i), {}) && |Emit(fs, i).code| == |fs.code| + 1 && Emit(fs, i).jpc == []
  {
    hide FsOk;
    DischargeOk(fs);
  }

  lemma OkCode(fs: Fs)
    requires FsOk(fs)
    ensures CodeOk(fs.code) && Waiting(fs.code, fs.jpc)
  {
  }

  lemma AppendJump(code: seq<Word>, model: Code, waiting: seq<nat>, head: int)
    requires Encodes(code, model) && IsList(code, head, waiting) && Waiting(model, waiting)
    ensures var c := code + [Jmp(NO_JUMP)]; var m := model + [Jmp(None)]; var me: nat := |code|;
            && Encodes(c, m) && IsList(c, head, waiting) && Waiting(m, waiting + [me])
            && IsList(c, me, [me]) && me !in waiting
  {
    var c := code + [Jmp(NO_JUMP)];
    var m := model + [Jmp(None)];
    forall j: nat | j < |c| ensures EncodesAt(c, m, j) {
      if j < |code| { assert EncodesAt(code, model, j); }
    }
    ListKept(code, c, head, waiting);
    var me: nat := |code|;
    assert [me][1..] == [];
  }

  lemma CondLinks(before: seq<Word>, mid: seq<Word>, after: seq<Word>, fs: Fs, gs: Fs)
    requires LinksKept(before, mid, fs, {}) && LinksKept(mid, after, gs, {})
    requires FsOk(fs) && KeepsWaiting(fs, gs, {}) && |mid| == |gs.code|
    ensures LinksKept(before, after, fs, {})
  {
    hide FsOk;
  }

  function SetWordA(w: Word, reg: nat): Word {
    match w
    case Arith(op, _, l, r) => Arith(op, reg, l, r)
    case Unary(op, _, b) => Unary(op, reg, b)
    case _ => w
  }

  lemma NoJumpLinks(code: seq<Word>, fs: Fs, i: nat, w: Word)
    requires Encodes(code, fs.code) && i < |code| && !fs.code[i].Jmp? && !w.Jmp?
    requires IsList(code, if fs.jpc == [] then NO_JUMP else fs.jpc[0], fs.jpc)
    ensures LinksKept(code, code[i := w], fs, {})
    ensures IsList(code[i := w], if fs.jpc == [] then NO_JUMP else fs.jpc[0], fs.jpc)
  {
    var head := if fs.jpc == [] then NO_JUMP else fs.jpc[0];
    EncodesTest(code, fs.code, i);
    ListInCode(code, head, fs.jpc);
    ListKept(code, code[i := w], head, fs.jpc);
  }

  lemma ConstantKeepsCode(fs: Fs, v: Value)
    ensures AddK(fs, v).0 == fs.(k := AddK(fs, v).0.k, kcache := AddK(fs, v).0.kcache)
  {
  }

  lemma LinksSame(c: seq<Word>, fs: Fs)
    ensures forall own :: LinksKept(c, c, fs, own)
  {
  }

  lemma LinksTransitive(c0: seq<Word>, c1: seq<Word>, c2: seq<Word>, fs: Fs, gs: Fs, own: set<nat>, more: set<nat>, all: set<nat>)
    requires LinksKept(c0, c1, fs, own) && LinksKept(c1, c2, gs, more)
    requires Grows(fs, gs, own) && |c0| == |fs.code| && |c1| == |gs.code| && own <= all
    requires forall j: nat | j in more :: j in all || j in fs.jpc || |fs.code| <= j
    ensures LinksKept(c0, c2, fs, all)
  {
  }

  lemma ListStays(c0: seq<Word>, c1: seq<Word>, fs: Fs, head: int, l: seq<nat>)
    requires IsList(c0, head, l) && Waiting(fs.code, l) && Disjoint(l, fs.jpc) && LinksKept(c0, c1, fs, {})
    ensures IsList(c1, head, l)
  {
    ListInCode(c0, head, l);
    ListKept(c0, c1, head, l);
  }

  lemma RepresentsStays(c0: seq<Word>, c1: seq<Word>, fs: Fs, x: Desc, e: Exp)
    requires Represents(c0, x, e) && DescOk(fs, e) && LinksKept(c0, c1, fs, {})
    ensures Represents(c1, x, e)
  {
    hide FsOk, IsList, LinksKept;
    ListStays(c0, c1, fs, x.t, e.t);
    ListStays(c0, c1, fs, x.f, e.f);
    if e.kind.VJmp? {
      ListStays(c0, c1, fs, e.kind.jump, [e.kind.jump]);
    }
  }

  lemma OwnJump(fs: Fs, e: Exp)
    requires DescOk(fs, e) && e.kind.VJmp?
    ensures Waiting(fs.code, e.t) && Disjoint(e.t, [e.kind.jump]) && fs.jpc == []
  {
    hide FsOk;
  }

  lemma ConcatKeeps(c1: seq<Word>, c2: seq<Word>, g: Fs, x: Desc, e: Exp, jpc: int)
    requires DescOk(g, e) && e.kind.VJmp? && Represents(c1, x, e) && IsList(c1, jpc, g.jpc)
    requires |c2| == |c1| && forall j: nat | j < |c1| && j !in e.t :: c2[j] == c1[j]
    ensures LinksKept(c1, c2, g, Own(e)) && IsList(c2, x.f, e.f) && IsList(c2, jpc, g.jpc)
  {
    hide FsOk, KindOk;
    assert forall j | j in e.t :: j in TrueList(e);
    ListKept(c1, c2, x.f, e.f);
    ListKept(c1, c2, jpc, g.jpc);
  }

  /** hasjumps compares the heads: they differ unless both lists are empty. */
  lemma HeadsDiffer(code: seq<Word>, g: Fs, t: int, f: int, e: Exp, reg: nat)
    requires DescOk(g, e) && IsList(code, t, TrueList(e)) && IsList(code, f, e.f)
    ensures t == f <==> TrueList(e) == [] && e.f == []
  {
    hide FsOk, KindOk;
    WholeLists(g, e);
    SelfDisjoint(TrueList(e), e.f);
    if t == f {
      ListUnique(code, t, TrueList(e), e.f);
    }
  }

  lemma SelfDisjoint(a: seq<nat>, b: seq<nat>)
    ensures Disjoint(a, b) && a == b ==> a == []
  {
    if a != [] { assert a[0] in a; }
  }

  /** A list is not touched when another one is settled. */
  lemma OtherKept(c0: seq<Word>, c1: seq<Word>, model: Code, settled: seq<nat>, l: seq<nat>, head: int)
    requires IsList(c0, head, l) && Disjoint(l, settled) && Encodes(c0, model) && Waiting(model, l)
    requires |c1| == |c0| && forall j: nat | j < |c0| && c0[j].Jmp? && j !in settled :: c1[j] == c0[j]
    ensures IsList(c1, head, l)
  {
    ListInCode(c0, head, l);
    ListKept(c0, c1, head, l);
  }

  lemma LandReady(h: Fs, e: Exp, reg: nat, dF: Option<nat>, dT: Option<nat>)
    requires FsOk(h) && ListsOk(h, e) && Landable(h, e.f, reg, dF, false) && Landable(h, e.t, reg, dT, true)
    ensures CodeOk(h.code) && CodeOk(Land(h, e.f, reg, dF).code)
    ensures Waiting(h.code, e.f) && Waiting(h.code, e.t) && Waiting(h.code, h.jpc)
    ensures Waiting(Land(h, e.f, reg, dF).code, e.t) && Waiting(Land(h, e.f, reg, dF).code, h.jpc)
    ensures Waiting(Land(Land(h, e.f, reg, dF), e.t, reg, dT).code, h.jpc)
    ensures Disjoint(e.t, e.f) && Disjoint(h.jpc, e.f) && Disjoint(h.jpc, e.t)
    ensures dF.None? ==> !NeedValue(h.code, e.f)
    ensures dT.None? ==> !NeedValue(Land(h, e.f, reg, dF).code, e.t)
  {
    hide KOk, LabelOk, NeedValue, Land;
    LandBothOk(h, e, reg, dF, dT);
    LandFields(h, e.f, reg, dF);
    LandFields(Land(h, e.f, reg, dF), e.t, reg, dT);
  }

  lemma LandLinks(c0: seq<Word>, c1: seq<Word>, c2: seq<Word>, h: Fs, g: Fs, e: Exp)
    requires Encodes(c0, h.code) && |c1| == |c0| == |c2| && Encodes(c1, g.code)
    requires forall j: nat | j < |c0| && c0[j].Jmp? && j !in e.f :: c1[j] == c0[j]
    requires forall j: nat | j < |c1| && c1[j].Jmp? && j !in e.t :: c2[j] == c1[j]
    ensures LinksKept(c0, c2, h, Elems(e.t) + Elems(e.f))
  {
    forall j: nat | j < |c0| && h.code[j] == Jmp(None) && j !in Elems(e.t) + Elems(e.f) ensures c2[j] == c0[j] {
      EncodesTest(c0, h.code, j);
    }
  }

  lemma SameLinks(fs: Fs, gs: Fs, c0: seq<Word>, c1: seq<Word>, own: set<nat>)
    requires gs == fs.(freereg := gs.freereg)
    ensures LinksKept(c0, c1, gs, own) == LinksKept(c0, c1, fs, own)
  {
  }

  lemma Heads(code: seq<Word>, g: Fs, x: Desc, e: Exp)
    requires DescOk(g, e) && IsList(code, x.t, e.t) && IsList(code, x.f, e.f)
    ensures x.t == x.f <==> !HasJumps(e)
  {
    hide FsOk, KindOk;
    SelfDisjoint(e.t, e.f);
    if x.t == x.f {
      ListUnique(code, x.t, e.t, e.f);
    }
  }

  lemma EmptyList(code: seq<Word>)
    ensures IsList(code, NO_JUMP, [])
  {
  }

  lemma RelocLast(fs: Fs, e: Exp)
    requires DescOk(fs, e) && e.kind.VReloc?
    ensures e.kind.at + 1 == |fs.code| && Relocatable(fs.code[e.kind.at])
  {
  }

  lemma NotNot(fs: Fs, e: Exp)
    requires DescOk(fs, e) && !(e.kind.VReloc? && fs.code[e.kind.at].Unary? && fs.code[e.kind.at].uop.Not?)
    ensures !IsNot(fs, e)
  {
  }

  lemma EncodesTake(code: seq<Word>, model: Code, n: nat)
    requires Encodes(code, model) && n <= |code|
    ensures Encodes(code[..n], model[..n])
  {
    var code' := code[..n];
    var model' := model[..n];
    forall j: nat | j < n ensures EncodesAt(code', model', j) {
      assert EncodesAt(code, model, j);
    }
  }

  lemma TakeLast(code: seq<Word>, fs: Fs, e: Exp, jpc: int)
    requires DescOk(fs, e) && e.kind.VReloc? && Encodes(code, fs.code) && IsList(code, jpc, fs.jpc)
    ensures |code| >= 1 && IsList(code[..|code|-1], jpc, Base(fs, e).jpc) && Waiting(Base(fs, e).code, Base(fs, e).jpc)
  {
    hide FsOk, ListsOk, Encodes;
    SameLength(code, fs.code);
  }

  lemma BaseLinks(c0: seq<Word>, c1: seq<Word>, c2: seq<Word>, fs: Fs, e: Exp)
    requires DescOk(fs, e) && e.kind.VReloc? && |c0| == |fs.code| && c1 == c0[..|c0|-1]
    requires LinksKept(c1, c2, Base(fs, e), {})
    ensures LinksKept(c0, c2, fs, {})
  {
    hide FsOk, ListsOk;
    forall j: nat | j < |c0| && fs.code[j] == Jmp(None) && j !in fs.jpc ensures j < |c2| && c2[j] == c0[j] {
      assert j < |c0| - 1 && Base(fs, e).code[j] == fs.code[j] && c1[j] == c0[j];
    }
  }

  lemma ComparisonAt(fs: Fs, e: Exp)
    requires DescOk(fs, e) && e.kind.VJmp?
    ensures 1 <= e.kind.jump < |fs.code| && fs.code[e.kind.jump-1].Cmp? && fs.jpc == []
  {
  }

  lemma InvertLinks(c0: seq<Word>, c1: seq<Word>, fs: Fs, j: nat, d: Exp)
    requires Encodes(c0, fs.code) && forall i: nat | i < |c0| && c0[i].Jmp? :: i < |c1| && c1[i] == c0[i]
    requires IsList(c0, j, [j])
    ensures LinksKept(c0, c1, fs, {}) && IsList(c1, j, [j])
  {
    WaitingAreJumps(c0, fs.code);
    ListInCode(c0, j, [j]);
    assert j in [j];
    ListKept(c0, c1, j, [j]);
  }

  lemma LeaveLinks(c0: seq<Word>, c1: seq<Word>, fs: Fs, d: Exp)
    requires DescOk(fs, d) && |c0| == |fs.code| && LinksKept(c0, c1, fs, {})
    ensures LinksKept(c0, c1, fs, Own(d))
    ensures forall j | j in d.t || j in d.f :: j < |c0| && j < |c1| && c1[j] == c0[j]
  {
    hide FsOk, KindOk;
  }

  lemma LeaveLists(fs: Fs, d: Exp, gs: Fs, pcs: seq<nat>)
    requires DescOk(fs, d) && LeaveOk(fs, d, gs, pcs)
    ensures Waiting(gs.code, d.t) && Waiting(gs.code, d.f) && Waiting(gs.code, pcs) && Waiting(gs.code, gs.jpc)
    ensures Disjoint(d.t, pcs) && Disjoint(d.f, pcs) && Disjoint(d.t, d.f) && Disjoint(d.f, d.t)
    ensures Disjoint(gs.jpc, d.t) && Disjoint(gs.jpc, d.f) && Disjoint(gs.jpc, pcs)
  {
    hide CodeOk, KOk, LabelOk, KindOk, KeepsWaiting;
  }

  lemma CloseKeeps(c0: seq<Word>, c1: seq<Word>, c2: seq<Word>, c3: seq<Word>, fs: Fs, gs: Fs, d: Exp,
                   a: seq<nat>, b: seq<nat>, pcs: seq<nat>)
    requires DescOk(fs, d) && LeaveOk(fs, d, gs, pcs) && |c0| == |fs.code| && |c1| == |gs.code| == |c2|
    requires (a == d.f && b == d.t) || (a == d.t && b == d.f)
    requires LinksKept(c0, c1, fs, Own(d))
    requires forall j: nat | j < |c1| && j !in a :: c2[j] == c1[j]
    requires LinksKept(c2, c3, gs, Elems(b))
    ensures LinksKept(c0, c3, fs, Own(d))
    ensures forall j | j in a + pcs :: j < |c3| && c3[j] == c2[j]
  {
    hide FsOk, KindOk;
    LeaveLists(fs, d, gs, pcs);
    forall j: nat | j < |c0| && fs.code[j] == Jmp(None) && j !in fs.jpc && j !in Own(d) ensures j < |c3| && c3[j] == c0[j] {
      assert Kept(fs.code, gs.code, j);
      assert j !in a && j !in Elems(b);
    }
  }

  lemma NotLists(fs: Fs, d: Exp)
    requires DescOk(fs, d)
    ensures Waiting(fs.code, d.t) && Waiting(fs.code, d.f) && Disjoint(d.t, fs.jpc) && Disjoint(d.f, fs.jpc)
  {
    hide FsOk, KindOk;
  }

  lemma NegatedStructure(fs: Fs, d: Exp)
    requires DescOk(fs, d) && !d.kind.VLocal?
    ensures DescOk(Negated(fs, d).0, Negated(fs, d).1)
  {
    hide FsOk, ListsOk, KeepsWaiting, Tested, InvertJump, Base, Emit, Denotes, Gone, Behave;
    match d.kind
    case VJmp(_) => InvertedDesc(SomeOps(), fs, d);
    case VReloc(_) => TestedNegated(SomeOps(), fs, d, map[], map[], 0, Nil);
    case VNonReloc(_) => TestedNegated(SomeOps(), fs, d, map[], map[], 0, Nil);
    case _ => NegatedKinds(fs, d);
  }

  lemma RemovedWait(gs: Fs, d: Exp)
    requires FsOk(gs) && ListsOk(gs, d)
    ensures Waiting(RemoveValues(gs.code, d.f), d.t)
    ensures Waiting(RemoveBoth(gs, d).code, gs.jpc)
  {
    hide KOk, LabelOk, CacheOk, CodeOk;
    StillWaiting(gs.code, d.f, d.t);
    RemoveBothOk(SomeOps(), gs, d.t, d.f, d, map[]);
    RemovedJpc(gs, d);
  }

  lemma RemovedJpc(gs: Fs, d: Exp)
    requires FsOk(RemoveBoth(gs, d))
    ensures Waiting(RemoveBoth(gs, d).code, gs.jpc)
  {
    hide CodeOk, KOk, LabelOk;
  }

  lemma NotLinks(c0: seq<Word>, c1: seq<Word>, c2: seq<Word>, fs: Fs)
    requires Encodes(c0, fs.code) && LinksKept(c0, c1, fs, {}) && |c2| == |c1|
    requires forall j: nat | j < |c1| && c1[j].Jmp? :: c2[j] == c1[j]
    ensures LinksKept(c0, c2, fs, {})
  {
    WaitingAreJumps(c0, fs.code);
  }

  lemma JumpsKept(c0: seq<Word>, c1: seq<Word>, head: int, l: seq<nat>)
    requires IsList(c0, head, l) && |c1| == |c0|
    requires forall j: nat | j < |c0| && c0[j].Jmp? :: c1[j] == c0[j]
    ensures IsList(c1, head, l)
  {
    ListInCode(c0, head, l);
    ListKept(c0, c1, head, l);
  }

  lemma FreedActive(fs: Fs, d: Exp)
    ensures FreeExp(fs, d).nactvar == fs.nactvar
  {
  }

  lemma FoldedKind(op: ArithOp, e1: Exp, e2: Exp)
    requires ConstFold(op, e1, e2).Some?
    ensures e1.kind.VKNum?
  {
  }

  /** The states and descriptors codearith goes through. */
  lemma SecondFacts(fs: Fs, e1: Exp, e2: Exp)
    requires Pair(fs, e1, e2)
    ensures var (f1, d2, o2) := Exp2RK(fs, e2); var (f2, d1, o1) := Exp2RK(f1, e1);
            && DescOk(fs, e2) && Ready(e1) && Grows(fs, f1, Own(e2)) && (e1.kind.VKNum? ==> DescOk(f1, e1))
            && FsOk(f2) && Grows(fs, f2, Own(e2)) && !HasJumps(d1) && !d1.kind.VJmp? && !e1.kind.VJmp?
            && Stacked(f2, Slot(fs, e1), d1, o1, d2, o2) && (forall j | j in Own(e1) :: j in Own(e2))
  {
    hide FsOk, ListsOk, KindOk, Exp2RK, Stacked, KeepsWaiting;
    SecondOk(fs, e1, e2);
    Exp2RKOk(fs, e2);
    var (f1, _, _) := Exp2RK(fs, e2);
    if e1.kind.VKNum? {
      NumeralDesc(f1, e1);
      Exp2RKOk(f1, e1);
    } else {
      ReadyRK(f1, e1);
    }
  }

  lemma FreedFields(fs: Fs, d1: Exp, o1: RK, d2: Exp, o2: RK)
    ensures var gs := FreeBoth(fs, d1, o1, d2, o2); gs == fs.(freereg := gs.freereg)
  {
  }

  lemma ReadySame(fs: Fs, gs: Fs, e: Exp, d: Exp)
    requires e.kind.VNonReloc? && !HasJumps(e) && (gs, d, R(e.kind.info)) == Exp2RK(fs, e)
    ensures gs == fs && d == e
  {
    ReadyRK(fs, e);
  }

  lemma NoListsAtAll(c0: seq<Word>, c1: seq<Word>, x: Desc, e: Exp)
    requires !HasJumps(e) && !e.kind.VJmp? && Represents(c0, x, e)
    ensures IsList(c1, x.t, e.t) && IsList(c1, x.f, e.f)
  {
  }

  lemma ComparedK(fs: Fs, e1: Exp, e2: Exp)
    requires Pair(fs, e1, e2) && !e1.kind.VKNum?
    ensures var (f2, d2, o2) := Exp2RK(fs, e2);
            RKOk(Exp2RK(fs, e1).2, |f2.k|) && RKOk(o2, |f2.k|)
  {
    hide FsOk, ListsOk, KindOk, Exp2RK, Stacked, Grows;
    SecondOk(fs, e1, e2);
    ComparedPair(fs, e1, e2);
  }

  lemma NumeralHeads(code: seq<Word>, x: Desc, e: Exp)
    requires Represents(code, x, e)
    ensures IsNumeral(e) <==> x.kind.VKNum? && x.t == NO_JUMP && x.f == NO_JUMP
  {
  }

  lemma LinksMore(c0: seq<Word>, c1: seq<Word>, fs: Fs, own: set<nat>)
    requires LinksKept(c0, c1, fs, {})
    ensures LinksKept(c0, c1, fs, own)
  {
  }

  /** The list of the left operand is apart from those of the right one. */
  ghost predicate JoinsList(code: seq<Word>, fs: Fs, head: int, out: seq<nat>, a: seq<nat>, e: Exp) {
    && IsList(code, head, out) && Disjoint(out, fs.jpc)
    && (forall j | j in out :: j !in Own(e))
    && (a == e.t || a == e.f)
  }

  lemma JoinReady(fs: Fs, e: Exp, out: seq<nat>)
    requires DescOk(fs, e) && forall j | j in out :: j !in Own(e)
    ensures Waiting(fs.code, e.t) && Waiting(fs.code, e.f) && Disjoint(e.t, out) && Disjoint(e.f, out)
  {
    hide FsOk, KindOk;
  }

  lemma JoinKeeps(c0: seq<Word>, c1: seq<Word>, fs: Fs, x: Desc, e: Exp, sense: bool, jpc: int)
    requires DescOk(fs, e) && Represents(c0, x, e) && IsList(c0, jpc, fs.jpc)
    requires |c1| == |c0| && forall j: nat | j < |c0| && j !in (if sense then e.t else e.f) :: c1[j] == c0[j]
    ensures LinksKept(c0, c1, fs, Own(e)) && IsList(c1, jpc, fs.jpc)
    ensures if sense then IsList(c1, x.f, e.f) else IsList(c1, x.t, e.t)
    ensures e.kind.VJmp? ==> IsList(c1, e.kind.jump, [e.kind.jump])
  {
    hide FsOk;
    ListKept(c0, c1, jpc, fs.jpc);
    if sense { ListKept(c0, c1, x.f, e.f); } else { ListKept(c0, c1, x.t, e.t); }
    if e.kind.VJmp? { ListKept(c0, c1, e.kind.jump, [e.kind.jump]); }
  }

  lemma CompiledDesc(fs: Fs, gs: Fs, d: Exp)
    requires CompiledOk(fs, gs, d)
    ensures DescOk(gs, d) && Grows(fs, gs, {}) && forall j | j in Own(d) :: j in fs.jpc || |fs.code| <= j
  {
  }

  lemma BetweenOperands(fs: Fs, x: Expr, y: Expr, op: BinOp, f1: Fs, d1: Exp)
    requires CanCompile(fs, EBin(op, x, y)) && CompiledOk(fs, f1, d1)
    ensures CanCompile(Infix(f1, op, d1).0, y) && Grows(f1, Infix(f1, op, d1).0, Own(d1))
  {
    hide FsOk, Infix, CompiledOk, KeepsWaiting, ListsOk, KindOk, Exp2RK, GoIfTrue, GoIfFalse;
    CompiledFacts(fs, f1, d1);
    if op.BAnd? || op.BOr? {
      LogicState(fs, x, y, op, f1, d1);
    } else {
      InfixStructure(fs, op, f1, d1);
      RightState(fs, x, y, op, f1, d1);
    }
    InfixGrows(fs, op, f1, d1);
  }

  lemma InfixGrows(fs: Fs, op: BinOp, f1: Fs, d1: Exp)
    requires DescOk(f1, d1)
    ensures Grows(f1, Infix(f1, op, d1).0, Own(d1))
  {
    hide FsOk, KeepsWaiting, ListsOk, KindOk, Exp2RK, GoIfTrue, GoIfFalse;
    GoIfTrueOk(f1, d1);
    GoIfFalseOk(f1, d1);
    Exp2RKOk(f1, d1);
    assert KeepsWaiting(f1, f1, {}) by { KeepsSelf(f1); }
    GrowsMore(f1, f1, Own(d1));
  }

  /** Where the right operand is compiled, the left one's list still waits. */
  lemma AfterOperands(c2: seq<Word>, c3: seq<Word>, fs: Fs, op: BinOp, f1: Fs, d1: Exp, y1: Desc, f3: Fs, d2: Exp)
    requires CompiledOk(fs, f1, d1) && CompiledOk(Infix(f1, op, d1).0, f3, d2) && fs.nactvar <= fs.freereg
    requires IsList(c2, y1.t, Infix(f1, op, d1).1.t) && IsList(c2, y1.f, Infix(f1, op, d1).1.f)
    requires op.BArith? || op.BRel? ==> Represents(c2, y1, Infix(f1, op, d1).1)
    requires LinksKept(c2, c3, Infix(f1, op, d1).0, {})
    ensures var e1 := Infix(f1, op, d1).1;
            && (op.BArith? || op.BRel? ==> Pair(f3, e1, d2) && Represents(c3, y1, e1))
            && (op.BRel? ==> !e1.kind.VKNum?)
            && (op.BAnd? ==> Waiting(f3.code, e1.f) && JoinsList(c3, f3, y1.f, e1.f, d2.f, d2))
            && (op.BOr? ==> Waiting(f3.code, e1.t) && JoinsList(c3, f3, y1.t, e1.t, d2.t, d2))
  {
    hide FsOk, KeepsWaiting, ListsOk, KindOk, Exp2RK, GoIfTrue, GoIfFalse, CompiledOk, CondOk, IsList, LinksKept, LeftOperand, DescOk, Waiting;
    var (f2, e1) := Infix(f1, op, d1);
    CompiledFacts(fs, f1, d1);
    if op.BArith? || op.BRel? {
      InfixStructure(fs, op, f1, d1);
      PosfixStructure(fs, op, f2, e1, f3, d2);
      LeftNoLists(fs, f2, e1);
      NoListsAtAll(c2, c3, y1, e1);
    } else {
      GoIfTrueOk(f1, d1);
      GoIfFalseOk(f1, d1);
      var sense := op.BOr?;
      var out := if sense then e1.t else e1.f;
      OutStays(c2, c3, f1, d1, f2, out, f3, d2, if sense then y1.t else y1.f);
    }
  }

  lemma LeftNoLists(fs: Fs, gs: Fs, e: Exp)
    requires LeftOperand(fs, gs, e)
    ensures !HasJumps(e) && !e.kind.VJmp?
  {
  }

  lemma OutStays(c2: seq<Word>, c3: seq<Word>, f1: Fs, d1: Exp, f2: Fs, out: seq<nat>, f3: Fs, d2: Exp, head: int)
    requires CondOk(f1, d1, f2, out) && CompiledOk(f2, f3, d2) && IsList(c2, head, out) && LinksKept(c2, c3, f2, {})
    ensures Waiting(f3.code, out) && IsList(c3, head, out) && Disjoint(out, f3.jpc) && forall j | j in out :: j !in Own(d2)
  {
    hide FsOk, IsList, LinksKept, DescOk;
    ListStays(c2, c3, f2, head, out);
  }

  lemma BinaryLinks(c0: seq<Word>, c1: seq<Word>, c2: seq<Word>, c3: seq<Word>, c4: seq<Word>,
                    fs: Fs, f1: Fs, f2: Fs, f3: Fs, d1: Exp, d2: Exp, op: BinOp)
    requires CompiledOk(fs, f1, d1) && Grows(f1, f2, Own(d1)) && CompiledOk(f2, f3, d2)
    requires |c0| == |fs.code| && |c1| == |f1.code| && |c2| == |f2.code| && |c3| == |f3.code|
    requires LinksKept(c0, c1, fs, {}) && LinksKept(c1, c2, f1, Own(d1))
    requires LinksKept(c2, c3, f2, {}) && LinksKept(c3, c4, f3, Own(d2))
    ensures LinksKept(c0, c4, fs, {})
  {
    hide FsOk, LinksKept, CompiledOk, KeepsWaiting;
    CompiledDesc(fs, f1, d1);
    CompiledDesc(f2, f3, d2);
    LinksTransitive(c0, c1, c2, fs, f1, {}, Own(d1), {});
    GrowsTransitive(fs, f1, f2, {}, Own(d1));
    LinksTransitive(c0, c2, c3, fs, f2, {}, {}, {});
    GrowsTransitive(fs, f2, f3, {}, {});
    LinksTransitive(c0, c3, c4, fs, f3, {}, Own(d2), {});
  }

  lemma LoadsWait(gs: Fs, list: seq<nat>, reg: nat)
    requires Waiting(gs.code, list)
    ensures Waiting(WithLoads(gs.code, reg), list)
  {
  }

  lemma LoadsLinks(fs: Fs, gs: Fs, hs: Fs, c0: seq<Word>, c1: seq<Word>, c2: seq<Word>, c3: seq<Word>,
                   list: seq<nat>, reg: nat, isJump: bool)
    requires Encodes(c0, fs.code) && (gs, list) == (if isJump then (fs, []) else Jump(fs))
    requires LinksKept(c0, c1, fs, {}) && |c1| <= |c2| && c2[..|c1|] == c1 && |c1| == |gs.code|
    requires hs.code == WithLoads(gs.code, reg) && hs.jpc == [] && |c2| == |hs.code|
    requires LinksKept(c2, c3, hs, Elems(list))
    ensures LinksKept(c0, c3, fs, {})
  {
    hide Encodes;
    SameLength(c0, fs.code);
    forall j: nat | j < |c0| && fs.code[j] == Jmp(None) && j !in fs.jpc ensures j < |c3| && c3[j] == c0[j] {
      assert hs.code[j] == Jmp(None) && j !in list;
      assert c2[j] == c1[j];
    }
  }

  lemma LoadsLast(fs: Fs, reg: nat, isJump: bool)
    requires isJump ==> fs.jpc == []
    ensures var (gs, fj) := if isJump then (fs, []) else Jump(fs);
            Label(Loads(fs, reg, isJump)) ==
              gs.(code := WithLoads(gs.code, reg), lasttarget := |WithLoads(gs.code, reg)|, jpc := fj)
  {
    LoadsShape(fs, reg, isJump);
  }

  lemma SameLength(code: seq<Word>, model: Code)
    requires Encodes(code, model)
    ensures |code| == |model|
  {
  }

  lemma HeadOf(code: seq<Word>, head: int, l: seq<nat>, i: nat)
    requires i <= |l| && IsList(code, head, l[i..]) && head != NO_JUMP
    ensures i < |l| && head == l[i] && l[i] < |code| && code[l[i]].Jmp? && IsList(code, GetJump(code, l[i]), l[i+1..])
  {
    if i < |l| { NextInList(code, l, i); }
  }

  lemma NoMore(code: seq<Word>, head: int, l: seq<nat>, i: nat)
    requires i <= |l| && IsList(code, head, l[i..]) && head == NO_JUMP
    ensures l[..i] == l
  {
    if i < |l| { NextInList(code, l, i); }
  }

  /** What one turn of the loop of patchlistaux needs. */
  lemma StepFacts(m0: Code, code0: seq<Word>, code: seq<Word>, head: int, l: seq<nat>, i: nat, reg: Option<nat>, vtarget: nat, d: Option<nat>)
    requires IsList(code0, head, l) && Waiting(m0, l) && i < |l| && CodeOk(m0) && Encodes(code0, m0)
    requires d.Some? || !NeedValue(m0, l)
    requires Encodes(code, Patch(m0, l[..i], reg, vtarget, d))
    ensures l[i] !in l[..i] && l[i] !in l[i+1..] && l[i] < |m0|
    ensures Patch(m0, l[..i+1], reg, vtarget, d) == PatchStep(Patch(m0, l[..i], reg, vtarget, d), l[i], reg, vtarget, d)
    ensures d.Some? || Carries(Patch(m0, l[..i], reg, vtarget, d), l[i])
    ensures |code| == |m0| == |code0|
    ensures forall j: nat | j < |code| :: code[j].Jmp? == code0[j].Jmp?
  {
    hide CodeOk, IsList, PatchStep;
    NotAmong(code0, head, l, i);
    assert l[..i] + [l[i]] == l[..i+1];
    assert l[i] in l && forall j | j in l[..i+1] :: j in l;
    PatchOneMore(m0, l[..i], l[i], reg, vtarget, d);
    CarriesLater(m0, l[..i], l[i], reg, vtarget, d);
    forall j: nat | j < |code| ensures code[j].Jmp? == code0[j].Jmp? {
      EncodesTest(code, Patch(m0, l[..i], reg, vtarget, d), j);
      EncodesTest(code0, m0, j);
      PatchKeepsTests(m0, l[..i], reg, vtarget, d, j);
    }
  }

  lemma NotAmong(code: seq<Word>, head: int, l: seq<nat>, i: nat)
    requires IsList(code, head, l) && i < |l|
    ensures l[i] !in l[..i] && l[i] !in l[i+1..]
  {
    forall j: nat | j < |l| && j != i ensures l[j] != l[i] {
      if j < i { ListDistinct(code, head, l, j, i); } else { ListDistinct(code, head, l, i, j); }
    }
  }

  lemma CarriesLater(code: Code, done: seq<nat>, j: nat, reg: Option<nat>, vtarget: nat, d: Option<nat>)
    requires CodeOk(code) && Waiting(code, done) && j < |code| && code[j] == Jmp(None) && j !in done
    ensures Carries(Patch(code, done, reg, vtarget, d), j) == Carries(code, j)
  {
    hide CodeOk;
    if j >= 1 {
      assert Patch(code, done, reg, vtarget, d)[j-1] == PatchedAt(code, done, reg, vtarget, d, j - 1);
    }
  }

  lemma RestKept(before: seq<Word>, after: seq<Word>, l: seq<nat>, i: nat, next: int)
    requires i < |l| && IsList(before, next, l[i+1..]) && l[i] !in l[i+1..] && |after| == |before|
    requires forall j: nat | j < |before| && before[j].Jmp? && j != l[i] :: after[j] == before[j]
    ensures IsList(after, next, l[i+1..])
  {
    ListInCode(before, next, l[i+1..]);
    ListKept(before, after, next, l[i+1..]);
  }
}
