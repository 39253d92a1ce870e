/** The compilation of expressions (luaK_prefix, luaK_infix, luaK_posfix as subexpr calls them) against their meaning. */
module CgCompile {
  import opened CgCode
  import opened CgState
  import opened CgExp
  import opened CgReg
  import opened CgOperand
  import opened CgCond
  import opened CgNot
  import opened CgArith

  datatype RelOp = OpEq | OpNe | OpLt | OpLe | OpGt | OpGe
  datatype BinOp = BArith(op: ArithOp) | BRel(rel: RelOp) | BAnd | BOr

  /** Expressions of the source; a string is known by its identity. */
  datatype Expr =
    | ENil | ETrue | EFalse
    | ENum(n: int)
    | EStr(id: int)
    | ELocal(reg: nat)
    | ENot(e: Expr)
    | EMinus(e: Expr)
    | ELen(e: Expr)
    | EBin(op: BinOp, l: Expr, r: Expr)

  // ---------------------------------------------------------------- meaning

  function RelValue(m: Ops, op: RelOp, v: Value, w: Value): bool {
    match op
    case OpEq => m.cmp(Eq, v, w)
    case OpNe => !m.cmp(Eq, v, w)
    case OpLt => m.cmp(Lt, v, w)
    case OpLe => m.cmp(Le, v, w)
    case OpGt => m.cmp(Lt, w, v)
    case OpGe => m.cmp(Le, w, v)
  }

  /** The value of an expression (sections 2.5.1 to 2.5.3 of the Lua 5.1 Reference Manual); `r` holds the locals. */
  function Eval(m: Ops, e: Expr, r: Regs): Value {
    match e
    case ENil => Nil
    case ETrue => Bool(true)
    case EFalse => Bool(false)
    case ENum(n) => Num(n)
    case EStr(id) => Other(id)
    case ELocal(x) => Get(r, x)
    case ENot(x) => Bool(!Truthy(Eval(m, x, r)))
    case EMinus(x) => m.unm(Eval(m, x, r))
    case ELen(x) => m.len(Eval(m, x, r))
    case EBin(op, x, y) =>
      match op
      case BArith(a) => m.arith(a, Eval(m, x, r), Eval(m, y, r))
      case BRel(c) => Bool(RelValue(m, c, Eval(m, x, r), Eval(m, y, r)))
      case BAnd => if Truthy(Eval(m, x, r)) then Eval(m, y, r) else Eval(m, x, r)
      case BOr => if Truthy(Eval(m, x, r)) then Eval(m, x, r) else Eval(m, y, r)
  }

  /** The comparisons of two numbers, metamethods or not (lvm.c luaV_lessthan, lessequal and luaV_equalval). */
  ghost predicate NumbersCompare(m: Ops) {
    forall a, b ::
      && (m.cmp(Eq, Num(a), Num(b)) <==> a == b)
      && (m.cmp(Lt, Num(a), Num(b)) <==> a < b)
      && (m.cmp(Le, Num(a), Num(b)) <==> a <= b)
  }

  /** Each of the six relations is the one that its sign says. */
  lemma RelationsOnNumbers(m: Ops, x: Expr, y: Expr, r: Regs, a: int, b: int)
    requires NumbersCompare(m) && Eval(m, x, r) == Num(a) && Eval(m, y, r) == Num(b)
    ensures Eval(m, EBin(BRel(OpEq), x, y), r) == Bool(a == b) && Eval(m, EBin(BRel(OpNe), x, y), r) == Bool(a != b)
    ensures Eval(m, EBin(BRel(OpLt), x, y), r) == Bool(a < b) && Eval(m, EBin(BRel(OpGt), x, y), r) == Bool(a > b)
    ensures Eval(m, EBin(BRel(OpLe), x, y), r) == Bool(a <= b) && Eval(m, EBin(BRel(OpGe), x, y), r) == Bool(a >= b)
  {
  }

  predicate Scoped(e: Expr, n: nat) {
    match e
    case ELocal(x) => x < n
    case ENot(x) => Scoped(x, n)
    case EMinus(x) => Scoped(x, n)
    case ELen(x) => Scoped(x, n)
    case EBin(_, x, y) => Scoped(x, n) && Scoped(y, n)
    case _ => true
  }

  lemma {:induction false} EvalSame(m: Ops, e: Expr, r: Regs, s: Regs, n: nat)
    requires Scoped(e, n) && SameBelow(r, s, n)
    ensures Eval(m, e, r) == Eval(m, e, s)
  {
    match e
    case ENot(x) => EvalSame(m, x, r, s, n);
    case EMinus(x) => EvalSame(m, x, r, s, n);
    case ELen(x) => EvalSame(m, x, r, s, n);
    case EBin(_, x, y) => EvalSame(m, x, r, s, n); EvalSame(m, y, r, s, n);
    case _ =>
  }

  // ---------------------------------------------------------------- code generation

  /** luaK_prefix for minus and length. */
  function Prefix(fs: Fs, op: UnaryOp, e: Exp): (Fs, Exp) {
    if op.Unm? && IsNumeral(e) then CodeUnary(fs, op, e)
    else var (gs, d) := Exp2AnyReg(fs, e); CodeUnary(gs, op, d)
  }

  /** luaK_infix. */
  function Infix(fs: Fs, op: BinOp, e: Exp): (Fs, Exp) {
    match op
    case BAnd => var (gs, out) := GoIfTrue(fs, e); (gs, Exp(e.kind, [], out))
    case BOr => var (gs, out) := GoIfFalse(fs, e); (gs, Exp(e.kind, out, []))
    case BArith(_) => if IsNumeral(e) then (fs, e) else var (gs, d, _) := Exp2RK(fs, e); (gs, d)
    case BRel(_) => var (gs, d, _) := Exp2RK(fs, e); (gs, d)
  }

  function CmpOf(op: RelOp): (CmpOp, bool) {
    match op
    case OpEq => (Eq, true)
    case OpNe => (Eq, false)
    case OpLt => (Lt, true)
    case OpLe => (Le, true)
    case OpGt => (Lt, false)
    case OpGe => (Le, false)
  }

  /** luaK_posfix. */
  function Posfix(fs: Fs, op: BinOp, e1: Exp, e2: Exp): (Fs, Exp) {
    match op
    case BAnd => var d := DischargeVars(e2); (fs, d.(f := d.f + e1.f))
    case BOr => var d := DischargeVars(e2); (fs, d.(t := d.t + e1.t))
    case BArith(a) => CodeArith(fs, a, e1, e2)
    case BRel(c) => CodeComp(fs, CmpOf(c).0, CmpOf(c).1, e1, e2)
  }

  /** The calls subexpr makes, in its order. */
  function Compile(fs: Fs, e: Expr): (Fs, Exp)
    decreases e
  {
    match e
    case ENil => (fs, Exp(VNil, [], []))
    case ETrue => (fs, Exp(VTrue, [], []))
    case EFalse => (fs, Exp(VFalse, [], []))
    case ENum(n) => (fs, Exp(VKNum(n), [], []))
    case EStr(id) => var (gs, i) := AddK(fs, Other(id)); (gs, Exp(VK(i), [], []))
    case ELocal(x) => (fs, Exp(VLocal(x), [], []))
    case ENot(x) => var (gs, d) := Compile(fs, x); CodeNot(gs, d)
    case EMinus(x) => var (gs, d) := Compile(fs, x); Prefix(gs, Unm, d)
    case ELen(x) => var (gs, d) := Compile(fs, x); Prefix(gs, Len, d)
    case EBin(op, x, y) =>
      var (f1, d1) := Compile(fs, x);
      var (f2, e1) := Infix(f1, op, d1);
      var (f3, d2) := Compile(f2, y);
      Posfix(f3, op, e1, d2)
  }

  /** A literal on the left of `and` or `or` splices no jump that carries a value into the list of the exits. */
  predicate SpliceFree(fs: Fs, op: BinOp, d: Exp) {
    || NoCarrier(fs)
    || !((op.BAnd? && d.kind.VFalse?) || (op.BOr? && d.kind.VTrue?))
  }

  /** A literal on the left, `true` of `or` (sense true) or `false` of `and`. */
  predicate IsLiteral(d: Exp, sense: bool) {
    if sense then d.kind.VTrue? else d.kind.VFalse?
  }

  /** If a literal is on the left, the jump by which control comes to it delivers the literal. */
  predicate Delivering(m: Ops, fs: Fs, d: Exp, sense: bool, start: Regs) {
    IsLiteral(d, sense) ==> !Misdelivers(m, fs, start, sense)
  }

  lemma SpliceFreeDelivers(m: Ops, fs: Fs, op: BinOp, d: Exp, start: Regs)
    requires SpliceFree(fs, op, d) && (op.BAnd? || op.BOr?)
    ensures Delivering(m, fs, d, op.BOr?, start)
  {
    if NoCarrier(fs) { NoCarrierDelivers(m, fs, start, op.BOr?); }
  }

  /** Every operand whose value is used, in a position where only truth matters for the whole, is exact. */
  predicate Sound(fs: Fs, e: Expr)
    decreases e
  {
    match e
    case ENot(x) => Sound(fs, x)
    case EMinus(x) => Exact(fs, x)
    case ELen(x) => Exact(fs, x)
    case EBin(op, x, y) =>
      var (f1, d1) := Compile(fs, x);
      var (f2, _) := Infix(f1, op, d1);
      if op.BAnd? || op.BOr? then Sound(fs, x) && Sound(f2, y) else Exact(fs, x) && Exact(f2, y)
    case _ => true
  }

  /** No jump that carries a value is spliced anywhere in the code of the expression. */
  predicate Exact(fs: Fs, e: Expr)
    decreases e
  {
    match e
    case ENot(x) => Sound(fs, x)
    case EMinus(x) => Exact(fs, x)
    case ELen(x) => Exact(fs, x)
    case EBin(op, x, y) =>
      var (f1, d1) := Compile(fs, x);
      var (f2, _) := Infix(f1, op, d1);
      Exact(fs, x) && Exact(f2, y) && SpliceFree(f1, op, d1)
    case _ => true
  }

  /** The same in one run: control comes to no literal by a jump that carries another value, where only truth matters. */
  predicate SoundIn(m: Ops, fs: Fs, e: Expr, start: Regs)
    decreases e
  {
    match e
    case ENot(x) => SoundIn(m, fs, x, start)
    case EMinus(x) => ExactIn(m, fs, x, start)
    case ELen(x) => ExactIn(m, fs, x, start)
    case EBin(op, x, y) =>
      var (f1, d1) := Compile(fs, x);
      var (f2, _) := Infix(f1, op, d1);
      if op.BAnd? || op.BOr? then SoundIn(m, fs, x, start) && SoundIn(m, f2, y, start)
      else ExactIn(m, fs, x, start) && ExactIn(m, f2, y, start)
    case _ => true
  }

  /** In the run from `start`, control comes to no literal of the expression by a jump that carries another value. */
  predicate ExactIn(m: Ops, fs: Fs, e: Expr, start: Regs)
    decreases e
  {
    match e
    case ENot(x) => SoundIn(m, fs, x, start)
    case EMinus(x) => ExactIn(m, fs, x, start)
    case ELen(x) => ExactIn(m, fs, x, start)
    case EBin(op, x, y) =>
      var (f1, d1) := Compile(fs, x);
      var (f2, _) := Infix(f1, op, d1);
      && ExactIn(m, fs, x, start) && ExactIn(m, f2, y, start)
      && (op.BAnd? || op.BOr? ==> Delivering(m, f1, d1, op.BOr?, start))
    case _ => true
  }

  /** Where no such jump is spliced, none is taken. */
  lemma {:induction false} ExactInAnyRun(m: Ops, fs: Fs, e: Expr, start: Regs)
    ensures Exact(fs, e) ==> ExactIn(m, fs, e, start)
    ensures Sound(fs, e) ==> SoundIn(m, fs, e, start)
    decreases e
  {
    hide CodeNot, Prefix, Infix, Posfix, SpliceFree, Delivering;
    match e
    case ENot(x) => ExactInAnyRun(m, fs, x, start);
    case EMinus(x) => ExactInAnyRun(m, fs, x, start);
    case ELen(x) => ExactInAnyRun(m, fs, x, start);
    case EBin(op, x, y) =>
      ExactInAnyRun(m, fs, x, start);
      var (f1, d1) := Compile(fs, x);
      ExactInAnyRun(m, Infix(f1, op, d1).0, y, start);
      if (op.BAnd? || op.BOr?) && SpliceFree(f1, op, d1) { SpliceFreeDelivers(m, f1, op, d1, start); }
    case _ =>
  }

  /** What a compiled expression is, apart from its meaning. */
  ghost predicate CompiledOk(fs: Fs, gs: Fs, d: Exp) {
    && DescOk(gs, d) && Grows(fs, gs, {}) && gs.freereg == fs.freereg && !Temporary(gs, d) && TrueConstant(gs, d)
    && forall j | j in Own(d) :: j in fs.jpc || |fs.code| <= j
  }

  /** What it means: from wherever control was, with the locals of that moment. */
  ghost predicate Means(m: Ops, fs: Fs, gs: Fs, d: Exp, e: Expr, start: Regs, exact: bool) {
    var o := Behave(m, fs, start);
    match o
    case Here(r) => Denotes(m, gs, d, start, r, fs.freereg, Eval(m, e, r), exact)
    case At(_, _) => Gone(m, gs, d, start, o)
  }

  lemma NewExp(m: Ops, fs: Fs, e: Expr, d: Exp, start: Regs, exact: bool)
    requires FsOk(fs) && fs.nactvar <= fs.freereg && !HasJumps(d)
    requires d.kind.VNil? || d.kind.VTrue? || d.kind.VFalse? || d.kind.VKNum? || (d.kind.VLocal? && d.kind.reg < fs.nactvar)
    requires forall r :: Eval(m, e, r) == DescValue(m, fs, d, r)
    ensures CompiledOk(fs, fs, d) && Means(m, fs, fs, d, e, start, exact)
  {
    hide FsOk, Behave, Eval;
    KeepsSelf(fs);
    NoLists(fs, d);
  }

  lemma NewString(m: Ops, fs: Fs, id: int, start: Regs, exact: bool)
    requires FsOk(fs) && fs.nactvar <= fs.freereg
    ensures var (gs, i) := AddK(fs, Other(id)); var d := Exp(VK(i), [], []);
            CompiledOk(fs, gs, d) && Means(m, fs, gs, d, EStr(id), start, exact)
  {
    hide FsOk, Behave;
    var (gs, i) := AddK(fs, Other(id));
    AddKOk(fs, Other(id));
    AddKKeeps(fs, Other(id));
    AddKRuns(m, fs, Other(id), start);
    NoLists(gs, Exp(VK(i), [], []));
  }

  lemma CompileNot(m: Ops, fs: Fs, x: Expr, gs: Fs, d: Exp, start: Regs, exact: bool)
    requires FreshFrame(start, fs.nactvar)
    requires CompiledOk(fs, gs, d) && Means(m, fs, gs, d, x, start, false)
    ensures var (hs, e) := CodeNot(gs, d); CompiledOk(fs, hs, e) && Means(m, fs, hs, e, ENot(x), start, true)
  {
    hide FsOk, Behave, ListsOk, KindOk, CodeNot, Denotes, Gone, KeepsWaiting;
    var o := Behave(m, fs, start);
    var r := if o.Here? then o.regs else map[];
    CodeNotDenotes(m, gs, d, start, r, fs.freereg, Eval(m, x, r));
    var (hs, e) := CodeNot(gs, d);
    GrowsTransitive(fs, gs, hs, {}, Own(d));
    NotConstant(gs, d);
  }

  lemma NotConstant(fs: Fs, e: Exp)
    ensures !CodeNot(fs, e).1.kind.VK? && !CodeNot(fs, e).1.kind.VNonReloc?
  {
  }

  lemma Inexact(m: Ops, fs: Fs, gs: Fs, d: Exp, e: Expr, start: Regs, exact: bool)
    requires Means(m, fs, gs, d, e, start, true)
    ensures Means(m, fs, gs, d, e, start, exact)
  {
    hide Behave, Eval;
  }

  /** A plain result: an instruction without its register, or a number. */
  lemma PlainResult(fs: Fs, gs: Fs, d: Exp)
    requires DescOk(gs, d) && Grows(fs, gs, {}) && gs.freereg == fs.freereg && !HasJumps(d)
    requires d.kind.VReloc? || d.kind.VKNum? || (d.kind.VJmp? && d.kind.jump >= |fs.code|)
    ensures CompiledOk(fs, gs, d)
  {
    hide FsOk, ListsOk, KindOk, KeepsWaiting;
  }

  lemma CompilePrefix(m: Ops, fs: Fs, op: UnaryOp, x: Expr, gs: Fs, d: Exp, start: Regs, exact: bool)
    requires FreshFrame(start, fs.nactvar) && NumbersOk(m) && !op.Not? && FsOk(fs) && fs.nactvar <= fs.freereg
    requires CompiledOk(fs, gs, d) && Means(m, fs, gs, d, x, start, true)
    ensures var (hs, e) := Prefix(gs, op, d);
            CompiledOk(fs, hs, e) && Means(m, fs, hs, e, if op.Unm? then EMinus(x) else ELen(x), start, exact)
  {
    hide FsOk, Behave, ListsOk, KindOk, Denotes, Gone, KeepsWaiting, Exp2AnyReg, CodeUnary, NumbersOk;
    var e := if op.Unm? then EMinus(x) else ELen(x);
    if op.Unm? && IsNumeral(d) {
      CodeUnaryOk(m, gs, op, d, start);
      var (hs, y) := CodeUnary(gs, op, d);
      GrowsTransitive(fs, gs, hs, {}, {});
      PlainResult(fs, hs, y);
      FoldedMeans(m, fs, gs, d, x, start);
      FoldedUnary(gs, d);
    } else {
      Exp2AnyRegOk(gs, d);
      var (f1, y) := Exp2AnyReg(gs, d);
      SlotAbove(gs, d);
      RegisterDesc(f1, Slot(gs, d), y);
      CodeUnaryOk(m, f1, op, y, start);
      var (hs, z) := CodeUnary(f1, op, y);
      GrowsTransitive(fs, gs, f1, {}, Own(d));
      GrowsTransitive(fs, f1, hs, {}, {});
      PlainResult(fs, hs, z);
      UnaryMeans(m, fs, op, x, gs, d, start);
    }
    Inexact(m, fs, Prefix(gs, op, d).0, Prefix(gs, op, d).1, e, start, exact);
  }

  lemma FoldedUnary(fs: Fs, d: Exp)
    requires IsNumeral(d)
    ensures CodeUnary(fs, Unm, d) == (fs, d.(kind := VKNum(-d.kind.n)))
  {
  }

  lemma FoldedMeans(m: Ops, fs: Fs, gs: Fs, d: Exp, x: Expr, start: Regs)
    requires NumbersOk(m) && IsNumeral(d) && Means(m, fs, gs, d, x, start, true)
    ensures Means(m, fs, gs, d.(kind := VKNum(-d.kind.n)), EMinus(x), start, true)
  {
    hide Behave;
  }

  lemma UnaryMeans(m: Ops, fs: Fs, op: UnaryOp, x: Expr, gs: Fs, d: Exp, start: Regs)
    requires FreshFrame(start, fs.nactvar) && !op.Not? && !(op.Unm? && IsNumeral(d))
    requires CompiledOk(fs, gs, d) && Means(m, fs, gs, d, x, start, true)
    ensures var (hs, e) := Prefix(gs, op, d);
            Means(m, fs, hs, e, if op.Unm? then EMinus(x) else ELen(x), start, true)
  {
    hide FsOk, Behave, ListsOk, KindOk, KeepsWaiting, Exp2AnyReg, CodeUnary, Base, DescValue, Denotes;
    Exp2AnyRegOk(gs, d);
    var (f1, y) := Exp2AnyReg(gs, d);
    SlotAbove(gs, d);
    RegisterDesc(f1, Slot(gs, d), y);
    CodeUnaryOk(m, f1, op, y, start);
    var (hs, z) := CodeUnary(f1, op, y);
    RegisterNoNumeral(y);
    var o := Behave(m, fs, start);
    match o
    case Here(r) =>
      Exp2AnyRegRuns(m, gs, d, start, r, fs.freereg, Eval(m, x, r));
      PlainDenotes(m, hs, z, start, r, fs.freereg, Eval(m, if op.Unm? then EMinus(x) else ELen(x), r));
    case At(_, _) =>
      Exp2AnyRegGone(m, gs, d, start, o);
  }

  lemma RegisterNoNumeral(d: Exp)
    ensures d.kind.VNonReloc? ==> !IsNumeral(d)
  {
  }

  lemma PlainDenotes(m: Ops, fs: Fs, d: Exp, start: Regs, r0: Regs, n: nat, v: Value)
    requires var o := Behave(m, Base(fs, d), start); o.Here? && SameBelow(r0, o.regs, n) && DescValue(m, fs, d, o.regs) == v
    ensures Denotes(m, fs, d, start, r0, n, v, true)
  {
  }

  // ---------------------------------------------------------------- binary operators on values

  /** The left operand is ready and keeps its value while the right one is coded over it. */
  ghost predicate LeftReady(m: Ops, fs: Fs, gs: Fs, e1: Exp, x: Expr, start: Regs) {
    && DescOk(gs, e1) && Ready(e1) && Grows(fs, gs, {}) && Slot(gs, e1) == fs.freereg && fs.freereg <= gs.freereg
    && match Behave(m, fs, start)
       case Here(r) =>
         var b := Behave(m, gs, start);
         b.Here? && SameBelow(r, b.regs, fs.freereg) && ReadyValue(gs, e1, b.regs, gs.freereg, Eval(m, x, r))
       case At(_, _) => Behave(m, gs, start) == Behave(m, fs, start)
  }

  lemma LeftByRK(m: Ops, fs: Fs, x: Expr, f1: Fs, d1: Exp, start: Regs)
    requires FreshFrame(start, fs.nactvar) && fs.nactvar <= fs.freereg
    requires CompiledOk(fs, f1, d1) && Means(m, fs, f1, d1, x, start, true)
    ensures var (f2, e1, _) := Exp2RK(f1, d1); LeftReady(m, fs, f2, e1, x, start) && !e1.kind.VKNum?
  {
    hide FsOk, Behave, ListsOk, KindOk, KeepsWaiting, Exp2RK, Denotes;
    Exp2RKOk(f1, d1);
    var (f2, e1, o1) := Exp2RK(f1, d1);
    GrowsTransitive(fs, f1, f2, {}, Own(d1));
    SmallIndex(f1, d1);
    OperandDesc(f2, fs.freereg, e1, o1);
    match Behave(m, fs, start)
    case Here(r) => Exp2RKRuns(m, f1, d1, start, r, fs.freereg, Eval(m, x, r));
    case At(_, _) => Exp2RKGone(m, f1, d1, start, Behave(m, fs, start));
  }

  lemma SmallIndex(fs: Fs, e: Exp)
    requires DescOk(fs, e)
    ensures Exp2RK(fs, e).2.K? ==> Exp2RK(fs, e).2.index <= MAXINDEXRK
  {
    hide ListsOk, KindOk, KeepsWaiting, CodeOk, KOk, LabelOk, Exp2AnyReg;
    Exp2ValOk(fs, e);
  }

  lemma OperandDesc(fs: Fs, slot: nat, d: Exp, o: RK)
    requires FsOk(fs) && OperandOk(fs, slot, d, o) && fs.nactvar <= slot
    ensures DescOk(fs, d) && Slot(fs, d) == slot && slot <= fs.freereg && !HasJumps(d)
    ensures d.kind.VK? || d.kind.VNonReloc?
  {
    hide FsOk;
    NoLists(fs, d);
  }

  lemma LeftByNumeral(m: Ops, fs: Fs, x: Expr, f1: Fs, d1: Exp, start: Regs)
    requires CompiledOk(fs, f1, d1) && Means(m, fs, f1, d1, x, start, true) && IsNumeral(d1)
    ensures LeftReady(m, fs, f1, d1, x, start)
  {
    hide FsOk, Behave, ListsOk, KindOk, KeepsWaiting, Eval;
  }

  lemma CompileArith(m: Ops, fs: Fs, op: ArithOp, x: Expr, y: Expr, f2: Fs, e1: Exp, f3: Fs, d2: Exp, start: Regs)
    requires FreshFrame(start, fs.nactvar) && NumbersOk(m) && Scoped(y, fs.nactvar) && fs.nactvar <= fs.freereg
    requires LeftReady(m, fs, f2, e1, x, start)
    requires CompiledOk(f2, f3, d2) && Means(m, f2, f3, d2, y, start, true)
    ensures var (hs, e) := CodeArith(f3, op, e1, d2);
            CompiledOk(fs, hs, e) && Means(m, fs, hs, e, EBin(BArith(op), x, y), start, true)
  {
    hide FsOk, Behave, ListsOk, KindOk, KeepsWaiting, CodeArith, Denotes, Gone, ReadyValue, NumbersOk;
    var (hs, e) := CodeArith(f3, op, e1, d2);
    assert Pair(f3, e1, d2) && Slot(f3, e1) == fs.freereg by { StillReady(f2, f3, e1); }
    CodeArithOk(m, f3, op, e1, d2, start);
    GrowsTransitive(fs, f2, f3, {}, {});
    GrowsTransitive(fs, f3, hs, {}, Own(d2));
    PlainResult(fs, hs, e);
    match Behave(m, fs, start)
    case Here(r) =>
      var ra := Behave(m, f2, start).regs;
      EvalSame(m, y, r, ra, fs.freereg) by { ScopedMore(y, fs.nactvar, fs.freereg); }
      ReadyLater(f2, f3, e1, ra, f2.freereg, Eval(m, x, r));
      CodeArithDenotes(m, f3, op, e1, d2, start, ra, f2.freereg, Eval(m, x, r), Eval(m, y, ra));
      DenotesFrom(m, hs, e, start, r, ra, fs.freereg, f2.freereg, m.arith(op, Eval(m, x, r), Eval(m, y, r)), true);
    case At(_, _) =>
      CodeArithGone(m, f3, op, e1, d2, start, Behave(m, fs, start));
  }

  lemma {:induction false} ScopedMore(e: Expr, n: nat, n': nat)
    requires Scoped(e, n) && n <= n'
    ensures Scoped(e, n')
  {
    match e
    case ENot(x) => ScopedMore(x, n, n');
    case EMinus(x) => ScopedMore(x, n, n');
    case ELen(x) => ScopedMore(x, n, n');
    case EBin(_, x, y) => ScopedMore(x, n, n'); ScopedMore(y, n, n');
    case _ =>
  }

  lemma StillReady(fs: Fs, gs: Fs, e: Exp)
    requires DescOk(fs, e) && Ready(e) && FsOk(gs) && Grows(fs, gs, {}) && gs.freereg == fs.freereg
    ensures DescOk(gs, e) && Slot(gs, e) == Slot(fs, e)
  {
    hide FsOk, KeepsWaiting;
    NoLists(gs, e);
  }

  lemma ReadyLater(fs: Fs, gs: Fs, e: Exp, r: Regs, n: nat, v: Value)
    requires ReadyValue(fs, e, r, n, v) && fs.k <= gs.k
    ensures ReadyValue(gs, e, r, n, v)
  {
  }

  lemma DenotesFrom(m: Ops, fs: Fs, e: Exp, start: Regs, r: Regs, ra: Regs, n: nat, n': nat, v: Value, exact: bool)
    requires SameBelow(r, ra, n) && n <= n' && Denotes(m, fs, e, start, ra, n', v, exact)
    ensures Denotes(m, fs, e, start, r, n, v, exact)
  {
    hide Behave;
  }

  lemma CompileRel(m: Ops, fs: Fs, op: RelOp, x: Expr, y: Expr, f2: Fs, e1: Exp, f3: Fs, d2: Exp, start: Regs)
    requires FreshFrame(start, fs.nactvar) && Scoped(y, fs.nactvar) && fs.nactvar <= fs.freereg
    requires LeftReady(m, fs, f2, e1, x, start) && !e1.kind.VKNum?
    requires CompiledOk(f2, f3, d2) && Means(m, f2, f3, d2, y, start, true)
    ensures var (hs, e) := CodeComp(f3, CmpOf(op).0, CmpOf(op).1, e1, d2);
            CompiledOk(fs, hs, e) && Means(m, fs, hs, e, EBin(BRel(op), x, y), start, true)
  {
    hide FsOk, Behave, ListsOk, KindOk, KeepsWaiting, CodeComp, Denotes, Gone, ReadyValue, Compared, RelValue, Grows, DescOk, Temporary;
    var (c, cond) := CmpOf(op);
    var (hs, e) := CodeComp(f3, c, cond, e1, d2);
    PairUp(fs, f2, f3, e1, d2);
    RelStructure(m, fs, c, cond, f2, e1, f3, d2, start);
    match Behave(m, fs, start)
    case Here(r) =>
      var ra := Behave(m, f2, start).regs;
      EvalSame(m, y, r, ra, fs.freereg) by { ScopedMore(y, fs.nactvar, fs.freereg); }
      ReadyLater(f2, f3, e1, ra, f2.freereg, Eval(m, x, r));
      CodeCompDenotes(m, f3, c, cond, e1, d2, start, ra, f2.freereg, Eval(m, x, r), Eval(m, y, ra));
      RelCompared(m, op, Eval(m, x, r), Eval(m, y, r));
      DenotesFrom(m, hs, e, start, r, ra, fs.freereg, f2.freereg, Bool(RelValue(m, op, Eval(m, x, r), Eval(m, y, r))), true);
    case At(_, _) =>
      CodeCompGone(m, f3, c, cond, e1, d2, start, Behave(m, fs, start));
  }

  lemma PairUp(fs: Fs, f2: Fs, f3: Fs, e1: Exp, d2: Exp)
    requires DescOk(f2, e1) && Ready(e1) && CompiledOk(f2, f3, d2) && Grows(fs, f2, {})
    ensures f3.nactvar == fs.nactvar
    ensures Pair(f3, e1, d2) && Slot(f3, e1) == Slot(f2, e1) && f3.freereg == f2.freereg && f3.nactvar == f2.nactvar
    ensures f2.k <= f3.k
  {
    hide FsOk, ListsOk, KindOk, KeepsWaiting;
    StillReady(f2, f3, e1);
  }

  lemma RelStructure(m: Ops, fs: Fs, c: CmpOp, cond: bool, f2: Fs, e1: Exp, f3: Fs, d2: Exp, start: Regs)
    requires DescOk(f2, e1) && Ready(e1) && !e1.kind.VKNum? && Grows(fs, f2, {}) && Slot(f2, e1) == fs.freereg
    requires CompiledOk(f2, f3, d2)
    ensures var (hs, e) := CodeComp(f3, c, cond, e1, d2); CompiledOk(fs, hs, e)
  {
    hide FsOk, ListsOk, KindOk, KeepsWaiting, CodeComp, Behave, DescValue, Compared;
    var (hs, e) := CodeComp(f3, c, cond, e1, d2);
    PairUp(fs, f2, f3, e1, d2);
    CodeCompOk(m, f3, c, cond, e1, d2, start);
    GrowsTransitive(fs, f2, f3, {}, {});
    GrowsTransitive(fs, f3, hs, {}, Own(d2));
    PlainResult(fs, hs, e);
  }

  lemma RelCompared(m: Ops, op: RelOp, v: Value, w: Value)
    ensures RelValue(m, op, v, w) == Compared(m, CmpOf(op).0, CmpOf(op).1, v, w)
  {
  }

  // ---------------------------------------------------------------- and, or

  /** The exits of the left operand join those of the right one. */
  function Joined(d: Exp, out: seq<nat>, sense: bool): Exp {
    if sense then d.(t := d.t + out) else d.(f := d.f + out)
  }

  /** The left operand's exits wait on `out` when the right operand has been compiled. */
  ghost predicate OutWaits(gs: Fs, out: seq<nat>) {
    Waiting(gs.code, out) && Disjoint(out, gs.jpc)
  }

  lemma JoinedOk(f2: Fs, f3: Fs, d: Exp, out: seq<nat>, sense: bool)
    requires CompiledOk(f2, f3, d) && OutWaits(f2, out)
    ensures DescOk(f3, Joined(d, out, sense)) && !Temporary(f3, Joined(d, out, sense)) && TrueConstant(f3, Joined(d, out, sense))
    ensures Own(Joined(d, out, sense)) == Own(d) + Elems(out)
    ensures forall j | j in out :: j < |f2.code| && Kept(f2.code, f3.code, j)
    ensures forall j | j in out :: j !in Own(d)
    ensures Base(f3, Joined(d, out, sense)) == Base(f3, d)
  {
    hide FsOk;
    forall j | j in out ensures j < |f2.code| && Kept(f2.code, f3.code, j) && j !in f3.jpc && j !in Own(d) {
    }
    JoinedKind(f3, d, out, sense);
  }

  lemma JoinedKind(fs: Fs, d: Exp, out: seq<nat>, sense: bool)
    requires KindOk(fs, d) && forall j | j in out :: j !in Own(d)
    ensures KindOk(fs, Joined(d, out, sense)) && Base(fs, Joined(d, out, sense)) == Base(fs, d)
    ensures forall m, r :: DescValue(m, fs, Joined(d, out, sense), r) == DescValue(m, fs, d, r)
  {
    hide FsOk;
    if d.kind.VJmp? { assert d.kind.jump in TrueList(d); }
  }

  lemma JoinedExit(code: Code, d: Exp, out: seq<nat>, sense: bool, j: nat, r: Regs, v: Value, exact: bool)
    ensures ExitOk(code, d, j, r, v, exact) ==> ExitOk(code, Joined(d, out, sense), j, r, v, exact)
    ensures j in out && Truthy(v) == sense && (exact ==> Out(code, j, r, v, sense)) ==>
              ExitOk(code, Joined(d, out, sense), j, r, v, exact)
  {
    hide Out;
  }

  /** The value of `and` (sense false) and `or` (sense true). */
  function Chosen(sense: bool, v: Value, w: Value): Value {
    if Truthy(v) == sense then v else w
  }

  lemma JoinedDenotes(m: Ops, f2: Fs, f3: Fs, d: Exp, out: seq<nat>, sense: bool, y: Expr, start: Regs, r0: Regs, n: nat, v: Value, exact: bool)
    requires CompiledOk(f2, f3, d) && OutWaits(f2, out) && Means(m, f2, f3, d, y, start, exact)
    requires Branches(m, f2, out, start, r0, n, v, sense, exact) && Scoped(y, n) && n <= f2.freereg
    ensures Denotes(m, f3, Joined(d, out, sense), start, r0, n, Chosen(sense, v, Eval(m, y, r0)), exact)
  {
    hide FsOk, Behave, ListsOk, KeepsWaiting, ExitOk, Out, Kept, DescValue, Base, CompiledOk, OutWaits, Eval, KindOk, Joined, TrueConstant, Scoped, DescOk;
    JoinedOk(f2, f3, d, out, sense);
    assert KindOk(f3, d) by { DescKind(f2, f3, d); }
    JoinedKind(f3, d, out, sense);
    match Behave(m, f2, start)
    case Here(r1) =>
      EvalSame(m, y, r0, r1, n);
      var o := Behave(m, Base(f3, d), start);
      if o.At? {
        JoinedExit(f3.code, d, out, sense, o.pc, o.regs, Eval(m, y, r1), exact);
      }
    case At(j, r1) =>
      OutKept(f2.code, f3.code, j, r1, v, sense);
      JoinedExit(f3.code, d, out, sense, j, r1, v, exact);
  }

  lemma DescKind(fs: Fs, gs: Fs, d: Exp)
    requires CompiledOk(fs, gs, d)
    ensures KindOk(gs, d)
  {
  }

  lemma JoinedGrows(fs: Fs, f1: Fs, d1: Exp, f2: Fs, out: seq<nat>, f3: Fs, d2: Exp, sense: bool)
    requires CompiledOk(fs, f1, d1) && CondOk(f1, d1, f2, out) && CompiledOk(f2, f3, d2)
    ensures CompiledOk(fs, f3, Joined(d2, out, sense)) && OutWaits(f2, out)
  {
    hide FsOk, KeepsWaiting, ListsOk, KindOk, DescOk, Temporary, TrueConstant;
    GrowsTransitive(fs, f1, f2, {}, Own(d1));
    GrowsTransitive(fs, f2, f3, {}, {});
    JoinedOk(f2, f3, d2, out, sense);
    assert Slot(f1, d1) == f1.freereg by { SlotOf(f1, d1); }
  }

  lemma SlotOf(fs: Fs, d: Exp)
    requires !Temporary(fs, d)
    ensures Slot(fs, d) == fs.freereg
  {
  }

  lemma ClosedVars(m: Ops, fs: Fs, gs: Fs, d: Exp, e: Expr, start: Regs, exact: bool)
    requires CompiledOk(fs, gs, d) && Means(m, fs, gs, d, e, start, exact)
    ensures CompiledOk(fs, gs, DischargeVars(d)) && Means(m, fs, gs, DischargeVars(d), e, start, exact)
  {
    hide FsOk, KeepsWaiting, ListsOk, KindOk, Denotes, Gone, Behave, Eval;
    DischargeVarsOk(m, gs, d, start);
    if d.kind.VLocal? { LocalActive(gs, d); }
  }

  lemma LocalActive(fs: Fs, d: Exp)
    requires DescOk(fs, d) && d.kind.VLocal?
    ensures d.kind.reg < fs.nactvar
  {
  }

  lemma CompileLogic(m: Ops, fs: Fs, x: Expr, y: Expr, sense: bool, f1: Fs, d1: Exp, f3: Fs, d2: Exp, start: Regs, exact: bool)
    requires FreshFrame(start, fs.nactvar) && Scoped(y, fs.nactvar) && fs.nactvar <= fs.freereg && FsOkAt(m, fs, start)
    requires CompiledOk(fs, f1, d1) && Means(m, fs, f1, d1, x, start, exact)
    requires exact ==> Delivering(m, f1, d1, sense, start)
    requires var (f2, out) := if sense then GoIfFalse(f1, d1) else GoIfTrue(f1, d1);
             CompiledOk(f2, f3, d2) && Means(m, f2, f3, d2, y, start, exact)
    ensures var (f2, out) := if sense then GoIfFalse(f1, d1) else GoIfTrue(f1, d1);
            var d := Joined(DischargeVars(d2), out, sense);
            && CompiledOk(fs, f3, d)
            && Means(m, fs, f3, d, EBin(if sense then BOr else BAnd, x, y), start, exact)
  {
    hide FsOk, KeepsWaiting, ListsOk, KindOk, Denotes, Behave, Branches, GoIfTrue, GoIfFalse, CondOk, Joined, DischargeVars, CompiledOk, OutWaits;
    var (f2, out) := if sense then GoIfFalse(f1, d1) else GoIfTrue(f1, d1);
    var d := DischargeVars(d2);
    CompiledFacts(fs, f1, d1);
    CompiledFacts(f2, f3, d2);
    if sense { GoIfFalseOk(f1, d1); } else { GoIfTrueOk(f1, d1); }
    ClosedVars(m, f2, f3, d2, y, start, exact);
    JoinedGrows(fs, f1, d1, f2, out, f3, d, sense);
    assert f2.freereg == fs.freereg by { CondReg(f1, d1, f2, out); }
    match Behave(m, fs, start)
    case Here(r) =>
      if sense { GoIfFalseRuns(m, f1, d1, start, r, fs.freereg, Eval(m, x, r), exact); }
      else { GoIfTrueRuns(m, f1, d1, start, r, fs.freereg, Eval(m, x, r), exact); }
      ScopedMore(y, fs.nactvar, fs.freereg);
      JoinedDenotes(m, f2, f3, d, out, sense, y, start, r, fs.freereg, Eval(m, x, r), exact);
    case At(_, _) =>
      CondGone(m, f1, d1, start, Behave(m, fs, start));
      JoinedGone(m, fs, f1, d1, f2, out, f3, d, sense, start);
  }

  lemma CompiledFacts(fs: Fs, gs: Fs, d: Exp)
    requires CompiledOk(fs, gs, d)
    ensures DescOk(gs, d) && gs.nactvar == fs.nactvar && gs.freereg == fs.freereg && Slot(gs, d) == gs.freereg
    ensures TrueConstant(gs, d)
  {
  }

  lemma CondReg(fs: Fs, d: Exp, gs: Fs, out: seq<nat>)
    requires CondOk(fs, d, gs, out)
    ensures gs.freereg == Slot(fs, d)
  {
  }

  /** Control that had left before does not come back by the exits of the left operand. */
  lemma JoinedGone(m: Ops, fs: Fs, f1: Fs, d1: Exp, f2: Fs, out: seq<nat>, f3: Fs, d: Exp, sense: bool, start: Regs)
    requires FsOkAt(m, fs, start)
    requires CompiledOk(fs, f1, d1) && CondOk(f1, d1, f2, out) && CompiledOk(f2, f3, d)
    requires Behave(m, fs, start).At? && Gone(m, f3, d, start, Behave(m, fs, start))
    ensures Gone(m, f3, Joined(d, out, sense), start, Behave(m, fs, start))
  {
    hide FsOk, KeepsWaiting, ListsOk, KindOk;
    var o := Behave(m, fs, start);
    JoinedOk(f2, f3, d, out, sense);
  }

  /** Where control has left: at a jump of the code so far that does not wait for the next instruction. */
  ghost predicate FsOkAt(m: Ops, fs: Fs, start: Regs) {
    var o := Behave(m, fs, start);
    o.At? ==> o.pc < |fs.code| && o.pc !in fs.jpc
  }

  lemma LeftAt(m: Ops, fs: Fs, start: Regs)
    requires FsOk(fs)
    ensures FsOkAt(m, fs, start)
  {
    hide CodeOk, KOk, LabelOk;
    RunStops(m, fs.code, fs.k, 0, start);
  }
}
