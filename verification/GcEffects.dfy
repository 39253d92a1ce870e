/**
 * What a step leaves behind, said without the functions that compute it: the collector keeps contents and
 * globals, and a step of the mutator writes what it is given to write and nothing else.
 */
module GcEffects {
  import opened GcHeap
  import opened GcMark
  import opened GcInvariant
  import opened GcBarrier
  import opened GcAlloc
  import opened GcUpval
  import opened GcPropagate
  import opened GcAtomic
  import opened GcSweep
  import opened GcStore
  import opened GcSetUpvalue
  import opened GcRuns
  import opened GcCollector
  import opened GcFull
  import opened GcValues
  import opened Wrappers

  /** The roots and the set of fixed strings are the same. */
  predicate SameGlobals(s: State, t: State) {
    && t.mainthread == s.mainthread && t.running == s.running
    && t.registry == s.registry && t.mt == s.mt && t.fixed == s.fixed
  }

  // ---------------------------------------------------------------- the collector leaves the globals alone

  lemma {:induction false} OpenGlobals(s: State, th: Ref, j: nat)
    requires th in s.heap && s.heap[th].Thread? && j <= |s.heap[th].openupval|
    ensures SameGlobals(s, SweepOpen(s, th, j))
    decreases |s.heap[th].openupval| - j
  {
    if j < |s.heap[th].openupval| {
      var u := s.heap[th].openupval[j];
      if Condemned(s, u) && u != th {
        OpenGlobals(FreeOpen(s, th, j), th, j);
      } else {
        OpenGlobals(Whiten(s, u), th, j + 1);
      }
    }
  }

  lemma BarrierGlobals(s: State, r: Ref, v: Value)
    requires r in s.color && ValueRefs(v) <= s.color.Keys && (s.gcstate == Propagate ==> Ready(s))
    ensures SameGlobals(s, ValueBarrier(s, r, v))
  {
    hide HeapClosed;
  }

  lemma CloseTopGlobals(s: State, th: Ref)
    requires Inv(s) && th in s.heap && s.heap[th].Thread? && s.heap[th].openupval != []
    ensures SameGlobals(s, CloseTop(s, th))
  {
    hide Static, PhaseOk, Stored, ValueBarrier, HeapClosed, Remove;
    StaticUpvals(s);
    OpenTop(s, th);
    var u := s.heap[th].openupval[0];
    if !IsDead(s, u) {
      DetachStored(s, th);
      CloseBarrier(s, th);
      BarrierGlobals(DetachTop(s, th), u, TopValue(s.heap, th));
    }
  }

  lemma {:induction false} CloseGlobals(s: State, th: Ref, level: nat)
    requires Inv(s) && th in s.heap && s.heap[th].Thread?
    ensures SameGlobals(s, CloseUpvals(s, th, level))
    decreases |s.heap[th].openupval|
  {
    hide Inv, CloseTop;
    if s.heap[th].openupval != [] && LevelOf(s.heap, s.heap[th].openupval[0]) >= level {
      CloseTopGlobals(s, th);
      CloseGlobals(CloseTop(s, th), th, level);
    }
  }

  lemma SweepOneGlobals(s: State)
    requires Inv(s) && s.gcstate == Sweep && s.sweepgc < |s.rootgc|
    ensures SameGlobals(s, SweepOne(s))
  {
    hide Static, PhaseOk, SweepOpen, CloseUpvals, SweepFrees, Condemned, SweepWork;
    var r := Current(s);
    var s1 := SweepOwn(s);
    SweepOwnKeeps(s);
    if r in s.heap && s.heap[r].Thread? { OpenGlobals(s, r, 0); }
    SweepOneKeeps(s1, r);
    if Condemned(s1, r) && r in s1.heap && s1.heap[r].Thread? {
      CloseGlobals(s1, r, 0);
    }
  }

  lemma {:induction false} SweepRootGlobals(s: State, count: nat)
    requires Inv(s) && s.gcstate == Sweep
    ensures SameGlobals(s, SweepRoot(s, count))
    decreases count
  {
    hide Static, PhaseOk, SweepOne, SweepFrees, SweepWork;
    SweepBounded(s);
    if count != 0 && s.sweepgc < |s.rootgc| {
      SweepOneGlobals(s);
      SweepRootGlobals(SweepOne(s), count - 1);
    }
  }

  lemma RootGlobals(s: State)
    requires Ready(s) && RootsAllocated(s) && s.heap[s.mainthread].Thread?
    ensures SameGlobals(s, MarkRoot(s))
  {
    hide HeapClosed;
  }

  lemma MarkPhaseGlobals(s: State, t: State)
    requires MarkPhase(s, t)
    ensures SameGlobals(s, t)
  {
  }

  lemma AtomicGlobals(s: State)
    requires Inv(s) && s.gcstate == Propagate
    ensures Marking(s, false) && UvheadOk(s) && RootsAllocated(s)
    ensures SameGlobals(s, Atomic(s))
  {
    hide Static, PhaseOk, Marking, UvheadOk, AtomicMark, MarkPhase;
    PropagateIsMarking(s);
    MarkPhaseGlobals(s, AtomicMark(s));
  }

  lemma SingleStepGlobals(s: State, shrink: bool)
    requires Inv(s)
    ensures SameGlobals(s, SingleStep(s, shrink))
  {
    hide Static, PhaseOk, PropagateMark, Atomic, SweepBucket, SweepRoot, ResizeStrings, MarkRoot, MarkPhase, SweepFrees;
    if s.gcstate == Pause {
      StartReady(s);
      RootGlobals(s);
    } else if s.gcstate == Propagate {
      PropagateIsMarking(s);
      if s.gray != [] {
        PropagateStepKeeps(s);
        MarkPhaseGlobals(s, PropagateMark(s));
      } else {
        AtomicGlobals(s);
      }
    } else if s.gcstate == SweepString {
      StringBuckets(s);
    } else if s.gcstate == Sweep {
      SweepRootGlobals(s, GCSWEEPMAX);
      RootStepGlobals(s, shrink);
    }
  }

  lemma RootStepGlobals(s: State, shrink: bool)
    requires Inv(s) && s.gcstate == Sweep && SameGlobals(s, SweepRoot(s, GCSWEEPMAX))
    ensures SameGlobals(s, SweepRootStep(s, shrink))
  {
    hide Static, PhaseOk, SweepRoot, RehashChains;
  }

  lemma {:induction false} UntilGlobals(s: State, stop: Phase, shrink: bool)
    requires Inv(s) && (stop == Finalize || stop == Pause) && Rank(stop) <= Rank(s.gcstate)
    ensures SameGlobals(s, Until(s, stop, shrink))
    decreases Rank(s.gcstate), MarkWork(s), Work(s)
  {
    hide Static, PhaseOk, FreesGarbage, SingleStep;
    if s.gcstate != stop {
      WorkIsNat(s);
      SingleStepKeeps(s, shrink);
      SingleStepProgress(s, shrink);
      WorkIsNat(SingleStep(s, shrink));
      SingleStepGlobals(s, shrink);
      UntilGlobals(SingleStep(s, shrink), stop, shrink);
    }
  }

  lemma FullGcGlobals(s: State, shrink: bool)
    requires Inv(s)
    ensures SameGlobals(s, FullGc(s, shrink))
  {
    hide Static, PhaseOk, Until, MarkRoot, HeapClosed, RootsAllocated;
    var s0 := if s.gcstate == Pause || s.gcstate == Propagate then Reset(s) else s;
    ResetPhase(s);
    UntilGlobals(s0, Finalize, shrink);
    var s1 := Until(s0, Finalize, shrink);
    StartSafe(s1);
    StartReady(s1);
    RootGlobals(s1);
    UntilGlobals(MarkRoot(s1), Pause, shrink);
  }

  // ---------------------------------------------------------------- the effect of a step

  /** One object has a new body, or is new; no other object and no root changes. */
  predicate Wrote(s: State, t: State, o: Ref, b: Body) {
    SameGlobals(s, t) && t.heap == s.heap[o := b]
  }

  /** One slot of a stack has a new value. */
  predicate WroteSlot(s: State, t: State, th: Ref, level: nat, v: Value) {
    && HasSlot(s.heap, th, level)
    && var Thread(gt, stack, top, open) := s.heap[th];
       Wrote(s, t, th, Thread(gt, stack[level := v], top, open))
  }

  /** A write through an upvalue goes to its slot while it is open, and into itself afterwards. */
  predicate WroteUpvalue(s: State, t: State, u: Ref, v: Value) {
    && IsUpval(s.heap, u)
    && match s.heap[u].loc
       case Open(th, level) => WroteSlot(s, t, th, level, v)
       case Closed(_) => Wrote(s, t, u, UpVal(Closed(v)))
  }

  /** A string that was there is not made again; a new one has the given bytes and their hash. */
  ghost predicate Interned(s: State, t: State, r: Ref, bytes: seq<bv8>, grow: bool) {
    && SameGlobals(s, t)
    && if exists q :: HasBytes(s.heap, q, bytes) then t.heap == s.heap && |t.strt| == |s.strt|
       else
         && t.heap == s.heap[r := Str(bytes, Hash(bytes))]
         && |t.strt| == if grow && s.gcstate != SweepString then 2 * |s.strt| else |s.strt|
  }

  /** A slot that was captured is not captured again; a new upvalue goes on the list of the thread. */
  ghost predicate Captured(s: State, t: State, th: Ref, level: nat, r: Ref) {
    && SameGlobals(s, t)
    && th in s.heap && s.heap[th].Thread?
    && if exists u :: u in s.heap && s.heap[u] == UpVal(Open(th, level)) then t.heap == s.heap
       else exists list: seq<Ref> ::
              && t.heap == s.heap[th := s.heap[th].(openupval := list)][r := UpVal(Open(th, level))]
              && |list| == |s.heap[th].openupval| + 1 && r in list
              && forall u | u in s.heap[th].openupval :: u in list
  }

  ghost predicate Effect(s: State, step: Step, t: State) {
    match step
    case Collect(_) => KeepsContents(s.heap, t.heap) && SameGlobals(s, t)
    case FullCollect(_) => KeepsContents(s.heap, t.heap) && SameGlobals(s, t)
    case New(r, b) => Wrote(s, t, r, b)
    case NewUserdata(r, env) => Wrote(s, t, r, Udata(None, env))
    case NewStr(r, bytes, grow) => Interned(s, t, r, bytes, grow)
    case FixString(r) => t == s.(fixed := s.fixed + {r})
    case StoreThread(th, gt, stack, top) =>
      && th in s.heap && s.heap[th].Thread?
      && Wrote(s, t, th, Thread(gt, stack, top, s.heap[th].openupval))
    case StoreTable(o, arr, node, _, _) =>
      o in s.heap && s.heap[o].Table? && Wrote(s, t, o, Table(s.heap[o].meta, arr, node))
    case SetMeta(o, mt) =>
      o in s.heap && s.heap[o].Table? && Wrote(s, t, o, Table(mt, s.heap[o].arr, s.heap[o].node))
    case Store(o, b, _) => Wrote(s, t, o, b)
    case StoreOpen(u, v) => WroteUpvalue(s, t, u, v)
    case SetUpval(_, u, v) => WroteUpvalue(s, t, u, v)
    case SetBasicMeta(i, mt) => i < |s.mt| && t == s.(mt := s.mt[i := mt])
    case Find(th, level, r) => Captured(s, t, th, level, r)
    case Close(th, level) => ClosedFrom(s, t, th, level) && SameGlobals(s, t)
    case Resume(th) => t == s.(running := th)
  }

  lemma BackGlobals(s: State, r: Ref, v: Value)
    requires r in s.color && ValueRefs(v) <= s.color.Keys
    ensures SameGlobals(s, ValueBarrierBack(s, r, v)) && ValueBarrierBack(s, r, v).heap == s.heap
  {
  }

  lemma LinkWrote(s: State, i: nat, r: Ref, b: Body)
    requires i <= |s.rootgc|
    ensures Wrote(s, LinkAt(s, i, r, b), r, b)
  {
  }

  lemma NewEffect(s: State, step: Step)
    requires Inv(s) && Enabled(s, step) && step.New?
    ensures Effect(s, step, Apply(s, step))
  {
    hide Static, PhaseOk, LinkAt, AllAlive, GoodObject, GoodStore, Holds, Callable, Missed, Wrote;
    LinkWrote(s, 0, step.r, step.body);
  }

  lemma UserdataEffect(s: State, step: Step)
    requires Inv(s) && Enabled(s, step) && step.NewUserdata?
    ensures Effect(s, step, Apply(s, step))
  {
    hide Static, PhaseOk, LinkAt, IndexOf, AllAlive, GoodObject, GoodStore, Holds, Callable, Missed, Wrote;
    MainLinked(s);
    LinkWrote(s, IndexOf(s.rootgc, s.mainthread) + 1, step.r, Udata(None, step.env));
  }

  lemma NewInterned(s: State, r: Ref, bytes: seq<bv8>, grow: bool)
    requires 0 < |s.strt| && forall q :: !HasBytes(s.heap, q, bytes)
    requires FindString(s.heap, s.strt[Hash(bytes) % |s.strt|], bytes) == None
    ensures Interned(s, Intern(s, r, bytes, grow).0, r, bytes, grow)
  {
    hide Hash, RehashChains, FindString;
  }

  lemma OldInterned(s: State, r: Ref, q: Ref, bytes: seq<bv8>, grow: bool)
    requires 0 < |s.strt| && HasBytes(s.heap, q, bytes)
    requires FindString(s.heap, s.strt[Hash(bytes) % |s.strt|], bytes) == Some(q)
    ensures Interned(s, Intern(s, r, bytes, grow).0, r, bytes, grow)
  {
    hide Hash, FindString;
  }

  lemma StringEffect(s: State, step: Step)
    requires Inv(s) && Enabled(s, step) && step.NewStr?
    ensures Effect(s, step, Apply(s, step))
  {
    hide PhaseOk, LiveClosed, RootListOk, UpvalsOk, StringsOk, AllAlive, GoodStore, GoodObject, Holds, Callable, Missed,
         Intern, FindString, Hash, Interned;
    MainLinked(s);
    var NewStr(r, bytes, grow) := step;
    var bucket := s.strt[Hash(bytes) % |s.strt|];
    FindStringFinds(s.heap, bucket, bytes);
    match FindString(s.heap, bucket, bytes) {
      case Some(q) => OldInterned(s, r, q, bytes, grow);
      case None =>
        NotFoundIsAbsent(s, bytes);
        NewInterned(s, r, bytes, grow);
    }
  }

  lemma FixEffect(s: State, step: Step)
    requires Inv(s) && Enabled(s, step) && (step.FixString? || step.SetBasicMeta? || step.Resume?)
    ensures Effect(s, step, Apply(s, step))
  {
    hide Static, PhaseOk, AllAlive, GoodObject, GoodStore, Holds, Callable, Missed;
  }

  lemma ThreadEffect(s: State, step: Step)
    requires Inv(s) && Enabled(s, step) && step.StoreThread?
    ensures Effect(s, step, Apply(s, step))
  {
    hide Static, PhaseOk, AllAlive, GoodObject, GoodStore, Holds, Callable, Missed;
  }

  lemma TableEffect(s: State, step: Step)
    requires Inv(s) && Enabled(s, step) && step.StoreTable?
    ensures Effect(s, step, Apply(s, step))
  {
    hide Static, PhaseOk, UpvalsOk, Holds, HeapClosed, AllAlive, GoodStore, Callable, Missed, ValueBarrierBack;
    var StoreTable(t, arr, node, k, v) := step;
    var b := Table(s.heap[t].meta, arr, node);
    StoreBackKeeps(s, t, b, k, v);
    var m := SetBody(s, t, b);
    BackGlobals(m, t, k);
    BackGlobals(ValueBarrierBack(m, t, k), t, v);
  }

  lemma MetaEffect(s: State, step: Step)
    requires Inv(s) && Enabled(s, step) && step.SetMeta?
    ensures Effect(s, step, Apply(s, step))
  {
    hide Static, PhaseOk, UpvalsOk, Holds, HeapClosed, AllAlive, GoodStore, Callable, Missed, ValueBarrierBack;
    var SetMeta(t, mt) := step;
    MetaKeeps(s, t, mt);
    BackGlobals(SetBody(s, t, s.heap[t].(meta := mt)), t, OptionValue(mt));
  }

  lemma StoreEffect(s: State, step: Step)
    requires Inv(s) && Enabled(s, step) && step.Store?
    ensures Effect(s, step, Apply(s, step))
  {
    hide Static, PhaseOk, UpvalsOk, Holds, HeapClosed, AllAlive, GoodStore, Callable, Missed, ValueBarrier;
    var Store(o, b, v) := step;
    StoreAlive(s, o, b);
    StoreForwardKeeps(s, o, b, v);
    ForwardHeap(SetBody(s, o, b), o, v);
    BarrierGlobals(SetBody(s, o, b), o, v);
  }

  lemma UpvalueWrote(s: State, u: Ref, v: Value)
    requires IsUpval(s.heap, u)
    requires s.heap[u].loc.Open? ==> HasSlot(s.heap, s.heap[u].loc.thread, s.heap[u].loc.level)
    ensures WroteUpvalue(s, UpvalueStored(s, u, v), u, v)
    ensures UpvalueStored(s, u, v).color == s.color && UpvalueStored(s, u, v).gcstate == s.gcstate
  {
  }

  lemma OpenEffect(s: State, step: Step)
    requires Inv(s) && Enabled(s, step) && step.StoreOpen?
    ensures Effect(s, step, Apply(s, step))
  {
    hide Static, PhaseOk, UpvalsOk, AllAlive, GoodStore, Holds, HasSlot, Callable, Missed, WroteUpvalue;
    SlotStoreKeeps(s, step.u, step.val);
    UpvalueWrote(s, step.u, step.val);
  }

  lemma SetUpvalEffect(s: State, step: Step)
    requires Inv(s) && Enabled(s, step) && step.SetUpval?
    ensures Effect(s, step, Apply(s, step))
  {
    hide Static, PhaseOk, UpvalsOk, AllAlive, GoodStore, Holds, HasSlot, HeapClosed, Missed, ValueBarrier, UpvalueStored;
    var SetUpval(f, u, v) := step;
    SetUpvalueExact(s, f, u, v);
    SetUpvalueHeap(s, f, u, v);
    UpvalueWrote(s, u, v);
    BarrierGlobals(UpvalueStored(s, u, v), f, v);
  }

  lemma FindEffect(s: State, step: Step)
    requires Inv(s) && Enabled(s, step) && step.Find?
    ensures Effect(s, step, Apply(s, step))
  {
    hide Static, PhaseOk, UpvalsOk, AllAlive, GoodStore, Holds, HasSlot, Callable, Missed, FindUpval, Captured;
    var Find(th, level, r) := step;
    FindUpvalKeeps(s, th, level, r);
    FindCaptured(s, th, level, r);
  }

  lemma FindCaptured(s: State, th: Ref, level: nat, r: Ref)
    requires th in s.heap && s.heap[th].Thread? && r !in s.heap
    requires forall x | x in s.heap && s.heap[x] == UpVal(Open(th, level)) :: FindUpval(s, th, level, r).1 == x
    requires var (t, q) := FindUpval(s, th, level, r); q in t.heap && t.heap[q] == UpVal(Open(th, level))
    ensures Captured(s, FindUpval(s, th, level, r).0, th, level, r)
  {
    hide SearchOpen;
    var (t, q) := FindUpval(s, th, level, r);
    if q == r {
      var ou := s.heap[th].openupval;
      var i := SearchOpen(s.heap, ou, level, 0);
      var list := InsertAt(ou, i, r);
      assert list[i] == r && ou == ou[..i] + ou[i..];
    }
  }

  lemma CloseEffect(s: State, step: Step)
    requires Inv(s) && Enabled(s, step) && step.Close?
    ensures Effect(s, step, Apply(s, step))
  {
    hide Static, PhaseOk, UpvalsOk, AllAlive, GoodStore, Holds, HasSlot, Callable, Missed, CloseUpvals, ClosedFrom;
    CloseUpvalsCloses(s, step.th, step.level);
    CloseGlobals(s, step.th, step.level);
  }

  lemma CollectEffect(s: State, step: Step)
    requires Inv(s) && Enabled(s, step) && (step.Collect? || step.FullCollect?)
    ensures Effect(s, step, Apply(s, step))
  {
    hide Inv, Enabled, SingleStep, FullGc, KeepsContents;
    if step.Collect? {
      SingleStepValues(s, step.shrink);
      SingleStepGlobals(s, step.shrink);
    } else {
      FullGcValues(s, step.shrink);
      FullGcGlobals(s, step.shrink);
    }
  }

  /** Every step does what it is there for. */
  lemma StepEffect(s: State, step: Step)
    requires Inv(s) && Enabled(s, step)
    ensures Effect(s, step, Apply(s, step))
  {
    hide Inv, Enabled, Effect, Apply;
    if step.Collect? || step.FullCollect? { CollectEffect(s, step); }
    else if step.New? { NewEffect(s, step); }
    else if step.NewUserdata? { UserdataEffect(s, step); }
    else if step.NewStr? { StringEffect(s, step); }
    else if step.FixString? || step.SetBasicMeta? || step.Resume? { FixEffect(s, step); }
    else if step.StoreThread? { ThreadEffect(s, step); }
    else if step.StoreTable? { TableEffect(s, step); }
    else if step.SetMeta? { MetaEffect(s, step); }
    else if step.Store? { StoreEffect(s, step); }
    else if step.StoreOpen? { OpenEffect(s, step); }
    else if step.SetUpval? { SetUpvalEffect(s, step); }
    else if step.Find? { FindEffect(s, step); }
    else { CloseEffect(s, step); }
  }

  // ---------------------------------------------------------------- over a run

  /** At every point of every run. */
  lemma RunEffect(states: seq<State>, steps: seq<Step>, n: nat)
    requires IsRun(states, steps) && n < |steps|
    ensures |states| == |steps| + 1 && Effect(states[n], steps[n], states[n+1])
  {
    hide IsRun, Inv, Enabled, Effect, Apply;
    RunStep(states, steps, n);
    RunInv(states, steps, n);
    StepEffect(states[n], steps[n]);
  }

  /** The step assigns to the object: the upvalue itself or, while it is open, its thread. */
  predicate Assigns(s: State, step: Step, x: Ref) {
    match step
    case StoreThread(th, _, _, _) => x == th
    case StoreTable(t, _, _, _, _) => x == t
    case SetMeta(t, _) => x == t
    case Store(o, _, _) => x == o
    case StoreOpen(u, _) => AssignsUpvalue(s.heap, u, x)
    case SetUpval(_, u, _) => AssignsUpvalue(s.heap, u, x)
    case _ => false
  }

  predicate AssignsUpvalue(h: Heap, u: Ref, x: Ref) {
    IsUpval(h, u) && x == if h[u].loc.Open? then h[u].loc.thread else u
  }

  /** The address of a new object is not in use. */
  lemma FreshAddress(s: State, step: Step, x: Ref)
    requires Enabled(s, step) && x in s.heap
    ensures step.New? || step.NewUserdata? || step.NewStr? || step.Find? ==> step.r != x
  {
  }

  lemma StepFrame(s: State, step: Step, t: State, x: Ref)
    requires Effect(s, step, t) && x in s.heap && x in t.heap && !Assigns(s, step, x)
    requires step.New? || step.NewUserdata? || step.NewStr? || step.Find? ==> step.r != x
    ensures SameBody(s.heap[x], t.heap[x])
  {
    hide Hash, SameBody;
    if step.Collect? || step.FullCollect? {
      assert KeptObject(s.heap, t.heap, x);
    } else if step.Close? && OpenAtOrAbove(s.heap, x, step.th, step.level) {
      ClosedBody(s.heap[x], t.heap[x]);
    } else {
      StackBody(s.heap[x], t.heap[x]);
    }
  }

  lemma ClosedBody(b: Body, c: Body)
    requires b.UpVal? && c.UpVal?
    ensures SameBody(b, c)
  {
  }

  /**
   * An object that no step assigns to keeps its contents, whatever else is done and collected in between: a
   * table its metatable, array and entries, a thread its globals and the slots below its top.
   */
  lemma {:induction false} Untouched(states: seq<State>, steps: seq<Step>, i: nat, j: nat, x: Ref)
    requires IsRun(states, steps) && i <= j < |states| == |steps| + 1
    requires forall k | i <= k <= j :: x in states[k].heap
    requires forall k | i <= k < j :: !Assigns(states[k], steps[k], x)
    ensures SameBody(states[i].heap[x], states[j].heap[x])
    decreases j - i
  {
    hide IsRun, Inv, Enabled, Effect, Apply, SameBody, Assigns;
    if i == j {
      StackBody(states[i].heap[x], states[j].heap[x]);
    } else {
      Untouched(states, steps, i, j - 1, x);
      RunEffect(states, steps, j - 1);
      RunStep(states, steps, j - 1);
      RunInv(states, steps, j - 1);
      FreshAddress(states[j-1], steps[j-1], x);
      StepFrame(states[j-1], steps[j-1], states[j], x);
      SameBodyTransitive(states[i].heap[x], states[j-1].heap[x], states[j].heap[x]);
    }
  }

  /** What was stored into a table last is in it, and the metatable it had is still its metatable. */
  lemma LastStore(states: seq<State>, steps: seq<Step>, n: nat, m: nat)
    requires IsRun(states, steps) && n < m < |states| == |steps| + 1 && steps[n].StoreTable?
    requires forall k | n <= k <= m :: steps[n].t in states[k].heap
    requires forall k | n < k < m :: !Assigns(states[k], steps[k], steps[n].t)
    ensures var StoreTable(t, arr, node, _, _) := steps[n]; var b := states[m].heap[t];
            && states[n].heap[t].Table? && b.Table? && b.meta == states[n].heap[t].meta
            && b.arr == arr && |b.node| == |node| && forall i | 0 <= i < |node| :: SameEntry(node[i], b.node[i])
  {
    hide IsRun, SameEntry, Assigns;
    RunEffect(states, steps, n);
    Untouched(states, steps, n + 1, m, steps[n].t);
  }

  // ---------------------------------------------------------------- what the mutator can get at

  /** One access yields `o`: a field of the object, an element, an entry that is not empty, a slot below the top. */
  ghost predicate Access(h: Heap, r: Ref, o: Ref)
    requires r in h
  {
    match h[r]
    case Str(_, _) => false
    case Udata(mt, env) => mt == Some(o) || env == o
    case UpVal(loc) => UpvalValue(h, loc) == Gc(o)
    case CClosure(env, ups) => env == o || exists i :: 0 <= i < |ups| && ups[i] == Gc(o)
    case LClosure(env, p, ups) => env == o || p == o || exists i :: 0 <= i < |ups| && ups[i] == o
    case Table(mt, arr, node) =>
      || mt == Some(o)
      || (exists i :: 0 <= i < |arr| && arr[i] == Gc(o))
      || (exists i :: 0 <= i < |node| && EntryYields(node[i], o))
    case Thread(gt, stack, top, _) => gt == Gc(o) || exists i :: 0 <= i < |stack| && i < top && stack[i] == Gc(o)
    case Proto(source, k, upnames, protos, locnames) =>
      || source == Some(o)
      || (exists i :: 0 <= i < |k| && k[i] == Gc(o))
      || (exists i :: 0 <= i < |upnames| && upnames[i] == Some(o))
      || (exists i :: 0 <= i < |protos| && protos[i] == Some(o))
      || (exists i :: 0 <= i < |locnames| && locnames[i] == Some(o))
  }

  predicate EntryYields(e: Entry, o: Ref) {
    !e.val.Nil? && (e.val == Gc(o) || (e.key == Gc(o) && !e.deadkey))
  }

  /** The state itself yields its threads, the registry and the metatables of the basic types. */
  ghost predicate RootAccess(s: State, o: Ref) {
    o == s.mainthread || o == s.running || s.registry == Gc(o) || exists i :: 0 <= i < |s.mt| && s.mt[i] == Some(o)
  }

  /** The collector follows exactly the pointers that an access yields. */
  lemma AccessIsChild(s: State, r: Ref, o: Ref)
    ensures RootAccess(s, o) <==> o in Roots(s)
    ensures r in s.heap ==> (Access(s.heap, r, o) <==> o in Children(s.heap, r))
  {
    hide ValuesRefs, OptionsRefs, LiveEntriesRefs, EntryYields;
    OptionsYield(s.mt, o);
    if r in s.heap {
      match s.heap[r]
      case CClosure(_, ups) => ValuesYield(ups, o);
      case Table(_, arr, node) =>
        ValuesYield(arr, o);
        EntriesYield(node, o);
      case Thread(_, stack, top, _) =>
        ValuesYield(if top <= |stack| then stack[..top] else stack, o);
      case Proto(_, k, upnames, protos, locnames) =>
        ValuesYield(k, o);
        OptionsYield(upnames, o);
        OptionsYield(protos, o);
        OptionsYield(locnames, o);
      case _ =>
    }
  }

  lemma ValuesYield(vs: seq<Value>, o: Ref)
    ensures (exists i :: 0 <= i < |vs| && vs[i] == Gc(o)) <==> o in ValuesRefs(vs)
  {
    if o in ValuesRefs(vs) { assert Gc(o) in vs; }
  }

  lemma OptionsYield(os: seq<Option<Ref>>, o: Ref)
    ensures (exists i :: 0 <= i < |os| && os[i] == Some(o)) <==> o in OptionsRefs(os)
  {
    if o in OptionsRefs(os) { assert Some(o) in os; }
  }

  lemma EntriesYield(node: seq<Entry>, o: Ref)
    ensures (exists i :: 0 <= i < |node| && EntryYields(node[i], o)) <==> o in LiveEntriesRefs(node)
  {
    hide EntryYields, EntryRefs;
    forall i | 0 <= i < |node| ensures EntryYields(node[i], o) <==> !node[i].val.Nil? && o in EntryRefs(node[i]) {
      OneEntryYields(node[i], o);
    }
  }

  lemma OneEntryYields(e: Entry, o: Ref)
    ensures EntryYields(e, o) <==> !e.val.Nil? && o in EntryRefs(e)
  {
  }

  /** At every point of every run whatever a chain of accesses yields is allocated, and the next step leaves it alone. */
  lemma AccessSafe(states: seq<State>, steps: seq<Step>, n: nat, r: Ref, o: Ref)
    requires IsRun(states, steps) && n < |states| && r in states[n].heap
    requires Reachable(states[n], r) && Access(states[n].heap, r, o)
    ensures Reachable(states[n], o) && Alive(states[n], o)
    ensures |states| == |steps| + 1 && (n < |steps| ==> o in states[n+1].heap)
  {
    hide IsRun, Children, Access, Reachable, IsDead;
    AccessIsChild(states[n], r, o);
    ReachableStep(states[n], r, o);
    RunSafe(states, steps, n);
  }

  lemma {:induction false} WrotePath(s: State, t: State, o: Ref, b: Body, path: seq<Ref>)
    requires Wrote(s, t, o, b) && o in s.heap && !s.heap[o].Thread? && !b.Thread? && IsPath(s, path)
    ensures Reachable(t, path[|path|-1]) || Reachable(t, o)
    decreases |path|
  {
    hide Reachable, Wrote, Children;
    if |path| == 1 {
      WroteRoots(s, t, o, b);
      RootsAreReachable(t, path[0]);
    } else {
      var r := path[|path|-2];
      WrotePath(s, t, o, b, path[..|path|-1]);
      if r != o && Reachable(t, r) {
        WroteChildren(s, t, o, b, r);
        ReachableStep(t, r, path[|path|-1]);
      }
    }
  }

  lemma WroteRoots(s: State, t: State, o: Ref, b: Body)
    requires Wrote(s, t, o, b)
    ensures Roots(t) == Roots(s)
  {
  }

  lemma WroteChildren(s: State, t: State, o: Ref, b: Body, r: Ref)
    requires Wrote(s, t, o, b) && o in s.heap && !s.heap[o].Thread? && !b.Thread? && r in s.heap && r != o
    ensures r in t.heap && Children(t.heap, r) == Children(s.heap, r)
  {
  }

  lemma WroteReachable(s: State, t: State, o: Ref, b: Body, c: Ref)
    requires Wrote(s, t, o, b) && o in s.heap && !s.heap[o].Thread? && !b.Thread? && Reachable(s, o)
    requires o in t.heap && Access(t.heap, o, c)
    ensures Reachable(t, o) && Reachable(t, c)
  {
    hide Wrote, Children, Access;
    var path :| IsPath(s, path) && path[|path|-1] == o;
    WrotePath(s, t, o, b, path);
    hide Reachable;
    AccessIsChild(t, o, c);
    ReachableStep(t, o, c);
  }

  /** What is stored into a reachable table can be reached through it. */
  lemma StoredIsReachable(states: seq<State>, steps: seq<Step>, n: nat, c: Ref)
    requires IsRun(states, steps) && n < |steps| && |states| == |steps| + 1 && steps[n].StoreTable?
    requires Reachable(states[n], steps[n].t)
    requires Gc(c) in steps[n].arr || exists i :: 0 <= i < |steps[n].node| && EntryYields(steps[n].node[i], c)
    ensures Reachable(states[n+1], steps[n].t) && Reachable(states[n+1], c)
  {
    hide IsRun, Reachable, EntryYields;
    var StoreTable(t, arr, node, _, _) := steps[n];
    RunEffect(states, steps, n);
    WroteReachable(states[n], states[n+1], t, Table(states[n].heap[t].meta, arr, node), c);
  }

  /** The same for a metatable, and for the contents of a closure, a prototype, a userdata or a closed upvalue. */
  lemma StoredByBarrier(states: seq<State>, steps: seq<Step>, n: nat, o: Ref, c: Ref)
    requires IsRun(states, steps) && n < |steps| && |states| == |steps| + 1
    requires (steps[n].SetMeta? && steps[n].t == o) || (steps[n].Store? && steps[n].o == o)
    requires Reachable(states[n], o) && o in states[n+1].heap && Access(states[n+1].heap, o, c)
    ensures Reachable(states[n+1], o) && Reachable(states[n+1], c)
  {
    hide IsRun, Reachable, Access, Inv, Apply;
    RunEffect(states, steps, n);
    RunStep(states, steps, n);
    RunInv(states, steps, n);
    if steps[n].SetMeta? {
      var b := states[n].heap[o];
      WroteReachable(states[n], states[n+1], o, Table(steps[n].mt, b.arr, b.node), c);
    } else {
      StoreKind(states[n], steps[n]);
      WroteReachable(states[n], states[n+1], o, steps[n].body, c);
    }
  }

  lemma StoreKind(s: State, step: Step)
    requires Enabled(s, step) && step.Store?
    ensures step.o in s.heap && !s.heap[step.o].Thread? && !step.body.Thread?
  {
  }
}
