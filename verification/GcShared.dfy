/**
 * Closures that captured the same variable share it: over every run, both read what was last written
 * through either, before and after the variable is closed and whatever the collector does.
 */
module GcShared {
  import opened GcHeap
  import opened GcMark
  import opened GcInvariant
  import opened GcBarrier
  import opened GcAlloc
  import opened GcUpval
  import opened GcStore
  import opened GcSetUpvalue
  import opened GcRuns
  import opened GcCollector
  import opened GcFull
  import opened GcTheorems
  import opened GcValues
  import opened Wrappers

  // ---------------------------------------------------------------- one step

  /**
   * What a step writes into the upvalue: through it, or into the slot it is open on. A step on the stack that
   * leaves the value in the slot alone, a push or a pop for one, writes nothing.
   */
  function Written(s: State, step: Step, u: Ref): Option<Value>
    requires IsUpval(s.heap, u)
  {
    match step
    case StoreOpen(w, v) => if w == u then Some(v) else None
    case SetUpval(_, w, v) => if w == u then Some(v) else None
    case Store(o, b, _) => if o == u && b.UpVal? && b.loc.Closed? then Some(b.loc.value) else None
    case StoreThread(th, _, stack, _) =>
      var l := s.heap[u].loc;
      if l.Open? && l.thread == th && l.level < |stack| && stack[l.level] != ValueOf(s.heap, u)
      then Some(stack[l.level]) else None
    case _ => None
  }

  /** The value after a step. */
  function NextValue(s: State, step: Step, u: Ref): Value
    requires IsUpval(s.heap, u)
  {
    var w := Written(s, step, u);
    if w.Some? then w.value else ValueOf(s.heap, u)
  }

  /** An upvalue leaves its slot when luaF_close reaches it, or when the thread is gone. */
  predicate Moves(s: State, step: Step, t: State, u: Ref)
    requires IsUpval(s.heap, u) && IsUpval(t.heap, u)
  {
    var l, l' := s.heap[u].loc, t.heap[u].loc;
    || l' == l || (l.Closed? && l'.Closed?)
    || (l.Open? && l'.Closed? && ((step.Close? && step.th == l.thread && step.level <= l.level) || l.thread !in t.heap))
  }

  ghost predicate StepValue(s: State, step: Step, t: State, u: Ref) {
    IsUpval(s.heap, u) && u in t.heap ==>
      IsUpval(t.heap, u) && ValueOf(t.heap, u) == NextValue(s, step, u) && Moves(s, step, t, u)
  }

  /** A new body for one object, or a new object. */
  lemma BodyValue(h: Heap, o: Ref, b: Body, u: Ref)
    requires IsUpval(h, u) && (o in h ==> SameSlot(h[o], b))
    requires h[u].loc.Open? ==> HasSlot(h, h[u].loc.thread, h[u].loc.level)
    ensures IsUpval(h[o := b], u)
    ensures o == u ==> h[o := b][u] == b && b.UpVal? && b.loc.Closed?
    ensures o != u ==> h[o := b][u] == h[u]
    ensures o != u && !(h[u].loc.Open? && h[u].loc.thread == o) ==> ValueOf(h[o := b], u) == ValueOf(h, u)
    ensures h[u].loc.Open? && h[u].loc.thread == o && o in h && h[u].loc.level < |b.stack| ==>
              ValueOf(h[o := b], u) == b.stack[h[u].loc.level]
  {
  }

  /** Objects are added or change their lists only. */
  lemma GrownValue(s: State, t: State, u: Ref)
    requires UpvalsOk(s) && IsUpval(s.heap, u) && forall x | x in s.heap :: x in t.heap && SameStack(s.heap[x], t.heap[x])
    ensures IsUpval(t.heap, u) && t.heap[u] == s.heap[u] && ValueOf(t.heap, u) == ValueOf(s.heap, u)
  {
    hide UpvalsOk;
    if s.heap[u].loc.Open? {
      SlotOf(s, u);
      assert SameStack(s.heap[s.heap[u].loc.thread], t.heap[s.heap[u].loc.thread]);
    }
  }

  /** Objects are added or change their lists only. */
  ghost predicate KeepsStacks(s: State, t: State) {
    forall x | x in s.heap :: x in t.heap && SameStack(s.heap[x], t.heap[x])
  }

  lemma NewValue(s: State, step: Step, t: State, u: Ref)
    requires UpvalsOk(s) && KeepsStacks(s, t)
    requires step.New? || step.NewUserdata? || step.NewStr? || step.Find? || step.FixString? || step.SetBasicMeta? || step.Resume?
    ensures StepValue(s, step, t, u)
  {
    hide UpvalsOk;
    if IsUpval(s.heap, u) { GrownValue(s, t, u); }
  }

  lemma LinkedStacks(s: State, i: nat, r: Ref, b: Body)
    requires r !in s.heap && i <= |s.rootgc|
    ensures KeepsStacks(s, LinkAt(s, i, r, b))
  {
  }

  lemma InternStacks(s: State, r: Ref, bytes: seq<bv8>, grow: bool)
    requires 0 < |s.strt| && r !in s.heap
    ensures KeepsStacks(s, Intern(s, r, bytes, grow).0)
  {
    hide FindString, Hash, RehashChains, Intern;
    forall x | x in s.heap
      ensures x in Intern(s, r, bytes, grow).0.heap && SameStack(s.heap[x], Intern(s, r, bytes, grow).0.heap[x])
    {
      InternKeepsStrings(s, r, bytes, grow, x);
    }
  }

  lemma FindStacks(s: State, th: Ref, level: nat, r: Ref)
    requires th in s.heap && s.heap[th].Thread? && r !in s.heap
    ensures KeepsStacks(s, FindUpval(s, th, level, r).0)
  {
    hide SearchOpen;
  }

  lemma CloseValue(s: State, th: Ref, level: nat, t: State, u: Ref)
    requires UpvalsOk(s) && ClosedFrom(s, t, th, level)
    ensures StepValue(s, Close(th, level), t, u)
  {
    hide UpvalsOk;
    if IsUpval(s.heap, u) && u in t.heap {
      if OpenAtOrAbove(s.heap, u, th, level) {
        assert u in t.heap && t.heap[u] == UpVal(Closed(UpvalValue(s.heap, s.heap[u].loc)));
      } else {
        assert t.heap[u] == s.heap[u];
        if s.heap[u].loc.Open? {
          SlotOf(s, u);
          var x := s.heap[u].loc.thread;
          assert !OpenAtOrAbove(s.heap, x, th, level);
        }
      }
    }
  }

  /** A store into an object that is neither a thread nor an open upvalue. */
  lemma StoreValue(s: State, step: Step, o: Ref, b: Body, u: Ref)
    requires UpvalsOk(s) && o in s.heap && SameSlot(s.heap[o], b) && !b.Thread?
    requires if step.Store? then step.o == o && step.body == b else step.StoreTable? || step.SetMeta? || (step.SetUpval? && step.u == o && b == UpVal(Closed(step.val)))
    requires step.StoreTable? || step.SetMeta? ==> b.Table?
    ensures StepValue(s, step, SetBody(s, o, b), u)
  {
    hide UpvalsOk;
    if IsUpval(s.heap, u) {
      if s.heap[u].loc.Open? { SlotOf(s, u); }
      BodyValue(s.heap, o, b, u);
    }
  }

  lemma ThreadValue(s: State, th: Ref, gt: Value, stack: seq<Value>, top: nat, u: Ref)
    requires UpvalsOk(s) && th in s.heap && s.heap[th].Thread? && GoodStore(s, th, Thread(gt, stack, top, s.heap[th].openupval))
    ensures StepValue(s, StoreThread(th, gt, stack, top), SetBody(s, th, Thread(gt, stack, top, s.heap[th].openupval)), u)
  {
    hide UpvalsOk, AllAlive, Holds, WellShaped;
    var b := Thread(gt, stack, top, s.heap[th].openupval);
    if IsUpval(s.heap, u) {
      if s.heap[u].loc.Open? {
        SlotOf(s, u);
        if s.heap[u].loc.thread == th { SlotBelow(s, th, b, u); }
      }
      BodyValue(s.heap, th, b, u);
    }
  }

  /** A store through an upvalue that is open. */
  lemma SlotValue(s: State, step: Step, w: Ref, v: Value, u: Ref)
    requires UpvalsOk(s) && IsOpenUpval(s.heap, w) && HasSlot(s.heap, s.heap[w].loc.thread, s.heap[w].loc.level)
    requires (step.StoreOpen? && step.u == w && step.val == v) || (step.SetUpval? && step.u == w && step.val == v)
    ensures StepValue(s, step, UpvalueStored(s, w, v), u)
  {
    hide UpvalsOk, HasSlot, UpvalueStored;
    if IsUpval(s.heap, u) {
      if s.heap[u].loc.Open? { SlotOf(s, u); }
      ThroughSlot(s, w, v, u);
    }
  }

  /** A thread keeps its open upvalues on the stack. */
  lemma SlotBelow(s: State, th: Ref, b: Body, u: Ref)
    requires UpvalsOk(s) && GoodStore(s, th, b) && b.Thread?
    requires IsOpenUpval(s.heap, u) && s.heap[u].loc.thread == th
    ensures s.heap[u].loc.level < |b.stack|
  {
    assert OpenListOk(s.heap, th);
  }

  /** No two upvalues are open on one slot. */
  lemma ThroughSlot(s: State, w: Ref, v: Value, u: Ref)
    requires UpvalsOk(s) && IsOpenUpval(s.heap, w) && IsUpval(s.heap, u)
    requires HasSlot(s.heap, s.heap[w].loc.thread, s.heap[w].loc.level)
    requires s.heap[u].loc.Open? ==> HasSlot(s.heap, s.heap[u].loc.thread, s.heap[u].loc.level)
    ensures var h := UpvalueStored(s, w, v).heap;
            IsUpval(h, u) && h[u] == s.heap[u] && ValueOf(h, u) == if u == w then v else ValueOf(s.heap, u)
  {
    var Open(th, level) := s.heap[w].loc;
    if u != w && s.heap[u].loc == Open(th, level) {
      assert OpenListOk(s.heap, th);
      OneUpvalPerSlot(s.heap, th, u, w);
    }
    BodyValue(s.heap, th, WithSlot(s.heap[th], level, v), u);
  }

  lemma SameHeapValue(s: State, step: Step, t: State, t': State, u: Ref)
    requires StepValue(s, step, t, u) && t'.heap == t.heap
    ensures StepValue(s, step, t', u)
  {
  }

  // ---------------------------------------------------------------- any step

  lemma CollectValue(s: State, step: Step, t: State, u: Ref)
    requires (step.Collect? || step.FullCollect?) && KeepsContents(s.heap, t.heap)
    ensures StepValue(s, step, t, u)
  {
    if IsUpval(s.heap, u) && u in t.heap { assert KeptUpval(s.heap, t.heap, u); }
  }

  lemma ObjectStep(s: State, step: Step, u: Ref)
    requires Inv(s) && Enabled(s, step) && step.New?
    ensures StepValue(s, step, Apply(s, step), u)
  {
    hide Static, PhaseOk, UpvalsOk, StepValue, KeepsStacks, LinkAt, AllAlive, GoodObject, GoodStore, Holds, Callable, Missed;
    StaticUpvals(s);
    FreshRef(s, step.r, step.body);
    LinkedStacks(s, 0, step.r, step.body);
    NewValue(s, step, Apply(s, step), u);
  }

  lemma UdataStacks(s: State, r: Ref, env: Ref)
    requires s.mainthread in s.rootgc && r !in s.heap
    ensures KeepsStacks(s, NewUdata(s, r, env))
  {
    hide IndexOf, LinkAt, KeepsStacks;
    LinkedStacks(s, IndexOf(s.rootgc, s.mainthread) + 1, r, Udata(None, env));
  }

  lemma UserdataStep(s: State, step: Step, u: Ref)
    requires Inv(s) && Enabled(s, step) && step.NewUserdata?
    ensures StepValue(s, step, Apply(s, step), u)
  {
    hide Static, PhaseOk, UpvalsOk, StepValue, KeepsStacks, NewUdata, AllAlive, GoodStore, Holds, Callable, Missed;
    StaticUpvals(s);
    MainLinked(s);
    UdataStacks(s, step.r, step.env);
    NewValue(s, step, Apply(s, step), u);
  }

  lemma StringStep(s: State, step: Step, u: Ref)
    requires Inv(s) && Enabled(s, step) && step.NewStr?
    ensures StepValue(s, step, Apply(s, step), u)
  {
    hide Static, PhaseOk, UpvalsOk, StepValue, KeepsStacks, Intern, AllAlive, GoodStore, Holds, Callable, Missed;
    StaticUpvals(s);
    InternStacks(s, step.r, step.bytes, step.grow);
    NewValue(s, step, Apply(s, step), u);
  }

  lemma FindStep(s: State, step: Step, u: Ref)
    requires Inv(s) && Enabled(s, step) && step.Find?
    ensures StepValue(s, step, Apply(s, step), u)
  {
    hide Static, PhaseOk, UpvalsOk, StepValue, KeepsStacks, FindUpval, AllAlive, GoodStore, Holds, Callable, Missed;
    StaticUpvals(s);
    FindStacks(s, step.th, step.level, step.r);
    NewValue(s, step, Apply(s, step), u);
  }

  lemma FreshRef(s: State, r: Ref, b: Body)
    requires GoodObject(s, r, b)
    ensures r !in s.heap
  {
  }

  lemma RootStep(s: State, step: Step, u: Ref)
    requires Inv(s) && Enabled(s, step) && (step.FixString? || step.SetBasicMeta? || step.Resume?)
    ensures StepValue(s, step, Apply(s, step), u)
  {
    hide Static, PhaseOk, UpvalsOk, StepValue, AllAlive, GoodStore, Holds, Callable, Missed;
    StaticUpvals(s);
    NewValue(s, step, Apply(s, step), u);
  }

  lemma CloseStep(s: State, step: Step, u: Ref)
    requires Inv(s) && Enabled(s, step) && step.Close?
    ensures StepValue(s, step, Apply(s, step), u)
  {
    hide Static, PhaseOk, CloseUpvals, UpvalsOk, ClosedFrom, StepValue;
    StaticUpvals(s);
    CloseEnabled(s, step.th, step.level);
    CloseUpvalsCloses(s, step.th, step.level);
    CloseValue(s, step.th, step.level, CloseUpvals(s, step.th, step.level), u);
  }

  lemma StoreStep(s: State, step: Step, u: Ref)
    requires Inv(s) && Enabled(s, step) && step.Store?
    ensures StepValue(s, step, Apply(s, step), u)
  {
    hide Static, PhaseOk, UpvalsOk, Holds, HeapClosed, AllAlive, GoodStore, StepValue, Callable, Missed, SetBody, ValueBarrier;
    StaticUpvals(s);
    var Store(o, b, v) := step;
    StoreAlive(s, o, b);
    StoreForwardKeeps(s, o, b, v);
    ForwardHeap(SetBody(s, o, b), o, v);
    StoreValue(s, step, o, b, u);
    SameHeapValue(s, step, SetBody(s, o, b), Apply(s, step), u);
  }

  lemma TableStep(s: State, step: Step, u: Ref)
    requires Inv(s) && Enabled(s, step) && step.StoreTable?
    ensures StepValue(s, step, Apply(s, step), u)
  {
    hide Static, PhaseOk, UpvalsOk, Holds, HeapClosed, AllAlive, GoodStore, StepValue, Callable, Missed, SetBody, ValueBarrierBack,
         SingleStep, FullGc, LinkAt, Intern, FindUpval, CloseUpvals, SetUpvalue, NewUdata, IsDead;
    StaticUpvals(s);
    var StoreTable(t, arr, node, k, v) := step;
    var b := Table(s.heap[t].meta, arr, node);
    StoreBackKeeps(s, t, b, k, v);
    BackHeap(SetBody(s, t, b), t, k, v);
    StoreValue(s, step, t, b, u);
    SameHeapValue(s, step, SetBody(s, t, b), Apply(s, step), u);
  }

  lemma MetaValue(s: State, t: Ref, mt: Option<Ref>, u: Ref)
    requires Inv(s) && UpvalsOk(s) && Alive(s, t) && s.heap[t].Table? && AllAlive(s, OptionRefs(mt))
    ensures var m := SetBody(s, t, s.heap[t].(meta := mt));
            && t in m.color && ValueRefs(OptionValue(mt)) <= m.color.Keys
            && StepValue(s, SetMeta(t, mt), ValueBarrierBack(m, t, OptionValue(mt)), u)
  {
    hide Inv, UpvalsOk, StepValue, AllAlive;
    MetaKeeps(s, t, mt);
    var step := SetMeta(t, mt);
    var m := SetBody(s, t, s.heap[t].(meta := mt));
    StoreValue(s, step, t, s.heap[t].(meta := mt), u);
    SameHeapValue(s, step, m, ValueBarrierBack(m, t, OptionValue(mt)), u);
  }

  lemma MetaStep(s: State, step: Step, u: Ref)
    requires Inv(s) && Enabled(s, step) && step.SetMeta?
    ensures StepValue(s, step, Apply(s, step), u)
  {
    hide Static, PhaseOk, UpvalsOk, Holds, AllAlive, GoodStore, StepValue, Callable, Missed, SetBody, ValueBarrierBack;
    StaticUpvals(s);
    MetaValue(s, step.t, step.mt, u);
  }

  lemma ThreadStep(s: State, step: Step, u: Ref)
    requires Inv(s) && Enabled(s, step) && step.StoreThread?
    ensures StepValue(s, step, Apply(s, step), u)
  {
    hide Static, PhaseOk, UpvalsOk, GoodStore, StepValue;
    StaticUpvals(s);
    ThreadValue(s, step.th, step.gt, step.stack, step.top, u);
  }

  lemma OpenStep(s: State, step: Step, u: Ref)
    requires Inv(s) && Enabled(s, step) && step.StoreOpen?
    ensures StepValue(s, step, Apply(s, step), u)
  {
    hide Static, PhaseOk, UpvalsOk, StepValue, AllAlive, HasSlot;
    StaticUpvals(s);
    SlotStoreKeeps(s, step.u, step.val);
    SlotValue(s, step, step.u, step.val, u);
  }

  lemma SetUpvalStep(s: State, step: Step, u: Ref)
    requires Inv(s) && Enabled(s, step) && step.SetUpval?
    ensures StepValue(s, step, Apply(s, step), u)
  {
    hide Static, PhaseOk, UpvalsOk, StepValue, AllAlive, HasSlot, SetUpvalue, UpvalueStored, Missed, HeapClosed;
    StaticUpvals(s);
    var SetUpval(f, w, v) := step;
    SetUpvalueExact(s, f, w, v);
    SetUpvalueHeap(s, f, w, v);
    if s.heap[w].loc.Open? {
      SlotValue(s, step, w, v, u);
    } else {
      ClosedStored(s, w, v);
      StoreValue(s, step, w, UpVal(Closed(v)), u);
    }
    SameHeapValue(s, step, UpvalueStored(s, w, v), Apply(s, step), u);
  }

  lemma ClosedStored(s: State, w: Ref, v: Value)
    requires IsUpval(s.heap, w) && s.heap[w].loc.Closed?
    ensures UpvalueStored(s, w, v) == SetBody(s, w, UpVal(Closed(v)))
  {
  }

  /** One step, of the collector or the mutator: the value changes only if the step writes it. */
  lemma StepChanges(s: State, step: Step, u: Ref)
    requires Inv(s) && Enabled(s, step)
    ensures StepValue(s, step, Apply(s, step), u)
  {
    hide Inv, Enabled, StepValue, SingleStep, FullGc, KeepsContents;
    if step.Collect? {
      SingleStepValues(s, step.shrink);
      CollectValue(s, step, SingleStep(s, step.shrink), u);
    } else if step.FullCollect? {
      FullGcValues(s, step.shrink);
      CollectValue(s, step, FullGc(s, step.shrink), u);
    } else {
      hide Apply;
      if step.Close? { CloseStep(s, step, u); }
      else if step.Store? { StoreStep(s, step, u); }
      else if step.StoreTable? { TableStep(s, step, u); }
      else if step.SetMeta? { MetaStep(s, step, u); }
      else if step.StoreThread? { ThreadStep(s, step, u); }
      else if step.StoreOpen? { OpenStep(s, step, u); }
      else if step.SetUpval? { SetUpvalStep(s, step, u); }
      else if step.FixString? || step.SetBasicMeta? || step.Resume? { RootStep(s, step, u); }
      else if step.New? { ObjectStep(s, step, u); }
      else if step.NewUserdata? { UserdataStep(s, step, u); }
      else if step.NewStr? { StringStep(s, step, u); }
      else { FindStep(s, step, u); }
    }
  }

  // ---------------------------------------------------------------- runs

  /** The upvalue is allocated from one point of a run to another; while it is reachable it is. */
  ghost predicate AllocatedFrom(states: seq<State>, n: nat, m: nat, u: Ref) {
    forall k: nat | n <= k <= m && k < |states| :: IsUpval(states[k].heap, u)
  }

  /** The value at a point, computed from the value at an earlier one by the writes in between. */
  ghost function Replayed(states: seq<State>, steps: seq<Step>, n: nat, m: nat, u: Ref): Value
    requires |states| == |steps| + 1 && n <= m < |states| && AllocatedFrom(states, n, m, u)
    decreases m - n
  {
    assert IsUpval(states[m].heap, u);
    if m == n then ValueOf(states[m].heap, u)
    else
      assert IsUpval(states[m-1].heap, u);
      var w := Written(states[m-1], steps[m-1], u);
      if w.Some? then w.value else Replayed(states, steps, n, m - 1, u)
  }

  /** An upvalue that stays reachable stays allocated. */
  lemma {:induction false} WhileReachable(states: seq<State>, steps: seq<Step>, n: nat, m: nat, u: Ref)
    requires IsRun(states, steps) && n <= m < |states| && IsUpval(states[n].heap, u)
    requires forall k: nat | n <= k < m :: Reachable(states[k], u)
    ensures AllocatedFrom(states, n, m, u)
    decreases m - n
  {
    hide IsRun, Reachable;
    RunLength(states, steps);
    if n < m {
      WhileReachable(states, steps, n, m - 1, u);
      RunSafe(states, steps, m - 1);
      RunValue(states, steps, m - 1, u);
      assert IsUpval(states[m-1].heap, u);
      forall k: nat | n <= k <= m && k < |states| ensures IsUpval(states[k].heap, u) {
      }
    }
  }

  lemma RunValue(states: seq<State>, steps: seq<Step>, n: nat, u: Ref)
    requires IsRun(states, steps) && n < |steps|
    ensures |states| == |steps| + 1 && StepValue(states[n], steps[n], states[n+1], u)
  {
    hide Inv, Enabled, Apply, StepValue, IsRun;
    RunStep(states, steps, n);
    RunInv(states, steps, n);
    StepChanges(states[n], steps[n], u);
  }

  /** At every point of every run an upvalue has the value that the last write into it gave it. */
  lemma {:induction false} LastWrite(states: seq<State>, steps: seq<Step>, n: nat, m: nat, u: Ref)
    requires IsRun(states, steps) && n <= m < |states| && AllocatedFrom(states, n, m, u)
    ensures |states| == |steps| + 1 && IsUpval(states[m].heap, u)
    ensures ValueOf(states[m].heap, u) == Replayed(states, steps, n, m, u)
    decreases m - n
  {
    hide IsRun, Written, ValueOf;
    RunLength(states, steps);
    assert IsUpval(states[m].heap, u);
    if n < m {
      LastWrite(states, steps, n, m - 1, u);
      RunValue(states, steps, m - 1, u);
    }
  }

  /** The upvalue is not closed between two points: luaF_close stays above its slot, and its thread is there. */
  ghost predicate StaysOpen(states: seq<State>, steps: seq<Step>, n: nat, m: nat, th: Ref, level: nat) {
    && (forall k: nat | n <= k <= m && k < |states| :: th in states[k].heap)
    && forall k: nat | n <= k < m && k < |steps| :: steps[k].Close? && steps[k].th == th ==> steps[k].level > level
  }

  lemma {:induction false} OpenTill(states: seq<State>, steps: seq<Step>, n: nat, m: nat, u: Ref, th: Ref, level: nat)
    requires IsRun(states, steps) && n <= m < |states| && AllocatedFrom(states, n, m, u)
    requires StaysOpen(states, steps, n, m, th, level)
    requires n < |states| && IsUpval(states[n].heap, u) && states[n].heap[u].loc == Open(th, level)
    ensures IsUpval(states[m].heap, u) && states[m].heap[u].loc == Open(th, level)
    decreases m - n
  {
    hide IsRun;
    RunLength(states, steps);
    assert IsUpval(states[m].heap, u);
    if n < m {
      OpenTill(states, steps, n, m - 1, u, th, level);
      RunValue(states, steps, m - 1, u);
      assert th in states[m].heap;
    }
  }

  /** The upvalue that a step of luaF_findupval gives. */
  ghost predicate Captures(states: seq<State>, steps: seq<Step>, i: nat, th: Ref, level: nat, u: Ref) {
    && i < |steps| && |states| == |steps| + 1 && steps[i].Find? && steps[i].th == th && steps[i].level == level
    && th in states[i].heap && states[i].heap[th].Thread?
    && FindUpval(states[i], th, level, steps[i].r).1 == u
  }

  /** Two captures of one stack slot give the same upvalue, unless it was closed in between. */
  lemma SameCapture(states: seq<State>, steps: seq<Step>, i: nat, j: nat, th: Ref, level: nat, u: Ref, w: Ref)
    requires IsRun(states, steps) && i < j
    requires Captures(states, steps, i, th, level, u) && Captures(states, steps, j, th, level, w)
    requires AllocatedFrom(states, i + 1, j, u) && StaysOpen(states, steps, i + 1, j, th, level)
    ensures u == w
  {
    hide IsRun, FindUpval, Inv;
    CaptureOpen(states, steps, i, th, level, u);
    OpenTill(states, steps, i + 1, j, u, th, level);
    CaptureFinds(states, steps, j, th, level, w);
  }

  lemma CaptureOpen(states: seq<State>, steps: seq<Step>, i: nat, th: Ref, level: nat, u: Ref)
    requires IsRun(states, steps) && Captures(states, steps, i, th, level, u)
    ensures |states| == |steps| + 1 && IsUpval(states[i+1].heap, u) && states[i+1].heap[u].loc == Open(th, level)
  {
    hide IsRun, FindUpval, Inv;
    RunStep(states, steps, i);
    RunInv(states, steps, i);
    FindEnabled(states[i], steps[i]);
    CaptureAnywhere(states, steps, i, th, level, steps[i].r);
  }

  lemma FindEnabled(s: State, step: Step)
    requires Inv(s) && Enabled(s, step) && step.Find?
    ensures Alive(s, step.th) && s.heap[step.th].Thread? && step.level < s.heap[step.th].top && step.r !in s.heap
    ensures Apply(s, step) == FindUpval(s, step.th, step.level, step.r).0
  {
    hide Inv, FindUpval;
  }

  lemma CaptureFinds(states: seq<State>, steps: seq<Step>, j: nat, th: Ref, level: nat, w: Ref)
    requires IsRun(states, steps) && Captures(states, steps, j, th, level, w)
    ensures forall v | IsOpenUpval(states[j].heap, v) && states[j].heap[v].loc == Open(th, level) :: v == w
  {
    hide IsRun, FindUpval, Inv;
    RunStep(states, steps, j);
    RunInv(states, steps, j);
    FindEnabled(states[j], steps[j]);
    CaptureAnywhere(states, steps, j, th, level, steps[j].r);
  }

  // ---------------------------------------------------------------- closures

  /** The closure holds `u` as its upvalue number `x`. */
  predicate HoldsUpval(h: Heap, c: Ref, x: nat, u: Ref) {
    c in h && h[c].LClosure? && x < |h[c].upvals| && h[c].upvals[x] == u
  }

  /** OP_GETUPVAL. */
  function ReadUpval(h: Heap, c: Ref, x: nat): Value
    requires c in h && h[c].LClosure? && x < |h[c].upvals| && IsUpval(h, h[c].upvals[x])
  {
    ValueOf(h, h[c].upvals[x])
  }

  /** OP_SETUPVAL or lua_setupvalue through the upvalue number `x` of the closure. */
  ghost predicate WritesThrough(s: State, step: Step, c: Ref, x: nat, v: Value) {
    && c in s.heap && s.heap[c].LClosure? && x < |s.heap[c].upvals|
    && var u := s.heap[c].upvals[x];
    && IsUpval(s.heap, u)
    && (step == StoreOpen(u, v) || step == Store(u, UpVal(Closed(v)), v) || step == SetUpval(c, u, v))
  }

  /**
   * Two closures captured the same slot, at `i` and at `j`, before it was closed. What is written
   * through either of them, at `n`, be it before the second capture, is what the other reads at `m`, if
   * nothing writes the variable in between: whether the variable is open or was closed by then, whatever
   * is done to the rest of the stack, and whatever was collected.
   */
  lemma SeesWrite(states: seq<State>, steps: seq<Step>, i: nat, j: nat, n: nat, m: nat, th: Ref, level: nat,
                  u: Ref, w: Ref, c: Ref, x: nat, d: Ref, y: nat, v: Value)
    requires IsRun(states, steps) && i < j < m < |states| && i < n < m
    requires Captures(states, steps, i, th, level, u) && Captures(states, steps, j, th, level, w)
    requires AllocatedFrom(states, i + 1, m, u) && StaysOpen(states, steps, i + 1, j, th, level)
    requires HoldsUpval(states[n].heap, c, x, u) && HoldsUpval(states[m].heap, d, y, w)
    requires |states| == |steps| + 1 && WritesThrough(states[n], steps[n], c, x, v)
    requires forall k: nat | n < k < m && IsUpval(states[k].heap, u) :: Written(states[k], steps[k], u) == None
    ensures IsUpval(states[m].heap, w) && ReadUpval(states[m].heap, d, y) == v
  {
    hide IsRun, Captures, StaysOpen, ValueOf;
    Shorter(states, i + 1, j, m, u);
    SameCapture(states, steps, i, j, th, level, u, w);
    Later(states, i + 1, n + 1, m, u);
    LastWrite(states, steps, n + 1, m, u);
    assert IsUpval(states[n].heap, u) && IsUpval(states[n+1].heap, u);
    RunValue(states, steps, n, u);
    Unwritten(states, steps, n + 1, m, u);
  }

  lemma Shorter(states: seq<State>, n: nat, k: nat, m: nat, u: Ref)
    requires AllocatedFrom(states, n, m, u) && k <= m
    ensures AllocatedFrom(states, n, k, u)
  {
  }

  lemma Later(states: seq<State>, n: nat, k: nat, m: nat, u: Ref)
    requires AllocatedFrom(states, n, m, u) && n <= k
    ensures AllocatedFrom(states, k, m, u)
  {
  }

  lemma {:induction false} Unwritten(states: seq<State>, steps: seq<Step>, n: nat, m: nat, u: Ref)
    requires |states| == |steps| + 1 && n <= m < |states| && AllocatedFrom(states, n, m, u)
    requires forall k: nat | n <= k < m && IsUpval(states[k].heap, u) :: Written(states[k], steps[k], u) == None
    ensures IsUpval(states[n].heap, u) && Replayed(states, steps, n, m, u) == ValueOf(states[n].heap, u)
    decreases m - n
  {
    assert IsUpval(states[n].heap, u) && IsUpval(states[m].heap, u);
    if n < m {
      assert IsUpval(states[m-1].heap, u);
      Unwritten(states, steps, n, m - 1, u);
    }
  }
}
