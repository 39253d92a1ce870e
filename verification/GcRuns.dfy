/** Mutator steps, and safety over every run that interleaves them with the collector's. */
module GcRuns {
  import opened GcHeap
  import opened GcMark
  import opened GcTricolor
  import opened GcInvariant
  import opened GcBarrier
  import opened GcAlloc
  import opened GcUpval
  import opened GcStore
  import opened GcSetUpvalue
  import opened GcCollector
  import opened GcFull
  import opened Wrappers

  datatype Step =
    /** One step of the collector, or a full collection. */
    | Collect(shrink: bool)
    | FullCollect(shrink: bool)
    /** luaC_link on a freshly filled table, closure, prototype, thread or closed upvalue. */
    | New(r: Ref, body: Body)
    | NewUserdata(r: Ref, env: Ref)
    | NewStr(r: Ref, bytes: seq<bv8>, grow: bool)
    /** luaS_fix. */
    | FixString(r: Ref)
    /** Any change of a thread's globals, stack slots and stack top: no barrier. */
    | StoreThread(th: Ref, gt: Value, stack: seq<Value>, top: nat)
    /** luaH_set and a store, the nodes laid out anyhow: back barriers for the key and the value. */
    | StoreTable(t: Ref, arr: seq<Value>, node: seq<Entry>, key: Value, val: Value)
    /** lua_setmetatable on a table: back barrier. */
    | SetMeta(t: Ref, mt: Option<Ref>)
    /** A store into a closure, a closed upvalue, a prototype or a userdata: forward barrier. */
    | Store(o: Ref, body: Body, val: Value)
    /** OP_SETUPVAL on an upvalue that is still open: the slot is written. */
    | StoreOpen(u: Ref, val: Value)
    /** lua_setupvalue on the upvalue `u` of the closure `f`, where its barrier suffices. */
    | SetUpval(f: Ref, u: Ref, val: Value)
    /** lua_setmetatable on a basic type: no barrier. */
    | SetBasicMeta(i: nat, mt: Option<Ref>)
    | Find(th: Ref, level: nat, r: Ref)
    | Close(th: Ref, level: nat)
    /** Control passes to another coroutine. */
    | Resume(th: Ref)

  // ---------------------------------------------------------------- the steps

  /** What the mutator must respect: it uses live objects, fresh addresses and slots below the top. */
  ghost predicate Enabled(s: State, step: Step)
  {
    match step
    case Collect(_) => true
    case FullCollect(_) => true
    case New(r, b) => GoodObject(s, r, b)
    case NewUserdata(r, env) => r !in s.heap && Alive(s, env)
    case NewStr(r, _, _) => r !in s.heap
    case FixString(r) => Alive(s, r) && s.heap[r].Str?
    case StoreThread(th, gt, stack, top) =>
      Alive(s, th) && s.heap[th].Thread? && GoodStore(s, th, Thread(gt, stack, top, s.heap[th].openupval))
    case StoreTable(t, arr, node, k, v) =>
      && Alive(s, t) && s.heap[t].Table?
      && var b := Table(s.heap[t].meta, arr, node);
      && GoodStore(s, t, b) && AllAlive(s, ValueRefs(k) + ValueRefs(v))
      && Holds(s.heap[t := b], t) <= Holds(s.heap, t) + (ValueRefs(k) + ValueRefs(v))
    case SetMeta(t, mt) => Alive(s, t) && s.heap[t].Table? && AllAlive(s, OptionRefs(mt))
    case Store(o, b, v) =>
      && GoodStore(s, o, b) && !b.Table? && !b.Thread? && AllAlive(s, ValueRefs(v))
      && Holds(s.heap[o := b], o) <= Holds(s.heap, o) + ValueRefs(v)
    case StoreOpen(u, v) =>
      IsOpenUpval(s.heap, u) && Alive(s, u) && AllAlive(s, ValueRefs(v))
    case SetUpval(f, u, v) => Callable(s, f, u, v) && !Missed(s, f, u, v)
    case SetBasicMeta(i, mt) => i < |s.mt| && AllAlive(s, OptionRefs(mt))
    case Find(th, level, r) => Alive(s, th) && s.heap[th].Thread? && level < s.heap[th].top && r !in s.heap
    case Close(th, _) => Alive(s, th) && s.heap[th].Thread?
    case Resume(th) => Alive(s, th) && s.heap[th].Thread?
  }

  lemma MetaGood(s: State, t: Ref, mt: Option<Ref>)
    requires Inv(s) && Alive(s, t) && s.heap[t].Table? && AllAlive(s, OptionRefs(mt))
    ensures var b := s.heap[t].(meta := mt);
            GoodStore(s, t, b) && Holds(s.heap[t := b], t) <= Holds(s.heap, t) + OptionRefs(mt)
  {
    hide PhaseOk, RootListOk, StringsOk, UpvalsOk;
    assert AllAlive(s, Holds(s.heap, t)) && WellShaped(s.heap, t);
  }

  function OptionValue(o: Option<Ref>): Value {
    if o.Some? then Gc(o.value) else Nil
  }

  /** The effect of a step; each case is defined where the step is enabled. */
  function Apply(s: State, step: Step): State
    requires Inv(s) && Enabled(s, step)
  {
    hide Static, PhaseOk, GoodStore, Holds;
    match step
    case Collect(shrink) => SingleStep(s, shrink)
    case FullCollect(shrink) => FullGc(s, shrink)
    case New(r, b) => NewObject(s, r, b)
    case NewUserdata(r, env) => MainLinked(s); NewUdata(s, r, env)
    case NewStr(r, bytes, grow) => MainLinked(s); Intern(s, r, bytes, grow).0
    case FixString(r) => s.(fixed := s.fixed + {r})
    case StoreThread(th, gt, stack, top) => SetBody(s, th, Thread(gt, stack, top, s.heap[th].openupval))
    case StoreTable(t, arr, node, k, v) =>
      var b := Table(s.heap[t].meta, arr, node);
      StoreBackKeeps(s, t, b, k, v);
      ValueBarrierBack(ValueBarrierBack(SetBody(s, t, b), t, k), t, v)
    case SetMeta(t, mt) =>
      var b := s.heap[t].(meta := mt);
      MetaKeeps(s, t, mt);
      ValueBarrierBack(SetBody(s, t, b), t, OptionValue(mt))
    case Store(o, b, v) =>
      StoreAlive(s, o, b);
      StoreForwardKeeps(s, o, b, v);
      ValueBarrier(SetBody(s, o, b), o, v)
    case StoreOpen(u, v) =>
      SlotStoreKeeps(s, u, v);
      var Open(th, level) := s.heap[u].loc;
      SetBody(s, th, WithSlot(s.heap[th], level, v))
    case SetUpval(f, u, v) =>
      SetUpvalueExact(s, f, u, v);
      SetUpvalue(s, f, u, v)
    case SetBasicMeta(i, mt) => s.(mt := s.mt[i := mt])
    case Find(th, level, r) => FindUpval(s, th, level, r).0
    case Close(th, level) => CloseUpvals(s, th, level)
    case Resume(th) => s.(running := th)
  }

  lemma MainLinked(s: State)
    requires Static(s)
    ensures s.mainthread in s.rootgc && 0 < |s.strt|
  {
  }

  lemma MetaKeeps(s: State, t: Ref, mt: Option<Ref>)
    requires Inv(s) && Alive(s, t) && s.heap[t].Table? && AllAlive(s, OptionRefs(mt))
    ensures var u := SetBody(s, t, s.heap[t].(meta := mt)); var v := OptionValue(mt);
            && t in u.color && ValueRefs(v) <= u.color.Keys
            && Inv(ValueBarrierBack(u, t, v)) && ValueBarrierBack(u, t, v).heap == u.heap
  {
    hide Static, PhaseOk, GoodStore, Holds;
    var b := s.heap[t].(meta := mt);
    var v := OptionValue(mt);
    MetaGood(s, t, mt);
    assert ValueRefs(v) == {} + ValueRefs(v) == OptionRefs(mt);
    StoreOk(s, t, b, ValueRefs(v));
    StoredBack(SetBody(s, t, b), t, v, {});
    StoredDone(ValueBarrierBack(SetBody(s, t, b), t, v), t);
  }

  // ---------------------------------------------------------------- each step keeps the invariant

  lemma NewUdataKeeps(s: State, r: Ref, env: Ref)
    requires Inv(s) && r !in s.heap && Alive(s, env)
    ensures s.mainthread in s.rootgc && Inv(NewUdata(s, r, env))
  {
    hide Static, PhaseOk;
    MainLinked(s);
    LinkKeeps(s, IndexOf(s.rootgc, s.mainthread) + 1, r, Udata(None, env));
  }

  lemma FixKeeps(s: State, r: Ref)
    requires Inv(s) && Alive(s, r) && s.heap[r].Str?
    ensures Inv(s.(fixed := s.fixed + {r}))
  {
    hide LiveClosed, RootListOk, StringsOk, UpvalsOk;
    var t := s.(fixed := s.fixed + {r});
    SameLists(s, t);
    SameLive(s, t);
    RootsOnly(s, t);
  }

  /** The phase invariants do not look at the roots that the atomic step marks again, nor at the fixed set. */
  lemma RootsOnly(s: State, t: State)
    requires PhaseOk(s, {}) && t == s.(fixed := t.fixed, mt := t.mt, running := t.running)
    ensures PhaseOk(t, {})
  {
    if s.gcstate == Propagate {
      forall r | r in t.color ensures BlackOk(t, r, {}) && GrayOk(t, r, {}, false) {
        assert BlackOk(s, r, {}) && GrayOk(s, r, {}, false);
      }
    } else if s.gcstate == Sweep {
      forall i | 0 <= i < t.sweepgc && i < |t.rootgc| ensures Swept(t, t.rootgc[i]) {
        assert Swept(s, s.rootgc[i]);
      }
    }
  }

  lemma NewRootsKeep(s: State, t: State)
    requires Inv(s) && t == s.(mt := t.mt, running := t.running)
    requires AllAlive(s, Roots(t)) && t.running in t.heap && t.heap[t.running].Thread?
    ensures Inv(t)
  {
    hide RootListOk, StringsOk, UpvalsOk, PhaseOk;
    SameLists(s, t);
    RootsOnly(s, t);
    assert forall r :: Alive(s, r) <==> Alive(t, r);
  }

  lemma BasicMetaRoots(s: State, i: nat, mt: Option<Ref>)
    requires Inv(s) && i < |s.mt| && AllAlive(s, OptionRefs(mt))
    ensures AllAlive(s, Roots(s.(mt := s.mt[i := mt])))
  {
    hide PhaseOk, RootListOk, StringsOk, UpvalsOk;
    var t := s.(mt := s.mt[i := mt]);
    forall r | r in OptionsRefs(t.mt) ensures Alive(s, r) {
      var k :| 0 <= k < |t.mt| && t.mt[k] == Some(r);
      if k != i {
        assert s.mt[k] in s.mt;
        assert r in Roots(s);
      }
    }
  }

  lemma CloseFreesGarbage(s: State, th: Ref, level: nat)
    requires Inv(s) && th in s.heap && s.heap[th].Thread?
    ensures FreesGarbage(s, CloseUpvals(s, th, level))
  {
    hide Static, PhaseOk, CloseUpvals;
    CloseUpvalsCloses(s, th, level);
    ReachableIsAlive(s);
  }

  lemma FullGcFreesGarbage(s: State, shrink: bool)
    requires Inv(s)
    ensures FreesGarbage(s, FullGc(s, shrink))
  {
    hide Static, PhaseOk, FullGc;
    FullGcExact(s, shrink);
    FullGcAllocates(s, shrink);
  }

  lemma FullGcAllocates(s: State, shrink: bool)
    requires Inv(s)
    ensures FullGc(s, shrink).heap.Keys <= s.heap.Keys
  {
    hide PhaseOk, FullGc, LiveClosed, RootListOk, StringsOk, UpvalsOk;
    FullGcExact(s, shrink);
  }

  lemma FreesNone(s: State, t: State)
    requires s.heap.Keys <= t.heap.Keys
    ensures Frees(s, t)
  {
  }

  /** Whatever disappears in a step was out of the mutator's reach. */
  ghost predicate Frees(s: State, t: State) {
    forall r | r in s.heap && r !in t.heap :: !Reachable(s, r)
  }

  lemma GarbageIsFrees(s: State, t: State)
    requires FreesGarbage(s, t)
    ensures Frees(s, t)
  {
  }

  lemma MutatorKeeps(s: State, step: Step)
    requires Inv(s) && Enabled(s, step) && !step.Collect? && !step.FullCollect? && !step.Close?
    ensures Inv(Apply(s, step)) && s.heap.Keys <= Apply(s, step).heap.Keys
  {
    hide Static, PhaseOk, GoodStore, GoodObject, Holds, FindUpval, StringsOk, AllAlive, LinkAt, Intern, Roots;
    match step
    case New(r, b) =>
      LinkKeeps(s, 0, r, b);
      LinkedFields(s, 0, r, b);
    case NewUserdata(r, env) =>
      NewUdataKeeps(s, r, env);
      LinkedFields(s, IndexOf(s.rootgc, s.mainthread) + 1, r, Udata(None, env));
    case NewStr(r, bytes, grow) =>
      InternKeeps(s, r, bytes, grow);
      InternGrows(s, r, bytes, grow);
    case FixString(r) => FixKeeps(s, r);
    case StoreThread(th, gt, stack, top) =>
      StoreThreadKeeps(s, th, Thread(gt, stack, top, s.heap[th].openupval));
    case StoreTable(t, arr, node, k, v) => StoreBackKeeps(s, t, Table(s.heap[t].meta, arr, node), k, v);
      BackHeap(SetBody(s, t, Table(s.heap[t].meta, arr, node)), t, k, v);
    case SetMeta(t, mt) => MetaKeeps(s, t, mt);
    case Store(o, b, v) =>
      StoreAlive(s, o, b);
      StoreForwardKeeps(s, o, b, v);
      ForwardHeap(SetBody(s, o, b), o, v);
    case StoreOpen(u, v) =>
      SlotStoreKeeps(s, u, v);
    case SetUpval(f, u, v) =>
      SetUpvalueExact(s, f, u, v);
      SetUpvalueHeap(s, f, u, v);
    case SetBasicMeta(i, mt) =>
      BasicMetaRoots(s, i, mt);
      RunningIsThread(s);
      NewRootsKeep(s, s.(mt := s.mt[i := mt]));
    case Find(th, level, r) =>
      FindUpvalKeeps(s, th, level, r);
      FindGrows(s, th, level, r);
    case Resume(th) =>
      ResumeRoots(s, th);
      NewRootsKeep(s, s.(running := th));
    case _ =>
  }

  lemma RunningIsThread(s: State)
    requires Static(s)
    ensures s.running in s.heap && s.heap[s.running].Thread?
  {
  }

  lemma ResumeRoots(s: State, th: Ref)
    requires Inv(s) && Alive(s, th)
    ensures AllAlive(s, Roots(s.(running := th)))
  {
    hide PhaseOk, RootListOk, StringsOk, UpvalsOk;
  }

  lemma InternGrows(s: State, r: Ref, bytes: seq<bv8>, grow: bool)
    requires 0 < |s.strt|
    ensures s.heap.Keys <= Intern(s, r, bytes, grow).0.heap.Keys
  {
    hide FindString, Hash, RehashChains;
  }

  lemma FindGrows(s: State, th: Ref, level: nat, r: Ref)
    requires th in s.heap && s.heap[th].Thread?
    ensures s.heap.Keys <= FindUpval(s, th, level, r).0.heap.Keys
  {
  }

  lemma BackHeap(t: State, r: Ref, k: Value, v: Value)
    requires r in t.color && ValueRefs(k) <= t.color.Keys
    requires r in ValueBarrierBack(t, r, k).color && ValueRefs(v) <= ValueBarrierBack(t, r, k).color.Keys
    ensures ValueBarrierBack(ValueBarrierBack(t, r, k), r, v).heap == t.heap
  {
  }

  lemma ForwardHeap(t: State, r: Ref, v: Value)
    requires r in t.color && ValueRefs(v) <= t.color.Keys && (t.gcstate == Propagate ==> Ready(t))
    ensures ValueBarrier(t, r, v).heap == t.heap
  {
    hide HeapClosed;
  }

  lemma SetUpvalueHeap(s: State, f: Ref, u: Ref, v: Value)
    requires Inv(s) && Callable(s, f, u, v)
    ensures f in s.color && ValueRefs(v) <= s.color.Keys
    ensures s.heap[u].loc.Open? ==> HasSlot(s.heap, s.heap[u].loc.thread, s.heap[u].loc.level)
    ensures s.gcstate == Propagate ==> Ready(UpvalueStored(s, u, v))
    ensures SetUpvalue(s, f, u, v).heap == UpvalueStored(s, u, v).heap
  {
    hide Inv, HasSlot, HeapClosed, Missed;
    SetUpvalueExact(s, f, u, v);
    ForwardHeap(UpvalueStored(s, u, v), f, v);
  }

  /** Every step, of the collector or the mutator, in every phase: the invariant stays and only garbage goes. */
  lemma StepKeeps(s: State, step: Step)
    requires Inv(s) && Enabled(s, step)
    ensures Inv(Apply(s, step)) && Frees(s, Apply(s, step))
  {
    hide Static, PhaseOk, Frees, FreesGarbage, Enabled, FullGc, SingleStep;
    match step
    case Collect(shrink) =>
      SingleStepKeeps(s, shrink);
      GarbageIsFrees(s, SingleStep(s, shrink));
    case FullCollect(shrink) =>
      FullGcFreesGarbage(s, shrink);
      GarbageIsFrees(s, FullGc(s, shrink));
    case Close(th, level) =>
      assert th in s.heap && s.heap[th].Thread? by { CloseEnabled(s, th, level); }
      CloseFreesGarbage(s, th, level);
      GarbageIsFrees(s, CloseUpvals(s, th, level));
    case _ =>
      MutatorKeeps(s, step);
      FreesNone(s, Apply(s, step));
  }

  lemma CloseEnabled(s: State, th: Ref, level: nat)
    requires Enabled(s, Close(th, level))
    ensures th in s.heap && s.heap[th].Thread?
  {
  }

  // ---------------------------------------------------------------- runs

  /** lua_newstate: the main thread, its table of globals and the registry, all white. */
  function Initial(): State {
    State(
      map[0 := Thread(Gc(1), [Nil], 1, []), 1 := Table(None, [], []), 2 := Table(None, [], [])],
      map[0 := White(White0), 1 := White(White0), 2 := White(White0)], {0},
      White0, Pause, [], [], [2, 1, 0], 0, seq(32, _ => []), 0, [],
      0, 0, Gc(2), seq(9, _ => None))
  }

  lemma InitialInv()
    ensures Inv(Initial())
  {
    hide LiveClosed, RootListOk, StringsOk, UpvalsOk;
    InitialLive();
    InitialLists();
  }

  lemma InitialLive()
    ensures LiveClosed(Initial())
  {
    var s := Initial();
    assert Roots(s) == {0, 2};
    forall r | Alive(s, r) ensures AllAlive(s, Holds(s.heap, r)) && WellShaped(s.heap, r) {
      assert r == 0 || r == 1 || r == 2;
    }
  }

  lemma InitialLists()
    ensures RootListOk(Initial()) && StringsOk(Initial()) && UpvalsOk(Initial())
  {
    hide RootListOk, StringsOk, UpvalsOk;
    InitialRootList();
    InitialStrings();
    InitialUpvals();
  }

  lemma InitialRootList()
    ensures RootListOk(Initial())
  {
    var s := Initial();
    assert forall r | r in s.heap :: r == 0 || r == 1 || r == 2;
    assert s.rootgc[0] == 2 && s.rootgc[1] == 1 && s.rootgc[2] == 0;
  }

  lemma InitialStrings()
    ensures StringsOk(Initial())
  {
    hide Hash;
    var s := Initial();
    assert forall r | r in s.heap :: !s.heap[r].Str?;
  }

  lemma InitialUpvals()
    ensures UpvalsOk(Initial())
  {
    var s := Initial();
    assert forall r | r in s.heap :: !s.heap[r].UpVal?;
    assert OpenListOk(s.heap, 0);
  }

  /** A run: every step is enabled in the state it is taken in. */
  ghost predicate IsRun(states: seq<State>, steps: seq<Step>) {
    && |states| == |steps| + 1
    && states[0] == Initial()
    && forall i | 0 <= i < |steps| :: StepsTo(states[i], steps[i], states[i+1])
  }

  ghost predicate StepsTo(s: State, step: Step, t: State) {
    Inv(s) ==> Enabled(s, step) && t == Apply(s, step)
  }

  lemma {:induction false} RunInv(states: seq<State>, steps: seq<Step>, n: nat)
    requires IsRun(states, steps) && n < |states|
    ensures Inv(states[n])
  {
    hide Inv, Enabled, Apply;
    if n == 0 {
      InitialInv();
    } else {
      RunInv(states, steps, n-1);
      assert StepsTo(states[n-1], steps[n-1], states[n]);
      StepKeeps(states[n-1], steps[n-1]);
    }
  }

  /**
   * Safety over every run: at every point whatever is reachable is allocated and not condemned, and
   * an object that a step frees was not reachable when the step was taken.
   */
  lemma RunSafe(states: seq<State>, steps: seq<Step>, n: nat)
    requires IsRun(states, steps) && n < |states|
    ensures forall r :: Reachable(states[n], r) ==> Alive(states[n], r)
    ensures |states| == |steps| + 1
    ensures n < |steps| ==>
              forall r | r in states[n].heap && Reachable(states[n], r) :: r in states[n+1].heap
  {
    hide Static, PhaseOk, Enabled, Apply, IsRun;
    RunInv(states, steps, n);
    assert |states| == |steps| + 1 by { RunLength(states, steps); }
    ReachableIsAlive(states[n]);
    if n < |steps| {
      RunStep(states, steps, n);
      StepKeeps(states[n], steps[n]);
    }
  }

  lemma RunLength(states: seq<State>, steps: seq<Step>)
    requires IsRun(states, steps)
    ensures |states| == |steps| + 1
  {
  }

  lemma RunStep(states: seq<State>, steps: seq<Step>, n: nat)
    requires IsRun(states, steps) && n < |steps|
    ensures |states| == |steps| + 1
    ensures StepsTo(states[n], steps[n], states[n+1])
  {
  }
}
