/** singlestep: the collector as a step machine, and what every step of it keeps. */
module GcCollector {
  import opened GcHeap
  import opened GcMark
  import opened GcTricolor
  import opened GcPropagate
  import opened GcAtomic
  import opened GcInvariant
  import opened GcBarrier
  import opened GcAlloc
  import opened GcSweep
  import opened Wrappers

  // ---------------------------------------------------------------- the mark phase

  lemma PropagateIsMarking(s: State)
    requires Inv(s) && s.gcstate == Propagate
    ensures Marking(s, false) && UvheadOk(s) && RootsAllocated(s) && NothingDead(s)
  {
    hide LiveClosed, RootListOk, StringsOk, Tricolor, UpvalsOk;
    NothingDeadIsClosed(s);
    UpvalsBelowTop(s);
    LiveRoots(s);
    OpenIsUvhead(s);
  }

  lemma OpenIsUvhead(s: State)
    requires UpvalsOk(s)
    ensures UvheadOk(s)
  {
  }

  lemma LiveRoots(s: State)
    requires LiveClosed(s)
    ensures RootsAllocated(s)
  {
  }

  /** The mark phase changes nothing the structural invariants look at. */
  lemma MarkPhaseLists(s: State, t: State)
    requires RootListOk(s) && StringsOk(s) && FixedOk(s) && MarkPhase(s, t)
    ensures RootListOk(t) && StringsOk(t) && FixedOk(t)
  {
    hide NoDup, Hash;
    forall r | r in s.heap ensures OnRootList(t.heap[r]) == OnRootList(s.heap[r])
      ensures s.heap[r].Str? || t.heap[r].Str? ==> t.heap[r] == s.heap[r]
      ensures s.heap[r].Thread? == t.heap[r].Thread?
    {
      assert Scrubbed(s.heap[r], t.heap[r]);
    }
  }

  lemma MarkPhaseUpvals(s: State, t: State)
    requires UpvalsOk(s) && MarkPhase(s, t)
    ensures UpvalsOk(t)
  {
    forall r | r in s.heap
      ensures s.heap[r].UpVal? || t.heap[r].UpVal? ==> t.heap[r] == s.heap[r]
      ensures s.heap[r].Thread? == t.heap[r].Thread?
      ensures s.heap[r].Thread? ==> t.heap[r].openupval == s.heap[r].openupval && t.heap[r].top == s.heap[r].top
                                    && |t.heap[r].stack| == |s.heap[r].stack|
    {
      assert Scrubbed(s.heap[r], t.heap[r]);
    }
    forall th | th in t.heap && t.heap[th].Thread? ensures OpenListOk(t.heap, th) {
      assert OpenListOk(s.heap, th);
    }
  }

  lemma MarkPhaseDead(s: State, t: State)
    requires MarkPhase(s, t) && NothingDead(s)
    ensures NothingDead(t)
  {
  }

  lemma ReadyIsLive(s: State)
    requires Ready(s) && NothingDead(s) && RootsAllocated(s)
    ensures LiveClosed(s)
  {
  }

  lemma RunningThread(s: State, t: State)
    requires Static(s) && MarkPhase(s, t)
    ensures t.running in t.heap && t.heap[t.running].Thread?
  {
    assert Scrubbed(s.heap[s.running], t.heap[s.running]);
  }

  lemma MarkPhaseStatic(s: State, t: State)
    requires Static(s) && NothingDead(s) && MarkPhase(s, t) && Marking(t, false)
    ensures Static(t) && NothingDead(t)
  {
    hide LiveClosed, RootListOk, StringsOk, UpvalsOk, OpenNeverBlack, FixedOk, MarkPhase, Tricolor, HeapClosed, SlotsBelowTop;
    LiveRoots(s);
    MarkPhaseRoots(s, t);
    MarkPhaseLists(s, t);
    MarkPhaseUpvals(s, t);
    MarkPhaseDead(s, t);
    ReadyIsLive(t);
    TricolorOpen(t, {});
    RunningThread(s, t);
  }

  lemma PropagateStepKeeps(s: State)
    requires Inv(s) && s.gcstate == Propagate && s.gray != []
    ensures Marking(s, false)
    ensures s.gray[0] in s.heap && s.gray[0] in s.color && Traversable(s.heap[s.gray[0]])
    ensures Inv(PropagateMark(s)) && MarkPhase(s, PropagateMark(s))
  {
    hide Marking, MarkPhase, Static, Tricolor, PropagateMark, AllMarked, NothingDead, Traversed, TakeGray, Unsettled,
         HeapClosed, SlotsBelowTop;
    PropagateIsMarking(s);
    MarkingReady(s);
    PropagateMarkSafe(s);
    PropagateMarkIsMarkPhase(s);
    var t := PropagateMark(s);
    MarkPhaseStatic(s, t);
    AllMarkedStays(s, t, {s.mainthread} + ValueRefs(s.registry));
    MarkingTricolor(t);
    SamePhase(s, t);
  }

  lemma MarkingTricolor(s: State)
    requires Marking(s, false)
    ensures Tricolor(s, {}, false)
  {
  }

  lemma SamePhase(s: State, t: State)
    requires MarkPhase(s, t)
    ensures t.gcstate == s.gcstate && t.mainthread == s.mainthread && t.registry == s.registry
    ensures t.heap.Keys == s.heap.Keys && t.currentwhite == s.currentwhite && t.fixed == s.fixed && Roots(t) == Roots(s)
  {
  }

  // ---------------------------------------------------------------- atomic

  /** When the whites are exchanged, exactly the marked objects are alive. */
  lemma FlipLive(m: State, t: State)
    requires Marking(m, true) && m.gray == [] && AgainDone(m) && NothingDead(m) && RootsAllocated(m)
    requires AllMarked(m.color, Roots(m))
    requires t == m.(currentwhite := Other(m.currentwhite), sweepstrgc := 0, sweepgc := 0, gcstate := SweepString)
    ensures LiveClosed(t)
    ensures forall r | r in m.heap :: Alive(t, r) <==> !m.color[r].White?
  {
    hide Tricolor, AgainDone, Holds, WellShaped;
    MarkedIsClosed(m);
    forall r | r in m.heap ensures Alive(t, r) <==> !m.color[r].White? {
      assert !IsDead(m, r);
    }
    forall r | Alive(t, r) ensures AllAlive(t, Holds(t.heap, r)) && WellShaped(t.heap, r) {
      assert AllMarked(m.color, Holds(m.heap, r));
    }
  }

  lemma AllMarkedUnion(c: Colors, a: set<Ref>, b: set<Ref>)
    requires AllMarked(c, a) && AllMarked(c, b)
    ensures AllMarked(c, a + b)
  {
  }

  lemma FlipLists(m: State, t: State)
    requires Static(m)
    requires t == m.(currentwhite := Other(m.currentwhite), sweepstrgc := 0, sweepgc := 0, gcstate := SweepString)
    ensures RootListOk(t) && StringsOk(t) && UpvalsOk(t) && OpenNeverBlack(t) && FixedOk(t) && PhaseOk(t, {})
  {
    hide OpenListOk, LiveClosed, RootListOk, StringsOk, UpvalsOk;
    SameLists(m, t.(sweepgc := m.sweepgc));
    SweepFromStart(t.(sweepgc := m.sweepgc), t);
    StringsHaveBuckets(m);
  }

  lemma SweepFromStart(m: State, t: State)
    requires RootListOk(m) && StringsOk(m) && UpvalsOk(m) && t == m.(sweepgc := 0)
    ensures RootListOk(t) && StringsOk(t) && UpvalsOk(t)
  {
    hide OpenListOk;
  }

  lemma AtomicKeeps(s: State, keep: set<Ref>)
    requires Inv(s) && s.gcstate == Propagate
    requires Within(s, keep) && Roots(s) <= keep
    ensures Marking(s, false) && UvheadOk(s) && RootsAllocated(s)
    ensures Inv(Atomic(s)) && MarkPhase(s, AtomicMark(s))
    ensures forall r | r in s.heap && r !in keep :: IsDead(Atomic(s), r)
  {
    hide Marking, MarkPhase, Static, UvheadOk, RootsAllocated, Roots, Within;
    PropagateIsMarking(s);
    AtomicMarkKeeps(s, keep);
    var m := AtomicMark(s);
    MarkPhaseStatic(s, m);
    SamePhase(s, m);
    MarkPhaseRoots(s, m);
    AllMarkedStays(s, m, {s.mainthread} + ValueRefs(s.registry));
    AllMarkedUnion(m.color, {s.mainthread} + ValueRefs(s.registry), {s.running} + OptionsRefs(s.mt));
    assert Roots(m) == ({s.mainthread} + ValueRefs(s.registry)) + ({s.running} + OptionsRefs(s.mt)) by { RootsSplit(m); RootsSplit(s); }
    FlipLive(m, Atomic(s));
    FlipLists(m, Atomic(s));
    FlipThreads(m, Atomic(s));
    UnkeptDead(s, m, Atomic(s), keep);
  }

  lemma RootsSplit(s: State)
    ensures Roots(s) == ({s.mainthread} + ValueRefs(s.registry)) + ({s.running} + OptionsRefs(s.mt))
  {
  }

  lemma FlipThreads(m: State, t: State)
    requires Static(m) && LiveClosed(t) && RootListOk(t) && StringsOk(t) && UpvalsOk(t) && OpenNeverBlack(t) && FixedOk(t)
    requires t.heap == m.heap && t.color == m.color && t.running == m.running
    ensures Static(t)
  {
  }

  lemma UnkeptDead(s: State, m: State, t: State, keep: set<Ref>)
    requires m.heap.Keys == s.heap.Keys && m.color.Keys == m.heap.Keys && NothingDead(m) && Within(m, keep)
    requires t.color == m.color && t.currentwhite == Other(m.currentwhite)
    ensures forall r | r in s.heap && r !in keep :: IsDead(t, r)
  {
    forall r | r in s.heap && r !in keep ensures IsDead(t, r) {
      assert !IsDead(m, r);
    }
  }

  // ---------------------------------------------------------------- the start of a cycle

  lemma AllCurrentNothingDead(s: State)
    requires Inv(s) && (s.gcstate == Pause || s.gcstate == Finalize)
    ensures NothingDead(s) && forall r | r in s.color :: s.color[r].White?
  {
  }

  /** With everything white and nothing listed, the tri-colour invariant holds trivially. */
  lemma FreshTricolor(s: State)
    requires s.color.Keys == s.heap.Keys && forall r | r in s.color :: s.color[r].White?
    ensures Tricolor(s.(gray := [], grayagain := []), {}, false)
  {
  }

  lemma MarkRootsKeep(s: State, keep: set<Ref>)
    requires Ready(s) && RootsAllocated(s) && s.heap[s.mainthread].Thread?
    requires Tricolor(s, {}, false) && ClosedUnderChildren(s.heap, keep) && OnlyMarked(s.color, keep) && Roots(s) <= keep
    requires ValueRefs(s.heap[s.mainthread].gt) <= keep
    ensures Tricolor(MarkRoots(s), {}, false) && OnlyMarked(MarkRoots(s).color, keep)
    ensures AllMarked(MarkRoots(s).color, {s.mainthread} + ValueRefs(s.registry))
  {
    hide Tricolor, HeapClosed, ClosedUnderChildren;
    var gt := s.heap[s.mainthread].gt;
    assert ValueRefs(gt) <= s.heap.Keys by { StackHeld(s.heap, s.mainthread); }
    assert OptionsRefs(s.mt) <= Roots(s);
    MarkKeeps(s, s.mainthread, {}, false, keep);
    var s1 := Mark(s, s.mainthread);
    MarkValueKeeps(s1, gt, {}, false, keep);
    var s2 := MarkValue(s1, gt);
    MarkValueKeeps(s2, s.registry, {}, false, keep);
    var s3 := MarkValue(s2, s.registry);
    MarkOptionsKeep(s3, s.mt, |s.mt|, {}, false, keep);
  }

  lemma GlobalsKept(s: State, keep: set<Ref>)
    requires s.mainthread in s.heap && s.heap[s.mainthread].Thread?
    requires ClosedUnderChildren(s.heap, keep) && Roots(s) <= keep
    ensures ValueRefs(s.heap[s.mainthread].gt) <= keep
  {
    assert ValueRefs(s.heap[s.mainthread].gt) <= Children(s.heap, s.mainthread);
  }

  lemma StartKeeps(s: State, keep: set<Ref>)
    requires Inv(s) && (s.gcstate == Pause || s.gcstate == Finalize)
    requires ClosedUnderChildren(s.heap, keep) && Roots(s) <= keep
    ensures Ready(s) && RootsAllocated(s) && s.heap[s.mainthread].Thread?
    ensures Inv(MarkRoot(s)) && MarkRoot(s).heap == s.heap && MarkRoot(s).gcstate == Propagate
    ensures OnlyMarked(MarkRoot(s).color, keep) && Roots(MarkRoot(s)) == Roots(s)
    ensures MarkRoot(s).fixed == s.fixed
  {
    hide Static, Tricolor, HeapClosed, ClosedUnderChildren, MarkRoots, Roots;
    AllCurrentNothingDead(s);
    NothingDeadIsClosed(s);
    StaticThreads(s);
    StaticLive(s);
    LiveRoots(s);
    FreshTricolor(s);
    var f := s.(gray := [], grayagain := []);
    SameRoots(s, f);
    GlobalsKept(s, keep);
    MarkRootsKeep(f, keep);
    var m := MarkRoots(f);
    StaticSameFields(s, f);
    TricolorOpen(m, {});
    assert NothingDead(f);
    MarkSameAlive(f, m);
    var t := MarkRoot(s);
    StaticSamePhase(m, t);
    SamePhaseTricolor(m, t);
    SameRoots(s, t);
  }

  lemma StaticThreads(s: State)
    requires Static(s)
    ensures s.mainthread in s.heap && s.heap[s.mainthread].Thread?
  {
  }

  lemma SameRoots(s: State, t: State)
    requires t.mainthread == s.mainthread && t.running == s.running && t.registry == s.registry && t.mt == s.mt
    ensures Roots(t) == Roots(s)
  {
  }

  lemma StaticSameFields(s: State, t: State)
    requires Static(s) && t == s.(gray := t.gray, grayagain := t.grayagain)
    ensures Static(t)
  {
    hide UpvalsOk, StringsOk, RootListOk, LiveClosed;
    SameLists(s, t);
    SameLive(s, t);
  }

  lemma StaticSamePhase(s: State, t: State)
    requires Static(s) && t == s.(gcstate := t.gcstate)
    ensures Static(t)
  {
    hide UpvalsOk, StringsOk, RootListOk, LiveClosed;
    SameLists(s, t);
    SameLive(s, t);
  }

  lemma SamePhaseTricolor(s: State, t: State)
    requires Tricolor(s, {}, false) && t == s.(gcstate := t.gcstate)
    ensures Tricolor(t, {}, false)
  {
    forall r | r in t.color ensures BlackOk(t, r, {}) && GrayOk(t, r, {}, false) {
      assert BlackOk(s, r, {}) && GrayOk(s, r, {}, false);
    }
  }

  // ---------------------------------------------------------------- the sweep phases

  /** One bucket; after the last one the sweep of `rootgc` begins. */
  function SweepStringStep(s: State): State
    requires s.sweepstrgc < |s.strt|
  {
    var t := SweepBucket(s, s.sweepstrgc, 0);
    t.(sweepstrgc := s.sweepstrgc + 1, gcstate := if s.sweepstrgc + 1 >= |t.strt| then Sweep else SweepString)
  }

  lemma NextBucketPhase(s: State, t: State)
    requires PhaseOk(s, {}) && s.gcstate == SweepString && AllCurrent(s, s.strt[s.sweepstrgc])
    requires StringsOk(s)
    requires t == s.(sweepstrgc := s.sweepstrgc + 1, gcstate := if s.sweepstrgc + 1 >= |s.strt| then Sweep else SweepString)
    ensures PhaseOk(t, {})
  {
    if t.gcstate == Sweep {
      forall r | r in t.heap && t.heap[r].Str? ensures IsCurrent(t, r) {
        var i := s.heap[r].hash % |s.strt|;
        assert r in s.strt[i] && AllCurrent(s, s.strt[i]);
      }
    }
  }

  lemma SweepStringStepKeeps(s: State)
    requires Inv(s) && s.gcstate == SweepString
    ensures Inv(SweepStringStep(s)) && SweepFrees(s, SweepStringStep(s))
  {
    hide Static, AllCurrent, SweepBucket;
    assert AllCurrent(s, s.strt[s.sweepstrgc][..0]) by { NoneCurrent(s); }
    SweepBucketKeeps(s, s.sweepstrgc, 0);
    var m := SweepBucket(s, s.sweepstrgc, 0);
    var t := SweepStringStep(s);
    StaticUpvals(m);
    NextBucketPhase(m, t);
    BucketStatic(m, t);
    SameRoots(s, t);
  }

  lemma NoneCurrent(s: State)
    ensures AllCurrent(s, [])
  {
  }

  lemma BucketStatic(s: State, t: State)
    requires Static(s) && t == s.(gcstate := t.gcstate, sweepstrgc := t.sweepstrgc)
    ensures Static(t)
  {
    hide UpvalsOk, StringsOk, RootListOk, LiveClosed;
    SameLists(s, t);
    SameLive(s, t);
  }

  const GCSWEEPMAX: nat := 40

  /** Up to GCSWEEPMAX objects; at the end of the list, checkSizes may shrink the string table. */
  function SweepRootStep(s: State, shrink: bool): State
    requires Inv(s) && s.gcstate == Sweep
  {
    var t := SweepRoot(s, GCSWEEPMAX);
    if t.sweepgc == |t.rootgc| then
      (if shrink && 2 <= |t.strt| then ResizeStrings(t, |t.strt| / 2) else t).(gcstate := Finalize)
    else t
  }

  /** When the whole list is swept, every object has the current white. */
  lemma SweptAll(s: State)
    requires Inv(s) && s.gcstate == Sweep && s.sweepgc == |s.rootgc|
    ensures forall r | r in s.color :: IsCurrent(s, r)
  {
    hide LiveClosed, StringsOk, FixedOk, NoDup;
    forall r | r in s.color ensures IsCurrent(s, r) {
      if IsOpenUpval(s.heap, r) {
        var th := s.heap[r].loc.thread;
        var i := IndexOf(s.rootgc, th);
        assert Swept(s, s.rootgc[i]);
      } else if !s.heap[r].Str? {
        var i := IndexOf(s.rootgc, r);
        assert Swept(s, s.rootgc[i]);
      }
    }
  }

  lemma SweepRootStepKeeps(s: State, shrink: bool)
    requires Inv(s) && s.gcstate == Sweep
    ensures Inv(SweepRootStep(s, shrink)) && SweepFrees(s, SweepRootStep(s, shrink))
  {
    hide Static, SweepRoot, ResizeStrings, SameChildren, Roots, SweepFrees;
    var t := SweepRoot(s, GCSWEEPMAX);
    if t.sweepgc == |t.rootgc| {
      var m := if shrink && 2 <= |t.strt| then ResizeStrings(t, |t.strt| / 2) else t;
      if shrink && 2 <= |t.strt| {
        ResizeKeeps(t, |t.strt| / 2);
      }
      ResizeFields(t, |t.strt| / 2);
      SweptAll(t);
      StaticSamePhase(m, m.(gcstate := Finalize));
      SweepFreesOnly(s, t, m.(gcstate := Finalize));
    }
  }

  lemma SweepFreesOnly(s: State, t: State, u: State)
    requires SweepFrees(s, t) && u == t.(strt := u.strt, gcstate := u.gcstate)
    ensures SweepFrees(s, u)
  {
    hide SameChildren;
    SameRoots(t, u);
  }

  lemma ResizeFields(s: State, size: nat)
    ensures 0 < size ==> var t := ResizeStrings(s, size); t == s.(strt := t.strt)
  {
  }

  // ---------------------------------------------------------------- singlestep

  /** One step of the collector; `shrink` says whether checkSizes finds the string table too big. */
  function SingleStep(s: State, shrink: bool): State
    requires Inv(s)
  {
    match s.gcstate
    case Pause =>
      StartReady(s);
      MarkRoot(s)
    case Propagate =>
      PropagateIsMarking(s);
      if s.gray != [] then
        PropagateStepKeeps(s);
        PropagateMark(s)
      else Atomic(s)
    case SweepString => SweepStringStep(s)
    case Sweep => SweepRootStep(s, shrink)
    case Finalize => s.(gcstate := Pause)
  }

  lemma StartReady(s: State)
    requires Inv(s) && (s.gcstate == Pause || s.gcstate == Finalize)
    ensures Ready(s) && RootsAllocated(s) && s.heap[s.mainthread].Thread?
  {
    hide Static, PhaseOk;
    AllCurrentNothingDead(s);
    NothingDeadIsClosed(s);
    StaticThreads(s);
    StaticLive(s);
    LiveRoots(s);
  }

  lemma AllKept(s: State)
    requires Ready(s) && RootsAllocated(s)
    ensures Within(s, s.heap.Keys) && Roots(s) <= s.heap.Keys
  {
    AllocatedIsClosed(s.heap);
    OnlyAllocated(s);
  }

  /** Nothing freed by a collector step was reachable. */
  ghost predicate FreesGarbage(s: State, t: State) {
    && t.heap.Keys <= s.heap.Keys
    && forall r | r in s.heap && r !in t.heap :: !Reachable(s, r)
  }

  lemma FreesNothing(s: State, t: State)
    requires t.heap.Keys == s.heap.Keys
    ensures FreesGarbage(s, t)
  {
  }

  lemma SweptWasGarbage(s: State, t: State)
    requires Inv(s) && SweepFrees(s, t)
    ensures FreesGarbage(s, t)
  {
    hide Static, PhaseOk;
    ReachableIsAlive(s);
  }

  /**
   * The main invariant of the collector: every step keeps it, in every phase, and frees only objects
   * that the mutator cannot reach.
   */
  lemma SingleStepKeeps(s: State, shrink: bool)
    requires Inv(s)
    ensures Inv(SingleStep(s, shrink)) && FreesGarbage(s, SingleStep(s, shrink))
  {
    hide Static, PhaseOk, FreesGarbage, SweepFrees, MarkPhase, Marking, Ready, RootsAllocated, UvheadOk, Within;
    match s.gcstate
    case Pause =>
      StartReady(s);
      AllKept(s);
      ReadyClosed(s);
      StartKeeps(s, s.heap.Keys);
      FreesNothing(s, MarkRoot(s));
    case Propagate =>
      PropagateCase(s);
    case SweepString =>
      BucketLeft(s);
      SweepStringStepKeeps(s);
      SweptWasGarbage(s, SweepStringStep(s));
    case Sweep =>
      SweepRootStepKeeps(s, shrink);
      SweptWasGarbage(s, SweepRootStep(s, shrink));
    case Finalize =>
      EndCycle(s);
      FreesNothing(s, s.(gcstate := Pause));
  }

  lemma PropagateCase(s: State)
    requires Inv(s) && s.gcstate == Propagate
    ensures Inv(SingleStep(s, false)) && FreesGarbage(s, SingleStep(s, false))
  {
    hide Static, PhaseOk, FreesGarbage, MarkPhase, Marking, RootsAllocated, UvheadOk, Within, PropagateMark;
    PropagateIsMarking(s);
    MarkingReady(s);
    if s.gray != [] {
      PropagateStepKeeps(s);
      SamePhase(s, PropagateMark(s));
      FreesNothing(s, PropagateMark(s));
    } else {
      AllKept(s);
      AtomicKeeps(s, s.heap.Keys);
      SamePhase(s, AtomicMark(s));
      FreesNothing(s, Atomic(s));
    }
  }

  lemma BucketLeft(s: State)
    requires PhaseOk(s, {}) && s.gcstate == SweepString
    ensures s.sweepstrgc < |s.strt|
  {
  }

  lemma ReadyClosed(s: State)
    requires Ready(s)
    ensures ClosedUnderChildren(s.heap, s.heap.Keys)
  {
    AllocatedIsClosed(s.heap);
  }

  lemma EndCycle(s: State)
    requires Inv(s) && s.gcstate == Finalize
    ensures Inv(s.(gcstate := Pause))
  {
    hide Static;
    StaticSamePhase(s, s.(gcstate := Pause));
  }
}
