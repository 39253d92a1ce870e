/** luaC_fullgc: it terminates from every phase and leaves exactly the reachable and the fixed objects. */
module GcFull {
  import opened GcHeap
  import opened GcMark
  import opened GcTricolor
  import opened GcPropagate
  import opened GcAtomic
  import opened GcInvariant
  import opened GcBarrier
  import opened GcAlloc
  import opened GcSweep
  import opened GcCollector

  /** Before or while marking: forget the marks and sweep everything back to white. */
  function Reset(s: State): State {
    s.(sweepstrgc := 0, sweepgc := 0, gray := [], grayagain := [], gcstate := SweepString)
  }

  lemma ResetKeeps(s: State)
    requires Inv(s) && (s.gcstate == Pause || s.gcstate == Propagate)
    ensures Inv(Reset(s)) && forall r :: !IsDead(Reset(s), r)
  {
    hide LiveClosed, RootListOk, StringsOk, UpvalsOk, Tricolor;
    var t := Reset(s);
    SameLive(s, t);
    SameLists(s, t.(sweepgc := s.sweepgc));
    SweepFromStart(t.(sweepgc := s.sweepgc), t);
    StringsHaveBuckets(s);
  }

  function Rank(p: Phase): nat {
    match p
    case Propagate => 4
    case SweepString => 3
    case Sweep => 2
    case Finalize => 1
    case Pause => 0
  }

  /** The work left within a phase. */
  ghost function Work(s: State): int {
    match s.gcstate
    case SweepString => |s.strt| - s.sweepstrgc
    case Sweep => SweepWork(s)
    case _ => 0
  }

  ghost function MarkWork(s: State): set<Ref> {
    if s.gcstate == Propagate then Unsettled(s) else {}
  }

  /** A step moves on to the next phase or does some of the work of the present one. */
  ghost predicate Progress(s: State, t: State) {
    && Rank(t.gcstate) <= Rank(s.gcstate)
    && Rank(s.gcstate) <= Rank(t.gcstate) + 1
    && (t.gcstate == s.gcstate ==> MarkWork(t) < MarkWork(s) || (MarkWork(t) == MarkWork(s) && Work(t) < Work(s)))
  }

  lemma SweepRootProgress(s: State, shrink: bool)
    requires Inv(s) && s.gcstate == Sweep
    ensures Progress(s, SweepRootStep(s, shrink))
  {
    hide Static, PhaseOk, SweepRoot, ResizeStrings;
    SweepBounded(s);
    var m := SweepRoot(s, GCSWEEPMAX);
    ResizeFields(m, |m.strt| / 2);
  }

  lemma PropagateProgress(s: State)
    requires Inv(s) && s.gcstate == Propagate
    ensures Progress(s, SingleStep(s, false))
  {
    hide Static, PhaseOk, PropagateMark, AtomicMark, Unsettled, Marking, MarkPhase, HeapClosed, SlotsBelowTop, Traversed;
    PropagateIsMarking(s);
    MarkingReady(s);
    if s.gray != [] {
      PropagateMarkSafe(s);
      PropagateMarkIsMarkPhase(s);
      SamePhase(s, PropagateMark(s));
    }
  }

  lemma SweepStringProgress(s: State)
    requires Inv(s) && s.gcstate == SweepString
    ensures Progress(s, SingleStep(s, false))
  {
    hide Static, SweepBucket;
  }

  lemma SingleStepProgress(s: State, shrink: bool)
    requires Inv(s) && s.gcstate != Pause
    ensures Progress(s, SingleStep(s, shrink))
  {
    hide Static, PhaseOk, PropagateMark, AtomicMark, Progress, SweepRootStep, SweepStringStep;
    match s.gcstate
    case Propagate => PropagateProgress(s);
    case SweepString => SweepStringProgress(s);
    case Sweep => SweepRootProgress(s, shrink);
    case Finalize => FinalizeProgress(s);
  }

  lemma FinalizeProgress(s: State)
    requires s.gcstate == Finalize
    ensures Progress(s, s.(gcstate := Pause))
  {
  }

  lemma WorkIsNat(s: State)
    requires Inv(s)
    ensures 0 <= Work(s)
  {
    hide LiveClosed, StringsOk, UpvalsOk;
  }

  /** `while (g->gcstate != stop) singlestep(L)`. */
  function Until(s: State, stop: Phase, shrink: bool): (t: State)
    requires Inv(s) && (stop == Finalize || stop == Pause) && Rank(stop) <= Rank(s.gcstate)
    ensures Inv(t) && t.gcstate == stop
    decreases Rank(s.gcstate), MarkWork(s), Work(s)
  {
    hide Static, PhaseOk, FreesGarbage, SingleStep;
    if s.gcstate == stop then s
    else
      WorkIsNat(s);
      SingleStepKeeps(s, shrink);
      SingleStepProgress(s, shrink);
      WorkIsNat(SingleStep(s, shrink));
      Until(SingleStep(s, shrink), stop, shrink)
  }

  /** luaC_fullgc. */
  function FullGc(s: State, shrink: bool): (t: State)
    requires Inv(s)
    ensures Inv(t) && t.gcstate == Pause
  {
    hide Static, PhaseOk, Until;
    var s0 := if s.gcstate == Pause || s.gcstate == Propagate then Reset(s) else s;
    ResetPhase(s);
    var s1 := Until(s0, Finalize, shrink);
    StartSafe(s1);
    Until(MarkRoot(s1), Pause, shrink)
  }

  lemma ResetPhase(s: State)
    requires Inv(s)
    ensures var t := if s.gcstate == Pause || s.gcstate == Propagate then Reset(s) else s;
            Inv(t) && Rank(Finalize) <= Rank(t.gcstate) <= Rank(SweepString)
  {
    hide Static, PhaseOk;
    if s.gcstate == Pause || s.gcstate == Propagate {
      ResetKeeps(s);
    }
  }

  lemma StartSafe(s: State)
    requires Inv(s) && s.gcstate == Finalize
    ensures Ready(s) && RootsAllocated(s) && s.heap[s.mainthread].Thread?
    ensures Inv(MarkRoot(s)) && MarkRoot(s).gcstate == Propagate
  {
    hide Static, PhaseOk, MarkRoot, HeapClosed;
    StartReady(s);
    AllKept(s);
    ReadyClosed(s);
    StartKeeps(s, s.heap.Keys);
  }

  // ---------------------------------------------------------------- what a sweep leaves

  /** From the exchange of the whites to the pause: the condemned objects go and nothing else. */
  lemma {:induction false} SweepLeaves(s: State, stop: Phase, shrink: bool)
    requires Inv(s) && (stop == Finalize || stop == Pause) && Rank(stop) <= Rank(s.gcstate) <= Rank(SweepString)
    ensures var t := Until(s, stop, shrink);
            && SweepFrees(s, t)
            && forall r | r in s.heap :: r in t.heap <==> !Condemned(s, r)
    decreases Rank(s.gcstate), Work(s)
  {
    hide Static, SingleStep, FreesGarbage, SweepFrees;
    if s.gcstate == stop {
      SweepFreesNothing(s);
      NoneCondemned(s);
    } else {
      WorkIsNat(s);
      SingleStepKeeps(s, shrink);
      SingleStepProgress(s, shrink);
      var m := SingleStep(s, shrink);
      WorkIsNat(m);
      SweepStepFrees(s, shrink);
      SweepLeaves(m, stop, shrink);
      SweepFreesTransitive(s, m, Until(s, stop, shrink));
      SweepLeavesStep(s, m, Until(s, stop, shrink));
    }
  }

  lemma NoneCondemned(s: State)
    requires Inv(s) && (s.gcstate == Finalize || s.gcstate == Pause)
    ensures forall r | r in s.heap :: !Condemned(s, r)
  {
    hide LiveClosed, RootListOk, StringsOk, UpvalsOk;
  }

  lemma SweepStepFrees(s: State, shrink: bool)
    requires Inv(s) && (s.gcstate == SweepString || s.gcstate == Sweep || s.gcstate == Finalize)
    ensures SweepFrees(s, SingleStep(s, shrink))
  {
    hide Static, SweepFrees;
    match s.gcstate
    case SweepString => SweepStringStepKeeps(s);
    case Sweep => SweepRootStepKeeps(s, shrink);
    case Finalize =>
      SweepFreesNothing(s);
      FinalizeFrees(s);
    case _ =>
  }

  lemma FinalizeFrees(s: State)
    ensures SweepFrees(s, s.(gcstate := Pause))
  {
  }

  lemma SweepLeavesStep(s: State, m: State, t: State)
    requires SweepFrees(s, m) && forall r | r in m.heap :: r in t.heap <==> !Condemned(m, r)
    requires SweepFrees(m, t)
    ensures forall r | r in s.heap :: r in t.heap <==> !Condemned(s, r)
  {
  }

  // ---------------------------------------------------------------- what marking keeps

  /** The reachable objects. */
  ghost function ReachSet(s: State): set<Ref> {
    set r | r in s.heap && Reachable(s, r)
  }

  lemma ReachSetClosed(s: State)
    requires Inv(s)
    ensures ClosedUnderChildren(s.heap, ReachSet(s)) && Roots(s) <= ReachSet(s)
    ensures forall r | r in ReachSet(s) :: Alive(s, r)
  {
    hide PhaseOk, RootListOk, StringsOk, UpvalsOk;
    ReachableIsAlive(s);
    forall r | r in ReachSet(s) ensures Children(s.heap, r) <= ReachSet(s) {
      forall c | c in Children(s.heap, r) ensures c in ReachSet(s) {
        ReachableStep(s, r, c);
      }
    }
    forall r | r in Roots(s) ensures r in ReachSet(s) {
      RootsAreReachable(s, r);
    }
  }

  lemma {:induction false} SamePath(s: State, t: State, path: seq<Ref>)
    requires Roots(t) == Roots(s) && IsPath(s, path)
    requires forall r | Reachable(s, r) && r in s.heap :: r in t.heap && Children(t.heap, r) == Children(s.heap, r)
    ensures IsPath(t, path)
  {
    if |path| > 1 {
      SamePath(s, t, path[..|path|-1]);
      assert Reachable(s, path[|path|-2]) by {
        assert path[..|path|-1][|path[..|path|-1]|-1] == path[|path|-2];
      }
    }
  }

  lemma {:induction false} SamePathBack(s: State, t: State, path: seq<Ref>)
    requires Roots(t) == Roots(s) && IsPath(t, path) && SameChildren(s.heap, t.heap)
    ensures IsPath(s, path)
  {
    if |path| > 1 {
      SamePathBack(s, t, path[..|path|-1]);
    }
  }

  /** A step that keeps the reachable objects and what they lead to keeps reachability. */
  lemma SameReach(s: State, t: State)
    requires Roots(t) == Roots(s) && SameChildren(s.heap, t.heap)
    requires forall r | r in s.heap && Reachable(s, r) :: r in t.heap
    ensures ReachSet(t) == ReachSet(s)
  {
    forall r | r in ReachSet(s) ensures r in ReachSet(t) {
      var path :| IsPath(s, path) && path[|path|-1] == r;
      SamePath(s, t, path);
    }
    forall r | r in ReachSet(t) ensures r in ReachSet(s) {
      var path :| IsPath(t, path) && path[|path|-1] == r;
      SamePathBack(s, t, path);
    }
  }

  lemma MarkingSameChildren(s: State, t: State)
    requires MarkPhase(s, t) && SlotsBelowTop(s.heap)
    ensures SameChildren(s.heap, t.heap)
  {
    ScrubKeeps(s.heap, t.heap);
  }

  /**
   * A cycle run to its end with no mutator in between: what is left is what `keep` and the fixed set
   * hold, for any `keep` that contains the roots and the marked objects and is closed.
   */
  lemma {:induction false} CycleKeepsOnly(s: State, keep: set<Ref>, shrink: bool)
    requires Inv(s) && s.gcstate == Propagate && Within(s, keep) && Roots(s) <= keep
    ensures var t := Until(s, Pause, shrink);
            && t.heap.Keys <= keep + s.fixed
            && t.fixed == s.fixed && Roots(t) == Roots(s)
            && SameChildren(s.heap, t.heap)
            && forall r | r in s.heap && (Reachable(s, r) || r in s.fixed) :: r in t.heap
    decreases Unsettled(s)
  {
    hide Static, PhaseOk, SingleStep, Marking, MarkPhase, Within, Unsettled, FreesGarbage, SameChildren, Reachable;
    PropagateIsMarking(s);
    MarkingReady(s);
    SingleStepKeeps(s, shrink);
    SingleStepProgress(s, shrink);
    SingleStepPropagate(s, shrink);
    if s.gray != [] {
      var m := PropagateMark(s);
      PropagateStepKeeps(s);
      WithinStep(s, keep);
      SamePhase(s, m);
      MarkingSameChildren(s, m);
      PropagateMarkSafe(s);
      SameReach(s, m);
      CycleKeepsOnly(m, keep, shrink);
      SameChildrenTransitive(s.heap, m.heap, Until(s, Pause, shrink).heap);
      SameReachable(s, m);
    } else {
      AtomicEnds(s, keep, shrink);
    }
  }

  lemma SingleStepPropagate(s: State, shrink: bool)
    requires Inv(s) && s.gcstate == Propagate
    ensures Marking(s, false) && UvheadOk(s) && RootsAllocated(s)
    ensures s.gray != [] ==>
              && s.gray[0] in s.heap && s.gray[0] in s.color && Traversable(s.heap[s.gray[0]])
              && SingleStep(s, shrink) == PropagateMark(s)
    ensures s.gray == [] ==> SingleStep(s, shrink) == Atomic(s)
  {
    hide Static, PhaseOk, PropagateMark, AtomicMark, Marking;
    PropagateIsMarking(s);
    if s.gray != [] {
      PropagateMarkSafe(s);
    }
  }

  lemma WithinStep(s: State, keep: set<Ref>)
    requires Marking(s, false) && s.gray != [] && Within(s, keep)
    ensures s.gray[0] in s.heap && s.gray[0] in s.color && Traversable(s.heap[s.gray[0]])
    ensures Within(PropagateMark(s), keep)
  {
    hide Marking, ClosedUnderChildren, OnlyMarked, AgainDone;
    PropagateMarkKeeps(s, false, keep);
  }

  lemma SameReachable(s: State, t: State)
    requires ReachSet(t) == ReachSet(s) && t.heap.Keys == s.heap.Keys
    ensures forall r | r in s.heap :: Reachable(t, r) <==> Reachable(s, r)
  {
    forall r | r in s.heap ensures Reachable(t, r) <==> Reachable(s, r) {
      assert r in ReachSet(t) <==> r in ReachSet(s);
    }
  }

  lemma AtomicEnds(s: State, keep: set<Ref>, shrink: bool)
    requires Inv(s) && s.gcstate == Propagate && Within(s, keep) && Roots(s) <= keep && s.gray == []
    ensures var t := Until(s, Pause, shrink);
            && t.heap.Keys <= keep + s.fixed
            && t.fixed == s.fixed && Roots(t) == Roots(s)
            && SameChildren(s.heap, t.heap)
            && forall r | r in s.heap && (Reachable(s, r) || r in s.fixed) :: r in t.heap
  {
    hide Static, PhaseOk, SingleStep, Marking, MarkPhase, Within, FreesGarbage, SameChildren, AtomicMark, SweepFrees, Reachable;
    SingleStepPropagate(s, shrink);
    MarkingReady(s);
    SingleStepKeeps(s, shrink);
    AtomicKeeps(s, keep);
    var m := AtomicMark(s);
    var a := Atomic(s);
    SamePhase(s, m);
    MarkingSameChildren(s, m);
    SweepLeaves(a, Pause, shrink);
    var t := Until(a, Pause, shrink);
    assert Until(s, Pause, shrink) == t;
    SweepFields(a, t);
    SameChildrenTransitive(s.heap, a.heap, t.heap);
    SameReach(s, a);
    SameReachable(s, a);
    ReachableIsAlive(a);
  }

  lemma SweepFields(s: State, t: State)
    requires SweepFrees(s, t)
    ensures t.fixed == s.fixed && Roots(t) == Roots(s) && SameChildren(s.heap, t.heap) && t.heap.Keys <= s.heap.Keys
  {
  }

  // ---------------------------------------------------------------- luaC_fullgc

  /** The first half of luaC_fullgc frees nothing reachable and does not change what is reachable. */
  lemma FinishedSweep(s: State, shrink: bool)
    requires Inv(s)
    ensures var s0 := if s.gcstate == Pause || s.gcstate == Propagate then Reset(s) else s;
            && Inv(s0) && Rank(Finalize) <= Rank(s0.gcstate)
            && var s1 := Until(s0, Finalize, shrink);
               ReachSet(s1) == ReachSet(s) && s1.fixed == s.fixed && Roots(s1) == Roots(s) && s1.heap.Keys <= s.heap.Keys
  {
    hide Static, PhaseOk, SweepFrees, SameChildren, Until, Reachable;
    ResetPhase(s);
    var s0 := if s.gcstate == Pause || s.gcstate == Propagate then Reset(s) else s;
    SameHeapSameReach(s, s0);
    SweepLeaves(s0, Finalize, shrink);
    var s1 := Until(s0, Finalize, shrink);
    SweepFields(s0, s1);
    ReachableIsAlive(s0);
    SameReach(s0, s1);
  }

  lemma SameHeapSameReach(s: State, t: State)
    requires t.heap == s.heap && Roots(t) == Roots(s)
    ensures ReachSet(t) == ReachSet(s)
  {
    SameReach(s, t);
  }

  /**
   * luaC_fullgc, from any phase: the heap that is left holds exactly the objects that were reachable
   * at the call and the fixed ones, all of them white and ready for the next cycle.
   */
  lemma FullGcExact(s: State, shrink: bool)
    requires Inv(s)
    ensures var t := FullGc(s, shrink);
            && t.heap.Keys == ReachSet(s) + s.fixed
            && ReachSet(t) == ReachSet(s)
            && forall r | r in t.heap :: IsCurrent(t, r)
  {
    hide Static, PhaseOk, SweepFrees, SameChildren, Until, ReachSet, Roots;
    FinishedSweep(s, shrink);
    ResetPhase(s);
    var s0 := if s.gcstate == Pause || s.gcstate == Propagate then Reset(s) else s;
    var s1 := Until(s0, Finalize, shrink);
    StartSafe(s1);
    CycleExact(s1, shrink);
    PausedWhite(FullGc(s, shrink));
  }

  lemma PausedWhite(s: State)
    requires Inv(s) && s.gcstate == Pause
    ensures forall r | r in s.heap :: IsCurrent(s, r)
  {
    hide LiveClosed, RootListOk, StringsOk, UpvalsOk;
  }

  /** One whole cycle, started when nothing is marked. */
  lemma CycleExact(s: State, shrink: bool)
    requires Inv(s) && s.gcstate == Finalize
    ensures Ready(s) && RootsAllocated(s) && s.heap[s.mainthread].Thread?
    ensures Inv(MarkRoot(s)) && MarkRoot(s).gcstate == Propagate
    ensures var t := Until(MarkRoot(s), Pause, shrink);
            t.heap.Keys == ReachSet(s) + s.fixed && ReachSet(t) == ReachSet(s)
  {
    hide Static, PhaseOk, SweepFrees, SameChildren, Until, Reachable, MarkRoot, Within, HeapClosed;
    StartSafe(s);
    ReachSetClosed(s);
    StartKeeps(s, ReachSet(s));
    var m := MarkRoot(s);
    assert Within(m, ReachSet(s)) by { IsWithin(m, ReachSet(s)); }
    SameHeapSameReach(s, m);
    CycleKeepsOnly(m, ReachSet(s), shrink);
    SameReach(m, Until(m, Pause, shrink));
    FixedAllocated(s);
    InReachSet(s, m);
  }

  lemma InReachSet(s: State, m: State)
    requires ReachSet(m) == ReachSet(s) && m.heap == s.heap
    ensures forall r | r in ReachSet(s) :: r in s.heap && Reachable(m, r)
  {
    assert forall r | r in ReachSet(s) :: r in ReachSet(m);
  }

  lemma IsWithin(s: State, keep: set<Ref>)
    requires ClosedUnderChildren(s.heap, keep) && OnlyMarked(s.color, keep)
    ensures Within(s, keep)
  {
  }

  lemma FixedAllocated(s: State)
    requires Static(s)
    ensures s.fixed <= s.heap.Keys
  {
  }
}
