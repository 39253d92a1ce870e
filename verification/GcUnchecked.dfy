/**
 * The collector's step on any state, also where the invariant of the collector does not hold: the
 * functions of the collector with tests in the place of their preconditions. Where the invariant holds
 * it is the step of singlestep.
 */
module GcUnchecked {
  import opened GcHeap
  import opened GcMark
  import opened GcInvariant
  import opened GcAlloc
  import opened GcUpval
  import opened GcPropagate
  import opened GcAtomic
  import opened GcSweep
  import opened GcCollector
  import opened Wrappers

  ghost predicate CanPropagate(s: State) {
    && s.gray != [] && Ready(s) && SlotsBelowTop(s.heap)
    && s.gray[0] in s.heap && Traversable(s.heap[s.gray[0]])
  }

  ghost function PropagateOne(s: State): State
    requires CanPropagate(s)
  {
    PropagateMark(s)
  }

  /** propagateall. */
  ghost function PropagateFreely(s: State): State
    decreases Unsettled(s)
  {
    if CanPropagate(s) && Unsettled(PropagateMark(s)) < Unsettled(s) then PropagateFreely(PropagateMark(s)) else s
  }

  ghost function RemarkFreely(s: State): State {
    if Ready(s) && UvheadOk(s) then PropagateFreely(RemarkUpvals(s, |s.uvhead|)) else PropagateFreely(s)
  }

  ghost function RootsFreely(s: State): State {
    if Ready(s) && RootsAllocated(s) then PropagateFreely(MarkRunning(s)) else PropagateFreely(s)
  }

  /** atomic. */
  ghost function AtomicFreely(s: State): State {
    var s2 := RootsFreely(RemarkFreely(s));
    var m := PropagateFreely(s2.(gray := s2.grayagain, grayagain := []));
    m.(currentwhite := Other(m.currentwhite), sweepstrgc := 0, sweepgc := 0, gcstate := SweepString)
  }

  /** One turn of sweeplist. A condemned thread closes its upvalues only if the invariant holds. */
  ghost function SweepOneFreely(s: State): State
    requires s.sweepgc < |s.rootgc|
  {
    var r := Current(s);
    var s1 := SweepOwn(s);
    if !Condemned(s1, r) then Whiten(s1, r).(sweepgc := s1.sweepgc + 1)
    else
      var s2 := if Inv(s1) then CloseOwn(s1, r) else s1;
      if r in s2.rootgc then FreeRoot(s2, IndexOf(s2.rootgc, r)) else s2
  }

  ghost function SweepFreely(s: State, count: nat): State
    decreases count
  {
    if count == 0 || s.sweepgc >= |s.rootgc| then s else SweepFreely(SweepOneFreely(s), count - 1)
  }

  /** singlestep. */
  ghost function StepFreely(s: State, shrink: bool): State {
    match s.gcstate
    case Pause =>
      if Ready(s) && RootsAllocated(s) && s.heap[s.mainthread].Thread? then MarkRoot(s) else s
    case Propagate =>
      if s.gray != [] then (if CanPropagate(s) then PropagateMark(s) else s) else AtomicFreely(s)
    case SweepString =>
      if s.sweepstrgc < |s.strt| then SweepStringStep(s) else s
    case Sweep =>
      var t := SweepFreely(s, GCSWEEPMAX);
      if t.sweepgc == |t.rootgc| then
        (if shrink && 2 <= |t.strt| then ResizeStrings(t, |t.strt| / 2) else t).(gcstate := Finalize)
      else t
    case Finalize => s.(gcstate := Pause)
  }

  // ---------------------------------------------------------------- under the invariant it is the collector

  lemma {:induction false} PropagateAgrees(s: State)
    requires Marking(s, false)
    ensures PropagateFreely(s) == PropagateAll(s)
    decreases Unsettled(s)
  {
    hide Marking, Unsettled, PropagateMark, HeapClosed, SlotsBelowTop;
    if s.gray != [] {
      PropagateMarkSafe(s);
      MarkingReady(s);
      PropagateAgrees(PropagateMark(s));
    }
  }

  lemma AtomicAgrees(s: State)
    requires Marking(s, false) && UvheadOk(s) && RootsAllocated(s)
    ensures AtomicFreely(s) == Atomic(s)
  {
    hide Marking, UvheadOk, RootsAllocated, PropagateAll, PropagateFreely, RemarkUpvals, MarkRunning, MarkPhase, HeapClosed;
    MarkingReady(s);
    RemarkKeeps(s, s.heap.Keys);
    PropagateAgrees(RemarkUpvals(s, |s.uvhead|));
    var s1 := Remark(s);
    MarkPhaseRoots(s, s1);
    MarkingReady(s1);
    RemarkRootsKeeps(s1, false, s1.heap.Keys);
    PropagateAgrees(MarkRunning(s1));
    var s2 := RemarkRoots(s1);
    RemarkAgainKeeps(s2, false, s2.heap.Keys);
    PropagateAgrees(s2.(gray := s2.grayagain, grayagain := []));
  }

  lemma SweepOneAgrees(s: State)
    requires Inv(s) && s.gcstate == Sweep && s.sweepgc < |s.rootgc|
    ensures SweepOneFreely(s) == SweepOne(s)
  {
    hide Static, PhaseOk, SweepFrees, SweepWork, SweepOpen, CloseUpvals;
    SweepOwnKeeps(s);
    var s1 := SweepOwn(s);
    SweepOneKeeps(s1, Current(s));
  }

  lemma {:induction false} SweepAgrees(s: State, count: nat)
    requires Inv(s) && s.gcstate == Sweep
    ensures SweepFreely(s, count) == SweepRoot(s, count)
    decreases count
  {
    hide Static, PhaseOk, SweepFrees, SweepWork, SweepOne, SweepOneFreely;
    SweepBounded(s);
    if count != 0 && s.sweepgc < |s.rootgc| {
      SweepOneAgrees(s);
      SweepAgrees(SweepOne(s), count - 1);
    }
  }

  /** Where the invariant holds this is the step of the collector. */
  lemma StepAgrees(s: State, shrink: bool)
    requires Inv(s)
    ensures StepFreely(s, shrink) == SingleStep(s, shrink)
  {
    hide Static, PhaseOk, Marking, PropagateMark, Atomic, AtomicFreely, SweepRoot, SweepFreely, MarkRoot, SweepStringStep,
         ResizeStrings, HeapClosed, SlotsBelowTop, UvheadOk, RootsAllocated;
    if s.gcstate == Pause {
      StartReady(s);
    } else if s.gcstate == Propagate {
      PropagateIsMarking(s);
      MarkingReady(s);
      if s.gray != [] { PropagateStepKeeps(s); } else { AtomicAgrees(s); }
    } else if s.gcstate == SweepString {
      BucketLeft(s);
    } else if s.gcstate == Sweep {
      SweepAgrees(s, GCSWEEPMAX);
    }
  }

  // ---------------------------------------------------------------- sweeping brings nothing back

  lemma {:induction false} OwnShrinks(s: State, th: Ref, j: nat)
    requires th in s.heap && s.heap[th].Thread? && j <= |s.heap[th].openupval|
    ensures SweepOpen(s, th, j).heap.Keys <= s.heap.Keys
    decreases |s.heap[th].openupval| - j
  {
    if j < |s.heap[th].openupval| {
      var u := s.heap[th].openupval[j];
      if Condemned(s, u) && u != th { OwnShrinks(FreeOpen(s, th, j), th, j); } else { OwnShrinks(Whiten(s, u), th, j + 1); }
    }
  }

  lemma SweepOneShrinks(s: State)
    requires s.sweepgc < |s.rootgc|
    ensures SweepOneFreely(s).heap.Keys <= s.heap.Keys
  {
    hide Inv, SweepOpen, CloseUpvals, ClosedFrom;
    var r := Current(s);
    var s1 := SweepOwn(s);
    if r in s.heap && s.heap[r].Thread? { OwnShrinks(s, r, 0); }
    if Condemned(s1, r) && Inv(s1) && r in s1.heap && s1.heap[r].Thread? {
      CloseUpvalsCloses(s1, r, 0);
      ClosedKeys(s1, CloseUpvals(s1, r, 0), r);
    }
  }

  lemma ClosedKeys(s: State, t: State, r: Ref)
    requires ClosedFrom(s, t, r, 0)
    ensures t.heap.Keys <= s.heap.Keys
  {
  }

  lemma {:induction false} SweepShrinks(s: State, count: nat)
    ensures SweepFreely(s, count).heap.Keys <= s.heap.Keys
    decreases count
  {
    hide SweepOneFreely;
    if count != 0 && s.sweepgc < |s.rootgc| {
      SweepOneShrinks(s);
      SweepShrinks(SweepOneFreely(s), count - 1);
    }
  }
}
