/** The collector leaves contents alone: what is left of the heap after a step holds what it held before. */
module GcValues {
  import opened GcHeap
  import opened GcMark
  import opened GcInvariant
  import opened GcAlloc
  import opened GcUpval
  import opened GcPropagate
  import opened GcAtomic
  import opened GcSweep
  import opened GcCollector
  import opened GcFull
  import opened GcStore

  predicate IsUpval(h: Heap, u: Ref) {
    u in h && h[u].UpVal?
  }

  /** The value a closure reads through the upvalue. */
  function ValueOf(h: Heap, u: Ref): Value
    requires IsUpval(h, u)
  {
    UpvalValue(h, h[u].loc)
  }

  // ---------------------------------------------------------------- the collector

  /** The object is the same, or a thread that differs in its open list only. */
  predicate SameStack(b: Body, c: Body) {
    c == b || (b.Thread? && c.Thread? && c == b.(openupval := c.openupval))
  }

  /** What is left of a heap looks the same. */
  ghost predicate Remains(h: Heap, h': Heap) {
    h'.Keys <= h.Keys && forall x | x in h' :: SameStack(h[x], h'[x])
  }

  /** The value stays; an open upvalue is closed only if the thread it was open on is gone. */
  predicate KeptUpval(h: Heap, h': Heap, u: Ref)
    requires IsUpval(h, u)
  {
    && IsUpval(h', u) && ValueOf(h', u) == ValueOf(h, u)
    && (h'[u].loc == h[u].loc || (h[u].loc.Open? && h'[u].loc.Closed? && h[u].loc.thread !in h'))
  }

  /** A table entry is the same, but for the key of an empty one, which may be dead now. */
  predicate SameEntry(e: Entry, f: Entry) {
    f == e || (e.val.Nil? && f.val.Nil? && e.key.Gc? && f.key == e.key && f.deadkey)
  }

  /**
   * A table keeps its metatable, its array and every entry; a thread its globals, its top and the slots below
   * it; an upvalue is an upvalue; anything else is the same.
   */
  predicate SameBody(b: Body, c: Body) {
    match b
    case Table(meta, arr, node) =>
      && c.Table? && c.meta == meta && c.arr == arr && |c.node| == |node|
      && forall i | 0 <= i < |node| :: SameEntry(node[i], c.node[i])
    case Thread(gt, stack, top, _) =>
      && c.Thread? && c.gt == gt && c.top == top && |c.stack| == |stack|
      && forall i | 0 <= i < |stack| && i < top :: c.stack[i] == stack[i]
    case UpVal(_) => c.UpVal?
    case _ => c == b
  }

  predicate KeptObject(h: Heap, h': Heap, x: Ref) {
    x in h && x in h' && SameBody(h[x], h'[x]) && (h[x].UpVal? ==> KeptUpval(h, h', x))
  }

  /** What a collector step may do to a heap: free objects, or keep them with their contents. */
  ghost predicate KeepsContents(h: Heap, h': Heap) {
    forall x | x in h' :: KeptObject(h, h', x)
  }

  lemma KeepsTransitive(a: Heap, b: Heap, c: Heap)
    requires KeepsContents(a, b) && KeepsContents(b, c)
    ensures KeepsContents(a, c)
  {
    hide SameBody;
    forall x | x in c ensures KeptObject(a, c, x) {
      assert KeptObject(b, c, x) && KeptObject(a, b, x);
      SameBodyTransitive(a[x], b[x], c[x]);
    }
  }

  lemma SameBodyTransitive(a: Body, b: Body, c: Body)
    requires SameBody(a, b) && SameBody(b, c)
    ensures SameBody(a, c)
  {
  }

  lemma StackBody(b: Body, c: Body)
    requires SameStack(b, c)
    ensures SameBody(b, c)
  {
  }

  lemma ScrubbedBody(b: Body, c: Body)
    requires Scrubbed(b, c)
    ensures SameBody(b, c)
  {
  }

  lemma RemainsTransitive(a: Heap, b: Heap, c: Heap)
    requires Remains(a, b) && Remains(b, c)
    ensures Remains(a, c)
  {
    forall x | x in c ensures SameStack(a[x], c[x]) {
      assert SameStack(a[x], b[x]) && SameStack(b[x], c[x]);
    }
  }

  lemma SlotOf(s: State, u: Ref)
    requires UpvalsOk(s) && IsOpenUpval(s.heap, u)
    ensures HasSlot(s.heap, s.heap[u].loc.thread, s.heap[u].loc.level)
  {
    OpenSlot(s, u);
  }

  lemma RemainingUpvals(s: State, t: State)
    requires Remains(s.heap, t.heap) && UpvalsOk(t)
    ensures KeepsContents(s.heap, t.heap)
  {
    hide UpvalsOk, SameBody;
    forall x | x in t.heap ensures KeptObject(s.heap, t.heap, x) {
      StackBody(s.heap[x], t.heap[x]);
      if s.heap[x].UpVal? && t.heap[x].loc.Open? {
        SlotOf(t, x);
        assert SameStack(s.heap[t.heap[x].loc.thread], t.heap[t.heap[x].loc.thread]);
      }
    }
  }

  lemma {:induction false} BucketRemains(s: State, i: nat, j: nat)
    requires i < |s.strt| && j <= |s.strt[i]|
    ensures Remains(s.heap, SweepBucket(s, i, j).heap)
    decreases |s.strt[i]| - j
  {
    if j < |s.strt[i]| {
      if Condemned(s, s.strt[i][j]) {
        BucketRemains(FreeString(s, i, j), i, j);
        RemainsTransitive(s.heap, FreeString(s, i, j).heap, SweepBucket(s, i, j).heap);
      } else {
        BucketRemains(Whiten(s, s.strt[i][j]), i, j + 1);
      }
    }
  }

  lemma {:induction false} OpenRemains(s: State, th: Ref, j: nat)
    requires th in s.heap && s.heap[th].Thread? && j <= |s.heap[th].openupval|
    ensures Remains(s.heap, SweepOpen(s, th, j).heap)
    decreases |s.heap[th].openupval| - j
  {
    if j < |s.heap[th].openupval| {
      var u := s.heap[th].openupval[j];
      if Condemned(s, u) && u != th {
        OpenRemains(FreeOpen(s, th, j), th, j);
        RemainsTransitive(s.heap, FreeOpen(s, th, j).heap, SweepOpen(s, th, j).heap);
      } else {
        OpenRemains(Whiten(s, u), th, j + 1);
      }
    }
  }

  /** The mark phase kills keys of empty entries and clears slots above the tops of stacks, where nothing is open. */
  lemma MarkPhaseValues(s: State, t: State)
    requires UpvalsOk(s) && HeapScrubbed(s.heap, t.heap)
    ensures KeepsContents(s.heap, t.heap)
  {
    UpvalsBelowTop(s);
    hide UpvalsOk, HeapScrubbed, SlotsBelowTop, SameBody, Scrubbed;
    ScrubbedKeys(s.heap, t.heap);
    forall x | x in t.heap ensures KeptObject(s.heap, t.heap, x) {
      ScrubbedObject(s.heap, t.heap, x);
      ScrubbedBody(s.heap[x], t.heap[x]);
      if s.heap[x].UpVal? { ScrubbedUpval(s.heap, t.heap, x); }
    }
  }

  lemma ScrubbedUpval(h: Heap, h': Heap, u: Ref)
    requires HeapScrubbed(h, h') && SlotsBelowTop(h) && IsUpval(h, u)
    ensures KeptUpval(h, h', u)
  {
    hide HeapScrubbed, SlotsBelowTop;
    ScrubbedObject(h, h', u);
    if h[u].loc.Open? { ScrubOpen(h, h', u); }
  }

  /** A condemned thread closes the upvalues that survive it, and goes. */
  lemma FreedThread(s: State, m: State, t: State, r: Ref)
    requires ClosedFrom(s, m, r, 0) && t.heap == m.heap - {r} && UpvalsOk(t)
    ensures KeepsContents(s.heap, t.heap)
  {
    hide UpvalsOk;
    forall x | x in t.heap ensures KeptObject(s.heap, t.heap, x) {
      if OpenAtOrAbove(s.heap, x, r, 0) {
        assert t.heap[x] == UpVal(Closed(ValueOf(s.heap, x)));
      } else {
        assert t.heap[x] == s.heap[x];
        StackBody(s.heap[x], t.heap[x]);
        if s.heap[x].UpVal? && t.heap[x].loc.Open? { SlotOf(t, x); }
      }
    }
  }

  lemma SweepOneValues(s: State)
    requires Inv(s) && s.gcstate == Sweep && s.sweepgc < |s.rootgc|
    ensures KeepsContents(s.heap, SweepOne(s).heap)
  {
    hide Static, PhaseOk, SweepOpen, CloseUpvals, ClosedFrom, KeepsContents, Remains, SweepFrees, UpvalsOk, Condemned, SweepWork;
    var r := Current(s);
    var s1 := SweepOwn(s);
    var t := SweepOne(s);
    SweepOwnKeeps(s);
    SameRemains(s);
    if r in s.heap && s.heap[r].Thread? { OpenRemains(s, r, 0); }
    StaticUpvals(s1);
    RemainingUpvals(s, s1);
    SweepOneKeeps(s1, r);
    StaticUpvals(t);
    if !Condemned(s1, r) {
      SameRemains(s1);
      RemainingUpvals(s1, t);
    } else {
      var s2 := CloseOwn(s1, r);
      if s1.heap[r].Thread? {
        CloseUpvalsCloses(s1, r, 0);
        FreedThread(s1, s2, t, r);
      } else {
        FreedRemains(s1, t, r);
        RemainingUpvals(s1, t);
      }
    }
    KeepsTransitive(s.heap, s1.heap, t.heap);
  }

  lemma SameRemains(s: State)
    ensures Remains(s.heap, s.heap)
  {
  }

  lemma FreedRemains(s: State, t: State, r: Ref)
    requires t.heap == s.heap - {r}
    ensures Remains(s.heap, t.heap)
  {
  }

  lemma {:induction false} SweepRootValues(s: State, count: nat)
    requires Inv(s) && s.gcstate == Sweep
    ensures KeepsContents(s.heap, SweepRoot(s, count).heap)
    decreases count
  {
    hide Static, PhaseOk, SweepOne, KeepsContents, SweepFrees, SweepWork;
    KeepsSame(s);
    SweepBounded(s);
    if count != 0 && s.sweepgc < |s.rootgc| {
      SweepOneValues(s);
      SweepRootValues(SweepOne(s), count - 1);
      KeepsTransitive(s.heap, SweepOne(s).heap, SweepRoot(s, count).heap);
    }
  }

  lemma KeepsSame(s: State)
    ensures KeepsContents(s.heap, s.heap)
  {
    hide SameBody;
    forall x | x in s.heap ensures KeptObject(s.heap, s.heap, x) {
      StackBody(s.heap[x], s.heap[x]);
    }
  }

  /** No step of the collector changes the contents of an object that it leaves, or the value of an upvalue. */
  lemma SingleStepValues(s: State, shrink: bool)
    requires Inv(s)
    ensures KeepsContents(s.heap, SingleStep(s, shrink).heap)
  {
    hide Static, PhaseOk, KeepsContents, PropagateMark, Atomic, SweepBucket, SweepRoot, ResizeStrings, MarkRoot, UpvalsOk,
         HeapScrubbed, Remains, MarkPhase, SweepFrees;
    StaticUpvals(s);
    KeepsSame(s);
    if s.gcstate == Pause {
      StartReady(s);
      RootHeap(s);
    } else if s.gcstate == Propagate {
      PropagateIsMarking(s);
      if s.gray != [] {
        PropagateStepKeeps(s);
        MarkPhaseScrubs(s, PropagateMark(s));
        MarkPhaseValues(s, PropagateMark(s));
      } else {
        AtomicScrubs(s);
        MarkPhaseValues(s, Atomic(s));
      }
    } else if s.gcstate == SweepString {
      StringBuckets(s);
      SweepStringStepKeeps(s);
      BucketRemains(s, s.sweepstrgc, 0);
      StaticUpvals(SweepStringStep(s));
      RemainingUpvals(s, SweepStringStep(s));
    } else if s.gcstate == Sweep {
      SweepRootValues(s, GCSWEEPMAX);
      RootStepHeap(s, shrink);
    }
  }

  lemma StringBuckets(s: State)
    requires PhaseOk(s, {}) && s.gcstate == SweepString
    ensures s.sweepstrgc < |s.strt|
  {
  }

  lemma RootHeap(s: State)
    requires Ready(s) && RootsAllocated(s) && s.heap[s.mainthread].Thread?
    ensures MarkRoot(s).heap == s.heap
  {
    hide HeapClosed;
  }

  lemma MarkPhaseScrubs(s: State, t: State)
    requires MarkPhase(s, t)
    ensures HeapScrubbed(s.heap, t.heap)
  {
  }

  lemma AtomicScrubs(s: State)
    requires Inv(s) && s.gcstate == Propagate
    ensures Marking(s, false) && UvheadOk(s) && RootsAllocated(s)
    ensures HeapScrubbed(s.heap, Atomic(s).heap)
  {
    hide Static, PhaseOk, Marking, UvheadOk, AtomicMark;
    PropagateIsMarking(s);
    assert MarkPhase(s, AtomicMark(s));
  }

  lemma RootStepHeap(s: State, shrink: bool)
    requires Inv(s) && s.gcstate == Sweep
    ensures SweepRootStep(s, shrink).heap == SweepRoot(s, GCSWEEPMAX).heap
  {
    hide Static, PhaseOk, SweepRoot, RehashChains;
  }

  lemma {:induction false} UntilValues(s: State, stop: Phase, shrink: bool)
    requires Inv(s) && (stop == Finalize || stop == Pause) && Rank(stop) <= Rank(s.gcstate)
    ensures KeepsContents(s.heap, Until(s, stop, shrink).heap)
    decreases Rank(s.gcstate), MarkWork(s), Work(s)
  {
    hide Static, PhaseOk, FreesGarbage, SingleStep, KeepsContents;
    KeepsSame(s);
    if s.gcstate != stop {
      WorkIsNat(s);
      SingleStepKeeps(s, shrink);
      SingleStepProgress(s, shrink);
      WorkIsNat(SingleStep(s, shrink));
      SingleStepValues(s, shrink);
      UntilValues(SingleStep(s, shrink), stop, shrink);
      KeepsTransitive(s.heap, SingleStep(s, shrink).heap, Until(s, stop, shrink).heap);
    }
  }

  lemma FullGcValues(s: State, shrink: bool)
    requires Inv(s)
    ensures KeepsContents(s.heap, FullGc(s, shrink).heap)
  {
    hide Static, PhaseOk, Until, KeepsContents, MarkRoot, HeapClosed, RootsAllocated;
    var s0 := if s.gcstate == Pause || s.gcstate == Propagate then Reset(s) else s;
    ResetPhase(s);
    UntilValues(s0, Finalize, shrink);
    var s1 := Until(s0, Finalize, shrink);
    StartSafe(s1);
    StartReady(s1);
    RootHeap(s1);
    UntilValues(MarkRoot(s1), Pause, shrink);
    KeepsTransitive(s.heap, s1.heap, FullGc(s, shrink).heap);
  }
}
