/** propagateall, remarkupvals, markroot and the atomic step that ends the mark phase. */
module GcAtomic {
  import opened GcHeap
  import opened GcMark
  import opened GcTricolor
  import opened GcPropagate
  import opened Wrappers

  lemma AllocatedIsClosed(h: Heap)
    requires HeapClosed(h)
    ensures ClosedUnderChildren(h, h.Keys)
  {
    forall r | r in h ensures Children(h, r) <= h.Keys {
      ChildrenAreHeld(h, r);
    }
  }

  lemma PropagateMarkSafe(s: State)
    requires Marking(s, false) && s.gray != []
    ensures s.gray[0] in s.heap && s.gray[0] in s.color && Traversable(s.heap[s.gray[0]])
    ensures Marking(PropagateMark(s), false) && Unsettled(PropagateMark(s)) < Unsettled(s)
  {
    AllocatedIsClosed(s.heap);
    PropagateMarkKeeps(s, false, s.heap.Keys);
  }

  /** propagateall: until the gray list is empty. */
  function PropagateAll(s: State): (t: State)
    requires Marking(s, false)
    ensures Marking(t, false) && t.gray == []
    decreases Unsettled(s)
  {
    if s.gray == [] then s
    else
      PropagateMarkSafe(s);
      PropagateAll(PropagateMark(s))
  }

  /** What the mark phase never touches, and that it never takes a mark away. */
  ghost predicate MarkPhase(s: State, t: State) {
    && t == s.(heap := t.heap, color := t.color, gray := t.gray, grayagain := t.grayagain)
    && t.color.Keys == s.color.Keys
    && HeapScrubbed(s.heap, t.heap)
    && (forall r | r in s.color && !s.color[r].White? :: !t.color[r].White?)
    && (forall r | r in s.color && t.color[r].White? :: t.color[r] == s.color[r])
  }

  lemma MarkPhaseTransitive(a: State, b: State, c: State)
    requires MarkPhase(a, b) && MarkPhase(b, c)
    ensures MarkPhase(a, c)
  {
    ScrubbedTransitive(a.heap, b.heap, c.heap);
  }

  lemma MarkedIsMarkPhase(s: State, t: State)
    requires Marked(s, t)
    ensures MarkPhase(s, t)
  {
  }

  lemma PropagateMarkIsMarkPhase(s: State)
    requires Marking(s, false) && s.gray != []
    ensures s.gray[0] in s.heap && s.gray[0] in s.color && Traversable(s.heap[s.gray[0]])
    ensures MarkPhase(s, PropagateMark(s))
  {
    hide HeapScrubbed, HeapClosed, SlotsBelowTop, Scrubbed;
    FirstGray(s, false);
    assert MarkPhase(s, TakeGray(s)) by {
      ExtendsItself(s.heap);
    }
    var t := PropagateMark(s);
    assert Traversed(TakeGray(s), t);
  }

  lemma ExtendsItself(h: Heap)
    ensures HeapScrubbed(h, h)
  {
  }

  lemma WeakerMarking(s: State, uv: bool)
    requires Marking(s, uv)
    ensures Marking(s, false)
  {
    forall r | r in s.color ensures BlackOk(s, r, {}) && GrayOk(s, r, {}, false) {
      assert BlackOk(s, r, {}) && GrayOk(s, r, {}, uv);
    }
  }

  lemma {:induction false} PropagateAllKeeps(s: State, uv: bool, keep: set<Ref>)
    requires Marking(s, uv) && Marking(s, false)
    requires ClosedUnderChildren(s.heap, keep) && OnlyMarked(s.color, keep)
    ensures var t := PropagateAll(s);
            && Marking(t, uv)
            && ClosedUnderChildren(t.heap, keep) && OnlyMarked(t.color, keep)
            && (AgainDone(s) ==> AgainDone(t))
            && MarkPhase(s, t)
    decreases Unsettled(s)
  {
    hide Marking, ClosedUnderChildren, OnlyMarked, AgainDone, MarkPhase, PropagateMark, Traversed, TakeGray, Unsettled;
    if s.gray != [] {
      MarkingReady(s);
      PropagateMarkKeeps(s, uv, keep);
      PropagateMarkSafe(s);
      PropagateMarkIsMarkPhase(s);
      PropagateAllKeeps(PropagateMark(s), uv, keep);
      MarkPhaseTransitive(s, PropagateMark(s), PropagateAll(s));
    } else {
      MarkPhaseReflexive(s);
    }
  }

  lemma MarkPhaseReflexive(s: State)
    ensures MarkPhase(s, s)
  {
  }

  // ---------------------------------------------------------------- remarkupvals

  ghost predicate UvheadOk(s: State) {
    && (forall r | r in s.uvhead :: IsOpenUpval(s.heap, r))
    && (forall r | r in s.heap && IsOpenUpval(s.heap, r) :: r in s.uvhead)
  }

  /** One upvalue of the open list: if it is gray, its value is marked (again). */
  function RemarkUpval(s: State, r: Ref): (t: State)
    requires Ready(s) && IsOpenUpval(s.heap, r)
    ensures Marked(s, t)
  {
    assert ValueRefs(UpvalValue(s.heap, s.heap[r].loc)) == Holds(s.heap, r);
    if s.color[r].Gray? then MarkValue(s, UpvalValue(s.heap, s.heap[r].loc)) else s
  }

  /** The first `n` upvalues of the open list. */
  function RemarkUpvals(s: State, n: nat): (t: State)
    requires Ready(s) && n <= |s.uvhead| && UvheadOk(s)
    ensures Marked(s, t)
  {
    if n == 0 then s else RemarkUpval(RemarkUpvals(s, n-1), s.uvhead[n-1])
  }

  lemma RemarkStarts(s: State)
    requires UvheadOk(s) && Tricolor(s, {}, false)
    ensures Tricolor(s, Elements(s.uvhead), true)
  {
    forall r | r in s.color ensures BlackOk(s, r, Elements(s.uvhead)) && GrayOk(s, r, Elements(s.uvhead), true) {
      assert BlackOk(s, r, {}) && GrayOk(s, r, {}, false);
    }
  }

  lemma {:induction false} RemarkUpvalsKeep(s: State, n: nat, keep: set<Ref>)
    requires Ready(s) && n <= |s.uvhead| && UvheadOk(s)
    requires Tricolor(s, {}, false) && ClosedUnderChildren(s.heap, keep) && OnlyMarked(s.color, keep)
    ensures Tricolor(RemarkUpvals(s, n), Elements(s.uvhead[n..]), true)
    ensures OnlyMarked(RemarkUpvals(s, n).color, keep)
  {
    hide Tricolor, HeapClosed, ClosedUnderChildren, OnlyMarked, RemarkUpval;
    if n == 0 {
      RemarkStarts(s);
      assert s.uvhead[0..] == s.uvhead;
    } else {
      var r := s.uvhead[n-1];
      RemarkUpvalsKeep(s, n-1, keep);
      assert s.uvhead[n-1..] == [r] + s.uvhead[n..];
      assert Elements(s.uvhead[n-1..]) == Elements(s.uvhead[n..]) + {r};
      RemarkUpvalKeeps(RemarkUpvals(s, n-1), r, Elements(s.uvhead[n..]), keep);
    }
  }

  lemma RemarkUpvalKeeps(u: State, r: Ref, rest: set<Ref>, keep: set<Ref>)
    requires Ready(u) && IsOpenUpval(u.heap, r) && Tricolor(u, rest + {r}, true)
    requires ClosedUnderChildren(u.heap, keep) && OnlyMarked(u.color, keep)
    ensures Tricolor(RemarkUpval(u, r), rest, true) && OnlyMarked(RemarkUpval(u, r).color, keep)
  {
    var v := UpvalValue(u.heap, u.heap[r].loc);
    assert ValueRefs(v) == Holds(u.heap, r) == Children(u.heap, r);
    assert BlackOk(u, r, rest + {r});
    if u.color[r].Gray? {
      assert r in keep;
      MarkValueKeeps(u, v, rest + {r}, true, keep);
      var t := MarkValue(u, v);
      assert BlackOk(t, r, rest) && GrayOk(t, r, rest, true);
      TricolorNarrower(t, rest, r, true);
    } else {
      TricolorNarrower(u, rest, r, true);
    }
  }

  // ---------------------------------------------------------------- markroot

  ghost predicate RootsAllocated(s: State) {
    && Roots(s) <= s.heap.Keys
  }

  /** The roots that markroot marks; the running thread waits for the atomic step. */
  function MarkRoots(s: State): (t: State)
    requires Ready(s) && RootsAllocated(s) && s.heap[s.mainthread].Thread?
    ensures Marked(s, t)
  {
    assert ValueRefs(s.heap[s.mainthread].gt) <= Holds(s.heap, s.mainthread);
    assert OptionsRefs(s.mt) <= Roots(s);
    MarkOptions(
      MarkValue(MarkValue(Mark(s, s.mainthread), s.heap[s.mainthread].gt), s.registry),
      s.mt, |s.mt|)
  }

  /** markroot: starts a cycle with empty lists. */
  function MarkRoot(s: State): (t: State)
    requires Ready(s) && RootsAllocated(s) && s.heap[s.mainthread].Thread?
  {
    MarkRoots(s.(gray := [], grayagain := [])).(gcstate := Propagate)
  }

  // ---------------------------------------------------------------- atomic

  /** The roots the atomic step marks (again). */
  function MarkRunning(s: State): (t: State)
    requires Ready(s) && RootsAllocated(s)
    ensures Marked(s, t)
  {
    assert OptionsRefs(s.mt) <= Roots(s);
    MarkOptions(Mark(s, s.running), s.mt, |s.mt|)
  }

  lemma MarkRunningKeeps(s: State, uv: bool, keep: set<Ref>)
    requires Marking(s, uv) && RootsAllocated(s)
    requires ClosedUnderChildren(s.heap, keep) && OnlyMarked(s.color, keep) && Roots(s) <= keep
    ensures Marking(MarkRunning(s), uv) && OnlyMarked(MarkRunning(s).color, keep)
    ensures AllMarked(MarkRunning(s).color, {s.running} + OptionsRefs(s.mt))
  {
    hide Tricolor, HeapClosed, ClosedUnderChildren, SlotsBelowTop;
    assert OptionsRefs(s.mt) <= Roots(s);
    MarkKeeps(s, s.running, {}, uv, keep);
    var m := Mark(s, s.running);
    MarkOptionsKeep(m, s.mt, |s.mt|, {}, uv, keep);
    var t := MarkRunning(s);
    assert MarkPhase(m, t);
    forall r | r in OptionsRefs(s.mt) ensures r in t.color && !t.color[r].White? {
      var i :| 0 <= i < |s.mt| && s.mt[i] == Some(r);
      assert AllMarked(t.color, OptionRefs(s.mt[i]));
    }
  }

  lemma RemarkMarking(s: State, keep: set<Ref>)
    requires Marking(s, false) && UvheadOk(s)
    requires ClosedUnderChildren(s.heap, keep) && OnlyMarked(s.color, keep)
    ensures var t := RemarkUpvals(s, |s.uvhead|);
            Marking(t, true) && Marking(t, false) && OnlyMarked(t.color, keep) && t.heap == s.heap
  {
    RemarkUpvalsKeep(s, |s.uvhead|, keep);
    assert Elements(s.uvhead[|s.uvhead|..]) == {};
    WeakerMarking(RemarkUpvals(s, |s.uvhead|), true);
  }

  /** The last round starts from the objects caught by the back barrier and from all threads. */
  lemma SwapGray(s: State, uv: bool)
    requires Marking(s, uv) && s.gray == []
    ensures Marking(s.(gray := s.grayagain, grayagain := []), uv)
  {
    var t := s.(gray := s.grayagain, grayagain := []);
    forall r | r in t.color ensures BlackOk(t, r, {}) && GrayOk(t, r, {}, uv) {
      assert BlackOk(s, r, {}) && GrayOk(s, r, {}, uv);
    }
  }

  lemma MarkedHeap(s: State, t: State)
    requires Marked(s, t)
    ensures t.heap == s.heap
  {
  }

  lemma MarkPhaseRoots(s: State, t: State)
    requires MarkPhase(s, t) && RootsAllocated(s)
    ensures RootsAllocated(t) && Roots(t) == Roots(s) && t.running == s.running && t.mt == s.mt
  {
  }

  /** remarkupvals and the propagation after it. */
  function Remark(s: State): (t: State)
    requires Marking(s, false) && UvheadOk(s)
    ensures Marking(t, false) && t.gray == [] && MarkPhase(s, t)
  {
    RemarkKeeps(s, s.heap.Keys);
    PropagateAll(RemarkUpvals(s, |s.uvhead|))
  }

  /** Marking of the running thread and of the basic metatables, and the propagation after it. */
  function RemarkRoots(s: State): (t: State)
    requires Marking(s, false) && RootsAllocated(s)
    ensures Marking(t, false) && t.gray == [] && MarkPhase(s, t)
  {
    RemarkRootsKeeps(s, false, s.heap.Keys);
    PropagateAll(MarkRunning(s))
  }

  /** The last round: everything on `grayagain` is traversed once more. */
  function RemarkAgain(s: State): (t: State)
    requires Marking(s, false) && s.gray == []
    ensures Marking(t, false) && t.gray == [] && MarkPhase(s, t)
  {
    RemarkAgainKeeps(s, false, s.heap.Keys);
    PropagateAll(s.(gray := s.grayagain, grayagain := []))
  }

  /** The marking of the atomic step, up to the point where the whites are exchanged. */
  function AtomicMark(s: State): (t: State)
    requires Marking(s, false) && UvheadOk(s) && RootsAllocated(s)
    ensures Marking(t, false) && t.gray == [] && MarkPhase(s, t)
  {
    var s1 := Remark(s);
    MarkPhaseRoots(s, s1);
    var s2 := RemarkRoots(s1);
    var s3 := RemarkAgain(s2);
    MarkPhaseTransitive(s, s1, s2);
    MarkPhaseTransitive(s, s2, s3);
    s3
  }

  ghost predicate Within(s: State, keep: set<Ref>) {
    ClosedUnderChildren(s.heap, keep) && OnlyMarked(s.color, keep)
  }

  lemma RemarkKeeps(s: State, keep: set<Ref>)
    requires Marking(s, false) && UvheadOk(s)
    ensures Ready(s) && Marking(RemarkUpvals(s, |s.uvhead|), false)
    ensures MarkPhase(s, PropagateAll(RemarkUpvals(s, |s.uvhead|)))
    ensures Within(s, keep) ==>
              var t := PropagateAll(RemarkUpvals(s, |s.uvhead|)); Marking(t, true) && Within(t, keep)
  {
    hide Marking, UvheadOk, ClosedUnderChildren, OnlyMarked, AgainDone, MarkPhase, PropagateAll, RemarkUpvals, Marked;
    MarkingReady(s);
    var s1 := RemarkUpvals(s, |s.uvhead|);
    MarkedIsMarkPhase(s, s1);
    AllocatedIsClosed(s.heap);
    assert OnlyMarked(s.color, s.heap.Keys) by { MarkingReady(s); OnlyAllocated(s); }
    RemarkMarking(s, s.heap.Keys);
    PropagateAllKeeps(s1, true, s.heap.Keys);
    MarkPhaseTransitive(s, s1, PropagateAll(s1));
    if Within(s, keep) {
      RemarkMarking(s, keep);
      PropagateAllKeeps(s1, true, keep);
    }
  }

  lemma OnlyAllocated(s: State)
    requires Ready(s)
    ensures OnlyMarked(s.color, s.heap.Keys)
  {
  }

  lemma RemarkRootsKeeps(s: State, uv: bool, keep: set<Ref>)
    requires Marking(s, uv) && RootsAllocated(s)
    ensures Ready(s) && Marking(MarkRunning(s), false)
    ensures MarkPhase(s, PropagateAll(MarkRunning(s)))
    ensures AllMarked(PropagateAll(MarkRunning(s)).color, {s.running} + OptionsRefs(s.mt))
    ensures Within(s, keep) && Roots(s) <= keep ==>
              var t := PropagateAll(MarkRunning(s)); Marking(t, uv) && Within(t, keep)
  {
    hide Marking, ClosedUnderChildren, OnlyMarked, AgainDone, MarkPhase, PropagateAll, MarkRunning, Marked, AllMarked;
    WeakerMarking(s, uv);
    MarkingReady(s);
    AllocatedIsClosed(s.heap);
    OnlyAllocated(s);
    MarkRunningKeeps(s, uv, s.heap.Keys);
    var m := MarkRunning(s);
    WeakerMarking(m, uv);
    MarkedIsMarkPhase(s, m);
    assert m.heap == s.heap by { MarkedHeap(s, m); }
    PropagateAllKeeps(m, uv, s.heap.Keys);
    MarkPhaseTransitive(s, m, PropagateAll(m));
    AllMarkedStays(m, PropagateAll(m), {s.running} + OptionsRefs(s.mt));
    if Within(s, keep) && Roots(s) <= keep {
      MarkRunningKeeps(s, uv, keep);
      PropagateAllKeeps(m, uv, keep);
    }
  }

  lemma RemarkAgainKeeps(s: State, uv: bool, keep: set<Ref>)
    requires Marking(s, uv) && s.gray == []
    ensures Marking(s.(gray := s.grayagain, grayagain := []), false)
    ensures var t := PropagateAll(s.(gray := s.grayagain, grayagain := [])); MarkPhase(s, t) && AgainDone(t)
    ensures Within(s, keep) ==>
              var t := PropagateAll(s.(gray := s.grayagain, grayagain := [])); Marking(t, uv) && Within(t, keep)
  {
    hide Marking, ClosedUnderChildren, OnlyMarked, AgainDone, MarkPhase, PropagateAll;
    SwapGray(s, uv);
    var m := s.(gray := s.grayagain, grayagain := []);
    WeakerMarking(m, uv);
    Swapped(s);
    MarkingReady(m);
    AllocatedIsClosed(s.heap);
    OnlyAllocated(m);
    PropagateAllKeeps(m, uv, s.heap.Keys);
    MarkPhaseTransitive(s, m, PropagateAll(m));
    if Within(s, keep) {
      PropagateAllKeeps(m, uv, keep);
    }
  }

  /** The whole atomic step keeps the invariant and marks nothing outside `keep`. */
  lemma AtomicMarkKeeps(s: State, keep: set<Ref>)
    requires Marking(s, false) && UvheadOk(s) && RootsAllocated(s)
    requires Within(s, keep) && Roots(s) <= keep
    ensures var t := AtomicMark(s);
            && Marking(t, true) && t.gray == [] && AgainDone(t) && Within(t, keep)
            && AllMarked(t.color, {s.running} + OptionsRefs(s.mt))
  {
    hide Marking, UvheadOk, Within, AgainDone, MarkPhase, PropagateAll, MarkRunning, AllMarked, RemarkUpvals;
    RemarkKeeps(s, keep);
    var s1 := Remark(s);
    MarkPhaseRoots(s, s1);
    RemarkRootsKeeps(s1, true, keep);
    var s2 := RemarkRoots(s1);
    RemarkAgainKeeps(s2, true, keep);
    AllMarkedStays(s2, RemarkAgain(s2), {s.running} + OptionsRefs(s.mt));
  }

  lemma MarkingReady(s: State)
    requires Marking(s, false)
    ensures Ready(s) && SlotsBelowTop(s.heap)
  {
  }

  lemma Swapped(s: State)
    ensures MarkPhase(s, s.(gray := s.grayagain, grayagain := []))
    ensures AgainDone(s.(gray := s.grayagain, grayagain := []))
  {
  }

  lemma AllMarkedStays(s: State, t: State, rs: set<Ref>)
    requires MarkPhase(s, t) && AllMarked(s.color, rs)
    ensures AllMarked(t.color, rs)
  {
  }

  /** After the last round the marked objects are closed under every stored pointer. */
  lemma MarkedIsClosed(t: State)
    requires Marking(t, true) && t.gray == [] && AgainDone(t)
    ensures forall r | r in t.color && !t.color[r].White? :: AllMarked(t.color, Holds(t.heap, r))
  {
    forall r | r in t.color && !t.color[r].White?
      ensures AllMarked(t.color, Holds(t.heap, r))
    {
      assert BlackOk(t, r, {}) && GrayOk(t, r, {}, true);
    }
  }

  /** atomic: finishes marking, exchanges the whites and starts the sweep. */
  function Atomic(s: State): (t: State)
    requires Marking(s, false) && UvheadOk(s) && RootsAllocated(s)
  {
    var m := AtomicMark(s);
    m.(currentwhite := Other(m.currentwhite), sweepstrgc := 0, sweepgc := 0, gcstate := SweepString)
  }
}
