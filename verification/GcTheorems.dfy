/** What the collector promises, stated at an arbitrary point of an arbitrary run. */
module GcTheorems {
  import opened GcHeap
  import opened GcTricolor
  import opened GcInvariant
  import opened GcAlloc
  import opened GcUpval
  import opened GcFull
  import opened GcRuns

  /** While marking goes on, a black object holds no white one and no object is condemned. */
  lemma BlackHoldsNoWhite(states: seq<State>, steps: seq<Step>, n: nat, b: Ref)
    requires IsRun(states, steps) && n < |states| && states[n].gcstate == Propagate
    requires b in states[n].heap && b in states[n].color && states[n].color[b].Black?
    ensures AllMarked(states[n].color, Holds(states[n].heap, b))
    ensures NothingDead(states[n])
  {
    hide IsRun, Static, Holds, Tricolor;
    RunInv(states, steps, n);
    BlackIn(states[n], b);
  }

  lemma BlackIn(s: State, b: Ref)
    requires Tricolor(s, {}, false) && b in s.heap && b in s.color && s.color[b].Black?
    ensures AllMarked(s.color, Holds(s.heap, b))
  {
    assert BlackOk(s, b, {});
  }

  /** While sweeping goes on, what a reachable object holds is not condemned either. */
  lemma ReachableHoldsNoDead(states: seq<State>, steps: seq<Step>, n: nat, r: Ref, c: Ref)
    requires IsRun(states, steps) && n < |states|
    requires r in states[n].heap && Reachable(states[n], r) && c in Holds(states[n].heap, r)
    ensures c in states[n].heap && !IsDead(states[n], c)
  {
    hide IsRun, PhaseOk, Holds, RootListOk, StringsOk, UpvalsOk, Reachable;
    RunInv(states, steps, n);
    ReachableIsAlive(states[n]);
    LiveHolds(states[n], r);
  }

  /** luaC_fullgc called at any point of any run leaves exactly the reachable and the fixed objects, all of the current white. */
  lemma FullGcAnywhere(states: seq<State>, steps: seq<Step>, n: nat, shrink: bool)
    requires IsRun(states, steps) && n < |states|
    ensures Inv(states[n])
    ensures FullGc(states[n], shrink).heap.Keys == ReachSet(states[n]) + states[n].fixed
    ensures forall r | r in FullGc(states[n], shrink).heap :: IsCurrent(FullGc(states[n], shrink), r)
  {
    hide IsRun, Inv, IsCurrent, FullGc;
    RunInv(states, steps, n);
    FullGcExact(states[n], shrink);
  }

  /** At every point of every run two strings with the same bytes are the same object. */
  lemma StringsAreUnique(states: seq<State>, steps: seq<Step>, n: nat, p: Ref, q: Ref)
    requires IsRun(states, steps) && n < |states|
    requires p in states[n].heap && q in states[n].heap
    requires states[n].heap[p].Str? && states[n].heap[q].Str?
    ensures states[n].heap[p].bytes == states[n].heap[q].bytes <==> p == q
  {
    hide IsRun, PhaseOk, LiveClosed, RootListOk, UpvalsOk, Hash;
    RunInv(states, steps, n);
  }

  /** luaS_newlstr at any point: a string with these bytes, not condemned by the sweep in progress, and the old one if there is one. */
  lemma InternAnywhere(states: seq<State>, steps: seq<Step>, n: nat, o: Ref, bytes: seq<bv8>, grow: bool)
    requires IsRun(states, steps) && n < |states| && o !in states[n].heap
    ensures 0 < |states[n].strt|
    ensures var (t, q) := Intern(states[n], o, bytes, grow);
            && Inv(t) && Alive(t, q) && t.heap[q].Str? && t.heap[q].bytes == bytes
            && (forall p | p in states[n].heap && states[n].heap[p].Str? && states[n].heap[p].bytes == bytes :: q == p)
  {
    hide IsRun, PhaseOk, LiveClosed, RootListOk, UpvalsOk, Hash, Intern, StringsOk;
    RunInv(states, steps, n);
    var s := states[n];
    InternKeeps(s, o, bytes, grow);
    var (t, q) := Intern(s, o, bytes, grow);
    InternGrows(s, o, bytes, grow);
    forall p | p in s.heap && s.heap[p].Str? && s.heap[p].bytes == bytes ensures q == p {
      InternKeepsStrings(s, o, bytes, grow, p);
      SameBytes(t, p, q);
    }
  }

  lemma InternKeepsStrings(s: State, o: Ref, bytes: seq<bv8>, grow: bool, p: Ref)
    requires 0 < |s.strt| && o !in s.heap && p in s.heap
    ensures p in Intern(s, o, bytes, grow).0.heap && Intern(s, o, bytes, grow).0.heap[p] == s.heap[p]
  {
    hide FindString, Hash, RehashChains;
  }

  lemma SameBytes(s: State, p: Ref, q: Ref)
    requires StringsOk(s) && p in s.heap && q in s.heap && s.heap[p].Str? && s.heap[q].Str?
    requires s.heap[p].bytes == s.heap[q].bytes
    ensures p == q
  {
  }

  /** Every upvalue of the list is open, on a slot below that of the one in front of it. */
  ghost predicate DescendingLevels(h: Heap, list: seq<Ref>) {
    && (forall i: nat | i < |list| :: IsOpenUpval(h, list[i]))
    && forall i: nat, j: nat | i < j < |list| :: h[list[i]].loc.level > h[list[j]].loc.level
  }

  lemma OpenListLevels(h: Heap, th: Ref)
    requires th in h && h[th].Thread? && OpenListOk(h, th)
    ensures DescendingLevels(h, h[th].openupval)
  {
  }

  /** A thread's open upvalues, at every point of every run: one per slot, from the highest slot down. */
  lemma OpenListDescends(states: seq<State>, steps: seq<Step>, n: nat, th: Ref, u: Ref, v: Ref)
    requires IsRun(states, steps) && n < |states|
    requires th in states[n].heap && states[n].heap[th].Thread?
    requires IsOpenUpval(states[n].heap, u) && states[n].heap[u].loc.thread == th
    requires IsOpenUpval(states[n].heap, v) && states[n].heap[v].loc.thread == th
    ensures u in states[n].heap[th].openupval && DescendingLevels(states[n].heap, states[n].heap[th].openupval)
    ensures states[n].heap[u].loc.level == states[n].heap[v].loc.level <==> u == v
  {
    hide IsRun, PhaseOk, LiveClosed, RootListOk, StringsOk, OpenListOk;
    RunInv(states, steps, n);
    var h := states[n].heap;
    assert OpenListOk(h, th);
    OpenListLevels(h, th);
    if h[u].loc.level == h[v].loc.level {
      OneUpvalPerSlot(h, th, u, v);
    }
  }

  lemma OneUpvalPerSlot(h: Heap, th: Ref, u: Ref, v: Ref)
    requires th in h && h[th].Thread? && OpenListOk(h, th) && u in h[th].openupval && v in h[th].openupval
    requires IsOpenUpval(h, u) && IsOpenUpval(h, v) && h[u].loc.level == h[v].loc.level
    ensures u == v
  {
    var i :| 0 <= i < |h[th].openupval| && h[th].openupval[i] == u;
    var j :| 0 <= j < |h[th].openupval| && h[th].openupval[j] == v;
  }

  /** luaF_findupval at any point gives the one upvalue of the slot, new only if the slot had none. */
  lemma CaptureAnywhere(states: seq<State>, steps: seq<Step>, n: nat, th: Ref, level: nat, o: Ref)
    requires IsRun(states, steps) && n < |states| && o !in states[n].heap
    requires Alive(states[n], th) && states[n].heap[th].Thread? && level < states[n].heap[th].top
    ensures var (t, u) := FindUpval(states[n], th, level, o);
            && Inv(t) && Alive(t, u) && IsOpenUpval(t.heap, u) && t.heap[u].loc == Open(th, level)
            && (forall v | IsOpenUpval(states[n].heap, v) && states[n].heap[v].loc == Open(th, level) :: u == v)
  {
    hide IsRun, PhaseOk, LiveClosed, RootListOk, StringsOk, OpenListOk, FindUpval;
    RunInv(states, steps, n);
    var s := states[n];
    FindUpvalKeeps(s, th, level, o);
  }

  /** luaF_close at any point detaches exactly the open upvalues at or above the level, with the values of their slots. */
  lemma CloseAnywhere(states: seq<State>, steps: seq<Step>, n: nat, th: Ref, level: nat)
    requires IsRun(states, steps) && n < |states|
    requires th in states[n].heap && states[n].heap[th].Thread?
    ensures Inv(states[n]) && ClosedFrom(states[n], CloseUpvals(states[n], th, level), th, level)
  {
    hide IsRun, Inv, ClosedFrom, CloseUpvals;
    RunInv(states, steps, n);
    CloseUpvalsCloses(states[n], th, level);
  }
}
