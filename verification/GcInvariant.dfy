/** The invariant of the collector: what holds between any two steps, phase by phase. */
module GcInvariant {
  import opened GcHeap
  import opened GcMark
  import opened GcTricolor

  /** Allocated and not condemned by the sweep in progress. */
  predicate Alive(s: State, r: Ref) {
    r in s.heap && !IsDead(s, r)
  }

  ghost predicate AllAlive(s: State, rs: set<Ref>) {
    forall r | r in rs :: Alive(s, r)
  }

  /** No live object stores a pointer to a dead or freed one. */
  ghost predicate LiveClosed(s: State) {
    && AllAlive(s, Roots(s))
    && forall r | Alive(s, r) :: AllAlive(s, Holds(s.heap, r)) && WellShaped(s.heap, r)
  }

  /** The objects linked in `rootgc`; strings and open upvalues have lists of their own. */
  predicate OnRootList(b: Body) {
    !b.Str? && !(b.UpVal? && b.loc.Open?)
  }

  ghost predicate RootListOk(s: State) {
    && NoDup(s.rootgc)
    && (forall r | r in s.rootgc :: r in s.heap && OnRootList(s.heap[r]))
    && (forall r | r in s.heap && OnRootList(s.heap[r]) :: r in s.rootgc)
    && s.sweepgc <= |s.rootgc|
  }

  /** Every string is in the bucket its hash selects, and no two strings have the same bytes. */
  ghost predicate StringsOk(s: State) {
    && 0 < |s.strt|
    && (forall i | 0 <= i < |s.strt| :: NoDup(s.strt[i]))
    && (forall i, r | 0 <= i < |s.strt| && r in s.strt[i] ::
          r in s.heap && s.heap[r].Str? && s.heap[r].hash % |s.strt| == i)
    && (forall r | r in s.heap && s.heap[r].Str? ::
          s.heap[r].hash == Hash(s.heap[r].bytes) && r in s.strt[s.heap[r].hash % |s.strt|])
    && (forall q, r | q in s.heap && r in s.heap && s.heap[q].Str? && s.heap[r].Str? && s.heap[q].bytes == s.heap[r].bytes ::
          q == r)
  }

  /** A thread's open list is strictly descending and holds exactly the upvalues open on its stack. */
  ghost predicate OpenListOk(h: Heap, th: Ref)
    requires th in h && h[th].Thread?
  {
    var ou := h[th].openupval;
    && h[th].top <= |h[th].stack|
    && (forall i | 0 <= i < |ou| :: IsOpenUpval(h, ou[i]) && h[ou[i]].loc.thread == th && h[ou[i]].loc.level < h[th].top)
    && (forall i, j | 0 <= i < j < |ou| :: h[ou[i]].loc.level > h[ou[j]].loc.level)
  }

  ghost predicate UpvalsOk(s: State) {
    && (forall th | th in s.heap && s.heap[th].Thread? :: OpenListOk(s.heap, th))
    && (forall r | r in s.heap && IsOpenUpval(s.heap, r) ::
          var th := s.heap[r].loc.thread;
          th in s.heap && s.heap[th].Thread? && r in s.heap[th].openupval)
    && NoDup(s.uvhead)
    && (forall r | r in s.uvhead :: IsOpenUpval(s.heap, r))
    && (forall r | r in s.heap && IsOpenUpval(s.heap, r) :: r in s.uvhead)
  }

  ghost predicate OpenNeverBlack(s: State) {
    forall r | r in s.heap && IsOpenUpval(s.heap, r) :: r in s.color && s.color[r] != Black
  }

  /** The main thread and some strings are fixed: the sweep never frees them. */
  ghost predicate FixedOk(s: State) {
    && s.fixed <= s.heap.Keys
    && s.mainthread in s.fixed && s.heap[s.mainthread].Thread?
    && forall r | r in s.fixed && r != s.mainthread :: s.heap[r].Str?
  }

  predicate IsCurrent(s: State, r: Ref) {
    r in s.color && s.color[r] == White(s.currentwhite)
  }

  ghost predicate Static(s: State) {
    && s.color.Keys == s.heap.Keys
    && FixedOk(s)
    && OpenNeverBlack(s)
    && s.running in s.heap && s.heap[s.running].Thread?
    && LiveClosed(s)
    && RootListOk(s)
    && StringsOk(s)
    && UpvalsOk(s)
  }

  ghost predicate NothingDead(s: State) {
    forall r | r in s.color :: !IsDead(s, r)
  }

  ghost predicate AllCurrent(s: State, rs: seq<Ref>) {
    forall r | r in rs :: IsCurrent(s, r)
  }

  /** A swept object waits, white, for the next cycle; so do the open upvalues of a swept thread. */
  ghost predicate Swept(s: State, r: Ref) {
    && IsCurrent(s, r)
    && (r in s.heap && s.heap[r].Thread? ==> AllCurrent(s, s.heap[r].openupval))
  }

  ghost predicate PhaseOk(s: State, ex: set<Ref>) {
    match s.gcstate
    case Pause => forall r | r in s.color :: IsCurrent(s, r)
    case Finalize => forall r | r in s.color :: IsCurrent(s, r)
    case Propagate =>
      && NothingDead(s)
      && Tricolor(s, ex, false)
      && AllMarked(s.color, {s.mainthread} + ValueRefs(s.registry))
    case SweepString =>
      && s.sweepgc == 0
      && s.sweepstrgc < |s.strt|
      && forall i | 0 <= i < s.sweepstrgc :: AllCurrent(s, s.strt[i])
    case Sweep =>
      && (forall r | r in s.heap && s.heap[r].Str? :: IsCurrent(s, r))
      && forall i | 0 <= i < s.sweepgc && i < |s.rootgc| :: Swept(s, s.rootgc[i])
  }

  ghost predicate Inv(s: State) {
    Static(s) && PhaseOk(s, {})
  }

  /** What a step of the mutator can name is alive. */
  lemma ReachableIsAlive(s: State)
    requires Static(s)
    ensures forall r :: Reachable(s, r) ==> Alive(s, r)
  {
    var alive := set r | r in s.heap && Alive(s, r);
    forall r | r in alive ensures Children(s.heap, r) <= alive {
      ChildrenAreHeld(s.heap, r);
    }
    ReachableStaysInside(s, alive);
  }

  /** Slots of open upvalues lie below the top of their stack. */
  lemma UpvalsBelowTop(s: State)
    requires UpvalsOk(s)
    ensures SlotsBelowTop(s.heap)
  {
  }

  lemma NothingDeadIsClosed(s: State)
    requires Static(s) && NothingDead(s)
    ensures Ready(s)
  {
    forall r | r in s.heap ensures Holds(s.heap, r) <= s.heap.Keys && WellShaped(s.heap, r) {
      assert Alive(s, r);
    }
  }

  /**
   * A change that keeps the live objects and what they hold keeps the live part of the heap closed,
   * if the objects in `changed` hold live objects only.
   */
  lemma LiveFrom(s: State, t: State, changed: set<Ref>)
    requires LiveClosed(s) && Roots(t) == Roots(s)
    requires forall x | Alive(s, x) :: Alive(t, x)
    requires forall x | Alive(t, x) && x !in changed ::
               Alive(s, x) && Holds(t.heap, x) == Holds(s.heap, x) && WellShaped(t.heap, x)
    requires forall x | x in changed && Alive(t, x) :: AllAlive(s, Holds(t.heap, x)) && WellShaped(t.heap, x)
    ensures LiveClosed(t)
  {
    hide Holds, WellShaped, Roots, AllAlive, IsDead;
    MoreAlive(s, t, Roots(s));
    forall x | Alive(t, x) ensures AllAlive(t, Holds(t.heap, x)) && WellShaped(t.heap, x) {
      assert AllAlive(s, Holds(t.heap, x));
      MoreAlive(s, t, Holds(t.heap, x));
    }
  }

  /** The same strings in the same buckets. */
  lemma SameStrings(s: State, t: State)
    requires StringsOk(s) && t.strt == s.strt
    requires forall r | r in s.heap && s.heap[r].Str? :: r in t.heap && t.heap[r] == s.heap[r]
    requires forall r | r in t.heap && t.heap[r].Str? :: r in s.heap && s.heap[r].Str?
    ensures StringsOk(t)
  {
    hide NoDup, Hash;
  }

  lemma MoreAlive(s: State, t: State, rs: set<Ref>)
    requires AllAlive(s, rs) && forall x | Alive(s, x) :: Alive(t, x)
    ensures AllAlive(t, rs)
  {
  }

  lemma LiveShaped(s: State)
    requires LiveClosed(s)
    ensures forall x | Alive(s, x) :: WellShaped(s.heap, x)
  {
  }
}
