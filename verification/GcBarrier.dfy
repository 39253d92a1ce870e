/** The write barriers of lgc.c and lgc.h, and the invariant they restore after a store. */
module GcBarrier {
  import opened GcHeap
  import opened GcMark
  import opened GcTricolor
  import opened GcInvariant

  // ---------------------------------------------------------------- stores

  /** The body `c` may replace `b` in place: same kind, same list, same open upvalues. */
  predicate SameSlot(b: Body, c: Body) {
    match (b, c)
    case (Udata(_, _), Udata(_, _)) => true
    case (UpVal(l), UpVal(m)) => l.Closed? && m.Closed?
    case (CClosure(_, _), CClosure(_, _)) => true
    case (LClosure(_, _, _), LClosure(_, _, _)) => true
    case (Table(_, _, _), Table(_, _, _)) => true
    case (Thread(_, _, _, ou), Thread(_, _, _, ou')) => ou == ou'
    case (Proto(_, _, _, _, _), Proto(_, _, _, _, _)) => true
    case _ => false
  }

  /** Open upvalues of a thread stay below the new stack top. */
  ghost predicate KeepsOpenSlots(h: Heap, r: Ref, b: Body)
    requires r in h
  {
    b.Thread? ==>
      && b.top <= |b.stack|
      && forall u | u in b.openupval && IsOpenUpval(h, u) :: h[u].loc.level < b.top
  }

  /** A store that only writes live pointers into a live object. */
  ghost predicate GoodStore(s: State, r: Ref, b: Body) {
    && Alive(s, r)
    && SameSlot(s.heap[r], b)
    && AllAlive(s, Holds(s.heap[r := b], r))
    && WellShaped(s.heap[r := b], r)
    && KeepsOpenSlots(s.heap, r, b)
  }

  /** A store into one object changes what another holds only if that is an upvalue open on its stack. */
  lemma StoreHolds(h: Heap, r: Ref, b: Body, x: Ref)
    requires r in h && SameSlot(h[r], b) && x in h && x != r
    ensures Holds(h[r := b], x) <= Holds(h, x) + (if b.Thread? then ValuesRefs(b.stack) else {})
    ensures !IsOpenUpval(h, x) ==> Holds(h[r := b], x) == Holds(h, x)
  {
    var h' := h[r := b];
    if IsOpenUpval(h, x) {
      var Open(th, level) := h[x].loc;
      if th == r && HasSlot(h', th, level) {
        assert b.stack[level] in b.stack;
      }
    }
  }

  lemma StoreLive(s: State, r: Ref, b: Body)
    requires LiveClosed(s) && GoodStore(s, r, b)
    ensures LiveClosed(SetBody(s, r, b))
  {
    hide SameSlot, KeepsOpenSlots, WellShaped, Holds;
    var t := SetBody(s, r, b);
    forall x | Alive(t, x) ensures AllAlive(t, Holds(t.heap, x)) && WellShaped(t.heap, x) {
      assert Alive(s, x);
      if x != r {
        StoreHolds(s.heap, r, b, x);
        ShapeElsewhere(s.heap, r, b, x);
        StackHeldBy(t.heap, r);
      }
    }
  }

  lemma ShapeElsewhere(h: Heap, r: Ref, b: Body, x: Ref)
    requires r in h && SameSlot(h[r], b) && x in h && x != r && WellShaped(h, x)
    ensures WellShaped(h[r := b], x)
  {
  }

  lemma StackHeldBy(h: Heap, r: Ref)
    requires r in h
    ensures h[r].Thread? ==> ValuesRefs(h[r].stack) <= Holds(h, r)
  {
  }

  lemma StaticLive(s: State)
    requires Static(s)
    ensures LiveClosed(s) && s.color.Keys == s.heap.Keys
  {
  }

  lemma StaticOpen(s: State)
    requires Static(s)
    ensures OpenNeverBlack(s)
  {
  }

  lemma StoreUpvals(s: State, r: Ref, b: Body)
    requires UpvalsOk(s) && GoodStore(s, r, b)
    ensures UpvalsOk(SetBody(s, r, b))
  {
    var t := SetBody(s, r, b);
    forall th | th in t.heap && t.heap[th].Thread? ensures OpenListOk(t.heap, th) {
      assert OpenListOk(s.heap, th);
    }
  }

  lemma StoreLists(s: State, r: Ref, b: Body)
    requires RootListOk(s) && StringsOk(s) && FixedOk(s) && OpenNeverBlack(s) && GoodStore(s, r, b)
    ensures RootListOk(SetBody(s, r, b)) && StringsOk(SetBody(s, r, b))
    ensures FixedOk(SetBody(s, r, b)) && OpenNeverBlack(SetBody(s, r, b))
  {
  }

  /** A good store keeps every structural invariant; only the stored-to object needs a barrier. */
  lemma StoreStatic(s: State, r: Ref, b: Body)
    requires Static(s) && GoodStore(s, r, b)
    ensures Static(SetBody(s, r, b))
  {
    hide LiveClosed, RootListOk, StringsOk, UpvalsOk, GoodStore, FixedOk, OpenNeverBlack;
    assert Alive(s, r) && SameSlot(s.heap[r], b) by { StoreAlive(s, r, b); }
    StoreLive(s, r, b);
    StoreUpvals(s, r, b);
    StoreLists(s, r, b);
  }

  lemma StoreAlive(s: State, r: Ref, b: Body)
    requires GoodStore(s, r, b)
    ensures Alive(s, r) && SameSlot(s.heap[r], b)
  {
  }

  lemma StoreTricolor(s: State, r: Ref, b: Body)
    requires r in s.heap && SameSlot(s.heap[r], b) && Tricolor(s, {}, false)
    ensures Tricolor(SetBody(s, r, b), {r}, false)
  {
    hide Holds;
    var t := SetBody(s, r, b);
    forall x | x in t.color ensures BlackOk(t, x, {r}) && GrayOk(t, x, {r}, false) {
      assert BlackOk(s, x, {}) && GrayOk(s, x, {}, false);
      if x != r {
        StoreHolds(s.heap, r, b, x);
      }
    }
  }

  lemma StorePhase(s: State, r: Ref, b: Body)
    requires GoodStore(s, r, b) && PhaseOk(s, {})
    ensures PhaseOk(SetBody(s, r, b), {r})
  {
    hide Tricolor, LiveClosed, Holds, WellShaped, KeepsOpenSlots;
    var t := SetBody(s, r, b);
    match s.gcstate
    case Propagate =>
      StoreTricolor(s, r, b);
    case Sweep =>
      forall i | 0 <= i < t.sweepgc && i < |t.rootgc| ensures Swept(t, t.rootgc[i]) {
        assert Swept(s, s.rootgc[i]);
      }
    case _ =>
  }

  // ---------------------------------------------------------------- the barriers

  /** luaC_barrierf: marks the stored object, or whitens the parent if marking is over. */
  function BarrierForward(s: State, r: Ref, v: Ref): State
    requires r in s.color && IsWhite(s.color, v) && (s.gcstate == Propagate ==> Ready(s))
  {
    if s.gcstate == Propagate then ReallyMark(s, v)
    else Paint(s, r, White(s.currentwhite))
  }

  /** luaC_barrierback: the table turns gray and will be traversed again in the atomic step. */
  function BarrierBack(s: State, r: Ref): State
    requires r in s.color
  {
    Paint(s, r, Gray).(grayagain := [r] + s.grayagain)
  }

  /** luaC_objbarrier. */
  function ObjBarrier(s: State, r: Ref, v: Ref): State
    requires r in s.color && v in s.color && (s.gcstate == Propagate ==> Ready(s))
  {
    if IsWhite(s.color, v) && s.color[r].Black? then BarrierForward(s, r, v) else s
  }

  /** luaC_barrier. */
  function ValueBarrier(s: State, r: Ref, v: Value): State
    requires r in s.color && ValueRefs(v) <= s.color.Keys && (s.gcstate == Propagate ==> Ready(s))
  {
    if v.Gc? then ObjBarrier(s, r, v.ref) else s
  }

  /** luaC_objbarriert. */
  function ObjBarrierBack(s: State, r: Ref, v: Ref): State
    requires r in s.color && v in s.color
  {
    if IsWhite(s.color, v) && s.color[r].Black? then BarrierBack(s, r) else s
  }

  /** luaC_barriert. */
  function ValueBarrierBack(s: State, r: Ref, v: Value): State
    requires r in s.color && ValueRefs(v) <= s.color.Keys
  {
    if v.Gc? then ObjBarrierBack(s, r, v.ref) else s
  }

  /** A barrier leaves none due for the pair, in any phase: the target is marked, or the parent is not black any more. */
  lemma BarrierSettles(s: State, r: Ref, v: Ref)
    requires r in s.color && v in s.color && (s.gcstate == Propagate ==> Ready(s))
    ensures var t := ObjBarrier(s, r, v); r in t.color && !(IsWhite(t.color, v) && t.color[r].Black?)
    ensures var t := ObjBarrierBack(s, r, v); r in t.color && !(IsWhite(t.color, v) && t.color[r].Black?)
  {
    hide HeapClosed;
    if s.gcstate == Propagate && IsWhite(s.color, v) {
      MarkedIsNotWhite(s, v);
    }
  }

  lemma MarkedIsNotWhite(s: State, v: Ref)
    requires Ready(s) && IsWhite(s.color, v)
    ensures v in ReallyMark(s, v).color && !IsWhite(ReallyMark(s, v).color, v)
  {
    hide HeapClosed;
  }

  /**
   * The state between a store and its barriers: `r` may hold pointers to the white objects in `todo`
   * and is exempt from the invariant until their barriers have run.
   */
  ghost predicate Stored(s: State, r: Ref, todo: set<Ref>) {
    && Static(s) && PhaseOk(s, {r})
    && Alive(s, r) && AllAlive(s, todo)
    && (s.gcstate == Propagate ==>
          && GrayOk(s, r, {}, false)
          && (s.color[r].Black? ==> CanBeBlack(s.heap[r]) && AllMarked(s.color, Holds(s.heap, r) - todo)))
  }

  lemma StoreOk(s: State, r: Ref, b: Body, todo: set<Ref>)
    requires Inv(s) && GoodStore(s, r, b) && AllAlive(s, todo)
    requires Holds(s.heap[r := b], r) <= Holds(s.heap, r) + todo
    ensures Stored(SetBody(s, r, b), r, todo)
  {
    hide Static, Holds, GoodStore;
    StoreAlive(s, r, b);
    StoreStatic(s, r, b);
    StorePhase(s, r, b);
    if s.gcstate == Propagate {
      assert s.color.Keys == s.heap.Keys by { StaticLive(s); }
      assert BlackOk(s, r, {}) && GrayOk(s, r, {}, false);
    }
  }

  lemma StoredDone(s: State, r: Ref)
    requires Stored(s, r, {})
    ensures Inv(s)
  {
    if s.gcstate == Propagate {
      TricolorNarrower(s, {}, r, false);
    }
  }

  /** Recolouring that neither kills nor revives an object keeps the structural invariants. */
  lemma StaticSameAlive(s: State, t: State)
    requires Static(s)
    requires t == s.(color := t.color, gray := t.gray, grayagain := t.grayagain)
    requires t.color.Keys == s.color.Keys
    requires forall r :: Alive(s, r) <==> Alive(t, r)
    requires OpenNeverBlack(t)
    ensures Static(t)
  {
    hide RootListOk, StringsOk, UpvalsOk, LiveClosed;
    SameLists(s, t);
    SameLive(s, t);
  }

  lemma SameLists(s: State, t: State)
    requires RootListOk(s) && StringsOk(s) && UpvalsOk(s)
    requires t.heap == s.heap && t.rootgc == s.rootgc && t.sweepgc == s.sweepgc && t.strt == s.strt && t.uvhead == s.uvhead
    ensures RootListOk(t) && StringsOk(t) && UpvalsOk(t)
  {
    hide OpenListOk;
  }

  lemma SameLive(s: State, t: State)
    requires LiveClosed(s) && t.heap == s.heap && Roots(t) == Roots(s)
    requires forall r :: Alive(s, r) <==> Alive(t, r)
    ensures LiveClosed(t)
  {
    hide Alive, Holds, WellShaped, Roots;
  }

  lemma MarkSameAlive(s: State, t: State)
    requires Static(s) && NothingDead(s) && Marked(s, t) && OpenNeverBlack(t)
    ensures Static(t) && NothingDead(t)
  {
    hide Static;
    assert s.color.Keys == s.heap.Keys by { StaticLive(s); }
    StaticSameAlive(s, t);
  }

  lemma ObjBarrierOk(s: State, r: Ref, v: Ref, todo: set<Ref>)
    requires Stored(s, r, todo + {v})
    ensures r in s.color && v in s.color && (s.gcstate == Propagate ==> Ready(s))
    ensures Stored(ObjBarrier(s, r, v), r, todo)
  {
    StaticLive(s);
    assert Alive(s, v);
    if s.gcstate == Propagate {
      NothingDeadIsClosed(s);
    }
    var t := ObjBarrier(s, r, v);
    if IsWhite(s.color, v) && s.color[r].Black? {
      if s.gcstate == Propagate {
        BarrierMarks(s, r, v, todo);
      } else {
        BarrierWhitens(s, r, v, todo);
      }
    }
  }

  lemma BarrierMarks(s: State, r: Ref, v: Ref, todo: set<Ref>)
    requires Stored(s, r, todo + {v}) && s.gcstate == Propagate && Ready(s)
    requires r in s.color && IsWhite(s.color, v) && s.color[r].Black?
    ensures Stored(ReallyMark(s, v), r, todo)
  {
    hide Static, Tricolor, HeapClosed;
    AllClosed(s.heap);
    ReallyMarkKeeps(s, v, {r}, false, s.heap.Keys);
    var t := ReallyMark(s, v);
    TricolorOpen(t, {r});
    MarkSameAlive(s, t);
  }

  lemma TricolorOpen(s: State, ex: set<Ref>)
    requires Tricolor(s, ex, false)
    ensures OpenNeverBlack(s)
  {
    forall r | r in s.heap && IsOpenUpval(s.heap, r) ensures s.color[r] != Black {
      assert BlackOk(s, r, ex);
    }
  }

  lemma AllClosed(h: Heap)
    requires HeapClosed(h)
    ensures ClosedUnderChildren(h, h.Keys)
  {
    forall r | r in h ensures Children(h, r) <= h.Keys {
      ChildrenAreHeld(h, r);
    }
  }

  lemma BarrierWhitens(s: State, r: Ref, v: Ref, todo: set<Ref>)
    requires Stored(s, r, todo + {v}) && s.gcstate != Propagate
    requires r in s.color && IsWhite(s.color, v) && s.color[r].Black?
    ensures Stored(Paint(s, r, White(s.currentwhite)), r, todo)
  {
    hide Static;
    StaticOpen(s);
    var t := Paint(s, r, White(s.currentwhite));
    assert Alive(t, r);
    StaticSameAlive(s, t);
  }

  lemma ObjBarrierBackOk(s: State, r: Ref, v: Ref, todo: set<Ref>)
    requires Stored(s, r, todo + {v}) && s.heap[r].Table?
    ensures r in s.color && v in s.color
    ensures Stored(ObjBarrierBack(s, r, v), r, todo)
  {
    StaticLive(s);
    assert Alive(s, v);
    if IsWhite(s.color, v) && s.color[r].Black? {
      BackGrays(s, r, v, todo);
    }
  }

  lemma BackGrays(s: State, r: Ref, v: Ref, todo: set<Ref>)
    requires Stored(s, r, todo + {v}) && s.heap[r].Table?
    requires r in s.color && s.color[r].Black?
    ensures Stored(BarrierBack(s, r), r, todo)
  {
    hide Static, Tricolor;
    StaticOpen(s);
    var t := BarrierBack(s, r);
    assert Alive(t, r);
    StaticSameAlive(s, t);
    if s.gcstate == Propagate {
      BackTricolor(s, r);
    }
  }

  lemma BackTricolor(s: State, r: Ref)
    requires Tricolor(s, {r}, false) && r in s.color && s.color[r].Black? && s.heap[r].Table?
    ensures Tricolor(BarrierBack(s, r), {r}, false)
  {
    hide Holds;
    var t := BarrierBack(s, r);
    assert r !in s.gray && r !in s.grayagain;
    NoDupCons(r, s.grayagain);
    forall x | x in t.color ensures BlackOk(t, x, {r}) && GrayOk(t, x, {r}, false) {
      assert BlackOk(s, x, {r}) && GrayOk(s, x, {r}, false);
    }
  }

  /** The assertions at the head of both barriers hold whenever a barrier is reached. */
  lemma BarrierAssertions(s: State, r: Ref, v: Ref)
    requires Stored(s, r, {v}) && s.color[r].Black? && IsWhite(s.color, v)
    ensures !IsDead(s, v) && !IsDead(s, r)
    ensures s.gcstate != Finalize && s.gcstate != Pause
  {
  }
}
