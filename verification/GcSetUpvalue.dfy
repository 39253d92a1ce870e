/**
 * lua_setupvalue (lapi.c) stores into an upvalue but puts its barrier on the closure. This is when the
 * invariant of the collector survives that, and when it does not.
 */
module GcSetUpvalue {
  import opened GcHeap
  import opened GcMark
  import opened GcTricolor
  import opened GcInvariant
  import opened GcBarrier
  import opened GcUpval
  import opened GcStore

  /** The store itself: into the upvalue if it is closed, into its slot if it is open. */
  function UpvalueStored(s: State, u: Ref, v: Value): State
    requires u in s.heap && s.heap[u].UpVal?
    requires s.heap[u].loc.Open? ==> HasSlot(s.heap, s.heap[u].loc.thread, s.heap[u].loc.level)
  {
    match s.heap[u].loc
    case Closed(_) => SetBody(s, u, UpVal(Closed(v)))
    case Open(th, level) => SetBody(s, th, WithSlot(s.heap[th], level, v))
  }

  /** lua_setupvalue on the upvalue `u` of the Lua closure `f`: luaC_barrier gets `f`. */
  function SetUpvalue(s: State, f: Ref, u: Ref, v: Value): State
    requires f in s.color && ValueRefs(v) <= s.color.Keys && u in s.heap && s.heap[u].UpVal?
    requires s.heap[u].loc.Open? ==> HasSlot(s.heap, s.heap[u].loc.thread, s.heap[u].loc.level)
    requires s.gcstate == Propagate ==> Ready(UpvalueStored(s, u, v))
  {
    ValueBarrier(UpvalueStored(s, u, v), f, v)
  }

  /** What the call can be given: a live closure, one of its upvalues, a live value. */
  ghost predicate Callable(s: State, f: Ref, u: Ref, v: Value) {
    && Alive(s, f) && s.heap[f].LClosure? && u in s.heap[f].upvals
    && Alive(s, u) && s.heap[u].UpVal?
    && AllAlive(s, ValueRefs(v))
  }

  /** The upvalue is already black, shared with a closure visited before, and `f` is still to be visited. */
  predicate Missed(s: State, f: Ref, u: Ref, v: Value) {
    && s.gcstate == Propagate
    && v.Gc? && IsWhite(s.color, v.ref)
    && u in s.color && s.color[u].Black?
    && f in s.color && !s.color[f].Black?
  }

  lemma SetUpvalueReady(s: State, f: Ref, u: Ref, v: Value)
    requires Inv(s) && Callable(s, f, u, v) && s.heap[u].loc.Closed?
    ensures f in s.color && ValueRefs(v) <= s.color.Keys
    ensures var t := SetBody(s, u, UpVal(Closed(v))); Stored(t, u, ValueRefs(v)) && (s.gcstate == Propagate ==> Ready(t))
  {
    hide PhaseOk, RootListOk, StringsOk, UpvalsOk, LiveClosed, OpenNeverBlack, FixedOk, GoodStore, Stored, IsDead;
    var b := UpVal(Closed(v));
    GoodUpval(s, u, v);
    StoreOk(s, u, b, ValueRefs(v));
    if s.gcstate == Propagate {
      StoredReady(SetBody(s, u, b), u, ValueRefs(v));
    }
  }

  /** An open upvalue is gray while marking goes on, so the store alone is safe. */
  lemma SetOpenKeeps(s: State, f: Ref, u: Ref, v: Value)
    requires Inv(s) && Callable(s, f, u, v) && s.heap[u].loc.Open?
    ensures HasSlot(s.heap, s.heap[u].loc.thread, s.heap[u].loc.level)
    ensures f in s.color && ValueRefs(v) <= s.color.Keys && u in s.color && !s.color[u].Black?
    ensures s.gcstate == Propagate ==> Ready(UpvalueStored(s, u, v))
    ensures Inv(SetUpvalue(s, f, u, v))
  {
    hide Static, PhaseOk, HasSlot, Holds, ValueBarrier, HeapClosed;
    SlotStoreKeeps(s, u, v);
    var t := UpvalueStored(s, u, v);
    OpenIsGray(s, u);
    StaticLive(t);
    assert Alive(t, f) && AllAlive(t, ValueRefs(v));
    AsStored(t, f, ValueRefs(v));
    StoredBarrier(t, f, v);
    StaticLive(s);
  }

  lemma OpenIsGray(s: State, u: Ref)
    requires Static(s) && IsOpenUpval(s.heap, u)
    ensures u in s.color && !s.color[u].Black?
  {
  }

  lemma StoredReady(t: State, u: Ref, todo: set<Ref>)
    requires Stored(t, u, todo) && t.gcstate == Propagate
    ensures Ready(t)
  {
    hide Static;
    PropagateReady(t, {u});
  }

  lemma GoodUpval(s: State, u: Ref, v: Value)
    requires Alive(s, u) && s.heap[u].UpVal? && s.heap[u].loc.Closed? && AllAlive(s, ValueRefs(v))
    ensures var b := UpVal(Closed(v)); GoodStore(s, u, b) && Holds(s.heap[u := b], u) <= Holds(s.heap, u) + ValueRefs(v)
  {
  }

  /** lua_setupvalue keeps the invariant in exactly the cases that are not `Missed`. */
  lemma SetUpvalueExact(s: State, f: Ref, u: Ref, v: Value)
    requires Inv(s) && Callable(s, f, u, v)
    ensures f in s.color && ValueRefs(v) <= s.color.Keys
    ensures s.heap[u].loc.Open? ==> HasSlot(s.heap, s.heap[u].loc.thread, s.heap[u].loc.level)
    ensures s.gcstate == Propagate ==> Ready(UpvalueStored(s, u, v))
    ensures Inv(SetUpvalue(s, f, u, v)) <==> !Missed(s, f, u, v)
  {
    hide Inv, Ready, Stored, ValueBarrier, IsWhite, IsDead, HasSlot;
    if s.heap[u].loc.Open? {
      SetOpenKeeps(s, f, u, v);
      return;
    }
    SetUpvalueReady(s, f, u, v);
    var t := SetBody(s, u, UpVal(Closed(v)));
    if Missed(s, f, u, v) {
      MissedBreaks(t, f, u, v);
    } else if s.gcstate == Propagate && v.Gc? && IsWhite(s.color, v.ref) && u in s.color && s.color[u].Black? {
      BarrierReaches(t, f, u, v.ref);
    } else {
      StillAlive(s, u, UpVal(Closed(v)), f);
      StoredKeeps(t, f, u, v);
    }
  }

  /** The black upvalue now holds a white object, and nothing remembers it. */
  lemma MissedBreaks(t: State, f: Ref, u: Ref, v: Value)
    requires Missed(t, f, u, v) && ValueRefs(v) <= t.color.Keys && u in t.heap && t.heap[u] == UpVal(Closed(v)) && Ready(t)
    ensures ValueBarrier(t, f, v) == t && !Inv(t)
  {
    hide Inv, HeapClosed;
    BlackHolds(t, u);
    assert v.ref in Holds(t.heap, u);
  }

  lemma BlackHolds(t: State, u: Ref)
    ensures Inv(t) && t.gcstate == Propagate && u in t.heap && u in t.color && t.color[u].Black? ==>
              AllMarked(t.color, Holds(t.heap, u))
  {
    hide Static, Holds;
    if Inv(t) && t.gcstate == Propagate && u in t.heap && u in t.color && t.color[u].Black? {
      assert BlackOk(t, u, {});
    }
  }

  lemma StillAlive(s: State, u: Ref, b: Body, f: Ref)
    requires Alive(s, f) && u in s.heap
    ensures Alive(SetBody(s, u, b), f)
  {
  }

  lemma BarrierReaches(t: State, f: Ref, u: Ref, v: Ref)
    requires Stored(t, u, {v}) && t.gcstate == Propagate && Ready(t)
    requires f in t.color && t.color[f].Black? && u in t.color && t.color[u].Black? && IsWhite(t.color, v)
    ensures ValueRefs(Gc(v)) <= t.color.Keys && Inv(ValueBarrier(t, f, Gc(v)))
  {
    hide Static, PhaseOk, HeapClosed;
    assert {v} == {} + {v};
    BarrierMarks(t, u, v, {});
    StoredDone(ReallyMark(t, v), u);
  }

  /** Without a black upvalue holding a white object the store alone keeps the invariant, and so does the barrier on `f`. */
  lemma StoredKeeps(t: State, f: Ref, u: Ref, v: Value)
    requires Stored(t, u, ValueRefs(v)) && (t.gcstate == Propagate ==> Ready(t)) && Alive(t, f)
    requires !(t.gcstate == Propagate && v.Gc? && IsWhite(t.color, v.ref) && u in t.color && t.color[u].Black?)
    ensures f in t.color && ValueRefs(v) <= t.color.Keys && Inv(ValueBarrier(t, f, v))
  {
    hide Static, Inv, Holds, HeapClosed, Stored;
    NothingLeft(t, u, v);
    StoredDone(t, u);
    StoredOnly(t, u, ValueRefs(v));
    AsStored(t, f, ValueRefs(v));
    StoredBarrier(t, f, v);
  }

  lemma StoredOnly(t: State, u: Ref, todo: set<Ref>)
    requires Stored(t, u, todo)
    ensures AllAlive(t, todo)
  {
  }

  lemma NothingLeft(t: State, u: Ref, v: Value)
    requires Stored(t, u, ValueRefs(v))
    requires !(t.gcstate == Propagate && v.Gc? && IsWhite(t.color, v.ref) && u in t.color && t.color[u].Black?)
    ensures Stored(t, u, {})
  {
    hide Static, Holds, Tricolor;
    StaticLive(t);
  }

  lemma AsStored(t: State, f: Ref, todo: set<Ref>)
    requires Inv(t) && Alive(t, f) && AllAlive(t, todo)
    ensures Stored(t, f, todo)
  {
    hide Static, Holds;
    StaticLive(t);
    if t.gcstate == Propagate {
      assert BlackOk(t, f, {}) && GrayOk(t, f, {}, false);
      TricolorWider(t, {}, {f}, false);
    }
  }
}
