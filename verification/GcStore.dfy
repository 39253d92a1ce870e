/** Stores of the mutator together with the barriers that follow them. */
module GcStore {
  import opened GcHeap
  import opened GcMark
  import opened GcTricolor
  import opened GcInvariant
  import opened GcBarrier
  import opened GcAlloc
  import opened GcUpval

  lemma StoreForwardKeeps(s: State, r: Ref, b: Body, v: Value)
    requires Inv(s) && GoodStore(s, r, b) && AllAlive(s, ValueRefs(v))
    requires Holds(s.heap[r := b], r) <= Holds(s.heap, r) + ValueRefs(v)
    ensures var t := SetBody(s, r, b);
            && r in t.color && ValueRefs(v) <= t.color.Keys && (t.gcstate == Propagate ==> Ready(t))
            && Inv(ValueBarrier(t, r, v))
  {
    hide Static, PhaseOk, GoodStore, Holds;
    StoreAlive(s, r, b);
    StoreOk(s, r, b, ValueRefs(v));
    StoredBarrier(SetBody(s, r, b), r, v);
  }

  lemma StoredBarrier(t: State, r: Ref, v: Value)
    requires Stored(t, r, ValueRefs(v))
    ensures r in t.color && ValueRefs(v) <= t.color.Keys && (t.gcstate == Propagate ==> Ready(t))
    ensures Inv(ValueBarrier(t, r, v))
  {
    hide Static, PhaseOk;
    StaticLive(t);
    if t.gcstate == Propagate {
      PropagateReady(t, {r});
    }
    if v.Gc? {
      assert ValueRefs(v) == {} + {v.ref};
      ObjBarrierOk(t, r, v.ref, {});
      StoredDone(ObjBarrier(t, r, v.ref), r);
    } else {
      StoredDone(t, r);
    }
  }

  lemma StoreBackKeeps(s: State, r: Ref, b: Body, k: Value, v: Value)
    requires Inv(s) && GoodStore(s, r, b) && b.Table? && AllAlive(s, ValueRefs(k) + ValueRefs(v))
    requires Holds(s.heap[r := b], r) <= Holds(s.heap, r) + (ValueRefs(k) + ValueRefs(v))
    ensures var t := SetBody(s, r, b);
            && r in t.color && ValueRefs(k) <= t.color.Keys
            && var u := ValueBarrierBack(t, r, k);
            && r in u.color && ValueRefs(v) <= u.color.Keys
            && Inv(ValueBarrierBack(u, r, v))
  {
    hide Static, PhaseOk, GoodStore, Holds;
    StoreAlive(s, r, b);
    StoreOk(s, r, b, ValueRefs(k) + ValueRefs(v));
    var t := SetBody(s, r, b);
    StaticLive(t);
    assert ValueRefs(k) + ValueRefs(v) == ValueRefs(v) + ValueRefs(k);
    StoredBack(t, r, k, ValueRefs(v));
    var u := ValueBarrierBack(t, r, k);
    assert ValueRefs(v) == {} + ValueRefs(v);
    StoredBack(u, r, v, {});
    StoredDone(ValueBarrierBack(u, r, v), r);
  }

  lemma StoredBack(t: State, r: Ref, v: Value, todo: set<Ref>)
    requires Stored(t, r, todo + ValueRefs(v)) && t.heap[r].Table?
    ensures r in t.color && ValueRefs(v) <= t.color.Keys
    ensures Stored(ValueBarrierBack(t, r, v), r, todo) && ValueBarrierBack(t, r, v).heap == t.heap
  {
    hide Static, PhaseOk;
    StaticLive(t);
    if v.Gc? {
      assert todo + ValueRefs(v) == todo + {v.ref};
      ObjBarrierBackOk(t, r, v.ref, todo);
    } else {
      assert todo + ValueRefs(v) == todo;
    }
  }

  /** A thread is never black, so its slots are written without a barrier. */
  lemma StoreThreadKeeps(s: State, th: Ref, b: Body)
    requires Inv(s) && GoodStore(s, th, b) && b.Thread?
    ensures Inv(SetBody(s, th, b))
  {
    hide Static, PhaseOk, GoodStore, Holds;
    StoreAlive(s, th, b);
    GoodHolds(s, th, b);
    StoreOk(s, th, b, Holds(s.heap[th := b], th));
    var t := SetBody(s, th, b);
    ThreadNeedsNone(t, th, Holds(s.heap[th := b], th));
    StoredDone(t, th);
  }

  lemma GoodHolds(s: State, r: Ref, b: Body)
    requires GoodStore(s, r, b)
    ensures AllAlive(s, Holds(s.heap[r := b], r))
  {
  }

  lemma ThreadNeedsNone(t: State, th: Ref, todo: set<Ref>)
    requires Stored(t, th, todo) && t.heap[th].Thread?
    ensures Stored(t, th, {})
  {
    hide Static;
  }

  // ---------------------------------------------------------------- stack slots

  function WithSlot(b: Body, level: nat, v: Value): Body
    requires b.Thread? && level < |b.stack|
  {
    b.(stack := b.stack[level := v])
  }

  lemma SlotGood(s: State, th: Ref, level: nat, v: Value)
    requires Inv(s) && Alive(s, th) && HasSlot(s.heap, th, level) && AllAlive(s, ValueRefs(v))
    ensures GoodStore(s, th, WithSlot(s.heap[th], level, v))
  {
    hide PhaseOk, RootListOk, StringsOk, LiveClosed, UpvalsOk, FixedOk, OpenNeverBlack;
    assert AllAlive(s, Holds(s.heap, th)) by { LiveHolds(s, th); }
    assert OpenListOk(s.heap, th) by { ThreadList(s, th); }
    SlotHolds(s, th, level, v);
  }

  lemma ThreadList(s: State, th: Ref)
    requires UpvalsOk(s) && th in s.heap && s.heap[th].Thread?
    ensures OpenListOk(s.heap, th)
  {
  }

  lemma SlotHolds(s: State, th: Ref, level: nat, v: Value)
    requires HasSlot(s.heap, th, level) && AllAlive(s, Holds(s.heap, th)) && AllAlive(s, ValueRefs(v))
    ensures var b := WithSlot(s.heap[th], level, v); AllAlive(s, Holds(s.heap[th := b], th))
  {
    hide IsDead;
    var b := WithSlot(s.heap[th], level, v);
    forall x | x in ValuesRefs(b.stack) ensures Alive(s, x) {
      var i :| 0 <= i < |b.stack| && b.stack[i] == Gc(x);
      if i != level {
        assert s.heap[th].stack[i] in s.heap[th].stack;
        assert x in Holds(s.heap, th);
      } else {
        assert x in ValueRefs(v);
      }
    }
  }

  /** The slot of an open upvalue. */
  lemma OpenSlot(s: State, u: Ref)
    requires UpvalsOk(s) && IsOpenUpval(s.heap, u)
    ensures HasSlot(s.heap, s.heap[u].loc.thread, s.heap[u].loc.level)
  {
    var th := s.heap[u].loc.thread;
    assert OpenListOk(s.heap, th);
    var i :| 0 <= i < |s.heap[th].openupval| && s.heap[th].openupval[i] == u;
  }

  /** A store through an open upvalue that is alive; the thread it is open on may be condemned. */
  lemma SlotStoreKeeps(s: State, u: Ref, v: Value)
    requires Inv(s) && Alive(s, u) && IsOpenUpval(s.heap, u) && AllAlive(s, ValueRefs(v))
    ensures var Open(th, level) := s.heap[u].loc;
            HasSlot(s.heap, th, level) && Inv(SetBody(s, th, WithSlot(s.heap[th], level, v)))
  {
    hide Static, PhaseOk, UpvalsOk, GoodStore, Holds, HasSlot, IsDead;
    StaticUpvals(s);
    OpenSlot(s, u);
    var Open(th, level) := s.heap[u].loc;
    assert th in s.heap && s.heap[th].Thread? && level < |s.heap[th].stack| by { SlotThere(s.heap, th, level); }
    if Alive(s, th) {
      SlotGood(s, th, level, v);
      StoreThreadKeeps(s, th, WithSlot(s.heap[th], level, v));
    } else {
      DeadSlotKeeps(s, th, level, v);
    }
  }

  lemma SlotThere(h: Heap, th: Ref, level: nat)
    requires HasSlot(h, th, level)
    ensures th in h && h[th].Thread? && level < |h[th].stack|
  {
  }

  lemma DeadSlotKeeps(s: State, th: Ref, level: nat, v: Value)
    requires Inv(s) && HasSlot(s.heap, th, level) && IsDead(s, th) && AllAlive(s, ValueRefs(v))
    ensures Inv(SetBody(s, th, WithSlot(s.heap[th], level, v)))
  {
    hide PhaseOk, LiveClosed, RootListOk, StringsOk, UpvalsOk, Holds;
    DeadSlotLive(s, th, level, v);
    DeadSlotLists(s, th, level, v);
    DeadSlotPhase(s, th, level, v);
  }

  /** What a live object holds changes only if it is the upvalue open on the slot. */
  lemma DeadSlotHolds(s: State, th: Ref, level: nat, v: Value, x: Ref)
    requires HasSlot(s.heap, th, level) && IsDead(s, th) && Alive(s, x) && WellShaped(s.heap, x)
    ensures var t := SetBody(s, th, WithSlot(s.heap[th], level, v));
            && Alive(t, x) && WellShaped(t.heap, x)
            && Holds(t.heap, x) == if s.heap[x] == UpVal(Open(th, level)) then ValueRefs(v) else Holds(s.heap, x)
  {
  }

  lemma DeadSlotLive(s: State, th: Ref, level: nat, v: Value)
    requires LiveClosed(s) && HasSlot(s.heap, th, level) && IsDead(s, th) && AllAlive(s, ValueRefs(v))
    ensures LiveClosed(SetBody(s, th, WithSlot(s.heap[th], level, v)))
  {
    hide Holds, WellShaped, HasSlot, AllAlive, WithSlot;
    SlotThere(s.heap, th, level);
    var t := SetBody(s, th, WithSlot(s.heap[th], level, v));
    var changed := set x | x in s.heap && s.heap[x] == UpVal(Open(th, level));
    assert Roots(t) == Roots(s);
    forall x | Alive(s, x)
      ensures Alive(t, x) && WellShaped(t.heap, x)
      ensures Holds(t.heap, x) == if x in changed then ValueRefs(v) else Holds(s.heap, x)
    {
      DeadSlotHolds(s, th, level, v, x);
    }
    LiveFrom(s, t, changed);
  }

  lemma DeadSlotLists(s: State, th: Ref, level: nat, v: Value)
    requires RootListOk(s) && StringsOk(s) && UpvalsOk(s) && HasSlot(s.heap, th, level)
    ensures var t := SetBody(s, th, WithSlot(s.heap[th], level, v)); RootListOk(t) && StringsOk(t) && UpvalsOk(t)
  {
    hide NoDup, UpvalsOk, Hash;
    DeadSlotUpvals(s, th, level, v);
    hide HasSlot;
  }

  lemma DeadSlotList(s: State, th: Ref, level: nat, v: Value, x: Ref)
    requires HasSlot(s.heap, th, level) && x in s.heap && s.heap[x].Thread? && OpenListOk(s.heap, x)
    ensures OpenListOk(SetBody(s, th, WithSlot(s.heap[th], level, v)).heap, x)
  {
    hide NoDup;
  }

  lemma DeadSlotUpvals(s: State, th: Ref, level: nat, v: Value)
    requires UpvalsOk(s) && HasSlot(s.heap, th, level)
    ensures UpvalsOk(SetBody(s, th, WithSlot(s.heap[th], level, v)))
  {
    hide NoDup, OpenListOk;
    var t := SetBody(s, th, WithSlot(s.heap[th], level, v));
    forall x | x in t.heap && t.heap[x].Thread? ensures OpenListOk(t.heap, x) {
      DeadSlotList(s, th, level, v, x);
    }
  }

  /** Something is condemned, so marking is over, and the sweep looks at the open lists only. */
  lemma DeadSlotPhase(s: State, th: Ref, level: nat, v: Value)
    requires PhaseOk(s, {}) && HasSlot(s.heap, th, level) && IsDead(s, th)
    ensures PhaseOk(SetBody(s, th, WithSlot(s.heap[th], level, v)), {})
  {
    hide Tricolor;
    var t := SetBody(s, th, WithSlot(s.heap[th], level, v));
    if s.gcstate == Sweep {
      forall i | 0 <= i < t.sweepgc && i < |t.rootgc| ensures Swept(t, t.rootgc[i]) {
        assert Swept(s, s.rootgc[i]);
      }
    }
  }
}
