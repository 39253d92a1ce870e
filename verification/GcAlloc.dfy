/** Allocation (luaC_link, luaS_newudata, luaS_newlstr) and the open upvalues of lfunc.c. */
module GcAlloc {
  import opened GcHeap
  import opened GcMark
  import opened GcTricolor
  import opened GcInvariant
  import opened GcBarrier
  import opened Wrappers

  // ---------------------------------------------------------------- linked objects

  function InsertAt(xs: seq<Ref>, i: nat, r: Ref): seq<Ref>
    requires i <= |xs|
  {
    xs[..i] + [r] + xs[i..]
  }

  /** The sweep position keeps designating the same link. */
  function ShiftSweep(pos: nat, i: nat): nat {
    if i < pos then pos + 1 else pos
  }

  /** A new object, white, linked at position `i` of `rootgc`. */
  function LinkAt(s: State, i: nat, r: Ref, b: Body): State
    requires i <= |s.rootgc|
  {
    s.(heap := s.heap[r := b], color := s.color[r := White(s.currentwhite)],
       rootgc := InsertAt(s.rootgc, i, r), sweepgc := ShiftSweep(s.sweepgc, i))
  }

  /** luaC_link: at the head of the list. */
  function NewObject(s: State, r: Ref, b: Body): State {
    LinkAt(s, 0, r, b)
  }

  /** luaS_newudata: after the main thread, where all userdata are. */
  function NewUdata(s: State, r: Ref, env: Ref): State
    requires s.mainthread in s.rootgc
  {
    LinkAt(s, IndexOf(s.rootgc, s.mainthread) + 1, r, Udata(None, env))
  }

  ghost predicate GoodObject(s: State, r: Ref, b: Body) {
    && r !in s.heap
    && OnRootList(b)
    && AllAlive(s, Holds(s.heap[r := b], r))
    && WellShaped(s.heap[r := b], r)
    && (b.Thread? ==> b.openupval == [])
  }

  lemma HoldsAfterAlloc(s: State, r: Ref, b: Body, x: Ref)
    requires UpvalsOk(s) && r !in s.heap && x in s.heap
    ensures Holds(s.heap[r := b], x) == Holds(s.heap, x)
  {
  }

  lemma ShapeAfterAlloc(s: State, r: Ref, b: Body, x: Ref)
    requires LiveClosed(s) && r !in s.heap && Alive(s, x)
    ensures WellShaped(s.heap[r := b], x)
  {
    assert WellShaped(s.heap, x) && AllAlive(s, Holds(s.heap, x));
    if s.heap[x].Proto? {
      forall n | n in NameRefs(s.heap[x]) ensures n != r {
        assert n in Holds(s.heap, x);
      }
    }
  }

  lemma AllocElsewhere(s: State, t: State, r: Ref, b: Body)
    requires LiveClosed(s) && UpvalsOk(s) && r !in s.heap
    requires t.heap == s.heap[r := b] && t.color == s.color[r := White(s.currentwhite)] && t.currentwhite == s.currentwhite
    ensures forall x | Alive(s, x) :: Alive(t, x)
    ensures forall x | Alive(t, x) && x !in {r} ::
              Alive(s, x) && Holds(t.heap, x) == Holds(s.heap, x) && WellShaped(t.heap, x)
  {
    hide UpvalsOk, WellShaped, Holds, LiveClosed;
    forall x | Alive(t, x) && x !in {r}
      ensures Alive(s, x) && Holds(t.heap, x) == Holds(s.heap, x) && WellShaped(t.heap, x)
    {
      HoldsAfterAlloc(s, r, b, x);
      ShapeAfterAlloc(s, r, b, x);
    }
  }

  lemma AllocLive(s: State, t: State, r: Ref, b: Body)
    requires Static(s) && r !in s.heap && AllAlive(s, Holds(s.heap[r := b], r)) && WellShaped(s.heap[r := b], r)
    requires t.heap == s.heap[r := b] && t.color == s.color[r := White(s.currentwhite)] && t.currentwhite == s.currentwhite
    requires Roots(t) == Roots(s)
    ensures LiveClosed(t)
  {
    hide Static, WellShaped, Holds, AllAlive, LiveClosed, Roots, UpvalsOk, IsDead;
    StaticLive(s);
    StaticUpvals(s);
    AllocElsewhere(s, t, r, b);
    LiveFrom(s, t, {r});
  }

  lemma StaticUpvals(s: State)
    requires Static(s)
    ensures UpvalsOk(s) && RootListOk(s) && StringsOk(s)
  {
  }

  lemma LinkLists(s: State, i: nat, r: Ref, b: Body)
    requires RootListOk(s) && StringsOk(s) && i <= |s.rootgc| && r !in s.heap && OnRootList(b)
    ensures RootListOk(LinkAt(s, i, r, b)) && StringsOk(LinkAt(s, i, r, b))
  {
    var t := LinkAt(s, i, r, b);
    assert r !in s.rootgc;
    assert forall x :: x in t.rootgc <==> x == r || x in s.rootgc by {
      assert forall x :: x in s.rootgc <==> x in s.rootgc[..i] || x in s.rootgc[i..] by {
        assert s.rootgc == s.rootgc[..i] + s.rootgc[i..];
      }
    }
  }

  lemma OpenListFrame(h: Heap, h': Heap, th: Ref)
    requires th in h && h[th].Thread? && OpenListOk(h, th)
    requires forall x | x in h :: x in h' && h'[x] == h[x]
    ensures OpenListOk(h', th)
  {
  }

  lemma LinkUpvals(s: State, t: State, r: Ref, b: Body)
    requires UpvalsOk(s) && OpenNeverBlack(s) && r !in s.heap && (OnRootList(b) || b.Str?)
    requires b.Thread? ==> b.openupval == [] && b.top <= |b.stack|
    requires t.heap == s.heap[r := b] && t.uvhead == s.uvhead && t.color == s.color[r := White(s.currentwhite)]
    ensures UpvalsOk(t) && OpenNeverBlack(t)
  {
    hide OpenListOk, NoDup;
    forall th | th in t.heap && t.heap[th].Thread? ensures OpenListOk(t.heap, th) {
      if th != r {
        OpenListFrame(s.heap, t.heap, th);
      } else {
        FreshThreadList(t.heap, th);
      }
    }
  }

  lemma FreshThreadList(h: Heap, th: Ref)
    requires th in h && h[th].Thread? && h[th].openupval == [] && h[th].top <= |h[th].stack|
    ensures OpenListOk(h, th)
  {
  }

  lemma AllocTricolor(s: State, t: State, r: Ref, b: Body)
    requires Tricolor(s, {}, false) && UpvalsOk(s) && r !in s.heap
    requires t.heap == s.heap[r := b] && t.color == s.color[r := White(s.currentwhite)]
    requires t.gray == s.gray && t.grayagain == s.grayagain
    ensures Tricolor(t, {}, false)
  {
    hide Holds, UpvalsOk;
    forall x | x in t.color ensures BlackOk(t, x, {}) && GrayOk(t, x, {}, false) {
      if x != r {
        HoldsAfterAlloc(s, r, b, x);
        assert BlackOk(s, x, {}) && GrayOk(s, x, {}, false);
      }
    }
  }

  lemma LinkPhase(s: State, i: nat, r: Ref, b: Body)
    requires PhaseOk(s, {}) && UpvalsOk(s) && RootListOk(s) && s.color.Keys == s.heap.Keys
    requires i <= |s.rootgc| && r !in s.heap && OnRootList(b) && (b.Thread? ==> b.openupval == [])
    ensures PhaseOk(LinkAt(s, i, r, b), {})
  {
    hide Tricolor, UpvalsOk;
    var t := LinkAt(s, i, r, b);
    match s.gcstate
    case Propagate => AllocTricolor(s, t, r, b);
    case Sweep =>
      forall j | 0 <= j < t.sweepgc && j < |t.rootgc| ensures Swept(t, t.rootgc[j]) {
        if j < i {
          assert Swept(s, s.rootgc[j]);
        } else if j > i {
          assert Swept(s, s.rootgc[j-1]);
        }
      }
    case _ =>
  }

  /** A new object with live contents keeps the invariant, wherever the collector is. */
  lemma LinkKeeps(s: State, i: nat, r: Ref, b: Body)
    requires Inv(s) && i <= |s.rootgc| && GoodObject(s, r, b)
    ensures Inv(LinkAt(s, i, r, b)) && Alive(LinkAt(s, i, r, b), r)
  {
    hide LiveClosed, RootListOk, StringsOk, UpvalsOk, OpenNeverBlack, PhaseOk, LinkAt, Holds;
    StaticLive(s);
    LinkPhase(s, i, r, b);
    LinkLists(s, i, r, b);
    var t := LinkAt(s, i, r, b);
    LinkedFields(s, i, r, b);
    LinkUpvals(s, t, r, b);
    AllocLive(s, t, r, b);
  }

  lemma LinkedFields(s: State, i: nat, r: Ref, b: Body)
    requires i <= |s.rootgc|
    ensures var t := LinkAt(s, i, r, b);
            t == s.(heap := s.heap[r := b], color := s.color[r := White(s.currentwhite)],
                    rootgc := t.rootgc, sweepgc := t.sweepgc)
  {
  }

  // ---------------------------------------------------------------- strings

  function HashOf(h: Heap, r: Ref): nat {
    if r in h && h[r].Str? then h[r].hash else 0
  }

  predicate HasBytes(h: Heap, r: Ref, bytes: seq<bv8>) {
    r in h && h[r].Str? && h[r].bytes == bytes
  }

  /** The first string of a bucket with the given bytes. */
  function FindString(h: Heap, bucket: seq<Ref>, bytes: seq<bv8>): Option<Ref> {
    if bucket == [] then None
    else if HasBytes(h, bucket[0], bytes) then Some(bucket[0])
    else FindString(h, bucket[1..], bytes)
  }

  lemma {:induction false} FindStringFinds(h: Heap, bucket: seq<Ref>, bytes: seq<bv8>)
    ensures var o := FindString(h, bucket, bytes);
            match o
            case Some(r) => r in bucket && HasBytes(h, r, bytes)
            case None => forall r | r in bucket :: !HasBytes(h, r, bytes)
  {
    if bucket != [] && !HasBytes(h, bucket[0], bytes) {
      FindStringFinds(h, bucket[1..], bytes);
    }
  }

  /** One chain of luaS_resize: every string moves to the front of its new bucket. */
  function RehashChain(h: Heap, chain: seq<Ref>, buckets: seq<seq<Ref>>): (t: seq<seq<Ref>>)
    requires 0 < |buckets|
    ensures |t| == |buckets|
  {
    if chain == [] then buckets
    else
      var i := HashOf(h, chain[0]) % |buckets|;
      RehashChain(h, chain[1..], buckets[i := [chain[0]] + buckets[i]])
  }

  /** The first `n` chains of the old table, moved. */
  function RehashChains(h: Heap, strt: seq<seq<Ref>>, n: nat, size: nat): (t: seq<seq<Ref>>)
    requires 0 < size && n <= |strt|
    ensures |t| == size
  {
    if n == 0 then seq(size, _ => [])
    else RehashChain(h, strt[n-1], RehashChains(h, strt, n-1, size))
  }

  /** luaS_resize: does nothing while the sweep goes through the string table. */
  function ResizeStrings(s: State, size: nat): State
    requires 0 < size
  {
    if s.gcstate == SweepString then s
    else s.(strt := RehashChains(s.heap, s.strt, |s.strt|, size))
  }

  /** The strings already moved are in their new buckets, each once. */
  ghost predicate Rehashed(h: Heap, buckets: seq<seq<Ref>>, moved: set<Ref>) {
    && 0 < |buckets|
    && (forall i | 0 <= i < |buckets| :: NoDup(buckets[i]))
    && (forall i, r | 0 <= i < |buckets| && r in buckets[i] ::
          r in moved && r in h && h[r].Str? && h[r].hash % |buckets| == i)
    && (forall r | r in moved && r in h && h[r].Str? :: r in buckets[h[r].hash % |buckets|])
  }

  lemma RehashOne(h: Heap, r: Ref, buckets: seq<seq<Ref>>, moved: set<Ref>)
    requires Rehashed(h, buckets, moved) && r in h && h[r].Str? && r !in moved
    ensures var i := h[r].hash % |buckets|;
            Rehashed(h, buckets[i := [r] + buckets[i]], moved + {r})
  {
  }

  lemma {:induction false} RehashChainMoves(h: Heap, chain: seq<Ref>, buckets: seq<seq<Ref>>, moved: set<Ref>)
    requires Rehashed(h, buckets, moved) && NoDup(chain)
    requires forall r | r in chain :: r in h && h[r].Str? && r !in moved
    ensures Rehashed(h, RehashChain(h, chain, buckets), moved + Elements(chain))
  {
    if chain == [] {
      assert moved + Elements(chain) == moved;
    } else {
      var i := h[chain[0]].hash % |buckets|;
      RehashOne(h, chain[0], buckets, moved);
      RehashChainMoves(h, chain[1..], buckets[i := [chain[0]] + buckets[i]], moved + {chain[0]});
      assert moved + {chain[0]} + Elements(chain[1..]) == moved + Elements(chain) by {
        assert chain == [chain[0]] + chain[1..];
      }
    }
  }

  function InChains(strt: seq<seq<Ref>>, n: nat): set<Ref>
    requires n <= |strt|
  {
    set i, r | 0 <= i < n && r in strt[i] :: r
  }

  lemma {:induction false} RehashChainsMove(h: Heap, strt: seq<seq<Ref>>, n: nat, size: nat)
    requires 0 < size && n <= |strt|
    requires forall i | 0 <= i < |strt| :: NoDup(strt[i])
    requires forall i, r | 0 <= i < |strt| && r in strt[i] :: r in h && h[r].Str? && h[r].hash % |strt| == i
    ensures Rehashed(h, RehashChains(h, strt, n, size), InChains(strt, n))
  {
    if n > 0 {
      hide Rehashed;
      RehashChainsMove(h, strt, n-1, size);
      var chain := strt[n-1];
      forall r | r in chain ensures r !in InChains(strt, n-1) {
      }
      RehashChainMoves(h, strt[n-1], RehashChains(h, strt, n-1, size), InChains(strt, n-1));
      assert InChains(strt, n-1) + Elements(strt[n-1]) == InChains(strt, n);
    }
  }

  /** Resizing moves every string to the bucket its hash selects and loses none. */
  lemma ResizeStringsOk(s: State, size: nat)
    requires StringsOk(s) && 0 < size
    ensures StringsOk(ResizeStrings(s, size))
  {
    hide RehashChains, Hash;
    RehashChainsMove(s.heap, s.strt, |s.strt|, size);
    AllInChains(s);
  }

  lemma AllInChains(s: State)
    requires StringsOk(s)
    ensures forall r | r in s.heap && s.heap[r].Str? :: r in InChains(s.strt, |s.strt|)
  {
  }

  lemma ResizeKeeps(s: State, size: nat)
    requires Inv(s) && 0 < size
    ensures Inv(ResizeStrings(s, size))
  {
    hide LiveClosed, RootListOk, StringsOk, UpvalsOk, OpenNeverBlack, FixedOk, PhaseOk;
    ResizeStringsOk(s, size);
    BucketsOnly(s, ResizeStrings(s, size));
  }

  /** Most of the invariant does not look at the string table. */
  lemma BucketsOnly(s: State, t: State)
    requires t == s.(strt := t.strt) && (s.gcstate == SweepString ==> t == s)
    ensures LiveClosed(s) ==> LiveClosed(t)
    ensures RootListOk(s) ==> RootListOk(t)
    ensures UpvalsOk(s) ==> UpvalsOk(t)
    ensures OpenNeverBlack(s) ==> OpenNeverBlack(t)
    ensures FixedOk(s) ==> FixedOk(t)
    ensures PhaseOk(s, {}) ==> PhaseOk(t, {})
  {
    hide OpenListOk, WellShaped, Holds;
    if PhaseOk(s, {}) && s.gcstate == Propagate {
      assert forall r | r in s.color :: BlackOk(s, r, {}) && GrayOk(s, r, {}, false);
      assert forall r | r in t.color :: BlackOk(t, r, {}) && GrayOk(t, r, {}, false);
    }
  }

  // ---------------------------------------------------------------- current white

  /** Giving an object the current white revives it if it was dead; what it holds must be alive. */
  lemma WhitenStatic(s: State, r: Ref)
    requires Static(s) && r in s.heap && AllAlive(s, Holds(s.heap, r)) && WellShaped(s.heap, r)
    ensures Static(Paint(s, r, White(s.currentwhite)))
  {
    hide RootListOk, StringsOk, UpvalsOk, LiveClosed, Holds;
    var t := Paint(s, r, White(s.currentwhite));
    SameLists(s, t);
    WhitenLive(s, r);
  }

  lemma WhitenLive(s: State, r: Ref)
    requires LiveClosed(s) && r in s.heap && r in s.color && AllAlive(s, Holds(s.heap, r)) && WellShaped(s.heap, r)
    ensures LiveClosed(Paint(s, r, White(s.currentwhite)))
  {
    hide Holds, WellShaped, AllAlive, LiveClosed;
    LiveShaped(s);
    LiveFrom(s, Paint(s, r, White(s.currentwhite)), {r});
  }

  predicate Sweeping(s: State) {
    s.gcstate == SweepString || s.gcstate == Sweep
  }

  lemma WhitenPhase(s: State, r: Ref)
    requires PhaseOk(s, {}) && Sweeping(s) && r in s.color
    ensures PhaseOk(Paint(s, r, White(s.currentwhite)), {})
  {
    var t := Paint(s, r, White(s.currentwhite));
    if s.gcstate == Sweep {
      forall i | 0 <= i < t.sweepgc && i < |t.rootgc| ensures Swept(t, t.rootgc[i]) {
        assert Swept(s, s.rootgc[i]);
      }
    }
  }

  /** Only the sweep phases know dead objects. */
  lemma DeadMeansSweeping(s: State, r: Ref)
    requires PhaseOk(s, {}) && IsDead(s, r)
    ensures Sweeping(s)
  {
  }

  /** changewhite on a dead object: it gets the current white back. */
  function Revive(s: State, r: Ref): State {
    if IsDead(s, r) then Paint(s, r, White(s.currentwhite)) else s
  }

  lemma ReviveKeeps(s: State, r: Ref)
    requires Inv(s) && r in s.color && r in s.heap && AllAlive(s, Holds(s.heap, r)) && WellShaped(s.heap, r)
    ensures Inv(Revive(s, r)) && Alive(Revive(s, r), r)
  {
    hide Static, PhaseOk, Holds, WellShaped;
    if IsDead(s, r) {
      DeadMeansSweeping(s, r);
      WhitenStatic(s, r);
      WhitenPhase(s, r);
    }
  }

  // ---------------------------------------------------------------- luaS_newlstr

  /** newlstr: a new string goes to the front of its bucket. */
  function NewString(s: State, r: Ref, bytes: seq<bv8>): State
    requires 0 < |s.strt|
  {
    var i := Hash(bytes) % |s.strt|;
    s.(heap := s.heap[r := Str(bytes, Hash(bytes))], color := s.color[r := White(s.currentwhite)],
       strt := s.strt[i := [r] + s.strt[i]])
  }

  /**
   * luaS_newlstr: the interned string with these bytes, revived if it was dead, or a new one at `r`.
   * The table grows if the caller's load figures say so.
   */
  function Intern(s: State, r: Ref, bytes: seq<bv8>, grow: bool): (State, Ref)
    requires 0 < |s.strt|
  {
    var bucket := s.strt[Hash(bytes) % |s.strt|];
    match FindString(s.heap, bucket, bytes)
    case Some(q) => (Revive(s, q), q)
    case None =>
      var t := NewString(s, r, bytes);
      (if grow then ResizeStrings(t, 2 * |t.strt|) else t, r)
  }

  lemma NewStringOk(s: State, r: Ref, bytes: seq<bv8>)
    requires StringsOk(s) && r !in s.heap
    requires forall q | q in s.heap :: !HasBytes(s.heap, q, bytes)
    ensures StringsOk(NewString(s, r, bytes))
  {
    hide Hash;
    assert r !in s.strt[Hash(bytes) % |s.strt|];
  }

  /** A string that is not in the bucket of its hash is nowhere. */
  lemma NotFoundIsAbsent(s: State, bytes: seq<bv8>)
    requires StringsOk(s)
    requires FindString(s.heap, s.strt[Hash(bytes) % |s.strt|], bytes) == None
    ensures forall q | q in s.heap :: !HasBytes(s.heap, q, bytes)
  {
    hide Hash;
    FindStringFinds(s.heap, s.strt[Hash(bytes) % |s.strt|], bytes);
  }

  lemma StringsHaveBuckets(s: State)
    requires StringsOk(s)
    ensures 0 < |s.strt|
    ensures forall i, r | 0 <= i < |s.strt| && r in s.strt[i] :: r in s.heap && s.heap[r].Str?
  {
  }

  lemma NewStringPhase(s: State, r: Ref, bytes: seq<bv8>)
    requires 0 < |s.strt| && PhaseOk(s, {}) && UpvalsOk(s) && RootListOk(s) && r !in s.heap && s.color.Keys == s.heap.Keys
    ensures PhaseOk(NewString(s, r, bytes), {})
  {
    hide Hash, Tricolor, UpvalsOk;
    var t := NewString(s, r, bytes);
    match s.gcstate
    case Propagate => AllocTricolor(s, t, r, Str(bytes, Hash(bytes)));
    case Sweep =>
      forall i | 0 <= i < t.sweepgc && i < |t.rootgc| ensures Swept(t, t.rootgc[i]) {
        assert Swept(s, s.rootgc[i]);
      }
    case _ =>
  }

  lemma NewStringStatic(s: State, r: Ref, bytes: seq<bv8>)
    requires 0 < |s.strt| && Static(s) && r !in s.heap
    requires forall q | q in s.heap :: !HasBytes(s.heap, q, bytes)
    ensures Static(NewString(s, r, bytes))
  {
    hide LiveClosed, StringsOk, Hash, RootListOk, UpvalsOk, OpenNeverBlack, FixedOk;
    var t := NewString(s, r, bytes);
    var b := Str(bytes, Hash(bytes));
    assert StringsOk(t) by { NewStringOk(s, r, bytes); }
    assert LiveClosed(t) by { AllocLive(s, t, r, b); }
    NewStringLists(s, t, r, b);
  }

  lemma NewStringLists(s: State, t: State, r: Ref, b: Body)
    requires RootListOk(s) && UpvalsOk(s) && OpenNeverBlack(s) && FixedOk(s) && r !in s.heap && b.Str?
    requires t.heap == s.heap[r := b] && t.uvhead == s.uvhead && t.color == s.color[r := White(s.currentwhite)]
    requires t.rootgc == s.rootgc && t.sweepgc == s.sweepgc && t.fixed == s.fixed && t.mainthread == s.mainthread
    ensures RootListOk(t) && UpvalsOk(t) && OpenNeverBlack(t) && FixedOk(t)
  {
    hide UpvalsOk, OpenNeverBlack, NoDup;
    LinkUpvals(s, t, r, b);
  }

  lemma NewStringKeeps(s: State, r: Ref, bytes: seq<bv8>)
    requires Inv(s) && r !in s.heap && 0 < |s.strt|
    requires FindString(s.heap, s.strt[Hash(bytes) % |s.strt|], bytes) == None
    ensures var t := NewString(s, r, bytes);
            0 < |t.strt| && Inv(t) && Alive(t, r) && t.heap[r] == Str(bytes, Hash(bytes))
  {
    hide PhaseOk, Static, Hash, FindString, HasBytes;
    StaticUpvals(s);
    StaticLive(s);
    NotFoundIsAbsent(s, bytes);
    NewStringStatic(s, r, bytes);
    NewStringPhase(s, r, bytes);
  }

  lemma InternNew(s: State, r: Ref, bytes: seq<bv8>, grow: bool)
    requires Inv(s) && r !in s.heap && 0 < |s.strt|
    requires FindString(s.heap, s.strt[Hash(bytes) % |s.strt|], bytes) == None
    ensures var t := if grow then ResizeStrings(NewString(s, r, bytes), 2 * |NewString(s, r, bytes).strt|) else NewString(s, r, bytes);
            Inv(t) && Alive(t, r) && t.heap[r].Str? && t.heap[r].bytes == bytes
  {
    hide Inv, NewString, Hash, RehashChains, FindString;
    NewStringKeeps(s, r, bytes);
    var t := NewString(s, r, bytes);
    ResizeKeeps(t, 2 * |t.strt|);
  }

  lemma InternOld(s: State, q: Ref, bucket: seq<Ref>, bytes: seq<bv8>)
    requires Inv(s) && FindString(s.heap, bucket, bytes) == Some(q)
    ensures Inv(Revive(s, q)) && Alive(Revive(s, q), q) && HasBytes(s.heap, q, bytes)
  {
    hide PhaseOk, Static, FindString;
    StaticLive(s);
    FindStringFinds(s.heap, bucket, bytes);
    ReviveKeeps(s, q);
  }

  /**
   * Interning keeps the invariant in every phase, mid-sweep included, and returns a live string with
   * the given bytes; as no two strings have the same bytes, it is the only one.
   */
  lemma InternKeeps(s: State, r: Ref, bytes: seq<bv8>, grow: bool)
    requires Inv(s) && r !in s.heap
    ensures 0 < |s.strt|
    ensures var (t, q) := Intern(s, r, bytes, grow);
            Inv(t) && Alive(t, q) && HasBytes(t.heap, q, bytes) && (q in s.heap ==> t.heap == s.heap)
  {
    hide PhaseOk, Static, Hash, RehashChains, FindString, NewString, ResizeStrings;
    StaticUpvals(s);
    StringsHaveBuckets(s);
    var bucket := s.strt[Hash(bytes) % |s.strt|];
    match FindString(s.heap, bucket, bytes)
    case Some(q) => InternOld(s, q, bucket, bytes);
    case None => InternNew(s, r, bytes, grow);
  }
}
