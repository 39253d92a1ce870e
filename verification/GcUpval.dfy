/** luaF_findupval and luaF_close: the open upvalues of a thread. */
module GcUpval {
  import opened GcHeap
  import opened GcMark
  import opened GcTricolor
  import opened GcInvariant
  import opened GcBarrier
  import opened GcAlloc

  function LevelOf(h: Heap, r: Ref): nat {
    if r in h && h[r].UpVal? && h[r].loc.Open? then h[r].loc.level else 0
  }

  /** The search of luaF_findupval: the first position whose upvalue is not above `level`. */
  function SearchOpen(h: Heap, ou: seq<Ref>, level: nat, i: nat): (j: nat)
    requires i <= |ou|
    ensures i <= j <= |ou|
    decreases |ou| - i
  {
    if i < |ou| && LevelOf(h, ou[i]) > level then SearchOpen(h, ou, level, i+1) else i
  }

  lemma {:induction false} SearchOpenFinds(h: Heap, ou: seq<Ref>, level: nat, i: nat)
    requires i <= |ou|
    ensures var j := SearchOpen(h, ou, level, i);
            && (forall k | i <= k < j :: LevelOf(h, ou[k]) > level)
            && (j < |ou| ==> LevelOf(h, ou[j]) <= level)
    decreases |ou| - i
  {
    if i < |ou| && LevelOf(h, ou[i]) > level {
      SearchOpenFinds(h, ou, level, i+1);
    }
  }

  /** A new upvalue open on slot `level` of `th`, chained at position `i` of the thread's open list. */
  function ChainUpval(s: State, th: Ref, level: nat, r: Ref, i: nat): State
    requires th in s.heap && s.heap[th].Thread? && i <= |s.heap[th].openupval|
  {
    var b := s.heap[th];
    s.(heap := s.heap[th := b.(openupval := InsertAt(b.openupval, i, r))][r := UpVal(Open(th, level))],
       color := s.color[r := White(s.currentwhite)],
       uvhead := [r] + s.uvhead)
  }

  /** luaF_findupval: the upvalue open on the slot, revived if it was dead, or a new one at `r`. */
  function FindUpval(s: State, th: Ref, level: nat, r: Ref): (State, Ref)
    requires th in s.heap && s.heap[th].Thread?
  {
    var ou := s.heap[th].openupval;
    var i := SearchOpen(s.heap, ou, level, 0);
    if i < |ou| && LevelOf(s.heap, ou[i]) == level then (Revive(s, ou[i]), ou[i])
    else (ChainUpval(s, th, level, r, i), r)
  }

  // ---------------------------------------------------------------- a new open upvalue

  ghost predicate FreshSlot(s: State, th: Ref, level: nat, r: Ref, i: nat) {
    && th in s.heap && s.heap[th].Thread? && level < s.heap[th].top && i <= |s.heap[th].openupval|
    && r !in s.heap
    && (forall k | 0 <= k < i :: LevelOf(s.heap, s.heap[th].openupval[k]) > level)
    && (forall k | i <= k < |s.heap[th].openupval| :: LevelOf(s.heap, s.heap[th].openupval[k]) < level)
  }

  lemma ChainHolds(s: State, th: Ref, level: nat, r: Ref, i: nat, x: Ref)
    requires FreshSlot(s, th, level, r, i) && UpvalsOk(s)
    requires x in s.heap
    ensures Holds(ChainUpval(s, th, level, r, i).heap, x) == Holds(s.heap, x)
  {
    if x == th {
    } else if IsOpenUpval(s.heap, x) {
      var t := s.heap[x].loc.thread;
      assert t != r;
    }
  }

  lemma ChainElsewhere(s: State, th: Ref, level: nat, r: Ref, i: nat)
    requires LiveClosed(s) && UpvalsOk(s) && FreshSlot(s, th, level, r, i)
    ensures var t := ChainUpval(s, th, level, r, i);
            && (forall x | Alive(s, x) :: Alive(t, x))
            && (forall x | Alive(t, x) && x !in {r} ::
                  Alive(s, x) && Holds(t.heap, x) == Holds(s.heap, x) && WellShaped(t.heap, x))
  {
    hide UpvalsOk, Holds, WellShaped, LiveClosed;
    var t := ChainUpval(s, th, level, r, i);
    forall x | Alive(t, x) && x !in {r}
      ensures Alive(s, x) && Holds(t.heap, x) == Holds(s.heap, x) && WellShaped(t.heap, x)
    {
      ChainHolds(s, th, level, r, i, x);
      ShapeAfterAlloc(s, r, UpVal(Open(th, level)), x);
      ChainShape(s, th, level, r, i, x);
    }
  }

  lemma ChainLive(s: State, th: Ref, level: nat, r: Ref, i: nat)
    requires Static(s) && FreshSlot(s, th, level, r, i) && Alive(s, th)
    ensures LiveClosed(ChainUpval(s, th, level, r, i))
  {
    hide Static, Holds, AllAlive, UpvalsOk, WellShaped, LiveClosed, FreshSlot, IsDead;
    StaticLive(s);
    StaticUpvals(s);
    FreshThread(s, th, level, r, i);
    NewUpvalHolds(s, th, level, r, i);
    ChainElsewhere(s, th, level, r, i);
    LiveFrom(s, ChainUpval(s, th, level, r, i), {r});
  }

  lemma ChainShape(s: State, th: Ref, level: nat, r: Ref, i: nat, x: Ref)
    requires FreshSlot(s, th, level, r, i) && x in s.heap && WellShaped(s.heap[r := UpVal(Open(th, level))], x)
    ensures WellShaped(ChainUpval(s, th, level, r, i).heap, x)
  {
  }

  lemma NewUpvalHolds(s: State, th: Ref, level: nat, r: Ref, i: nat)
    requires LiveClosed(s) && UpvalsOk(s) && FreshSlot(s, th, level, r, i) && Alive(s, th)
    ensures AllAlive(s, Holds(ChainUpval(s, th, level, r, i).heap, r))
    ensures WellShaped(ChainUpval(s, th, level, r, i).heap, r)
  {
    hide UpvalsOk;
    var t := ChainUpval(s, th, level, r, i);
    assert AllAlive(s, Holds(s.heap, th)) && WellShaped(s.heap, th);
    assert s.heap[th].stack[level] in s.heap[th].stack;
    assert ValueRefs(s.heap[th].stack[level]) <= Holds(s.heap, th);
  }

  lemma ChainOpenList(s: State, th: Ref, level: nat, r: Ref, i: nat)
    requires FreshSlot(s, th, level, r, i) && OpenListOk(s.heap, th)
    ensures OpenListOk(ChainUpval(s, th, level, r, i).heap, th)
  {
    var ou := s.heap[th].openupval;
    var h := ChainUpval(s, th, level, r, i).heap;
    var ou' := h[th].openupval;
    forall k | 0 <= k < |ou'|
      ensures IsOpenUpval(h, ou'[k]) && h[ou'[k]].loc.thread == th && h[ou'[k]].loc.level < h[th].top
    {
      assert k < i ==> ou'[k] == ou[k];
      assert k > i ==> ou'[k] == ou[k-1];
    }
  }

  lemma ChainOtherList(s: State, th: Ref, level: nat, r: Ref, i: nat, x: Ref)
    requires FreshSlot(s, th, level, r, i) && x in s.heap && x != th && s.heap[x].Thread? && OpenListOk(s.heap, x)
    ensures OpenListOk(ChainUpval(s, th, level, r, i).heap, x)
  {
  }

  lemma ChainUpvals(s: State, th: Ref, level: nat, r: Ref, i: nat)
    requires UpvalsOk(s) && OpenNeverBlack(s) && FreshSlot(s, th, level, r, i)
    ensures UpvalsOk(ChainUpval(s, th, level, r, i)) && OpenNeverBlack(ChainUpval(s, th, level, r, i))
  {
    var t := ChainUpval(s, th, level, r, i);
    ChainOpenList(s, th, level, r, i);
    NoDupCons(r, s.uvhead);
    forall x | x in t.heap && t.heap[x].Thread? && x != th ensures OpenListOk(t.heap, x) {
      ChainOtherList(s, th, level, r, i, x);
    }
    hide OpenListOk, NoDup;
    forall x | x in t.heap && IsOpenUpval(t.heap, x)
      ensures var y := t.heap[x].loc.thread; y in t.heap && t.heap[y].Thread? && x in t.heap[y].openupval
    {
      if x != r && s.heap[x].loc.thread == th {
        assert x in s.heap[th].openupval;
        assert s.heap[th].openupval == s.heap[th].openupval[..i] + s.heap[th].openupval[i..];
      } else if x == r {
        assert t.heap[th].openupval[i] == r;
      }
    }
  }

  lemma ChainLists(s: State, th: Ref, level: nat, r: Ref, i: nat)
    requires RootListOk(s) && StringsOk(s) && FixedOk(s) && FreshSlot(s, th, level, r, i)
    ensures var t := ChainUpval(s, th, level, r, i); RootListOk(t) && StringsOk(t) && FixedOk(t)
  {
  }

  lemma ChainTricolor(s: State, th: Ref, level: nat, r: Ref, i: nat)
    requires Tricolor(s, {}, false) && UpvalsOk(s) && FreshSlot(s, th, level, r, i)
    ensures Tricolor(ChainUpval(s, th, level, r, i), {}, false)
  {
    hide UpvalsOk, Holds;
    var t := ChainUpval(s, th, level, r, i);
    forall x | x in t.color ensures BlackOk(t, x, {}) && GrayOk(t, x, {}, false) {
      if x != r {
        ChainHolds(s, th, level, r, i, x);
        assert BlackOk(s, x, {}) && GrayOk(s, x, {}, false);
      }
    }
  }

  lemma ChainPhase(s: State, th: Ref, level: nat, r: Ref, i: nat)
    requires PhaseOk(s, {}) && UpvalsOk(s) && FreshSlot(s, th, level, r, i) && s.color.Keys == s.heap.Keys
    ensures PhaseOk(ChainUpval(s, th, level, r, i), {})
  {
    hide Tricolor, UpvalsOk;
    var t := ChainUpval(s, th, level, r, i);
    match s.gcstate
    case Propagate => ChainTricolor(s, th, level, r, i);
    case Sweep =>
      forall j | 0 <= j < t.sweepgc && j < |t.rootgc| ensures Swept(t, t.rootgc[j]) {
        var x := s.rootgc[j];
        assert Swept(s, x);
        ChainSwept(s, th, level, r, i, x);
      }
    case _ =>
  }

  lemma ChainSwept(s: State, th: Ref, level: nat, r: Ref, i: nat, x: Ref)
    requires FreshSlot(s, th, level, r, i) && Swept(s, x) && s.color.Keys == s.heap.Keys
    ensures Swept(ChainUpval(s, th, level, r, i), x)
  {
    var t := ChainUpval(s, th, level, r, i);
    if x == th {
      var ou := s.heap[th].openupval;
      forall y | y in t.heap[th].openupval ensures y == r || y in ou {
        assert y in ou[..i] + [r] + ou[i..];
      }
    }
  }

  lemma ChainKeeps(s: State, th: Ref, level: nat, r: Ref, i: nat)
    requires Inv(s) && FreshSlot(s, th, level, r, i) && Alive(s, th)
    ensures Inv(ChainUpval(s, th, level, r, i))
  {
    hide LiveClosed, RootListOk, StringsOk, UpvalsOk, OpenNeverBlack, FixedOk, PhaseOk, FreshSlot;
    FreshThread(s, th, level, r, i);
    ChainLive(s, th, level, r, i);
    ChainUpvals(s, th, level, r, i);
    ChainLists(s, th, level, r, i);
    ChainPhase(s, th, level, r, i);
  }

  lemma FreshThread(s: State, th: Ref, level: nat, r: Ref, i: nat)
    requires FreshSlot(s, th, level, r, i)
    ensures th in s.heap && s.heap[th].Thread? && i <= |s.heap[th].openupval| && r !in s.heap
  {
  }

  /** In a descending list the search stops at the upvalue open on the slot, or at the place for a new one. */
  lemma SearchSplits(h: Heap, th: Ref, level: nat)
    requires th in h && h[th].Thread? && OpenListOk(h, th)
    ensures var ou := h[th].openupval; var i := SearchOpen(h, ou, level, 0);
            && (forall k | 0 <= k < i :: LevelOf(h, ou[k]) > level)
            && (forall k | i < k < |ou| :: LevelOf(h, ou[k]) < level)
            && (i < |ou| ==> IsOpenUpval(h, ou[i]) && h[ou[i]] == UpVal(Open(th, LevelOf(h, ou[i]))) && LevelOf(h, ou[i]) <= level)
  {
    SearchOpenFinds(h, h[th].openupval, level, 0);
  }

  lemma OpenInList(s: State, th: Ref, level: nat)
    requires UpvalsOk(s)
    ensures forall x | x in s.heap && s.heap[x] == UpVal(Open(th, level)) ::
              th in s.heap && s.heap[th].Thread? && x in s.heap[th].openupval && LevelOf(s.heap, x) == level
  {
    hide OpenListOk;
    forall x | x in s.heap && s.heap[x] == UpVal(Open(th, level))
      ensures th in s.heap && s.heap[th].Thread? && x in s.heap[th].openupval && LevelOf(s.heap, x) == level
    {
      assert IsOpenUpval(s.heap, x);
    }
  }

  lemma SearchDecides(s: State, th: Ref, level: nat, r: Ref)
    requires UpvalsOk(s) && th in s.heap && s.heap[th].Thread? && level < s.heap[th].top && r !in s.heap
    ensures var ou := s.heap[th].openupval; var i := SearchOpen(s.heap, ou, level, 0);
            if i < |ou| && LevelOf(s.heap, ou[i]) == level
            then ou[i] in s.heap && s.heap[ou[i]] == UpVal(Open(th, level))
                 && forall x | x in s.heap && s.heap[x] == UpVal(Open(th, level)) :: x == ou[i]
            else FreshSlot(s, th, level, r, i) && forall x | x in s.heap :: s.heap[x] != UpVal(Open(th, level))
  {
    OpenInList(s, th, level);
    assert OpenListOk(s.heap, th);
    hide UpvalsOk, OpenListOk, SearchOpen, IsOpenUpval;
    SearchSplits(s.heap, th, level);
  }

  /**
   * luaF_findupval keeps the invariant and returns the live upvalue open on the slot: the one that
   * was already there, if there was one.
   */
  lemma FindUpvalKeeps(s: State, th: Ref, level: nat, r: Ref)
    requires Inv(s) && Alive(s, th) && s.heap[th].Thread? && level < s.heap[th].top && r !in s.heap
    ensures var (t, q) := FindUpval(s, th, level, r);
            && Inv(t) && Alive(t, q)
            && t.heap[q] == UpVal(Open(th, level))
            && (forall x | x in s.heap && s.heap[x] == UpVal(Open(th, level)) :: q == x)
            && (forall x | x in s.heap && x != th :: x in t.heap && t.heap[x] == s.heap[x])
  {
    hide PhaseOk, Static, FreshSlot, Holds, WellShaped, SearchOpen, AllAlive, UpvalsOk, LiveClosed, StringsOk, RootListOk;
    StaticUpvals(s);
    StaticLive(s);
    SearchDecides(s, th, level, r);
    var ou := s.heap[th].openupval;
    var i := SearchOpen(s.heap, ou, level, 0);
    if i < |ou| && LevelOf(s.heap, ou[i]) == level {
      OpenHolds(s, th, ou[i]);
      ReviveKeeps(s, ou[i]);
    } else {
      ChainKeeps(s, th, level, r, i);
    }
  }

  lemma OpenHolds(s: State, th: Ref, u: Ref)
    requires LiveClosed(s) && Alive(s, th) && s.heap[th].Thread? && u in s.heap && IsOpenUpval(s.heap, u)
    requires s.heap[u].loc.thread == th
    ensures AllAlive(s, Holds(s.heap, u)) && WellShaped(s.heap, u)
  {
    assert AllAlive(s, Holds(s.heap, th));
    var level := s.heap[u].loc.level;
    if level < |s.heap[th].stack| {
      assert s.heap[th].stack[level] in s.heap[th].stack;
    }
  }

  // ---------------------------------------------------------------- luaF_close

  predicate HasOpen(h: Heap, th: Ref) {
    && th in h && h[th].Thread? && h[th].openupval != []
    && IsOpenUpval(h, h[th].openupval[0]) && HasSlot(h, th, h[h[th].openupval[0]].loc.level)
  }

  /** The value in the slot of a thread's topmost open upvalue. */
  function TopValue(h: Heap, th: Ref): Value
    requires HasOpen(h, th)
  {
    h[th].stack[h[h[th].openupval[0]].loc.level]
  }

  /** The thread's body without its topmost open upvalue. */
  function Unchained(h: Heap, th: Ref): Body
    requires HasOpen(h, th)
  {
    h[th].(openupval := h[th].openupval[1..])
  }

  /** A dead upvalue is unlinked and freed. */
  function FreeTop(s: State, th: Ref): State
    requires HasOpen(s.heap, th)
  {
    var u := s.heap[th].openupval[0];
    s.(heap := s.heap[th := Unchained(s.heap, th)] - {u}, color := s.color - {u}, uvhead := Remove(s.uvhead, u))
  }

  /** The color luaC_linkupval leaves. */
  function LinkedColor(s: State, u: Ref): Color {
    if u !in s.color then Gray
    else if !s.color[u].Gray? then s.color[u]
    else if s.gcstate == Propagate then Black
    else White(s.currentwhite)
  }

  /**
   * A live upvalue gets its own copy of the value and moves to `rootgc` (luaC_linkupval): a gray one
   * turns black while marking goes on and white otherwise.
   */
  function DetachTop(s: State, th: Ref): State
    requires HasOpen(s.heap, th)
  {
    var u := s.heap[th].openupval[0];
    s.(heap := s.heap[th := Unchained(s.heap, th)][u := UpVal(Closed(TopValue(s.heap, th)))],
       color := s.color[u := LinkedColor(s, u)],
       uvhead := Remove(s.uvhead, u),
       rootgc := [u] + s.rootgc, sweepgc := ShiftSweep(s.sweepgc, 0))
  }

  lemma OpenTop(s: State, th: Ref)
    requires UpvalsOk(s) && th in s.heap && s.heap[th].Thread? && s.heap[th].openupval != []
    ensures HasOpen(s.heap, th)
    ensures var u := s.heap[th].openupval[0]; u in s.uvhead && u != th && s.heap[u].loc.thread == th
  {
    assert OpenListOk(s.heap, th);
  }

  lemma DetachHolds(s: State, th: Ref, x: Ref)
    requires UpvalsOk(s) && HasOpen(s.heap, th) && x in s.heap
    ensures Holds(DetachTop(s, th).heap, x) == Holds(s.heap, x)
  {
    hide UpvalsOk;
    OpenTop(s, th);
    OpenElsewhere(s, th, x);
  }

  lemma FreeHolds(s: State, th: Ref, x: Ref)
    requires UpvalsOk(s) && HasOpen(s.heap, th) && x in s.heap && x != s.heap[th].openupval[0]
    ensures x in FreeTop(s, th).heap && Holds(FreeTop(s, th).heap, x) == Holds(s.heap, x)
  {
    hide UpvalsOk;
    OpenTop(s, th);
    OpenElsewhere(s, th, x);
  }

  /** The stack of an open upvalue's thread is there, and it is not itself an upvalue. */
  lemma OpenElsewhere(s: State, th: Ref, x: Ref)
    requires UpvalsOk(s) && HasOpen(s.heap, th)
    ensures IsOpenUpval(s.heap, x) ==>
              var y := s.heap[x].loc.thread; y in s.heap && s.heap[y].Thread? && y != s.heap[th].openupval[0]
  {
  }

  lemma UnchainedOpenList(h: Heap, th: Ref, h': Heap)
    requires HasOpen(h, th) && OpenListOk(h, th) && th in h' && h'[th] == Unchained(h, th)
    requires forall x | x in h && x != th && x != h[th].openupval[0] :: x in h' && h'[x] == h[x]
    ensures OpenListOk(h', th)
  {
    var ou := h[th].openupval;
    forall i | 0 <= i < |ou|-1
      ensures IsOpenUpval(h', ou[1..][i]) && h'[ou[1..][i]].loc.thread == th && h'[ou[1..][i]].loc.level < h'[th].top
    {
      assert ou[1..][i] == ou[i+1];
    }
  }

  lemma UnchainedOther(h: Heap, h': Heap, th: Ref, u: Ref, x: Ref)
    requires x in h && h[x].Thread? && x != th && OpenListOk(h, x)
    requires IsOpenUpval(h, u) && h[u].loc.thread == th && x in h' && h'[x] == h[x]
    requires forall y | y in h && y != th && y != u :: y in h' && h'[y] == h[y]
    requires th in h && h[th].Thread?
    ensures OpenListOk(h', x)
  {
  }

  /** The structure after the topmost open upvalue left the open lists, closed or freed. */
  lemma UnchainedUpvals(s: State, t: State, th: Ref)
    requires UpvalsOk(s) && OpenNeverBlack(s) && HasOpen(s.heap, th)
    requires th in t.heap && t.heap[th] == Unchained(s.heap, th)
    requires t.uvhead == Remove(s.uvhead, s.heap[th].openupval[0])
    requires forall x | x in t.heap && x != th && x != s.heap[th].openupval[0] ::
               x in s.heap && t.heap[x] == s.heap[x] && x in t.color && (x in s.color ==> t.color[x] == s.color[x])
    requires forall x | x in s.heap && x != s.heap[th].openupval[0] :: x in t.heap
    requires !IsOpenUpval(t.heap, s.heap[th].openupval[0])
    requires s.heap[th].openupval[0] in t.heap ==> t.heap[s.heap[th].openupval[0]].UpVal?
    ensures UpvalsOk(t) && OpenNeverBlack(t)
  {
    var u := s.heap[th].openupval[0];
    OpenTop(s, th);
    assert OpenListOk(s.heap, th);
    UnchainedOpenList(s.heap, th, t.heap);
    hide OpenListOk, NoDup;
    RemoveOnce(s.uvhead, u);
    forall x | x in t.heap && t.heap[x].Thread? && x != th ensures OpenListOk(t.heap, x) {
      UnchainedOther(s.heap, t.heap, th, u, x);
    }
    forall x | x in t.heap && IsOpenUpval(t.heap, x)
      ensures var y := t.heap[x].loc.thread; y in t.heap && t.heap[y].Thread? && x in t.heap[y].openupval
    {
      assert x != u && x != th;
      if s.heap[x].loc.thread == th {
        var ou := s.heap[th].openupval;
        assert x in ou;
        assert ou == [u] + ou[1..];
      }
    }
  }

  lemma DetachLive(s: State, th: Ref)
    requires LiveClosed(s) && UpvalsOk(s) && HasOpen(s.heap, th) && Alive(s, s.heap[th].openupval[0]) && s.color.Keys == s.heap.Keys
    ensures LiveClosed(DetachTop(s, th))
  {
    hide UpvalsOk, AllAlive, Holds, LiveClosed;
    var t := DetachTop(s, th);
    OpenTop(s, th);
    LiveShaped(s);
    assert forall x :: Alive(s, x) <==> Alive(t, x);
    forall x | Alive(t, x) ensures Alive(s, x) && Holds(t.heap, x) == Holds(s.heap, x) && WellShaped(t.heap, x) {
      DetachHolds(s, th, x);
    }
    LiveFrom(s, t, {});
  }

  lemma DetachRootList(s: State, th: Ref)
    requires RootListOk(s) && HasOpen(s.heap, th)
    ensures RootListOk(DetachTop(s, th))
  {
    var u := s.heap[th].openupval[0];
    assert u !in s.rootgc;
    NoDupCons(u, s.rootgc);
  }

  lemma DetachTricolor(s: State, th: Ref)
    requires Tricolor(s, {}, false) && UpvalsOk(s) && OpenNeverBlack(s) && HasOpen(s.heap, th) && s.gcstate == Propagate
    ensures var u := s.heap[th].openupval[0]; Tricolor(DetachTop(s, th), {u}, false)
  {
    hide UpvalsOk, Holds;
    var t := DetachTop(s, th);
    var u := s.heap[th].openupval[0];
    OpenTop(s, th);
    forall x | x in t.color ensures BlackOk(t, x, {u}) && GrayOk(t, x, {u}, false) {
      DetachHolds(s, th, x);
      assert BlackOk(s, x, {}) && GrayOk(s, x, {}, false);
    }
  }

  lemma DetachPhase(s: State, th: Ref)
    requires PhaseOk(s, {}) && UpvalsOk(s) && OpenNeverBlack(s) && HasOpen(s.heap, th) && s.color.Keys == s.heap.Keys
    requires Alive(s, s.heap[th].openupval[0])
    ensures PhaseOk(DetachTop(s, th), {s.heap[th].openupval[0]})
  {
    hide Tricolor, UpvalsOk;
    var t := DetachTop(s, th);
    var u := s.heap[th].openupval[0];
    OpenTop(s, th);
    match s.gcstate
    case Propagate => DetachTricolor(s, th);
    case Sweep =>
      forall j | 0 <= j < t.sweepgc && j < |t.rootgc| ensures Swept(t, t.rootgc[j]) {
        if j > 0 {
          var x := s.rootgc[j-1];
          assert Swept(s, x);
          assert x in s.heap && s.heap[x].Thread? ==> forall y | y in t.heap[x].openupval :: y in s.heap[x].openupval;
        }
      }
    case _ =>
  }

  /** Detaching leaves at most the barrier of the new closed upvalue to be done. */
  lemma DetachStored(s: State, th: Ref)
    requires Inv(s) && HasOpen(s.heap, th) && Alive(s, s.heap[th].openupval[0])
    ensures Stored(DetachTop(s, th), s.heap[th].openupval[0], ValueRefs(TopValue(s.heap, th)))
  {
    hide LiveClosed, RootListOk, StringsOk, UpvalsOk, OpenNeverBlack, PhaseOk, AllAlive, FixedOk, AllMarked, GrayOk;
    var t := DetachTop(s, th);
    var u := s.heap[th].openupval[0];
    OpenTop(s, th);
    DetachLive(s, th);
    DetachRootList(s, th);
    DetachStrings(s, th);
    DetachPhase(s, th);
    UnchainedUpvals(s, t, th);
    assert Holds(t.heap, u) == ValueRefs(TopValue(s.heap, th));
    LiveHolds(t, u);
    if s.gcstate == Propagate {
      DetachPending(s, th);
    }
  }

  /** Only the barrier for the value that was just copied is pending. */
  lemma DetachPending(s: State, th: Ref)
    requires HasOpen(s.heap, th) && s.gcstate == Propagate && s.heap[th].openupval[0] in s.color
    ensures var t := DetachTop(s, th); var u := s.heap[th].openupval[0];
            && GrayOk(t, u, {}, false)
            && (t.color[u].Black? ==> CanBeBlack(t.heap[u]) && AllMarked(t.color, Holds(t.heap, u) - ValueRefs(TopValue(s.heap, th))))
  {
  }

  lemma LiveHolds(t: State, u: Ref)
    requires LiveClosed(t)
    ensures Alive(t, u) ==> AllAlive(t, Holds(t.heap, u))
  {
  }

  lemma DetachStrings(s: State, th: Ref)
    requires StringsOk(s) && FixedOk(s) && HasOpen(s.heap, th)
    ensures StringsOk(DetachTop(s, th)) && FixedOk(DetachTop(s, th))
  {
    hide StringsOk, Remove;
    SameStrings(s, DetachTop(s, th));
  }

  /** The rest of luaC_linkupval: a closed upvalue that became black gets its barrier. */
  function CloseTop(s: State, th: Ref): (t: State)
    requires Inv(s) && th in s.heap && s.heap[th].Thread? && s.heap[th].openupval != []
    ensures Inv(t)
    ensures th in t.heap && t.heap[th] == s.heap[th].(openupval := s.heap[th].openupval[1..])
  {
    StaticUpvals(s);
    OpenTop(s, th);
    var u := s.heap[th].openupval[0];
    if IsDead(s, u) then
      FreeTopKeeps(s, th);
      FreeTop(s, th)
    else
      DetachStored(s, th);
      CloseBarrier(s, th);
      ValueBarrier(DetachTop(s, th), u, TopValue(s.heap, th))
  }

  lemma CloseBarrier(s: State, th: Ref)
    requires HasOpen(s.heap, th)
    requires Stored(DetachTop(s, th), s.heap[th].openupval[0], ValueRefs(TopValue(s.heap, th)))
    ensures var t := DetachTop(s, th); var u := s.heap[th].openupval[0]; var v := TopValue(s.heap, th);
            && u in t.color && ValueRefs(v) <= t.color.Keys && (t.gcstate == Propagate ==> Ready(t))
            && Inv(ValueBarrier(t, u, v))
            && ValueBarrier(t, u, v).heap == t.heap
            && (t.gcstate != Propagate || !t.color[u].Black? ==> ValueBarrier(t, u, v).color.Keys == t.color.Keys)
  {
    hide Inv, Static, PhaseOk, DetachTop;
    var t := DetachTop(s, th);
    var u := s.heap[th].openupval[0];
    var v := TopValue(s.heap, th);
    StaticLive(t);
    if t.gcstate == Propagate {
      PropagateReady(t, {u});
    }
    if v.Gc? {
      assert ValueRefs(v) == {} + {v.ref};
      ObjBarrierOk(t, u, v.ref, {});
      StoredDone(ObjBarrier(t, u, v.ref), u);
    } else {
      StoredDone(t, u);
    }
  }

  lemma PropagateReady(s: State, ex: set<Ref>)
    requires Static(s) && PhaseOk(s, ex) && s.gcstate == Propagate
    ensures Ready(s)
  {
    NothingDeadIsClosed(s);
  }

  lemma FreeTopLive(s: State, th: Ref)
    requires LiveClosed(s) && UpvalsOk(s) && HasOpen(s.heap, th) && IsDead(s, s.heap[th].openupval[0]) && s.color.Keys == s.heap.Keys
    ensures LiveClosed(FreeTop(s, th))
  {
    hide UpvalsOk, Holds, AllAlive, LiveClosed;
    var t := FreeTop(s, th);
    OpenTop(s, th);
    LiveShaped(s);
    assert forall x | Alive(s, x) :: Alive(t, x);
    forall x | Alive(t, x) ensures Alive(s, x) && Holds(t.heap, x) == Holds(s.heap, x) && WellShaped(t.heap, x) {
      FreeHolds(s, th, x);
    }
    LiveFrom(s, t, {});
  }

  lemma FreeTopLists(s: State, th: Ref)
    requires RootListOk(s) && StringsOk(s) && FixedOk(s) && HasOpen(s.heap, th)
    ensures var t := FreeTop(s, th); RootListOk(t) && StringsOk(t) && FixedOk(t)
  {
  }

  lemma FreeTopPhase(s: State, th: Ref)
    requires PhaseOk(s, {}) && HasOpen(s.heap, th) && IsDead(s, s.heap[th].openupval[0])
    requires UpvalsOk(s) && RootListOk(s) && StringsOk(s) && s.color.Keys == s.heap.Keys
    ensures PhaseOk(FreeTop(s, th), {})
  {
    hide Tricolor, UpvalsOk, RootListOk, StringsOk;
    var t := FreeTop(s, th);
    var u := s.heap[th].openupval[0];
    DeadMeansSweeping(s, u);
    assert forall x | IsCurrent(s, x) :: IsCurrent(t, x);
    if s.gcstate == Sweep {
      forall j | 0 <= j < t.sweepgc && j < |t.rootgc| ensures Swept(t, t.rootgc[j]) {
        var x := s.rootgc[j];
        assert Swept(s, x);
        assert x in s.heap && s.heap[x].Thread? ==> forall y | y in t.heap[x].openupval :: y in s.heap[x].openupval;
      }
    } else {
      forall i | 0 <= i < t.sweepstrgc ensures AllCurrent(t, t.strt[i]) {
        assert AllCurrent(s, s.strt[i]);
      }
    }
  }

  lemma FreeTopKeeps(s: State, th: Ref)
    requires Inv(s) && HasOpen(s.heap, th) && IsDead(s, s.heap[th].openupval[0])
    ensures Inv(FreeTop(s, th))
  {
    hide LiveClosed, RootListOk, StringsOk, UpvalsOk, OpenNeverBlack, PhaseOk, FixedOk;
    OpenTop(s, th);
    FreeTopLive(s, th);
    FreeTopLists(s, th);
    FreeTopPhase(s, th);
    UnchainedUpvals(s, FreeTop(s, th), th);
    RunningStays(s, th);
  }

  lemma RunningStays(s: State, th: Ref)
    requires LiveClosed(s) && HasOpen(s.heap, th) && IsDead(s, s.heap[th].openupval[0])
    ensures s.running != s.heap[th].openupval[0]
  {
  }

  /** luaF_close: closes every upvalue of the thread that is open at `level` or above. */
  function CloseUpvals(s: State, th: Ref, level: nat): (t: State)
    requires Inv(s) && th in s.heap && s.heap[th].Thread?
    ensures Inv(t) && th in t.heap && t.heap[th].Thread?
    decreases |s.heap[th].openupval|
  {
    var ou := s.heap[th].openupval;
    if ou == [] || LevelOf(s.heap, ou[0]) < level then s
    else CloseUpvals(CloseTop(s, th), th, level)
  }

  predicate OpenAtOrAbove(h: Heap, x: Ref, th: Ref, level: nat) {
    IsOpenUpval(h, x) && h[x].loc.thread == th && level <= h[x].loc.level
  }

  /**
   * What closing means: the upvalues at or above the level leave their slots, each live one with the
   * value its slot had, each dead one freed; every other object is as before, and the thread's open
   * list keeps exactly the upvalues below the level.
   */
  ghost predicate ClosedFrom(s: State, t: State, th: Ref, level: nat) {
    && t.heap.Keys <= s.heap.Keys
    && th in s.heap && s.heap[th].Thread? && th in t.heap && t.heap[th].Thread?
    && (forall x | x in s.heap && OpenAtOrAbove(s.heap, x, th, level) ::
          if IsDead(s, x) then x !in t.heap
          else x in t.heap && t.heap[x] == UpVal(Closed(UpvalValue(s.heap, s.heap[x].loc))))
    && (forall x | x in s.heap && x != th && !OpenAtOrAbove(s.heap, x, th, level) ::
          x in t.heap && t.heap[x] == s.heap[x])
    && t.heap[th] == s.heap[th].(openupval := t.heap[th].openupval)
    && (forall x :: x in t.heap[th].openupval <==>
          x in s.heap[th].openupval && !OpenAtOrAbove(s.heap, x, th, level))
  }

  lemma CloseTopEffect(s: State, th: Ref)
    requires Inv(s) && th in s.heap && s.heap[th].Thread? && s.heap[th].openupval != []
    ensures HasOpen(s.heap, th)
    ensures CloseTop(s, th).heap == (if IsDead(s, s.heap[th].openupval[0]) then FreeTop(s, th).heap else DetachTop(s, th).heap)
    ensures forall x | x in CloseTop(s, th).heap :: IsDead(CloseTop(s, th), x) <==> IsDead(s, x)
  {
    hide LiveClosed, RootListOk, StringsOk, UpvalsOk, OpenNeverBlack, FixedOk, Tricolor;
    OpenTop(s, th);
    var u := s.heap[th].openupval[0];
    if !IsDead(s, u) {
      DetachStored(s, th);
      CloseBarrier(s, th);
    }
  }

  lemma CloseTopClosed(s: State, th: Ref, level: nat)
    requires UpvalsOk(s) && th in s.heap && s.heap[th].Thread? && s.heap[th].openupval != [] && HasOpen(s.heap, th)
    requires level <= LevelOf(s.heap, s.heap[th].openupval[0])
    ensures var u := s.heap[th].openupval[0];
            && OpenAtOrAbove(s.heap, u, th, level)
            && UpvalValue(s.heap, s.heap[u].loc) == TopValue(s.heap, th)
            && u !in s.heap[th].openupval[1..]
  {
    assert OpenListOk(s.heap, th);
  }

  /** The effect of closing one upvalue on the heap. */
  ghost predicate OneClosed(s: State, m: State, th: Ref, u: Ref) {
    && th in s.heap && s.heap[th].Thread? && th in m.heap && u != th && u in s.heap
    && m.heap.Keys <= s.heap.Keys
    && (if IsDead(s, u) then u !in m.heap
        else u in m.heap && IsOpenUpval(s.heap, u) && m.heap[u] == UpVal(Closed(UpvalValue(s.heap, s.heap[u].loc))))
    && (forall x | x in s.heap && x != u && x != th :: x in m.heap && m.heap[x] == s.heap[x])
    && |s.heap[th].openupval| > 0 && s.heap[th].openupval[0] == u && u !in s.heap[th].openupval[1..]
    && m.heap[th] == s.heap[th].(openupval := s.heap[th].openupval[1..])
    && (forall x | x in m.heap :: IsDead(m, x) <==> IsDead(s, x))
  }

  lemma CloseTopIsOne(s: State, m: State, th: Ref)
    requires UpvalsOk(s) && th in s.heap && s.heap[th].Thread? && s.heap[th].openupval != [] && HasOpen(s.heap, th)
    requires m.heap == (if IsDead(s, s.heap[th].openupval[0]) then FreeTop(s, th).heap else DetachTop(s, th).heap)
    requires forall x | x in m.heap :: IsDead(m, x) <==> IsDead(s, x)
    ensures OneClosed(s, m, th, s.heap[th].openupval[0])
    ensures LevelOf(s.heap, s.heap[th].openupval[0]) == s.heap[s.heap[th].openupval[0]].loc.level
  {
    hide UpvalsOk;
    CloseTopClosed(s, th, 0);
    OpenTop(s, th);
  }

  /** Closing the topmost upvalue and then the rest is closing them all. */
  lemma ClosedFromStep(s: State, m: State, t: State, th: Ref, u: Ref, level: nat)
    requires OneClosed(s, m, th, u) && OpenAtOrAbove(s.heap, u, th, level)
    requires ClosedFrom(m, t, th, level)
    ensures ClosedFrom(s, t, th, level)
  {
    assert s.heap[th].openupval == [u] + s.heap[th].openupval[1..];
    forall x | x in s.heap && OpenAtOrAbove(s.heap, x, th, level)
      ensures if IsDead(s, x) then x !in t.heap
              else x in t.heap && t.heap[x] == UpVal(Closed(UpvalValue(s.heap, s.heap[x].loc)))
    {
      if x != u {
        assert OpenAtOrAbove(m.heap, x, th, level);
      } else {
        assert u in m.heap ==> !OpenAtOrAbove(m.heap, u, th, level);
      }
    }
    forall x | x in s.heap && x != th && !OpenAtOrAbove(s.heap, x, th, level)
      ensures x in t.heap && t.heap[x] == s.heap[x]
    {
      assert !OpenAtOrAbove(m.heap, x, th, level);
    }
    forall x ensures x in t.heap[th].openupval <==> x in s.heap[th].openupval && !OpenAtOrAbove(s.heap, x, th, level) {
      if x != u && x != th {
        assert OpenAtOrAbove(m.heap, x, th, level) <==> OpenAtOrAbove(s.heap, x, th, level);
      }
    }
  }

  /** Nothing is left to close once the topmost upvalue lies below the level. */
  lemma ClosedFromDone(s: State, th: Ref, level: nat)
    requires UpvalsOk(s) && th in s.heap && s.heap[th].Thread?
    requires s.heap[th].openupval == [] || LevelOf(s.heap, s.heap[th].openupval[0]) < level
    ensures ClosedFrom(s, s, th, level)
  {
    assert OpenListOk(s.heap, th);
  }

  /**
   * luaF_close detaches exactly the open upvalues at or above the level, each with the current value
   * of its slot, and touches nothing else; closures that share an upvalue go on sharing it.
   */
  lemma {:induction false} CloseUpvalsCloses(s: State, th: Ref, level: nat)
    requires Inv(s) && th in s.heap && s.heap[th].Thread?
    ensures ClosedFrom(s, CloseUpvals(s, th, level), th, level)
    decreases |s.heap[th].openupval|
  {
    hide PhaseOk, LiveClosed, RootListOk, StringsOk, UpvalsOk, FixedOk, OpenNeverBlack, ClosedFrom, CloseTop, OneClosed;
    var ou := s.heap[th].openupval;
    if ou == [] || LevelOf(s.heap, ou[0]) < level {
      ClosedFromDone(s, th, level);
    } else {
      CloseTopEffect(s, th);
      CloseTopIsOne(s, CloseTop(s, th), th);
      CloseTopClosed(s, th, level);
      CloseUpvalsCloses(CloseTop(s, th), th, level);
      ClosedFromStep(s, CloseTop(s, th), CloseUpvals(s, th, level), th, ou[0], level);
    }
  }
}
