/** The sweep half of lgc.c: sweeplist over the string table, the open upvalues and `rootgc`. */
module GcSweep {
  import opened GcHeap
  import opened GcMark
  import opened GcInvariant
  import opened GcBarrier
  import opened GcAlloc
  import opened GcUpval
  import opened Wrappers

  /** The test of sweeplist: an object goes if it is dead and not fixed. */
  predicate Condemned(s: State, r: Ref) {
    IsDead(s, r) && r !in s.fixed
  }

  /** makewhite: ready for the next cycle. */
  function Whiten(s: State, r: Ref): State {
    s.(color := s.color[r := White(s.currentwhite)])
  }

  lemma WhitenKeeps(s: State, r: Ref)
    requires Inv(s) && Sweeping(s) && r in s.heap && !Condemned(s, r)
    ensures Inv(Whiten(s, r)) && Alive(Whiten(s, r), r)
  {
    hide Static, PhaseOk;
    StaticLive(s);
    SurvivorHolds(s, r);
    WhitenStatic(s, r);
    WhitenPhase(s, r);
  }

  /** What survives the sweep holds live objects only: it is alive, or a fixed string. */
  lemma SurvivorHolds(s: State, r: Ref)
    requires Static(s) && r in s.heap && !Condemned(s, r)
    ensures AllAlive(s, Holds(s.heap, r)) && WellShaped(s.heap, r)
  {
    hide RootListOk, StringsOk, UpvalsOk;
    if IsDead(s, r) {
      assert Alive(s, s.mainthread);
    }
  }

  function FreeCells(s: State, r: Ref): State {
    s.(heap := s.heap - {r}, color := s.color - {r})
  }

  // ---------------------------------------------------------------- one bucket of the string table

  /** Frees the string at position `j` of bucket `i`. */
  function FreeString(s: State, i: nat, j: nat): State
    requires i < |s.strt| && j < |s.strt[i]|
  {
    FreeCells(s, s.strt[i][j]).(strt := s.strt[i := s.strt[i][..j] + s.strt[i][j+1..]])
  }

  /** sweepwholelist on bucket `i`, from position `j` on. */
  function SweepBucket(s: State, i: nat, j: nat): (t: State)
    requires i < |s.strt| && j <= |s.strt[i]|
    ensures |t.strt| == |s.strt| && t == s.(heap := t.heap, color := t.color, strt := t.strt)
    decreases |s.strt[i]| - j
  {
    if j == |s.strt[i]| then s
    else if Condemned(s, s.strt[i][j]) then SweepBucket(FreeString(s, i, j), i, j)
    else SweepBucket(Whiten(s, s.strt[i][j]), i, j+1)
  }

  predicate NoOpen(b: Body) {
    b.Thread? ==> b.openupval == []
  }

  lemma HoldsAfterFree(s: State, r: Ref, x: Ref)
    requires UpvalsOk(s) && r in s.heap && NoOpen(s.heap[r]) && x in s.heap && x != r
    ensures Holds(s.heap - {r}, x) == Holds(s.heap, x)
  {
  }

  lemma FreeShape(s: State, r: Ref, x: Ref)
    requires x in s.heap && x != r && WellShaped(s.heap, x)
    ensures WellShaped(s.heap - {r}, x)
  {
  }

  /** Freeing a dead object on whose stack nothing is open leaves the live ones closed. */
  lemma FreeLive(s: State, t: State, r: Ref)
    requires LiveClosed(s) && UpvalsOk(s) && r in s.heap && NoOpen(s.heap[r]) && IsDead(s, r) && s.color.Keys == s.heap.Keys
    requires t.heap == s.heap - {r} && t.color == s.color - {r} && t.currentwhite == s.currentwhite && Roots(t) == Roots(s)
    ensures LiveClosed(t)
  {
    hide UpvalsOk, Holds, AllAlive, WellShaped, Roots, LiveClosed;
    LiveShaped(s);
    assert forall x | Alive(s, x) :: Alive(t, x);
    forall x | Alive(t, x) ensures Alive(s, x) && Holds(t.heap, x) == Holds(s.heap, x) && WellShaped(t.heap, x) {
      HoldsAfterFree(s, r, x);
      FreeShape(s, r, x);
    }
    LiveFrom(s, t, {});
  }

  /** Freeing an object that no list of threads or upvalues mentions. */
  lemma FreeUpvals(s: State, t: State, r: Ref)
    requires UpvalsOk(s) && OpenNeverBlack(s) && FixedOk(s) && r in s.heap && !IsOpenUpval(s.heap, r) && r !in s.fixed
    requires NoOpen(s.heap[r])
    requires t.heap == s.heap - {r} && t.color == s.color - {r} && t.uvhead == s.uvhead && t.fixed == s.fixed
    requires t.mainthread == s.mainthread
    ensures UpvalsOk(t) && OpenNeverBlack(t) && FixedOk(t)
  {
    hide OpenListOk, NoDup;
    forall th | th in t.heap && t.heap[th].Thread? ensures OpenListOk(t.heap, th) {
      FreeOther(s.heap, r, th);
    }
  }

  lemma FreeOther(h: Heap, r: Ref, th: Ref)
    requires r in h && !IsOpenUpval(h, r) && th in h && th != r && h[th].Thread? && OpenListOk(h, th)
    ensures OpenListOk(h - {r}, th)
  {
  }

  lemma FreeStringLists(s: State, i: nat, j: nat)
    requires RootListOk(s) && StringsOk(s) && i < |s.strt| && j < |s.strt[i]|
    ensures RootListOk(FreeString(s, i, j)) && StringsOk(FreeString(s, i, j))
  {
    hide NoDup, Hash;
    NoDupWithout(s.strt[i], j);
  }

  lemma FreeStringPhase(s: State, i: nat, j: nat)
    requires PhaseOk(s, {}) && s.gcstate == SweepString && i < |s.strt| && j < |s.strt[i]| && IsDead(s, s.strt[i][j])
    requires i == s.sweepstrgc
    ensures PhaseOk(FreeString(s, i, j), {})
  {
  }

  lemma FreeStringKeeps(s: State, i: nat, j: nat)
    requires Inv(s) && s.gcstate == SweepString && i < |s.strt| && j < |s.strt[i]| && Condemned(s, s.strt[i][j])
    requires i == s.sweepstrgc
    ensures Inv(FreeString(s, i, j))
  {
    hide LiveClosed, RootListOk, StringsOk, UpvalsOk, OpenNeverBlack, FixedOk, PhaseOk;
    var r := s.strt[i][j];
    var t := FreeString(s, i, j);
    assert r in s.heap && s.heap[r].Str? by { StringsHaveBuckets(s); }
    FreeLive(s, t, r);
    FreeUpvals(s, t, r);
    FreeStringLists(s, i, j);
    FreeStringPhase(s, i, j);
    assert s.running != r && s.mainthread != r by { RootsLive(s); }
  }

  lemma BucketStep(s: State, i: nat, j: nat)
    requires i < |s.strt| && j < |s.strt[i]| && s.color.Keys == s.heap.Keys && AllCurrent(s, s.strt[i][..j])
    requires UpvalsOk(s) && s.strt[i][j] in s.heap && s.heap[s.strt[i][j]].Str?
    ensures Condemned(s, s.strt[i][j]) ==>
              SweepFrees(s, FreeString(s, i, j)) && AllCurrent(FreeString(s, i, j), FreeString(s, i, j).strt[i][..j])
    ensures !Condemned(s, s.strt[i][j]) ==>
              SweepFrees(s, Whiten(s, s.strt[i][j])) && AllCurrent(Whiten(s, s.strt[i][j]), s.strt[i][..j+1])
  {
    hide UpvalsOk, SameChildren;
    FreeSameChildren(s, s.strt[i][j]);
    assert SameChildren(s.heap, s.heap) by { SweepFreesNothing(s); }
    assert FreeString(s, i, j).strt[i][..j] == s.strt[i][..j];
    assert s.strt[i][..j+1] == s.strt[i][..j] + [s.strt[i][j]];
  }

  lemma {:induction false} SweepBucketKeeps(s: State, i: nat, j: nat)
    requires Inv(s) && s.gcstate == SweepString && i < |s.strt| && j <= |s.strt[i]| && i == s.sweepstrgc
    requires AllCurrent(s, s.strt[i][..j])
    ensures Inv(SweepBucket(s, i, j)) && AllCurrent(SweepBucket(s, i, j), SweepBucket(s, i, j).strt[i])
    ensures SweepFrees(s, SweepBucket(s, i, j))
    decreases |s.strt[i]| - j
  {
    hide Static, PhaseOk, AllCurrent, SweepFrees, StringsOk, UpvalsOk, RootListOk, LiveClosed;
    if j == |s.strt[i]| {
      assert s.strt[i][..j] == s.strt[i];
      SweepFreesNothing(s);
    } else {
      var r := s.strt[i][j];
      StaticUpvals(s);
      StringsHaveBuckets(s);
      StaticLive(s);
      BucketStep(s, i, j);
      if Condemned(s, r) {
        FreeStringKeeps(s, i, j);
        SweepBucketKeeps(FreeString(s, i, j), i, j);
        SweepFreesTransitive(s, FreeString(s, i, j), SweepBucket(s, i, j));
      } else {
        WhitenKeeps(s, r);
        SweepBucketKeeps(Whiten(s, r), i, j+1);
        SweepFreesTransitive(s, Whiten(s, r), SweepBucket(s, i, j));
      }
    }
  }

  /** Whatever is left leads to the same objects as before. */
  ghost predicate SameChildren(h: Heap, h': Heap) {
    forall r | r in h' :: r in h && Children(h', r) == Children(h, r)
  }

  lemma SameChildrenTransitive(h: Heap, h': Heap, h'': Heap)
    requires SameChildren(h, h') && SameChildren(h', h'')
    ensures SameChildren(h, h'')
  {
  }

  lemma FreeSameChildren(s: State, r: Ref)
    requires UpvalsOk(s) && r in s.heap && NoOpen(s.heap[r])
    ensures SameChildren(s.heap, s.heap - {r})
  {
    hide UpvalsOk;
    forall x | x in s.heap - {r} ensures Children(s.heap - {r}, x) == Children(s.heap, x) {
      HoldsAfterFree(s, r, x);
    }
  }

  /** A sweep step frees condemned objects only, and condemns or pardons none. */
  ghost predicate SweepFrees(s: State, t: State) {
    && t.heap.Keys <= s.heap.Keys
    && SameChildren(s.heap, t.heap)
    && t.fixed == s.fixed && t.currentwhite == s.currentwhite
    && (forall r | r in s.heap && r !in t.heap :: Condemned(s, r))
    && (forall r | r in t.heap :: Condemned(t, r) <==> Condemned(s, r))
    && Roots(t) == Roots(s)
  }

  // ---------------------------------------------------------------- the open upvalues of one thread

  /** The thread's open list without position `j`. */
  function WithoutOpen(b: Body, j: nat): Body
    requires b.Thread? && j < |b.openupval|
  {
    b.(openupval := b.openupval[..j] + b.openupval[j+1..])
  }

  /** Frees the upvalue at position `j` of the thread's open list. */
  function FreeOpen(s: State, th: Ref, j: nat): State
    requires th in s.heap && s.heap[th].Thread? && j < |s.heap[th].openupval|
  {
    var u := s.heap[th].openupval[j];
    s.(heap := s.heap[th := WithoutOpen(s.heap[th], j)] - {u}, color := s.color - {u}, uvhead := Remove(s.uvhead, u))
  }

  /** sweepwholelist on the open upvalues of `th`, from position `j` on. */
  function SweepOpen(s: State, th: Ref, j: nat): (t: State)
    requires th in s.heap && s.heap[th].Thread? && j <= |s.heap[th].openupval|
    decreases |s.heap[th].openupval| - j
  {
    if j == |s.heap[th].openupval| then s
    else
      var u := s.heap[th].openupval[j];
      if Condemned(s, u) && u != th then SweepOpen(FreeOpen(s, th, j), th, j)
      else SweepOpen(Whiten(s, u), th, j+1)
  }

  lemma OpenAt(s: State, th: Ref, j: nat)
    requires UpvalsOk(s) && th in s.heap && s.heap[th].Thread? && j < |s.heap[th].openupval|
    ensures var u := s.heap[th].openupval[j];
            && u in s.uvhead && u != th && IsOpenUpval(s.heap, u) && s.heap[u].loc.thread == th
  {
    assert OpenListOk(s.heap, th);
  }

  /** An object that stays the same holds the same, if its value does when it is an upvalue. */
  lemma SameHolds(h: Heap, h': Heap, x: Ref)
    requires x in h && x in h' && h'[x] == h[x] && (h[x].UpVal? ==> UpvalValue(h', h[x].loc) == UpvalValue(h, h[x].loc))
    requires forall n | n in h' :: n in h && (h[n].Str? ==> h'[n].Str?)
    ensures Holds(h', x) == Holds(h, x) && (WellShaped(h, x) ==> WellShaped(h', x))
  {
  }

  lemma FreeOpenHolds(s: State, th: Ref, j: nat, x: Ref)
    requires UpvalsOk(s) && th in s.heap && s.heap[th].Thread? && j < |s.heap[th].openupval|
    requires x in s.heap && x != s.heap[th].openupval[j]
    ensures x in FreeOpen(s, th, j).heap && Holds(FreeOpen(s, th, j).heap, x) == Holds(s.heap, x)
    ensures WellShaped(s.heap, x) ==> WellShaped(FreeOpen(s, th, j).heap, x)
  {
    OpenAt(s, th, j);
    hide UpvalsOk, Remove;
    var h := FreeOpen(s, th, j).heap;
    if x != th {
      hide Holds, WellShaped;
      assert s.heap[x].UpVal? ==> UpvalValue(h, s.heap[x].loc) == UpvalValue(s.heap, s.heap[x].loc);
      SameHolds(s.heap, h, x);
    }
  }

  lemma FreeOpenLive(s: State, th: Ref, j: nat)
    requires LiveClosed(s) && UpvalsOk(s) && th in s.heap && s.heap[th].Thread? && j < |s.heap[th].openupval|
    requires IsDead(s, s.heap[th].openupval[j]) && s.color.Keys == s.heap.Keys
    ensures LiveClosed(FreeOpen(s, th, j))
  {
    hide UpvalsOk, Holds, AllAlive, WellShaped, LiveClosed;
    var t := FreeOpen(s, th, j);
    OpenAt(s, th, j);
    LiveShaped(s);
    assert forall x | Alive(s, x) :: Alive(t, x);
    forall x | Alive(t, x) ensures Alive(s, x) && Holds(t.heap, x) == Holds(s.heap, x) && WellShaped(t.heap, x) {
      FreeOpenHolds(s, th, j, x);
    }
    LiveFrom(s, t, {});
  }

  lemma FreeOpenList(h: Heap, th: Ref, j: nat, h': Heap)
    requires th in h && h[th].Thread? && j < |h[th].openupval| && OpenListOk(h, th) && h[th].openupval[j] != th
    requires h' == h[th := WithoutOpen(h[th], j)] - {h[th].openupval[j]}
    ensures OpenListOk(h', th)
  {
    var ou := h[th].openupval;
    var ou' := h'[th].openupval;
    assert forall i | 0 <= i < |ou'| :: ou'[i] == if i < j then ou[i] else ou[i+1];
  }

  lemma FreeOpenOwn(s: State, th: Ref, j: nat)
    requires UpvalsOk(s) && th in s.heap && s.heap[th].Thread? && j < |s.heap[th].openupval|
    ensures OpenListOk(FreeOpen(s, th, j).heap, th)
    ensures forall x | x in s.heap[th].openupval && x != s.heap[th].openupval[j] :: x in FreeOpen(s, th, j).heap[th].openupval
  {
    var ou := s.heap[th].openupval;
    OpenAt(s, th, j);
    assert OpenListOk(s.heap, th);
    hide UpvalsOk, OpenListOk;
    FreeOpenList(s.heap, th, j, FreeOpen(s, th, j).heap);
    assert ou == ou[..j] + [ou[j]] + ou[j+1..];
  }

  lemma FreeOpenUpvals(s: State, th: Ref, j: nat)
    requires UpvalsOk(s) && OpenNeverBlack(s) && th in s.heap && s.heap[th].Thread? && j < |s.heap[th].openupval|
    ensures UpvalsOk(FreeOpen(s, th, j)) && OpenNeverBlack(FreeOpen(s, th, j))
  {
    hide OpenListOk, NoDup;
    var t := FreeOpen(s, th, j);
    var u := s.heap[th].openupval[j];
    OpenAt(s, th, j);
    FreeOpenOwn(s, th, j);
    RemoveOnce(s.uvhead, u);
    forall x | x in t.heap && t.heap[x].Thread? ensures OpenListOk(t.heap, x) {
      if x != th {
        UnchainedOther(s.heap, t.heap, th, u, x);
      }
    }
    forall x | x in t.heap && IsOpenUpval(t.heap, x)
      ensures var y := t.heap[x].loc.thread; y in t.heap && t.heap[y].Thread? && x in t.heap[y].openupval
    {
      assert IsOpenUpval(s.heap, x) && t.heap[x] == s.heap[x];
    }
  }

  lemma FreeOpenLists(s: State, th: Ref, j: nat)
    requires RootListOk(s) && StringsOk(s) && FixedOk(s) && th in s.heap && s.heap[th].Thread? && j < |s.heap[th].openupval|
    requires IsOpenUpval(s.heap, s.heap[th].openupval[j])
    ensures var t := FreeOpen(s, th, j); RootListOk(t) && StringsOk(t) && FixedOk(t)
  {
    hide NoDup, StringsOk;
    SameStrings(s, FreeOpen(s, th, j));
  }

  lemma FreeOpenPhase(s: State, th: Ref, j: nat)
    requires PhaseOk(s, {}) && s.gcstate == Sweep && th in s.heap && s.heap[th].Thread? && j < |s.heap[th].openupval|
    requires IsDead(s, s.heap[th].openupval[j]) && s.heap[th].openupval[j] != th
    ensures PhaseOk(FreeOpen(s, th, j), {})
  {
    var t := FreeOpen(s, th, j);
    var u := s.heap[th].openupval[j];
    assert forall x | IsCurrent(s, x) :: IsCurrent(t, x);
    forall i | 0 <= i < t.sweepgc && i < |t.rootgc| ensures Swept(t, t.rootgc[i]) {
      var x := s.rootgc[i];
      assert Swept(s, x);
      assert x in s.heap && s.heap[x].Thread? ==> forall y | y in t.heap[x].openupval :: y in s.heap[x].openupval;
    }
  }

  lemma FreeOpenKeeps(s: State, th: Ref, j: nat)
    requires Inv(s) && s.gcstate == Sweep && th in s.heap && s.heap[th].Thread? && j < |s.heap[th].openupval|
    requires IsDead(s, s.heap[th].openupval[j])
    ensures Inv(FreeOpen(s, th, j))
  {
    hide LiveClosed, RootListOk, StringsOk, UpvalsOk, OpenNeverBlack, FixedOk, PhaseOk;
    OpenAt(s, th, j);
    FreeOpenLive(s, th, j);
    FreeOpenUpvals(s, th, j);
    FreeOpenLists(s, th, j);
    FreeOpenPhase(s, th, j);
    assert s.running != s.heap[th].openupval[j];
  }

  /** What sweeping one thread's open list may change. */
  ghost predicate OpenStep(s: State, t: State, th: Ref) {
    && SweepFrees(s, t)
    && t == s.(heap := t.heap, color := t.color, uvhead := t.uvhead) && |t.uvhead| <= |s.uvhead|
    && th in s.heap && s.heap[th].Thread? && th in t.heap && t.heap[th].Thread?
    && th in s.color && th in t.color && t.color[th] == s.color[th]
  }

  lemma OpenStepTransitive(s: State, m: State, t: State, th: Ref)
    requires OpenStep(s, m, th) && OpenStep(m, t, th)
    ensures OpenStep(s, t, th)
  {
    hide SameChildren;
    SameChildrenTransitive(s.heap, m.heap, t.heap);
  }

  lemma FreeOpenSameChildren(s: State, th: Ref, j: nat)
    requires UpvalsOk(s) && th in s.heap && s.heap[th].Thread? && j < |s.heap[th].openupval|
    ensures SameChildren(s.heap, FreeOpen(s, th, j).heap)
  {
    hide UpvalsOk;
    var h := FreeOpen(s, th, j).heap;
    OpenAt(s, th, j);
    forall x | x in h ensures x in s.heap && Children(h, x) == Children(s.heap, x) {
      FreeOpenHolds(s, th, j, x);
    }
  }

  lemma FreeOpenStep(s: State, th: Ref, j: nat)
    requires UpvalsOk(s) && th in s.heap && s.heap[th].Thread? && j < |s.heap[th].openupval|
    requires Condemned(s, s.heap[th].openupval[j]) && s.heap[th].openupval[j] != th && s.color.Keys == s.heap.Keys
    ensures OpenStep(s, FreeOpen(s, th, j), th)
    ensures FreeOpen(s, th, j).heap[th].openupval == s.heap[th].openupval[..j] + s.heap[th].openupval[j+1..]
  {
    hide UpvalsOk, SameChildren;
    FreeOpenSameChildren(s, th, j);
  }

  lemma WhitenStep(s: State, th: Ref, u: Ref)
    requires th in s.heap && s.heap[th].Thread? && u != th && s.color.Keys == s.heap.Keys && u in s.heap && !Condemned(s, u)
    ensures OpenStep(s, Whiten(s, u), th) && Whiten(s, u).heap == s.heap
  {
  }

  lemma CurrentStays(s: State, th: Ref, j: nat, rs: seq<Ref>)
    requires th in s.heap && s.heap[th].Thread? && j < |s.heap[th].openupval| && AllCurrent(s, rs)
    ensures IsDead(s, s.heap[th].openupval[j]) ==> AllCurrent(FreeOpen(s, th, j), rs)
    ensures AllCurrent(Whiten(s, s.heap[th].openupval[j]), rs + [s.heap[th].openupval[j]])
  {
  }

  /** The sweep of the open list of `th` has got to position `j`. */
  ghost predicate OpenSweptTo(s: State, th: Ref, j: nat) {
    && Inv(s) && s.gcstate == Sweep && th in s.heap && s.heap[th].Thread? && j <= |s.heap[th].openupval|
    && AllCurrent(s, s.heap[th].openupval[..j])
  }

  lemma OpenFreed(s: State, th: Ref, j: nat)
    requires OpenSweptTo(s, th, j) && j < |s.heap[th].openupval| && Condemned(s, s.heap[th].openupval[j])
    ensures var t := FreeOpen(s, th, j);
            OpenStep(s, t, th) && OpenSweptTo(t, th, j) && |t.heap[th].openupval| < |s.heap[th].openupval|
  {
    hide Static, PhaseOk, AllCurrent, SweepFrees, FreeOpen, UpvalsOk;
    StaticLive(s);
    StaticUpvals(s);
    var ou := s.heap[th].openupval;
    OpenAt(s, th, j);
    CurrentStays(s, th, j, ou[..j]);
    FreeOpenKeeps(s, th, j);
    FreeOpenStep(s, th, j);
    assert (ou[..j] + ou[j+1..])[..j] == ou[..j];
  }

  lemma OpenPassed(s: State, th: Ref, j: nat)
    requires OpenSweptTo(s, th, j) && j < |s.heap[th].openupval| && !Condemned(s, s.heap[th].openupval[j])
    ensures var t := Whiten(s, s.heap[th].openupval[j]);
            OpenStep(s, t, th) && OpenSweptTo(t, th, j + 1) && t.heap == s.heap
  {
    hide Inv, AllCurrent, OpenStep, Condemned, FreeOpen;
    var ou := s.heap[th].openupval;
    OpenThere(s, th, j);
    CurrentStays(s, th, j, ou[..j]);
    assert Sweeping(s);
    WhitenKeeps(s, ou[j]);
    WhitenStep(s, th, ou[j]);
    assert ou[..j+1] == ou[..j] + [ou[j]];
  }

  lemma OpenThere(s: State, th: Ref, j: nat)
    requires Inv(s) && th in s.heap && s.heap[th].Thread? && j < |s.heap[th].openupval|
    ensures s.color.Keys == s.heap.Keys && s.heap[th].openupval[j] in s.heap && s.heap[th].openupval[j] != th
  {
    hide PhaseOk, UpvalsOk, Static;
    StaticLive(s);
    StaticUpvals(s);
    OpenAt(s, th, j);
  }

  lemma OpenApart(s: State, th: Ref)
    requires Inv(s) && th in s.heap && s.heap[th].Thread?
    ensures th in s.color && th !in s.heap[th].openupval
  {
    hide PhaseOk, UpvalsOk, Static;
    StaticLive(s);
    StaticUpvals(s);
    if th in s.heap[th].openupval {
      var j: nat :| j < |s.heap[th].openupval| && s.heap[th].openupval[j] == th;
      OpenAt(s, th, j);
    }
  }

  /** Sweeping the open list of a thread leaves its survivors white and frees the rest. */
  lemma {:induction false} SweepOpenKeeps(s: State, th: Ref, j: nat)
    requires Inv(s) && s.gcstate == Sweep && th in s.heap && s.heap[th].Thread? && j <= |s.heap[th].openupval|
    requires AllCurrent(s, s.heap[th].openupval[..j])
    ensures Inv(SweepOpen(s, th, j)) && OpenStep(s, SweepOpen(s, th, j), th)
    ensures AllCurrent(SweepOpen(s, th, j), SweepOpen(s, th, j).heap[th].openupval)
    decreases |s.heap[th].openupval| - j
  {
    hide Inv, AllCurrent, SweepFrees, FreeOpen, Whiten, Condemned;
    OpenApart(s, th);
    var ou := s.heap[th].openupval;
    if j == |ou| {
      assert ou[..j] == ou;
      SweepFreesNothing(s);
    } else {
      if Condemned(s, ou[j]) {
        OpenFreed(s, th, j);
        var t := FreeOpen(s, th, j);
        SweepOpenKeeps(t, th, j);
        OpenStepTransitive(s, t, SweepOpen(s, th, j), th);
      } else {
        OpenPassed(s, th, j);
        var t := Whiten(s, ou[j]);
        SweepOpenKeeps(t, th, j + 1);
        OpenStepTransitive(s, t, SweepOpen(s, th, j), th);
      }
    }
  }

  lemma SweepFreesNothing(s: State)
    ensures SweepFrees(s, s)
  {
  }

  // ---------------------------------------------------------------- rootgc

  /** Unlinks position `i` of `rootgc` and frees the object. */
  function FreeRoot(s: State, i: nat): State
    requires i < |s.rootgc|
  {
    FreeCells(s, s.rootgc[i]).(rootgc := s.rootgc[..i] + s.rootgc[i+1..])
  }

  lemma FreeRootStrings(s: State, i: nat)
    requires RootListOk(s) && StringsOk(s) && i < |s.rootgc|
    ensures StringsOk(FreeRoot(s, i))
  {
    hide NoDup;
    assert !s.heap[s.rootgc[i]].Str?;
  }

  lemma FreeRootLists(s: State, i: nat)
    requires RootListOk(s) && StringsOk(s) && i < |s.rootgc| && s.sweepgc <= i
    ensures RootListOk(FreeRoot(s, i)) && StringsOk(FreeRoot(s, i))
  {
    hide StringsOk, NoDup;
    var l := s.rootgc;
    NoDupWithout(l, i);
    var t := FreeRoot(s, i);
    assert t.rootgc == l[..i] + l[i+1..];
    FreeRootStrings(s, i);
    forall r | r in t.rootgc ensures r in t.heap && OnRootList(t.heap[r]) {
      assert r in l && r != l[i];
    }
    forall r | r in t.heap && OnRootList(t.heap[r]) ensures r in t.rootgc {
      assert r in l && r != l[i];
    }
  }

  lemma FreeRootPhase(s: State, i: nat)
    requires PhaseOk(s, {}) && s.gcstate == Sweep && i < |s.rootgc| && s.sweepgc <= i && IsDead(s, s.rootgc[i])
    requires NoDup(s.rootgc)
    ensures PhaseOk(FreeRoot(s, i), {})
  {
    var t := FreeRoot(s, i);
    assert forall x | IsCurrent(s, x) :: IsCurrent(t, x);
    forall k | 0 <= k < t.sweepgc && k < |t.rootgc| ensures Swept(t, t.rootgc[k]) {
      assert Swept(s, s.rootgc[k]);
    }
  }

  lemma FreeRootKeeps(s: State, i: nat)
    requires Inv(s) && s.gcstate == Sweep && i < |s.rootgc| && s.sweepgc <= i && Condemned(s, s.rootgc[i])
    requires s.rootgc[i] in s.heap && NoOpen(s.heap[s.rootgc[i]])
    ensures Inv(FreeRoot(s, i)) && SweepFrees(s, FreeRoot(s, i))
  {
    hide LiveClosed, StringsOk, UpvalsOk, OpenNeverBlack, FixedOk, PhaseOk, SameChildren;
    var r := s.rootgc[i];
    var t := FreeRoot(s, i);
    FreeSameChildren(s, r);
    FreeLive(s, t, r);
    FreeUpvals(s, t, r);
    FreeRootLists(s, i);
    FreeRootPhase(s, i);
    assert s.running != r && s.mainthread != r by { RootsLive(s); }
  }

  lemma RootsLive(s: State)
    requires LiveClosed(s)
    ensures Alive(s, s.running) && Alive(s, s.mainthread)
  {
  }

  /** How much sweeping is left: unswept objects, and upvalues that may still move to `rootgc`. */
  function SweepWork(s: State): int {
    |s.rootgc| - s.sweepgc + |s.uvhead|
  }

  /** What closing the upvalues of a condemned thread may change. */
  ghost predicate CloseStep(s: State, t: State) {
    && t == s.(heap := t.heap, color := t.color, uvhead := t.uvhead, rootgc := t.rootgc, sweepgc := t.sweepgc)
    && t.heap.Keys <= s.heap.Keys
    && SameChildren(s.heap, t.heap)
    && (forall x | x in s.heap && x !in t.heap :: Condemned(s, x))
    && (forall x | x in t.heap :: IsDead(t, x) <==> IsDead(s, x))
    && SweepWork(t) <= SweepWork(s)
    && (forall x | x in s.rootgc :: x in t.rootgc)
  }

  lemma CloseStepTransitive(s: State, m: State, t: State)
    requires CloseStep(s, m) && CloseStep(m, t)
    ensures CloseStep(s, t)
  {
    hide SameChildren;
    SameChildrenTransitive(s.heap, m.heap, t.heap);
  }

  lemma CloseTopSameChildren(s: State, th: Ref)
    requires UpvalsOk(s) && HasOpen(s.heap, th)
    ensures SameChildren(s.heap, FreeTop(s, th).heap) && SameChildren(s.heap, DetachTop(s, th).heap)
  {
    hide UpvalsOk;
    OpenTop(s, th);
    var f := FreeTop(s, th).heap;
    forall x | x in f ensures x in s.heap && Children(f, x) == Children(s.heap, x) {
      FreeHolds(s, th, x);
    }
    var d := DetachTop(s, th).heap;
    forall x | x in d ensures x in s.heap && Children(d, x) == Children(s.heap, x) {
      DetachHolds(s, th, x);
    }
  }

  lemma CloseTopStep(s: State, th: Ref)
    requires Inv(s) && s.gcstate == Sweep && th in s.heap && s.heap[th].Thread? && s.heap[th].openupval != []
    ensures CloseStep(s, CloseTop(s, th))
  {
    hide LiveClosed, RootListOk, StringsOk, UpvalsOk, OpenNeverBlack, FixedOk, PhaseOk, SameChildren;
    CloseTopEffect(s, th);
    CloseTopSameChildren(s, th);
    var u := s.heap[th].openupval[0];
    OpenTop(s, th);
    assert u !in s.fixed by { UpvalNotFixed(s, u); }
    if !IsDead(s, u) {
      SweepNotBlack(s, u);
    }
  }

  lemma UpvalNotFixed(s: State, u: Ref)
    requires FixedOk(s) && u in s.heap && s.heap[u].UpVal?
    ensures u !in s.fixed
  {
  }

  lemma SweepNotBlack(s: State, u: Ref)
    requires OpenNeverBlack(s) && IsOpenUpval(s.heap, u)
    ensures u in s.color && !s.color[u].Black?
  {
  }

  lemma {:induction false} CloseUpvalsStep(s: State, th: Ref, level: nat)
    requires Inv(s) && s.gcstate == Sweep && th in s.heap && s.heap[th].Thread?
    ensures CloseStep(s, CloseUpvals(s, th, level))
    decreases |s.heap[th].openupval|
  {
    hide Inv, CloseTop;
    var ou := s.heap[th].openupval;
    if !(ou == [] || LevelOf(s.heap, ou[0]) < level) {
      CloseTopStep(s, th);
      CloseUpvalsStep(CloseTop(s, th), th, level);
      CloseStepTransitive(s, CloseTop(s, th), CloseUpvals(s, th, level));
    }
  }

  lemma CloseAllEmpties(s: State, th: Ref)
    requires Inv(s) && th in s.heap && s.heap[th].Thread?
    ensures CloseUpvals(s, th, 0).heap[th].openupval == []
  {
    hide PhaseOk, Static, CloseUpvals, ClosedFrom;
    CloseUpvalsCloses(s, th, 0);
    StaticUpvals(s);
    ClosedAll(s, CloseUpvals(s, th, 0), th);
  }

  lemma ClosedAll(s: State, t: State, th: Ref)
    requires UpvalsOk(s) && ClosedFrom(s, t, th, 0)
    ensures t.heap[th].openupval == []
  {
    assert OpenListOk(s.heap, th);
    hide UpvalsOk;
    EmptyIfNone(t.heap[th].openupval);
  }

  lemma EmptyIfNone(xs: seq<Ref>)
    ensures (forall x :: x !in xs) ==> xs == []
  {
    assert xs == [] || xs[0] in xs;
  }

  /** The object whose turn it is. */
  function Current(s: State): Ref
    requires s.sweepgc < |s.rootgc|
  {
    s.rootgc[s.sweepgc]
  }

  /** The open upvalues of a thread are swept before the thread itself. */
  function SweepOwn(s: State): State
    requires s.sweepgc < |s.rootgc|
  {
    var r := Current(s);
    if r in s.heap && s.heap[r].Thread? then SweepOpen(s, r, 0) else s
  }

  /** luaE_freethread: a condemned thread closes the upvalues that survive it. */
  function CloseOwn(s: State, r: Ref): State
    requires Inv(s)
  {
    if r in s.heap && s.heap[r].Thread? then CloseUpvals(s, r, 0) else s
  }

  /** One turn of sweeplist over `rootgc`. */
  function SweepOne(s: State): (t: State)
    requires Inv(s) && s.gcstate == Sweep && s.sweepgc < |s.rootgc|
    ensures Inv(t) && t.gcstate == Sweep && SweepFrees(s, t) && SweepWork(t) < SweepWork(s)
  {
    hide Static, PhaseOk, SweepFrees;
    var r := Current(s);
    var s1 := SweepOwn(s);
    SweepOwnKeeps(s);
    SweepOneKeeps(s1, r);
    SweepFreesTransitive(s, s1,
      if !Condemned(s1, r) then Whiten(s1, r).(sweepgc := s1.sweepgc + 1)
      else FreeRoot(CloseOwn(s1, r), IndexOf(CloseOwn(s1, r).rootgc, r)));
    if !Condemned(s1, r) then
      Whiten(s1, r).(sweepgc := s1.sweepgc + 1)
    else
      var s2 := CloseOwn(s1, r);
      FreeRoot(s2, IndexOf(s2.rootgc, r))
  }

  lemma SweepFreesTransitive(s: State, m: State, t: State)
    requires SweepFrees(s, m) && SweepFrees(m, t)
    ensures SweepFrees(s, t)
  {
    hide SameChildren;
    SameChildrenTransitive(s.heap, m.heap, t.heap);
  }

  /** The state after the open list of the current thread is swept. */
  ghost predicate OwnSwept(s: State, r: Ref) {
    && Inv(s) && s.gcstate == Sweep && s.sweepgc < |s.rootgc| && Current(s) == r
    && r in s.heap
    && (s.heap[r].Thread? ==> AllCurrent(s, s.heap[r].openupval))
  }

  lemma SweepOwnKeeps(s: State)
    requires Inv(s) && s.gcstate == Sweep && s.sweepgc < |s.rootgc|
    ensures var t := SweepOwn(s);
            OwnSwept(t, Current(s)) && SweepFrees(s, t) && SweepWork(t) <= SweepWork(s)
  {
    hide LiveClosed, StringsOk, UpvalsOk, OpenNeverBlack, FixedOk, PhaseOk, SweepFrees, SweepOpen;
    var r := Current(s);
    SweepFreesNothing(s);
    assert r in s.heap;
    if s.heap[r].Thread? {
      assert s.heap[r].openupval[..0] == [];
      SweepOpenKeeps(s, r, 0);
    }
  }

  lemma PassKeeps(s: State, r: Ref)
    requires OwnSwept(s, r) && !Condemned(s, r)
    ensures Inv(Whiten(s, r).(sweepgc := s.sweepgc + 1))
  {
    hide Static, PhaseOk;
    WhitenKeeps(s, r);
    var m := Whiten(s, r);
    var t := m.(sweepgc := s.sweepgc + 1);
    assert AllCurrent(m, if m.heap[r].Thread? then m.heap[r].openupval else []);
    PassedStatic(m, t);
    PassedPhase(m, t);
  }

  lemma PassedStatic(m: State, t: State)
    requires Static(m) && m.sweepgc < |m.rootgc| && t == m.(sweepgc := m.sweepgc + 1)
    ensures Static(t)
  {
    hide StringsOk, UpvalsOk, LiveClosed, RootListOk;
    SameLive(m, t);
    PassedLists(m, t);
  }

  lemma PassedLists(m: State, t: State)
    requires RootListOk(m) && StringsOk(m) && UpvalsOk(m) && m.sweepgc < |m.rootgc| && t == m.(sweepgc := m.sweepgc + 1)
    ensures RootListOk(t) && StringsOk(t) && UpvalsOk(t)
  {
    hide OpenListOk;
  }

  lemma PassedPhase(m: State, t: State)
    requires PhaseOk(m, {}) && m.gcstate == Sweep && m.sweepgc < |m.rootgc| && t == m.(sweepgc := m.sweepgc + 1)
    requires Swept(m, Current(m))
    ensures PhaseOk(t, {})
  {
    forall i | 0 <= i < t.sweepgc && i < |t.rootgc| ensures Swept(t, t.rootgc[i]) {
      assert Swept(m, m.rootgc[i]);
    }
  }

  lemma CloseOwnKeeps(s: State, r: Ref)
    requires OwnSwept(s, r) && Condemned(s, r)
    ensures var t := CloseOwn(s, r);
            && Inv(t) && CloseStep(s, t) && r in t.heap && NoOpen(t.heap[r]) && r in t.rootgc
  {
    hide Inv, CloseUpvals;
    if s.heap[r].Thread? {
      CloseUpvalsStep(s, r, 0);
      CloseAllEmpties(s, r);
    } else {
      CloseStepReflexive(s);
    }
  }

  lemma CloseStepReflexive(s: State)
    ensures CloseStep(s, s)
  {
  }

  /** The condemned object lies behind the sweep position, for everything before it is white again. */
  lemma CondemnedBehind(s: State, r: Ref)
    requires PhaseOk(s, {}) && s.gcstate == Sweep && IsDead(s, r) && r in s.rootgc
    ensures s.sweepgc <= IndexOf(s.rootgc, r)
  {
    assert !(IndexOf(s.rootgc, r) < s.sweepgc && Swept(s, r));
  }

  lemma SweepOneKeeps(s: State, r: Ref)
    requires OwnSwept(s, r)
    ensures !Condemned(s, r) ==>
              var t := Whiten(s, r).(sweepgc := s.sweepgc + 1);
              Inv(t) && t.gcstate == Sweep && SweepFrees(s, t) && SweepWork(t) < SweepWork(s)
    ensures Condemned(s, r) ==>
              var m := CloseOwn(s, r);
              && r in m.rootgc
              && var t := FreeRoot(m, IndexOf(m.rootgc, r));
                 Inv(t) && t.gcstate == Sweep && SweepFrees(s, t) && SweepWork(t) < SweepWork(s)
  {
    hide Static, PhaseOk;
    if !Condemned(s, r) {
      PassKeeps(s, r);
      WhitenFrees(s, r);
    } else {
      CloseOwnKeeps(s, r);
      var m := CloseOwn(s, r);
      CondemnedBehind(m, r);
      FreeRootKeeps(m, IndexOf(m.rootgc, r));
      CloseStepFrees(s, m);
      SweepFreesTransitive(s, m, FreeRoot(m, IndexOf(m.rootgc, r)));
    }
  }

  lemma WhitenFrees(s: State, r: Ref)
    requires r in s.heap && !Condemned(s, r)
    ensures SweepFrees(s, Whiten(s, r).(sweepgc := s.sweepgc + 1))
  {
  }

  lemma CloseStepFrees(s: State, t: State)
    requires CloseStep(s, t)
    ensures SweepFrees(s, t)
  {
  }

  lemma SweepBounded(s: State)
    requires Inv(s)
    ensures s.sweepgc <= |s.rootgc|
  {
  }

  /** sweeplist over `rootgc`, at most `count` objects. */
  function SweepRoot(s: State, count: nat): (t: State)
    requires Inv(s) && s.gcstate == Sweep
    ensures Inv(t) && t.gcstate == Sweep && SweepFrees(s, t)
    ensures SweepWork(t) <= SweepWork(s)
    ensures t.sweepgc < |t.rootgc| ==> SweepWork(t) <= SweepWork(s) - count
    ensures 0 < count && s.sweepgc < |s.rootgc| ==> SweepWork(t) < SweepWork(s)
    ensures s.sweepgc == |s.rootgc| ==> t == s
    decreases count
  {
    hide Static, PhaseOk, SweepFrees, SweepOne;
    SweepFreesNothing(s);
    SweepBounded(s);
    if count == 0 || s.sweepgc == |s.rootgc| then s
    else
      assert s.sweepgc < |s.rootgc|;
      var m := SweepOne(s);
      SweepFreesTransitive(s, m, SweepRoot(m, count - 1));
      SweepRoot(m, count - 1)
  }
}
