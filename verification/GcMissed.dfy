/**
 * A run in which lua_setupvalue (lapi.c) misses: the upvalue is shared with a closure that was visited
 * before, and the new value is lost although it can still be reached.
 */
module GcMissed {
  import opened GcHeap
  import opened GcMark
  import opened GcInvariant
  import opened GcBarrier
  import opened GcAlloc
  import opened GcPropagate
  import opened GcAtomic
  import opened GcSweep
  import opened GcCollector
  import opened GcStore
  import opened GcSetUpvalue
  import opened GcRuns
  import opened GcUnchecked
  import opened Wrappers

  // ---------------------------------------------------------------- the run

  const WHITE: Color := White(White0)

  /** The prototype 3, the closed upvalue 4, two closures that share it, 5 and 6, and the table 7. */
  const PROTO: Body := Proto(None, [], [], [], [])
  const UPVALUE: Body := UpVal(Closed(Nil))
  const CLOSURE: Body := LClosure(1, 3, [4])
  const TABLE: Body := Table(None, [], [])

  function Made(s: State, r: Ref, b: Body): State {
    s.(heap := s.heap[r := b], color := s.color[r := WHITE], rootgc := [r] + s.rootgc)
  }

  function M3(): State { Made(Initial(), 3, PROTO) }
  function M4(): State { Made(M3(), 4, UPVALUE) }
  function M5(): State { Made(M4(), 5, CLOSURE) }
  function M6(): State { Made(M5(), 6, CLOSURE) }
  function M7(): State { Made(M6(), 7, TABLE) }

  /** The registry holds one closure, the stack the other one and the table. */
  function Held(): State { M7().(heap := M7().heap[2 := Table(None, [Gc(5)], [])]) }
  function OnStack(): State { Held().(heap := Held().heap[0 := Thread(Gc(1), [Gc(6), Gc(7)], 2, [])]) }

  /** The cycle starts, and visits the registry and the closure it holds. */
  function Started(): State {
    OnStack().(color := OnStack().color[0 := Gray][1 := Gray][2 := Gray], gray := [2, 1, 0], gcstate := Propagate)
  }
  function Visited2(): State { Started().(color := Started().color[2 := Black][5 := Gray], gray := [5, 1, 0]) }
  function Visited5(): State {
    Visited2().(color := Visited2().color[5 := Black][3 := Gray][4 := Black], gray := [3, 1, 0])
  }

  function States(): seq<State> {
    [Initial(), M3(), M4(), M5(), M6(), M7(), Held(), OnStack(), Started(), Visited2(), Visited5()]
  }

  function Steps(): seq<Step> {
    [New(3, PROTO), New(4, UPVALUE), New(5, CLOSURE), New(6, CLOSURE), New(7, TABLE),
     StoreTable(2, [Gc(5)], [], Plain(1), Gc(5)), StoreThread(0, Gc(1), [Gc(6), Gc(7)], 2),
     Collect(false), Collect(false), Collect(false)]
  }

  lemma MadeStep(s: State, r: Ref, b: Body)
    requires s.currentwhite == White0 && s.sweepgc == 0 && GoodObject(s, r, b)
    ensures StepsTo(s, New(r, b), Made(s, r, b))
  {
    hide Inv, GoodObject;
    assert InsertAt(s.rootgc, 0, r) == [r] + s.rootgc;
  }

  lemma Step3()
    ensures StepsTo(Initial(), New(3, PROTO), M3())
  {
    hide Inv, StepsTo;
    MadeStep(Initial(), 3, PROTO);
  }

  lemma Step4()
    ensures StepsTo(M3(), New(4, UPVALUE), M4())
  {
    hide Inv, StepsTo;
    MadeStep(M3(), 4, UPVALUE);
  }

  lemma Step5()
    ensures StepsTo(M4(), New(5, CLOSURE), M5())
  {
    hide Inv, StepsTo;
    MadeStep(M4(), 5, CLOSURE);
  }

  lemma Step6()
    ensures StepsTo(M5(), New(6, CLOSURE), M6())
  {
    hide Inv, StepsTo;
    MadeStep(M5(), 6, CLOSURE);
  }

  lemma Step7()
    ensures StepsTo(M6(), New(7, TABLE), M7())
  {
    hide Inv, StepsTo;
    MadeStep(M6(), 7, TABLE);
  }

  lemma HeldGood(s: State, b: Body)
    requires s == M7() && b == Table(None, [Gc(5)], [])
    ensures GoodStore(s, 2, b) && AllAlive(s, ValueRefs(Plain(1)) + ValueRefs(Gc(5)))
    ensures Holds(s.heap[2 := b], 2) <= Holds(s.heap, 2) + (ValueRefs(Plain(1)) + ValueRefs(Gc(5)))
  {
  }

  lemma StepHeld()
    ensures StepsTo(M7(), Steps()[5], Held())
  {
    hide Inv, GoodStore, Holds, AllAlive;
    var s := M7();
    HeldGood(s, Table(None, [Gc(5)], []));
    if Inv(s) {
      StoreBackKeeps(s, 2, Table(None, [Gc(5)], []), Plain(1), Gc(5));
    }
  }

  lemma OnStackGood(s: State)
    requires s == Held()
    ensures Alive(s, 0) && s.heap[0] == Thread(Gc(1), [Nil], 1, []) && GoodStore(s, 0, Thread(Gc(1), [Gc(6), Gc(7)], 2, []))
  {
  }

  lemma StepOnStack()
    ensures StepsTo(Held(), Steps()[6], OnStack())
  {
    hide Inv, GoodStore;
    OnStackGood(Held());
  }

  // ---------------------------------------------------------------- single markings

  lemma MarkDark(s: State, r: Ref)
    requires Ready(s) && r in s.heap && !IsWhite(s.color, r)
    ensures Mark(s, r) == s
  {
  }

  lemma MarkListed(s: State, r: Ref)
    requires Ready(s) && r in s.heap && IsWhite(s.color, r) && Traversable(s.heap[r])
    ensures Mark(s, r) == s.(color := s.color[r := Gray], gray := [r] + s.gray)
  {
    hide HeapClosed;
  }

  lemma MarkEmptyUpval(s: State, r: Ref)
    requires Ready(s) && r in s.heap && IsWhite(s.color, r) && s.heap[r] == UpVal(Closed(Nil))
    ensures Mark(s, r) == s.(color := s.color[r := Black])
  {
    hide HeapClosed, Marked, Whites, ReallyMark;
    ReallyMarkEmpty(s, r);
  }

  lemma NothingToMark(s: State, r: Ref, c: Color)
    requires Ready(s) && r in s.heap
    ensures Ready(Paint(s, r, c)) && MarkValue(Paint(s, r, c), Nil) == Paint(s, r, c)
  {
    hide HeapClosed, Mark;
  }

  lemma ReallyMarkEmpty(s: State, r: Ref)
    requires Ready(s) && r in s.heap && IsWhite(s.color, r) && s.heap[r] == UpVal(Closed(Nil))
    ensures ReallyMark(s, r) == s.(color := s.color[r := Black])
  {
    hide HeapClosed, Marked, Whites, Mark, MarkOption, MarkValue, Holds, Children;
    NothingToMark(s, r, Gray);
    assert UpvalValue(s.heap, Closed(Nil)) == Nil;
    assert s.color[r := Gray][r := Black] == s.color[r := Black];
  }

  lemma {:induction false} NoMetatables(s: State, mt: seq<Option<Ref>>, n: nat)
    requires Ready(s) && n <= |mt| && (forall i | 0 <= i < |mt| :: mt[i] == None) && OptionsRefs(mt) <= s.heap.Keys
    ensures MarkOptions(s, mt, n) == s
  {
    hide HeapClosed;
    if n > 0 { NoMetatables(s, mt, n - 1); }
  }

  // ---------------------------------------------------------------- the marking of the run

  lemma OnStackRoots(s: State)
    requires Ready(s) && RootsAllocated(s) && s.mainthread == 0 && s.registry == Gc(2)
    requires 0 in s.heap && s.heap[0].Thread? && s.heap[0].gt == Gc(1) && 1 in s.heap && s.heap[1].Table? && 2 in s.heap && s.heap[2].Table?
    requires IsWhite(s.color, 0) && IsWhite(s.color, 1) && IsWhite(s.color, 2) && forall i | 0 <= i < |s.mt| :: s.mt[i] == None
    ensures MarkRoot(s) ==
              s.(color := s.color[0 := Gray][1 := Gray][2 := Gray], gray := [2, 1, 0], grayagain := [], gcstate := Propagate)
  {
    hide HeapClosed, Mark, Marked, Whites;
    var a := s.(gray := [], grayagain := []);
    MarkListed(a, 0);
    var b := Mark(a, 0);
    MarkListed(b, 1);
    var c := Mark(b, 1);
    MarkListed(c, 2);
    var d := Mark(c, 2);
    assert OptionsRefs(s.mt) == {};
    NoMetatables(d, s.mt, |s.mt|);
  }

  lemma StepStart()
    ensures StepsTo(OnStack(), Collect(false), Started())
  {
    hide Inv, Ready, RootsAllocated, MarkRoot;
    if Inv(OnStack()) {
      StartReady(OnStack());
      OnStackRoots(OnStack());
    }
  }

  /** A table whose array holds one object that was not visited yet. */
  lemma VisitTable(s: State, r: Ref, x: Ref, rest: seq<Ref>)
    requires CanPropagate(s) && s.gray == [r] + rest && r in s.heap && x in s.heap && x != r
    requires s.heap[r] == Table(None, [Gc(x)], []) && IsWhite(s.color, x) && Traversable(s.heap[x])
    ensures PropagateOne(s) == s.(color := s.color[r := Black][x := Gray], gray := [x] + rest)
  {
    hide HeapClosed, SlotsBelowTop, Mark, Marked, Whites, Traversed;
    var b := TakeGray(s);
    assert b == s.(color := s.color[r := Black], gray := rest);
    MarkListed(b, x);
    assert ValuesRefs([Gc(x)]) == {x};
    assert MarkValuesDown(b, [Gc(x)], 1) == b;
  }

  lemma StartedFacts()
    ensures var s := Started();
            && s.gcstate == Propagate && s.gray == [2] + [1, 0] && 2 in s.heap && 5 in s.heap
            && s.heap[2] == Table(None, [Gc(5)], []) && IsWhite(s.color, 5) && Traversable(s.heap[5])
  {
  }

  lemma StepVisit2()
    ensures StepsTo(Started(), Collect(false), Visited2())
  {
    hide Inv, Ready, SlotsBelowTop, PropagateMark, Marking, Started, IsWhite;
    var s := Started();
    StartedFacts();
    if Inv(s) {
      PropagateIsMarking(s);
      MarkingReady(s);
      assert CanPropagate(s);
      VisitTable(s, 2, 5, [1, 0]);
      assert [5] + [1, 0] == [5, 1, 0];
    }
  }

  /** The first closure: its environment was marked, its prototype and its upvalue were not. */
  lemma VisitFirst(s: State, r: Ref, e: Ref, p: Ref, u: Ref, rest: seq<Ref>)
    requires CanPropagate(s) && s.gray == [r] + rest && r in s.heap
    requires s.heap[r] == LClosure(e, p, [u]) && e in s.heap && p in s.heap && u in s.heap
    requires !IsWhite(s.color, e) && IsWhite(s.color, p) && s.heap[p].Proto? && IsWhite(s.color, u) && s.heap[u] == UpVal(Closed(Nil))
    requires e != r && p != r && u != r
    ensures PropagateOne(s) == s.(color := s.color[r := Black][p := Gray][u := Black], gray := [p] + rest)
  {
    hide HeapClosed, SlotsBelowTop, Mark, Marked, Whites, Traversed;
    var b := TakeGray(s);
    assert b == s.(color := s.color[r := Black], gray := rest);
    MarkDark(b, e);
    MarkListed(b, p);
    var c := Mark(b, p);
    MarkEmptyUpval(c, u);
    assert MarkRefs(c, [u], 0) == c;
  }

  lemma Visited2Facts()
    ensures var s := Visited2();
            && s.gcstate == Propagate && s.gray == [5] + [1, 0] && 1 in s.heap && 3 in s.heap && 4 in s.heap && 5 in s.heap
            && s.heap[5] == CLOSURE && s.heap[3].Proto? && s.heap[4] == UPVALUE
            && !IsWhite(s.color, 1) && IsWhite(s.color, 3) && IsWhite(s.color, 4)
  {
  }

  lemma StepVisit5()
    ensures StepsTo(Visited2(), Collect(false), Visited5())
  {
    hide Inv, Ready, SlotsBelowTop, PropagateMark, Marking, Visited2, IsWhite;
    var s := Visited2();
    Visited2Facts();
    if Inv(s) {
      PropagateIsMarking(s);
      MarkingReady(s);
      assert CanPropagate(s);
      VisitFirst(s, 5, 1, 3, 4, [1, 0]);
      assert [3] + [1, 0] == [3, 1, 0];
    }
  }

  lemma ItIsARun()
    ensures IsRun(States(), Steps())
  {
    hide StepsTo, Initial, M3, M4, M5, M6, M7, Held, OnStack, Started, Visited2, Visited5;
    Step3();
    Step4();
    Step5();
    Step6();
    Step7();
    StepHeld();
    StepOnStack();
    StepStart();
    StepVisit2();
    StepVisit5();
    var states, steps := States(), Steps();
    forall i | 0 <= i < |steps| ensures StepsTo(states[i], steps[i], states[i+1]) {
      assert i in {0, 1, 2, 3, 4, 5, 6, 7, 8, 9};
    }
  }

  // ---------------------------------------------------------------- the call, and what the collector makes of it

  /** The upvalue holds the table 7, which was taken off the stack. */
  function LostHeap(stack: seq<Value>): Heap {
    map[0 := Thread(Gc(1), stack, 1, []), 1 := TABLE, 2 := Table(None, [Gc(5)], []), 3 := PROTO,
        4 := UpVal(Closed(Gc(7))), 5 := CLOSURE, 6 := CLOSURE, 7 := TABLE]
  }

  function Lost(stack: seq<Value>, color: Colors, gray: seq<Ref>, grayagain: seq<Ref>): State {
    State(LostHeap(stack), color, {0}, White0, Propagate, gray, grayagain, [7, 6, 5, 4, 3, 2, 1, 0], 0,
          seq(32, _ => []), 0, [], 0, 0, Gc(2), seq(9, _ => None))
  }

  const FULL: seq<Value> := [Gc(6), Gc(7)]
  const CLEARED: seq<Value> := [Gc(6), Nil]

  const COLOR5: Colors :=
    map[0 := Gray, 1 := Gray, 2 := Black, 3 := Gray, 4 := Black, 5 := Black, 6 := WHITE, 7 := WHITE]

  function Popped(): State { Lost(FULL, COLOR5, [3, 1, 0], []) }
  function Proto3(): State { Lost(FULL, COLOR5[3 := Black], [1, 0], []) }
  function Globals(): State { Lost(FULL, COLOR5[3 := Black][1 := Black], [0], []) }
  function Stack(): State { Lost(CLEARED, COLOR5[3 := Black][1 := Black][6 := Gray], [6], [0]) }
  function Closure6(): State { Lost(CLEARED, COLOR5[3 := Black][1 := Black][6 := Black], [], [0]) }
  function SweptTo(n: nat): State {
    Closure6().(currentwhite := White1, sweepstrgc := n, gcstate := if n >= 32 then Sweep else SweepString)
  }

  /** `t` is the state after lua_setupvalue. */
  ghost predicate IsSet(s: State, f: Ref, u: Ref, v: Ref, t: State) {
    && f in s.color && v in s.color && u in s.heap && s.heap[u].UpVal? && s.heap[u].loc.Closed?
    && Ready(UpvalueStored(s, u, Gc(v))) && t == SetUpvalue(s, f, u, Gc(v))
  }

  lemma CallMisses()
    requires Inv(Visited5())
    ensures Callable(Visited5(), 6, 4, Gc(7)) && Missed(Visited5(), 6, 4, Gc(7))
    ensures IsSet(Visited5(), 6, 4, 7, Popped().(heap := Popped().heap[0 := Thread(Gc(1), FULL, 2, [])]))
  {
    hide Inv, Ready, Visited5, Callable, LostHeap, ValueBarrier;
    var s := Visited5();
    Visited5Called();
    SetUpvalueExact(s, 6, 4, Gc(7));
    Visited5Lost();
    NoBarrier(UpvalueStored(s, 4, Gc(7)), 6, 7);
  }

  lemma NoBarrier(t: State, f: Ref, v: Ref)
    requires f in t.color && v in t.color && !t.color[f].Black? && (t.gcstate == Propagate ==> Ready(t))
    ensures ValueBarrier(t, f, Gc(v)) == t
  {
    hide HeapClosed;
  }

  lemma Visited5Called()
    ensures Callable(Visited5(), 6, 4, Gc(7)) && Missed(Visited5(), 6, 4, Gc(7)) && Visited5().gcstate == Propagate
    ensures Visited5().heap[4] == UPVALUE && !Visited5().color[6].Black?
  {
  }

  lemma Visited5Lost()
    ensures 4 in Visited5().heap
    ensures Visited5().heap[4 := UpVal(Closed(Gc(7)))] == LostHeap(FULL)[0 := Thread(Gc(1), FULL, 2, [])]
    ensures Visited5() == Popped().(heap := Visited5().heap)
  {
    Visited5Color();
    Visited5Heap();
    hide Visited5;
    Visited5Rest();
  }

  lemma Visited5Rest()
    ensures Visited5() == Popped().(heap := Visited5().heap, color := Visited5().color)
  {
    assert Visited5().rootgc == [7, 6, 5, 4, 3, 2, 1, 0];
  }

  lemma Visited5Heap()
    ensures Visited5().heap ==
              map[0 := Thread(Gc(1), FULL, 2, []), 1 := TABLE, 2 := Table(None, [Gc(5)], []), 3 := PROTO,
                  4 := UPVALUE, 5 := CLOSURE, 6 := CLOSURE, 7 := TABLE]
  {
  }

  lemma OnStackColor()
    ensures OnStack().color ==
              map[0 := WHITE, 1 := WHITE, 2 := WHITE, 3 := WHITE, 4 := WHITE, 5 := WHITE, 6 := WHITE, 7 := WHITE]
  {
  }

  lemma Visited5Color()
    ensures Visited5().color == COLOR5
  {
    OnStackColor();
    hide OnStack;
  }

  lemma LostKeys(stack: seq<Value>)
    ensures LostHeap(stack).Keys == {0, 1, 2, 3, 4, 5, 6, 7}
  {
  }

  lemma LostReady(stack: seq<Value>, color: Colors, gray: seq<Ref>, again: seq<Ref>)
    requires (stack == FULL || stack == CLEARED) && color.Keys == {0, 1, 2, 3, 4, 5, 6, 7}
    ensures Ready(Lost(stack, color, gray, again)) && SlotsBelowTop(LostHeap(stack))
  {
    hide LostHeap, Holds, WellShaped, IsOpenUpval;
    LostKeys(stack);
    var h := LostHeap(stack);
    forall r | r in h ensures Holds(h, r) <= h.Keys && WellShaped(h, r) && !IsOpenUpval(h, r) {
      LostHolds(stack, r);
    }
  }

  lemma LostHolds(stack: seq<Value>, r: Ref)
    requires (stack == FULL || stack == CLEARED) && r in LostHeap(stack)
    ensures Holds(LostHeap(stack), r) <= {1, 3, 4, 5, 6, 7} && WellShaped(LostHeap(stack), r) && !IsOpenUpval(LostHeap(stack), r)
  {
    assert r in {0, 1, 2, 3, 4, 5, 6, 7};
  }

  lemma LostCan(stack: seq<Value>, color: Colors, r: Ref, rest: seq<Ref>, again: seq<Ref>)
    requires (stack == FULL || stack == CLEARED) && color.Keys == {0, 1, 2, 3, 4, 5, 6, 7} && r in {0, 1, 3, 6}
    ensures CanPropagate(Lost(stack, color, [r] + rest, again))
  {
    hide LostHeap, HeapClosed, SlotsBelowTop;
    LostReady(stack, color, [r] + rest, again);
    LostBodies(stack);
  }

  /** An object that holds nothing. */
  lemma VisitEmpty(s: State, r: Ref, rest: seq<Ref>)
    requires CanPropagate(s) && s.gray == [r] + rest && r in s.heap && (s.heap[r] == TABLE || s.heap[r] == PROTO)
    ensures PropagateOne(s) == s.(color := s.color[r := Black], gray := rest)
  {
    hide HeapClosed, SlotsBelowTop, Mark, Marked, Whites, Traversed;
    var b := TakeGray(s);
    assert b == s.(color := s.color[r := Black], gray := rest);
  }

  /** A closure whose environment, prototype and upvalue are marked. */
  lemma VisitSecond(s: State, r: Ref, e: Ref, p: Ref, u: Ref, rest: seq<Ref>)
    requires CanPropagate(s) && s.gray == [r] + rest && r in s.heap
    requires s.heap[r] == LClosure(e, p, [u]) && e in s.heap && p in s.heap && u in s.heap
    requires !IsWhite(s.color, e) && !IsWhite(s.color, p) && !IsWhite(s.color, u)
    ensures PropagateOne(s) == s.(color := s.color[r := Black], gray := rest)
  {
    hide HeapClosed, SlotsBelowTop, Mark, Marked, Whites, Traversed;
    var b := TakeGray(s);
    assert b == s.(color := s.color[r := Black], gray := rest);
    MarkDark(b, e);
    MarkDark(b, p);
    MarkDark(b, u);
    assert MarkRefs(b, [u], 0) == b;
  }

  /** The thread `r` is the next to visit, with the one value `x` below the top of its stack. */
  ghost predicate OneValue(s: State, r: Ref, g: Ref, x: Ref, y: Value) {
    && CanPropagate(s) && s.gray[0] == r && r in s.heap && g in s.heap && x in s.heap && x != r
    && s.heap[r] == Thread(Gc(g), [Gc(x), y], 1, []) && !IsWhite(s.color, g) && Traversable(s.heap[x])
  }

  function ThreadVisited(s: State, r: Ref, g: Ref, x: Ref): State
    requires s.gray != []
  {
    s.(heap := s.heap[r := Thread(Gc(g), [Gc(x), Nil], 1, [])],
       color := if IsWhite(s.color, x) then s.color[r := Gray][x := Gray] else s.color[r := Gray],
       gray := if IsWhite(s.color, x) then [x] + s.gray[1..] else s.gray[1..], grayagain := [r] + s.grayagain)
  }

  lemma VisitThread(s: State, r: Ref, g: Ref, x: Ref, y: Value)
    requires OneValue(s, r, g, x, y)
    ensures PropagateOne(s) == ThreadVisited(s, r, g, x)
  {
    hide HeapClosed, SlotsBelowTop, Mark, Marked, Whites, Traversed;
    var b := TakeGray(s);
    assert s.color[r := Black][r := Gray] == s.color[r := Gray];
    assert b == s.(color := s.color[r := Gray], gray := s.gray[1..], grayagain := [r] + s.grayagain);
    StackHeld(b.heap, r);
    MarkDark(b, g);
    if IsWhite(s.color, x) { MarkListed(b, x); } else { MarkDark(b, x); }
    var stack := [Gc(x), y];
    assert MarkValues(b, stack, 0) == b;
    assert MarkValues(b, stack, 1) == Mark(b, x);
    assert ClearAbove(stack, 1) == [Gc(x), Nil];
  }

  lemma Color5()
    ensures COLOR5.Keys == {0, 1, 2, 3, 4, 5, 6, 7}
    ensures COLOR5[1] == Gray && COLOR5[4] == Black && COLOR5[6] == WHITE && COLOR5[0] == Gray
  {
  }

  lemma LostBodies(stack: seq<Value>)
    ensures var h := LostHeap(stack);
            && h.Keys == {0, 1, 2, 3, 4, 5, 6, 7} && h[0] == Thread(Gc(1), stack, 1, []) && h[1] == TABLE && h[3] == PROTO
            && h[6] == LClosure(1, 3, [4]) && h[0 := Thread(Gc(1), CLEARED, 1, [])] == LostHeap(CLEARED)
  {
  }

  lemma VisitProto()
    ensures StepFreely(Popped(), false) == Proto3()
  {
    hide Ready, SlotsBelowTop, PropagateMark, CanPropagate, LostHeap;
    Color5();
    LostBodies(FULL);
    assert [3, 1, 0] == [3] + [1, 0];
    LostCan(FULL, COLOR5, 3, [1, 0], []);
    VisitEmpty(Popped(), 3, [1, 0]);
    Guarded(Popped());
  }

  lemma Guarded(s: State)
    requires s.gcstate == Propagate && CanPropagate(s)
    ensures StepFreely(s, false) == PropagateOne(s)
  {
    hide Ready, SlotsBelowTop, PropagateMark;
  }

  lemma VisitGlobals()
    ensures StepFreely(Proto3(), false) == Globals()
  {
    hide Ready, SlotsBelowTop, PropagateMark, CanPropagate, LostHeap, StepFreely;
    Color5();
    LostBodies(FULL);
    assert [1, 0] == [1] + [0];
    LostCan(FULL, COLOR5[3 := Black], 1, [0], []);
    VisitEmpty(Proto3(), 1, [0]);
    Guarded(Proto3());
  }

  lemma VisitStack()
    ensures StepFreely(Globals(), false) == Stack()
  {
    hide Ready, SlotsBelowTop, PropagateMark, CanPropagate, LostHeap, StepFreely, ThreadVisited;
    Color5();
    LostBodies(FULL);
    assert [0] == [0] + [];
    LostCan(FULL, COLOR5[3 := Black][1 := Black], 0, [], []);
    VisitThread(Globals(), 0, 1, 6, Gc(7));
    Guarded(Globals());
    StackVisited();
  }

  lemma StackVisited()
    ensures ThreadVisited(Globals(), 0, 1, 6) == Stack()
  {
    hide LostHeap;
    Color5();
    LostBodies(FULL);
    var c := COLOR5[3 := Black][1 := Black];
    assert c[0 := Gray][6 := Gray] == c[6 := Gray];
  }

  lemma VisitClosure()
    ensures StepFreely(Stack(), false) == Closure6()
  {
    hide Ready, SlotsBelowTop, PropagateMark, CanPropagate, StepFreely, Stack, Closure6, IsWhite;
    StackFacts();
    VisitSecond(Stack(), 6, 1, 3, 4, []);
    Guarded(Stack());
    ClosureVisited();
  }

  lemma StackFacts()
    ensures var s := Stack();
            && s.gcstate == Propagate && CanPropagate(s) && s.gray == [6] + []
            && 1 in s.heap && 3 in s.heap && 4 in s.heap && 6 in s.heap && s.heap[6] == LClosure(1, 3, [4])
            && !IsWhite(s.color, 1) && !IsWhite(s.color, 3) && !IsWhite(s.color, 4)
  {
    hide LostHeap, CanPropagate;
    Color5();
    LostBodies(CLEARED);
    assert [6] == [6] + [];
    LostCan(CLEARED, COLOR5[3 := Black][1 := Black][6 := Gray], 6, [], [0]);
  }

  lemma ClosureVisited()
    ensures Stack().(color := Stack().color[6 := Black], gray := []) == Closure6()
  {
    hide LostHeap;
    var c := COLOR5[3 := Black][1 := Black];
    assert c[6 := Gray][6 := Black] == c[6 := Black];
  }

  // ---------------------------------------------------------------- the atomic step and the sweep

  lemma StillNothing(s: State)
    requires s.gray == []
    ensures PropagateFreely(s) == s
  {
  }

  /** The thread is visited once more and marks nothing new. */
  lemma AgainStack(s: State)
    requires s == Closure6().(gray := [0], grayagain := [])
    ensures PropagateFreely(s) == Closure6()
  {
    hide Ready, SlotsBelowTop, PropagateMark, CanPropagate, LostHeap, Closure6, Unsettled;
    AgainMarks(s);
    Settles(s);
    assert Closure6().gray == [] by { ClosureLists(); }
    StillNothing(Closure6());
  }

  lemma ClosureLists()
    ensures Closure6().gray == [] && Closure6().grayagain == [0]
  {
  }

  lemma AgainMarks(s: State)
    requires s == Closure6().(gray := [0], grayagain := [])
    ensures CanPropagate(s) && PropagateOne(s) == Closure6()
  {
    hide Ready, SlotsBelowTop, PropagateMark, CanPropagate, LostHeap, ThreadVisited;
    Color5();
    LostBodies(CLEARED);
    assert [0] == [0] + [];
    LostCan(CLEARED, COLOR5[3 := Black][1 := Black][6 := Black], 0, [], []);
    VisitThread(s, 0, 1, 6, Nil);
    AgainVisited(s);
  }

  lemma AgainVisited(s: State)
    requires s == Closure6().(gray := [0], grayagain := [])
    ensures ThreadVisited(s, 0, 1, 6) == Closure6()
  {
    hide LostHeap;
    Color5();
    LostBodies(CLEARED);
    var c := COLOR5[3 := Black][1 := Black][6 := Black];
    assert c[0 := Gray] == c;
  }

  lemma Settles(s: State)
    requires s == Closure6().(gray := [0], grayagain := [])
    ensures Unsettled(Closure6()) < Unsettled(s)
  {
    hide LostHeap;
    Color5();
    assert 0 in Unsettled(s) && 0 !in Unsettled(Closure6());
  }

  /** Nothing is gray, nothing is open, and the roots are marked. */
  lemma AtomicFrom(s: State)
    requires s.gray == [] && s.uvhead == [] && Ready(s) && UvheadOk(s) && RootsAllocated(s)
    requires !IsWhite(s.color, s.running) && forall i | 0 <= i < |s.mt| :: s.mt[i] == None
    ensures var m := PropagateFreely(s.(gray := s.grayagain, grayagain := []));
            AtomicFreely(s) == m.(currentwhite := Other(m.currentwhite), sweepstrgc := 0, sweepgc := 0, gcstate := SweepString)
  {
    hide PropagateFreely, HeapClosed, Mark, Marked;
    StillNothing(s);
    assert RemarkUpvals(s, 0) == s;
    assert s.running in Roots(s);
    MarkDark(s, s.running);
    assert OptionsRefs(s.mt) == {};
    NoMetatables(s, s.mt, |s.mt|);
  }

  lemma ClosureRoots()
    ensures var s := Closure6();
            && s.gcstate == Propagate && s.uvhead == [] && UvheadOk(s) && RootsAllocated(s) && !IsWhite(s.color, s.running)
            && (forall i | 0 <= i < |s.mt| :: s.mt[i] == None) && Ready(s)
  {
    hide LostHeap, HeapClosed, IsOpenUpval;
    Color5();
    LostKeys(CLEARED);
    LostReady(CLEARED, COLOR5[3 := Black][1 := Black][6 := Black], [], [0]);
    forall r | r in LostHeap(CLEARED) ensures !IsOpenUpval(LostHeap(CLEARED), r) {
      LostHolds(CLEARED, r);
    }
    assert OptionsRefs(Closure6().mt) == {};
  }

  lemma AtomicFlips()
    ensures StepFreely(Closure6(), false) == SweptTo(0)
  {
    hide PropagateFreely, AtomicFreely, Closure6, Ready, UvheadOk, RootsAllocated, IsWhite;
    var s := Closure6();
    ClosureRoots();
    ClosureLists();
    AtomicFrom(s);
    AgainStack(s.(gray := [0], grayagain := []));
    WhiteIs0();
  }

  lemma WhiteIs0()
    ensures Closure6().currentwhite == White0 && Closure6().sweepgc == 0
  {
  }

  lemma SweepBuckets(n: nat)
    requires n < 32
    ensures StepFreely(SweptTo(n), false) == SweptTo(n + 1)
  {
    hide LostHeap;
    var s := SweptTo(n);
    assert SweepBucket(s, n, 0) == s;
  }

  lemma FirstTurnFrees(s: State, r: Ref)
    requires s.gcstate == Sweep && s.sweepgc < |s.rootgc| && r !in SweepOneFreely(s).heap
    ensures r !in StepFreely(s, false).heap
  {
    hide SweepFreely, SweepOneFreely, ResizeStrings;
    SweepShrinks(SweepOneFreely(s), GCSWEEPMAX - 1);
    OneTurn(s, GCSWEEPMAX);
  }

  /** The table 7 is the first on the list of all objects, and it has the old white. */
  lemma SweepTakes()
    ensures 7 !in StepFreely(SweptTo(32), false).heap
  {
    hide StepFreely, SweepOneFreely;
    FirstGoes();
    FirstTurnFrees(SweptTo(32), 7);
  }

  lemma OneTurn(s: State, count: nat)
    requires 0 < count && s.sweepgc < |s.rootgc|
    ensures SweepFreely(s, count) == SweepFreely(SweepOneFreely(s), count - 1)
  {
  }

  lemma FirstGoes()
    ensures 7 !in SweepOneFreely(SweptTo(32)).heap
  {
    hide Inv, LostHeap;
    Color5();
    LostSeven();
    var s := SweptTo(32);
    assert Current(s) == 7 && SweepOwn(s) == s;
    assert s.color[7] == WHITE;
  }

  lemma LostSeven()
    ensures 7 in LostHeap(CLEARED) && LostHeap(CLEARED)[7] == TABLE && COLOR5[7] == WHITE
  {
  }

  // ---------------------------------------------------------------- the value is lost

  /** The state after so many steps of the collector. */
  ghost function Stepped(s: State, n: nat): State {
    if n == 0 then s else StepFreely(Stepped(s, n - 1), false)
  }

  lemma {:induction false} SteppedBuckets(n: nat)
    requires n <= 32
    ensures Stepped(Popped(), 5 + n) == SweptTo(n)
  {
    hide StepFreely, Popped, Proto3, Globals, Stack, Closure6, SweptTo;
    if n == 0 {
      VisitProto();
      VisitGlobals();
      VisitStack();
      VisitClosure();
      AtomicFlips();
      assert Stepped(Popped(), 1) == Proto3();
      assert Stepped(Popped(), 2) == Globals();
      assert Stepped(Popped(), 3) == Stack();
      assert Stepped(Popped(), 4) == Closure6();
    } else {
      SteppedBuckets(n - 1);
      SweepBuckets(n - 1);
    }
  }

  lemma StillReachable(n: nat)
    ensures Reachable(SweptTo(n), 7) && 7 in SweptTo(n).heap
  {
    var s := SweptTo(n);
    assert 2 in Roots(s) by { assert s.registry == Gc(2); }
    RootsAreReachable(s, 2);
    LostEdges();
    ReachableStep(s, 2, 5);
    ReachableStep(s, 5, 4);
    ReachableStep(s, 4, 7);
  }

  lemma LostEdges()
    ensures var h := LostHeap(CLEARED);
            && 2 in h && 5 in h && 4 in h && 7 in h
            && 5 in Children(h, 2) && 4 in Children(h, 5) && 7 in Children(h, 4)
  {
    assert Gc(5) in [Gc(5)];
    assert 4 in [4];
  }

  /**
   * lua_setupvalue at the end of a run, on a closure and a value that the run has made: the value can be
   * reached through the registry, the other closure and the upvalue. After the value is popped, 37 steps
   * of the collector leave it so, and the next one frees it.
   */
  lemma ReachableIsFreed()
    ensures IsRun(States(), Steps()) && States()[|Steps()|] == Visited5()
    ensures Callable(Visited5(), 6, 4, Gc(7)) && Missed(Visited5(), 6, 4, Gc(7))
    ensures exists t :: IsSet(Visited5(), 6, 4, 7, t) && Popped() == SetBody(t, 0, Thread(Gc(1), FULL, 1, []))
    ensures Reachable(Stepped(Popped(), 37), 7) && 7 in Stepped(Popped(), 37).heap
    ensures 7 !in StepFreely(Stepped(Popped(), 37), false).heap
  {
    hide Inv, IsSet, StepFreely, SweptTo, Callable, Missed, Reachable, LostHeap, IsRun, Visited5;
    ItIsARun();
    assert States()[|Steps()|] == Visited5();
    RunInv(States(), Steps(), |Steps()|);
    CallMisses();
    SteppedBuckets(32);
    StillReachable(32);
    SweepTakes();
    PopsThread();
  }

  lemma PopsThread()
    ensures 0 in LostHeap(FULL) && LostHeap(FULL)[0 := Thread(Gc(1), FULL, 2, [])][0 := Thread(Gc(1), FULL, 1, [])] == LostHeap(FULL)
  {
  }
}
