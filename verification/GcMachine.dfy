/**
 * global_State and the collector working on it in place. Every method is the C function of the same
 * name; its contract says that the new state is the one the step machine defines.
 */
module GcMachine {
  import opened GcHeap
  import opened GcMark
  import opened GcPropagate
  import opened GcAtomic
  import opened GcInvariant
  import opened GcBarrier
  import opened GcAlloc
  import opened GcUpval
  import opened GcSweep
  import opened GcCollector
  import opened GcFull
  import opened Wrappers

  class GlobalState {
    var heap: Heap
    var color: Colors
    var fixed: set<Ref>
    var currentwhite: WhiteKind
    var gcstate: Phase
    var gray: seq<Ref>
    var grayagain: seq<Ref>
    var rootgc: seq<Ref>
    var sweepgc: nat
    var strt: seq<seq<Ref>>
    var sweepstrgc: nat
    var uvhead: seq<Ref>
    var mainthread: Ref
    var running: Ref
    var registry: Value
    var mt: seq<Option<Ref>>

    ghost function Model(): State
      reads this
    {
      State(heap, color, fixed, currentwhite, gcstate, gray, grayagain, rootgc, sweepgc, strt, sweepstrgc,
            uvhead, mainthread, running, registry, mt)
    }

    // -------------------------------------------------------------- marking

    method MarkObject(r: Ref)
      requires Ready(Model()) && r in heap
      modifies this
      ensures Model() == Mark(old(Model()), r)
      decreases Whites(color), 1
    {
      if color[r].White? {
        ReallyMarkObject(r);
      }
    }

    method MarkTValue(v: Value)
      requires Ready(Model()) && ValueRefs(v) <= heap.Keys
      modifies this
      ensures Model() == MarkValue(old(Model()), v)
      decreases Whites(color), 2
    {
      if v.Gc? {
        MarkObject(v.ref);
      }
    }

    method ReallyMarkObject(r: Ref)
      requires Ready(Model()) && IsWhite(color, r)
      modifies this
      ensures Model() == ReallyMark(old(Model()), r)
      decreases Whites(color), 0
    {
      hide HeapClosed, Holds;
      ghost var s := Model();
      assert r in Whites(color);
      color := color[r := Gray];
      assert Model() == Paint(s, r, Gray) && r !in Whites(color);
      match heap[r] {
        case Str(_, _) =>
        case Udata(meta, env) =>
          color := color[r := Black];
          assert Model() == Paint(Paint(s, r, Gray), r, Black);
          SmallHeld(heap, r);
          if meta.Some? {
            MarkObject(meta.value);
          }
          MarkObject(env);
        case UpVal(loc) =>
          var v := UpvalValue(heap, loc);
          SmallHeld(heap, r);
          MarkTValue(v);
          if loc.Closed? {
            color := color[r := Black];
          }
        case _ =>
          gray := [r] + gray;
      }
    }

    // -------------------------------------------------------------- traversals

    method TraverseOneNode(r: Ref, i: nat)
      requires Ready(Model()) && SlotsBelowTop(heap) && r in heap && heap[r].Table? && i < |heap[r].node|
      modifies this
      ensures Model() == TraverseNode(old(Model()), r, i)
    {
      hide HeapClosed, SlotsBelowTop, Whites, Scrubbed, HeapScrubbed;
      var n := heap[r].node[i];
      if n.val.Nil? {
        heap := heap[r := heap[r].(node := heap[r].node[i := RemoveEntry(n)])];
      } else {
        EntryHeld(heap, r, i);
        MarkTValue(n.key);
        MarkTValue(n.val);
      }
    }

    method TraverseTableNodes(r: Ref)
      requires Ready(Model()) && SlotsBelowTop(heap) && r in heap && heap[r].Table?
      modifies this
      ensures Model() == TraverseNodes(old(Model()), r, 0)
    {
      hide HeapClosed, SlotsBelowTop, Traversed, TraverseNode;
      ghost var s := Model();
      var i: nat := |heap[r].node|;
      while i > 0
        invariant r in heap && heap[r].Table? && i <= |heap[r].node| == |s.heap[r].node|
        invariant Ready(Model()) && SlotsBelowTop(heap)
        invariant Model() == TraverseNodes(s, r, i)
      {
        i := i - 1;
        TraverseOneNode(r, i);
      }
    }

    method MarkValuesFromEnd(vs: seq<Value>)
      requires Ready(Model()) && ValuesRefs(vs) <= heap.Keys
      modifies this
      ensures Model() == MarkValuesDown(old(Model()), vs, 0)
    {
      hide HeapClosed, Whites;
      ghost var m := Model();
      var i: nat := |vs|;
      while i > 0
        invariant i <= |vs| && Ready(m) && ValuesRefs(vs) <= m.heap.Keys
        invariant Model() == MarkValuesDown(m, vs, i)
      {
        i := i - 1;
        ValueHeld(vs, i);
        MarkTValue(vs[i]);
      }
    }

    method TraverseTableObject(r: Ref)
      requires Ready(Model()) && SlotsBelowTop(heap) && r in heap && heap[r].Table?
      modifies this
      ensures Model() == TraverseTable(old(Model()), r)
    {
      hide HeapClosed, SlotsBelowTop, Whites;
      TableHeld(heap, r);
      if heap[r].meta.Some? {
        MarkObject(heap[r].meta.value);
      }
      MarkValuesFromEnd(heap[r].arr);
      TraverseTableNodes(r);
    }

    method TraverseClosureObject(r: Ref)
      requires Ready(Model()) && r in heap && (heap[r].CClosure? || heap[r].LClosure?)
      modifies this
      ensures Model() == TraverseClosure(old(Model()), r)
    {
      hide HeapClosed, Whites;
      ghost var s := Model();
      ClosureHeld(heap, r);
      match heap[r] {
        case CClosure(env, ups) =>
          MarkObject(env);
          ghost var m := Model();
          var i := 0;
          while i < |ups|
            invariant i <= |ups| && Ready(m) && ValuesRefs(ups) <= m.heap.Keys
            invariant Model() == MarkValues(m, ups, i)
          {
            ValueHeld(ups, i);
            MarkTValue(ups[i]);
            i := i + 1;
          }
        case LClosure(env, p, ups) =>
          MarkObject(env);
          MarkObject(p);
          ghost var m := Model();
          var i := 0;
          while i < |ups|
            invariant i <= |ups| && Ready(m) && (forall u | u in ups :: u in m.heap)
            invariant Model() == MarkRefs(m, ups, i)
          {
            MarkObject(ups[i]);
            i := i + 1;
          }
      }
    }

    method MarkNameOf(o: Option<Ref>)
      requires Ready(Model()) && OptionRefs(o) <= heap.Keys
      modifies this
      ensures Model() == MarkName(old(Model()), o)
    {
      if o.Some? {
        color := color[o.value := if color[o.value].White? then Gray else color[o.value]];
      }
    }

    method MarkNameList(names: seq<Option<Ref>>)
      requires Ready(Model()) && OptionsRefs(names) <= heap.Keys
      modifies this
      ensures Model() == MarkNames(old(Model()), names, |names|)
    {
      hide HeapClosed, Whites;
      ghost var m := Model();
      var i := 0;
      while i < |names|
        invariant i <= |names| && Ready(m) && OptionsRefs(names) <= m.heap.Keys
        invariant Model() == MarkNames(m, names, i)
      {
        OptionHeld(names, i);
        MarkNameOf(names[i]);
        i := i + 1;
      }
    }

    method MarkOptionList(os: seq<Option<Ref>>)
      requires Ready(Model()) && OptionsRefs(os) <= heap.Keys
      modifies this
      ensures Model() == MarkOptions(old(Model()), os, |os|)
    {
      hide HeapClosed, Whites;
      ghost var m := Model();
      var i := 0;
      while i < |os|
        invariant i <= |os| && Ready(m) && OptionsRefs(os) <= m.heap.Keys
        invariant Model() == MarkOptions(m, os, i)
      {
        OptionHeld(os, i);
        if os[i].Some? {
          MarkObject(os[i].value);
        }
        i := i + 1;
      }
    }

    method MarkValueList(vs: seq<Value>, n: nat)
      requires Ready(Model()) && n <= |vs| && ValuesRefs(vs) <= heap.Keys
      modifies this
      ensures Model() == MarkValues(old(Model()), vs, n)
    {
      hide HeapClosed, Whites;
      ghost var m := Model();
      var i := 0;
      while i < n
        invariant i <= n && Ready(m) && ValuesRefs(vs) <= m.heap.Keys
        invariant Model() == MarkValues(m, vs, i)
      {
        ValueHeld(vs, i);
        MarkTValue(vs[i]);
        i := i + 1;
      }
    }

    method TraverseProtoObject(r: Ref)
      requires Ready(Model()) && r in heap && heap[r].Proto?
      modifies this
      ensures Model() == TraverseProto(old(Model()), r)
    {
      hide HeapClosed, Whites;
      ghost var s := Model();
      ProtoHolds(heap, r);
      var b := heap[r];
      MarkNameOf(b.source);
      MarkValueList(b.k, |b.k|);
      assert Model() == MarkConstants(s, b.source, b.k);
      MarkNameList(b.upnames);
      MarkOptionList(b.protos);
      MarkNameList(b.locnames);
    }

    method TraverseStackOf(r: Ref)
      requires Ready(Model()) && SlotsBelowTop(heap) && r in heap && heap[r].Thread?
      modifies this
      ensures Model() == TraverseStack(old(Model()), r)
    {
      hide HeapClosed, Whites, SlotsBelowTop, HeapScrubbed;
      ghost var s := Model();
      StackHeld(heap, r);
      var b := heap[r];
      MarkTValue(b.gt);
      MarkValueList(b.stack, b.top);
      ghost var m := Model();
      assert m == MarkStack(s, b.gt, b.stack, b.top);
      var stack := b.stack;
      var o := b.top;
      while o < |stack|
        invariant b.top <= o <= |stack| == |b.stack|
        invariant stack[..b.top] == b.stack[..b.top] && stack[o..] == b.stack[o..]
        invariant forall i | b.top <= i < o :: stack[i] == Nil
      {
        stack := stack[o := Nil];
        o := o + 1;
      }
      assert stack == ClearAbove(b.stack, b.top);
      heap := heap[r := b.(stack := stack)];
    }

    /** The head of propagatemark: the first gray object leaves the list and turns black. */
    method TakeFirstGray() returns (o: Ref)
      requires gray != [] && gray[0] in heap && gray[0] in color
      modifies this
      ensures Model() == TakeGray(old(Model())) && o == old(gray[0])
    {
      o := gray[0];
      color := color[o := Black];
      gray := gray[1..];
      if heap[o].Thread? {
        grayagain := [o] + grayagain;
        color := color[o := Gray];
      }
    }

    method PropagateMarkOne()
      requires Ready(Model()) && SlotsBelowTop(heap)
      requires gray != [] && gray[0] in heap && Traversable(heap[gray[0]])
      modifies this
      ensures Model() == PropagateMark(old(Model()))
    {
      hide HeapClosed, Whites, SlotsBelowTop, HeapScrubbed, TraverseTable, TraverseClosure, TraverseStack, TraverseProto,
           Traversed, Marked;
      var o := TakeFirstGray();
      match heap[o] {
        case Table(_, _, _) => TraverseTableObject(o);
        case CClosure(_, _) => TraverseClosureObject(o);
        case LClosure(_, _, _) => TraverseClosureObject(o);
        case Thread(_, _, _, _) => TraverseStackOf(o);
        case Proto(_, _, _, _, _) => TraverseProtoObject(o);
      }
    }

    method PropagateAllGray()
      requires Marking(Model(), false)
      modifies this
      ensures Model() == PropagateAll(old(Model()))
    {
      hide Marking, PropagateMark;
      ghost var s := Model();
      while gray != []
        invariant Marking(Model(), false)
        invariant PropagateAll(Model()) == PropagateAll(s)
        decreases Unsettled(Model())
      {
        MarkingReady(Model());
        PropagateMarkSafe(Model());
        PropagateMarkOne();
      }
    }

    // -------------------------------------------------------------- the start and the end of marking

    method RemarkOpenUpvals()
      requires Ready(Model()) && UvheadOk(Model())
      modifies this
      ensures Model() == RemarkUpvals(old(Model()), |old(uvhead)|)
    {
      hide HeapClosed, Whites;
      ghost var s := Model();
      var i := 0;
      while i < |uvhead|
        invariant uvhead == s.uvhead && i <= |uvhead| && Ready(s) && UvheadOk(s)
        invariant Model() == RemarkUpvals(s, i)
      {
        var uv := uvhead[i];
        assert IsOpenUpval(heap, uv) && uv in heap;
        if color[uv].Gray? {
          var v := UpvalValue(heap, heap[uv].loc);
          OpenHeld(heap, uv);
          MarkTValue(v);
        }
        i := i + 1;
      }
    }

    method MarkRootSet()
      requires Ready(Model()) && RootsAllocated(Model()) && heap[mainthread].Thread?
      modifies this
      ensures Model() == MarkRoot(old(Model()))
    {
      hide HeapClosed, Whites, WellShaped, Holds;
      StackHeld(heap, mainthread);
      assert OptionsRefs(mt) <= Roots(Model());
      gray, grayagain := [], [];
      MarkObject(mainthread);
      MarkTValue(heap[mainthread].gt);
      MarkTValue(registry);
      MarkOptionList(mt);
      gcstate := Propagate;
    }

    method RemarkThenPropagate()
      requires Marking(Model(), false) && UvheadOk(Model())
      modifies this
      ensures Model() == Remark(old(Model()))
    {
      hide Marking, MarkPhase, UvheadOk, PropagateAll, RemarkUpvals, Marked, HeapClosed;
      RemarkKeeps(Model(), heap.Keys);
      RemarkOpenUpvals();
      PropagateAllGray();
    }

    method RemarkRootsThenPropagate()
      requires Marking(Model(), false) && RootsAllocated(Model())
      modifies this
      ensures Model() == RemarkRoots(old(Model()))
    {
      hide Marking, MarkPhase, PropagateAll, HeapClosed;
      ghost var s := Model();
      RemarkRootsKeeps(s, false, heap.Keys);
      OptionsAllocated(s);
      MarkObject(running);
      MarkOptionList(mt);
      assert Model() == MarkRunning(s);
      PropagateAllGray();
    }

    method RemarkAgainThenPropagate()
      requires Marking(Model(), false) && gray == []
      modifies this
      ensures Model() == RemarkAgain(old(Model()))
    {
      hide Marking, MarkPhase, PropagateAll, AgainDone, Within;
      ghost var s := Model();
      RemarkAgainKeeps(s, false, s.heap.Keys);
      gray, grayagain := grayagain, [];
      assert Model() == s.(gray := s.grayagain, grayagain := []);
      PropagateAllGray();
    }

    method AtomicStep()
      requires Marking(Model(), false) && UvheadOk(Model()) && RootsAllocated(Model())
      modifies this
      ensures Model() == Atomic(old(Model()))
    {
      hide Marking, MarkPhase, UvheadOk, RootsAllocated, PropagateAll, RemarkUpvals, Remark, RemarkRoots, RemarkAgain, Roots;
      ghost var s := Model();
      RemarkThenPropagate();
      gray := [];
      MarkPhaseRoots(s, Model());
      RemarkRootsThenPropagate();
      RemarkAgainThenPropagate();
      assert Model() == AtomicMark(s);
      currentwhite := Other(currentwhite);
      sweepstrgc := 0;
      sweepgc := 0;
      gcstate := SweepString;
    }

    // -------------------------------------------------------------- sweeping

    method SweepStringBucket(i: nat)
      requires i < |strt|
      modifies this
      ensures Model() == SweepBucket(old(Model()), i, 0)
    {
      ghost var s := Model();
      var j := 0;
      while j < |strt[i]|
        invariant i < |strt| && j <= |strt[i]|
        invariant SweepBucket(Model(), i, j) == SweepBucket(s, i, 0)
        decreases |strt[i]| - j
      {
        var curr := strt[i][j];
        if IsDeadNow(curr) && curr !in fixed {
          ghost var m := Model();
          strt := strt[i := strt[i][..j] + strt[i][j+1..]];
          heap, color := heap - {curr}, color - {curr};
          assert Model() == FreeString(m, i, j);
        } else {
          color := color[curr := White(currentwhite)];
          j := j + 1;
        }
      }
    }

    method SweepOpenUpvals(th: Ref)
      requires th in heap && heap[th].Thread?
      modifies this
      ensures Model() == SweepOpen(old(Model()), th, 0)
    {
      ghost var s := Model();
      var j := 0;
      while j < |heap[th].openupval|
        invariant th in heap && heap[th].Thread? && j <= |heap[th].openupval|
        invariant SweepOpen(Model(), th, j) == SweepOpen(s, th, 0)
        decreases |heap[th].openupval| - j
      {
        var u := heap[th].openupval[j];
        if u != th && IsDeadNow(u) && u !in fixed {
          ghost var m := Model();
          heap := heap[th := WithoutOpen(heap[th], j)] - {u};
          color := color - {u};
          uvhead := Remove(uvhead, u);
          assert Model() == FreeOpen(m, th, j);
        } else {
          color := color[u := White(currentwhite)];
          j := j + 1;
        }
      }
    }

    /** One upvalue of luaF_close, with the barrier of luaC_linkupval. */
    method CloseTopUpval(th: Ref)
      requires Inv(Model()) && th in heap && heap[th].Thread? && heap[th].openupval != []
      modifies this
      ensures Model() == CloseTop(old(Model()), th)
    {
      hide Inv, Ready, ValueBarrier, HasOpen, FreeTop, DetachTop, TopValue, ValueRefs;
      ghost var s := Model();
      CloseTopReady(s, th);
      var uv := heap[th].openupval[0];
      if IsDeadNow(uv) {
        FreeTopUpval(th);
      } else {
        var v := DetachTopUpval(th);
        BarrierValue(uv, v);
      }
    }

    method FreeTopUpval(th: Ref)
      requires HasOpen(heap, th)
      modifies this
      ensures Model() == FreeTop(old(Model()), th)
    {
      var uv := heap[th].openupval[0];
      heap := heap[th := heap[th].(openupval := heap[th].openupval[1..])] - {uv};
      color := color - {uv};
      uvhead := Remove(uvhead, uv);
    }

    method DetachTopUpval(th: Ref) returns (v: Value)
      requires HasOpen(heap, th)
      modifies this
      ensures Model() == DetachTop(old(Model()), th) && v == TopValue(old(heap), th)
    {
      hide Remove;
      var uv := heap[th].openupval[0];
      v := heap[th].stack[heap[uv].loc.level];
      heap := heap[th := heap[th].(openupval := heap[th].openupval[1..])][uv := UpVal(Closed(v))];
      uvhead := Remove(uvhead, uv);
      LinkUpval(uv);
    }

    /** luaC_linkupval, but for its barrier. */
    method LinkUpval(uv: Ref)
      modifies this`color, this`rootgc, this`sweepgc
      ensures color == old(color)[uv := LinkedColor(old(Model()), uv)]
      ensures rootgc == [uv] + old(rootgc) && sweepgc == ShiftSweep(old(sweepgc), 0)
    {
      sweepgc := if 0 < sweepgc then sweepgc + 1 else sweepgc;
      rootgc := [uv] + rootgc;
      if uv in color && color[uv].Gray? {
        color := color[uv := if gcstate == Propagate then Black else White(currentwhite)];
      } else if uv !in color {
        color := color[uv := Gray];
      }
    }

    predicate IsDeadNow(r: Ref)
      reads this
    {
      r in color && color[r] == White(Other(currentwhite))
    }

    method CloseUpvalsFrom(th: Ref, level: nat)
      requires Inv(Model()) && th in heap && heap[th].Thread?
      modifies this
      ensures Model() == CloseUpvals(old(Model()), th, level)
    {
      hide Static, PhaseOk, CloseTop;
      ghost var s := Model();
      while heap[th].openupval != [] && level <= LevelOf(heap, heap[th].openupval[0])
        invariant Inv(Model()) && th in heap && heap[th].Thread?
        invariant CloseUpvals(Model(), th, level) == CloseUpvals(s, th, level)
        decreases |heap[th].openupval|
      {
        CloseTopUpval(th);
      }
    }

    // -------------------------------------------------------------- barriers

    method BarrierForwardTo(o: Ref, v: Ref)
      requires o in color && IsWhite(color, v) && (gcstate == Propagate ==> Ready(Model()))
      modifies this
      ensures Model() == BarrierForward(old(Model()), o, v)
    {
      if gcstate == Propagate {
        ReallyMarkObject(v);
      } else {
        color := color[o := White(currentwhite)];
      }
    }

    method BarrierValue(o: Ref, v: Value)
      requires o in color && ValueRefs(v) <= color.Keys && (gcstate == Propagate ==> Ready(Model()))
      modifies this
      ensures Model() == ValueBarrier(old(Model()), o, v)
    {
      if v.Gc? && color[v.ref].White? && color[o].Black? {
        BarrierForwardTo(o, v.ref);
      }
    }

    method BarrierBackValue(t: Ref, v: Value)
      requires t in color && ValueRefs(v) <= color.Keys
      modifies this
      ensures Model() == ValueBarrierBack(old(Model()), t, v)
    {
      if v.Gc? && color[v.ref].White? && color[t].Black? {
        color := color[t := Gray];
        grayagain := [t] + grayagain;
      }
    }

    // -------------------------------------------------------------- allocation

    method Link(o: Ref, b: Body)
      modifies this
      ensures Model() == NewObject(old(Model()), o, b)
    {
      heap := heap[o := b];
      color := color[o := White(currentwhite)];
      sweepgc := if 0 < sweepgc then sweepgc + 1 else sweepgc;
      rootgc := [o] + rootgc;
      assert rootgc == InsertAt(old(rootgc), 0, o);
    }

    method NewUserdata(u: Ref, env: Ref)
      requires mainthread in rootgc
      modifies this
      ensures Model() == NewUdata(old(Model()), u, env)
    {
      hide IndexOf;
      var i := 0;
      assert mainthread !in rootgc[..0];
      while rootgc[i] != mainthread
        invariant Model() == old(Model()) && i <= IndexOf(rootgc, mainthread)
        invariant mainthread !in rootgc[..i]
        decreases |rootgc| - i
      {
        IndexIsFirst(rootgc, mainthread, i);
        i := i + 1;
      }
      IndexIsFirst(rootgc, mainthread, i);
      heap := heap[u := Udata(None, env)];
      color := color[u := White(currentwhite)];
      sweepgc := if i + 1 < sweepgc then sweepgc + 1 else sweepgc;
      rootgc := rootgc[..i+1] + [u] + rootgc[i+1..];
    }

    method ResizeStringTable(size: nat)
      requires 0 < size
      modifies this`strt
      ensures Model() == ResizeStrings(old(Model()), size)
    {
      if gcstate == SweepString {
        return;
      }
      var newhash: seq<seq<Ref>> := seq(size, _ => []);
      var i := 0;
      while i < |strt|
        invariant i <= |strt| && strt == old(strt)
        invariant newhash == RehashChains(heap, strt, i, size)
      {
        var p := strt[i];
        ghost var start := newhash;
        while p != []
          invariant |newhash| == size
          invariant RehashChain(heap, p, newhash) == RehashChain(heap, strt[i], start)
          decreases |p|
        {
          var h1 := HashOf(heap, p[0]) % size;
          newhash := newhash[h1 := [p[0]] + newhash[h1]];
          p := p[1..];
        }
        i := i + 1;
      }
      strt := newhash;
    }

    method NewLstr(o: Ref, bytes: seq<bv8>, grow: bool) returns (ts: Ref)
      requires 0 < |strt|
      modifies this
      ensures (Model(), ts) == Intern(old(Model()), o, bytes, grow)
    {
      hide Hash, RehashChains;
      var h := Hash(bytes) % |strt|;
      var j := 0;
      assert strt[h][0..] == strt[h];
      while j < |strt[h]|
        invariant j <= |strt[h]|
        invariant FindString(heap, strt[h][j..], bytes) == FindString(heap, strt[h], bytes)
      {
        if HasBytes(heap, strt[h][j], bytes) {
          ts := strt[h][j];
          if IsDeadNow(ts) {
            color := color[ts := White(currentwhite)];
          }
          return;
        }
        assert strt[h][j..][1..] == strt[h][j+1..];
        j := j + 1;
      }
      assert strt[h][j..] == [];
      ts := o;
      heap := heap[o := Str(bytes, Hash(bytes))];
      color := color[o := White(currentwhite)];
      strt := strt[h := [o] + strt[h]];
      if grow {
        ResizeStringTable(2 * |strt|);
      }
    }

    method FindUpvalue(th: Ref, level: nat, o: Ref) returns (uv: Ref)
      requires th in heap && heap[th].Thread?
      modifies this
      ensures (Model(), uv) == FindUpval(old(Model()), th, level, o)
    {
      var ou := heap[th].openupval;
      var i := 0;
      while i < |ou| && LevelOf(heap, ou[i]) > level
        invariant i <= |ou|
        invariant SearchOpen(heap, ou, level, i) == SearchOpen(heap, ou, level, 0)
      {
        i := i + 1;
      }
      if i < |ou| && LevelOf(heap, ou[i]) == level {
        uv := ou[i];
        if IsDeadNow(uv) {
          color := color[uv := White(currentwhite)];
        }
      } else {
        uv := o;
        heap := heap[th := heap[th].(openupval := InsertAt(ou, i, o))][o := UpVal(Open(th, level))];
        color := color[o := White(currentwhite)];
        uvhead := [o] + uvhead;
      }
    }

    // -------------------------------------------------------------- the step machine

    /** One turn of sweeplist over `rootgc`. */
    method SweepRootOne()
      requires Inv(Model()) && gcstate == Sweep && sweepgc < |rootgc|
      modifies this
      ensures Model() == SweepOne(old(Model()))
    {
      hide Static, PhaseOk, SweepFrees, SweepOpen, CloseUpvals, FreeRoot, SweepWork, AllCurrent;
      ghost var s := Model();
      SweepOwnKeeps(s);
      var curr := rootgc[sweepgc];
      if curr in heap && heap[curr].Thread? {
        SweepOpenUpvals(curr);
      }
      ghost var s1 := Model();
      assert s1 == SweepOwn(s);
      SweepOneKeeps(s1, curr);
      if !(IsDeadNow(curr) && curr !in fixed) {
        color := color[curr := White(currentwhite)];
        sweepgc := sweepgc + 1;
      } else {
        if curr in heap && heap[curr].Thread? {
          CloseUpvalsFrom(curr, 0);
        }
        assert Model() == CloseOwn(s1, curr);
        UnlinkRoot(curr);
      }
    }

    method UnlinkRoot(r: Ref)
      requires r in rootgc
      modifies this
      ensures Model() == FreeRoot(old(Model()), IndexOf(old(rootgc), r))
    {
      var i := IndexOf(rootgc, r);
      rootgc := rootgc[..i] + rootgc[i+1..];
      heap, color := heap - {r}, color - {r};
    }

    method SweepRootList(count: nat)
      requires Inv(Model()) && gcstate == Sweep
      modifies this
      ensures Model() == SweepRoot(old(Model()), count)
    {
      hide Static, PhaseOk, SweepFrees, SweepOne;
      ghost var s := Model();
      var n := count;
      SweepBounded(s);
      while n > 0 && sweepgc < |rootgc|
        invariant Inv(Model()) && gcstate == Sweep && sweepgc <= |rootgc|
        invariant SweepRoot(Model(), n) == SweepRoot(s, count)
        decreases n
      {
        SweepRootOne();
        SweepBounded(Model());
        n := n - 1;
      }
    }

    method SingleStepOf(shrink: bool)
      requires Inv(Model())
      modifies this
      ensures Model() == SingleStep(old(Model()), shrink)
    {
      hide Static, Marking, MarkPhase, UvheadOk, RootsAllocated, PropagateMark, AtomicMark, SweepRoot, SweepBucket, ResizeStrings,
           HeapClosed, MarkRoots;
      ghost var s := Model();
      match gcstate {
        case Pause =>
          StartReady(s);
          MarkRootSet();
        case Propagate =>
          PropagateIsMarking(s);
          MarkingReady(s);
          if gray != [] {
            PropagateStepKeeps(s);
            PropagateMarkOne();
          } else {
            AtomicStep();
          }
        case SweepString =>
          SweepStringBucket(sweepstrgc);
          sweepstrgc := sweepstrgc + 1;
          if sweepstrgc >= |strt| {
            gcstate := Sweep;
          }
        case Sweep =>
          SweepRootList(GCSWEEPMAX);
          if sweepgc == |rootgc| {
            if shrink && 2 <= |strt| {
              ResizeStringTable(|strt| / 2);
            }
            gcstate := Finalize;
          }
        case Finalize =>
          gcstate := Pause;
      }
    }

    method RunUntil(stop: Phase, shrink: bool)
      requires Inv(Model()) && (stop == Finalize || stop == Pause) && Rank(stop) <= Rank(gcstate)
      modifies this
      ensures Model() == Until(old(Model()), stop, shrink)
    {
      hide Static, PhaseOk, SingleStep, FreesGarbage;
      ghost var s := Model();
      while gcstate != stop
        invariant Inv(Model()) && Rank(stop) <= Rank(gcstate)
        invariant Until(Model(), stop, shrink) == Until(s, stop, shrink)
        decreases Rank(gcstate), MarkWork(Model()), Work(Model())
      {
        ghost var m := Model();
        WorkIsNat(m);
        SingleStepKeeps(m, shrink);
        SingleStepProgress(m, shrink);
        WorkIsNat(SingleStep(m, shrink));
        SingleStepOf(shrink);
      }
    }

    method FullCollection(shrink: bool)
      requires Inv(Model())
      modifies this
      ensures Model() == FullGc(old(Model()), shrink) && Inv(Model())
      ensures heap.Keys == ReachSet(old(Model())) + old(fixed)
    {
      hide Static, PhaseOk, Until, ReachSet, HeapClosed, MarkRoot, RootsAllocated;
      ghost var s := Model();
      FullGcExact(s, shrink);
      ResetPhase(s);
      if gcstate == Pause || gcstate == Propagate {
        sweepstrgc := 0;
        sweepgc := 0;
        gray := [];
        grayagain := [];
        gcstate := SweepString;
      }
      RunUntil(Finalize, shrink);
      StartSafe(Model());
      MarkRootSet();
      RunUntil(Pause, shrink);
    }
  }

  lemma {:induction false} IndexIsFirst(xs: seq<Ref>, r: Ref, i: nat)
    requires r in xs && i < |xs| && r !in xs[..i]
    ensures i <= IndexOf(xs, r) && (xs[i] == r ==> IndexOf(xs, r) == i) && (xs[i] != r ==> i < IndexOf(xs, r))
  {
    if i > 0 {
      assert xs[0] in xs[..i];
      assert xs[1..][..i-1] == xs[..i][1..];
      IndexIsFirst(xs[1..], r, i-1);
    }
  }

  lemma CloseTopReady(s: State, th: Ref)
    requires Inv(s) && th in s.heap && s.heap[th].Thread? && s.heap[th].openupval != []
    ensures HasOpen(s.heap, th)
    ensures var u := s.heap[th].openupval[0];
            !IsDead(s, u) ==>
              && u in DetachTop(s, th).color
              && ValueRefs(TopValue(s.heap, th)) <= DetachTop(s, th).color.Keys
              && (DetachTop(s, th).gcstate == Propagate ==> Ready(DetachTop(s, th)))
  {
    hide Static, PhaseOk, HeapClosed, UpvalsOk, Stored, ValueBarrier, DetachTop, TopValue;
    StaticUpvals(s);
    OpenTop(s, th);
    if !IsDead(s, s.heap[th].openupval[0]) {
      DetachStored(s, th);
      CloseBarrier(s, th);
    }
  }

  lemma OpenHeld(h: Heap, r: Ref)
    requires HeapClosed(h) && IsOpenUpval(h, r)
    ensures ValueRefs(UpvalValue(h, h[r].loc)) <= h.Keys
  {
    assert Holds(h, r) <= h.Keys;
  }

  lemma OptionsAllocated(s: State)
    requires RootsAllocated(s)
    ensures OptionsRefs(s.mt) <= s.heap.Keys && s.running in s.heap
  {
  }

  lemma ValueHeld(vs: seq<Value>, i: nat)
    requires i < |vs|
    ensures ValueRefs(vs[i]) <= ValuesRefs(vs)
  {
  }

  lemma OptionHeld(os: seq<Option<Ref>>, i: nat)
    requires i < |os|
    ensures OptionRefs(os[i]) <= OptionsRefs(os)
  {
  }

  lemma TableHeld(h: Heap, r: Ref)
    requires HeapClosed(h) && r in h && h[r].Table?
    ensures OptionRefs(h[r].meta) <= h.Keys && ValuesRefs(h[r].arr) <= h.Keys
  {
    assert OptionRefs(h[r].meta) + ValuesRefs(h[r].arr) <= Holds(h, r) <= h.Keys;
  }

  /** What a userdata or an upvalue holds is allocated. */
  lemma SmallHeld(h: Heap, r: Ref)
    requires HeapClosed(h) && r in h
    ensures h[r].Udata? ==> OptionRefs(h[r].umeta) <= h.Keys && h[r].uenv in h
    ensures h[r].UpVal? ==> ValueRefs(UpvalValue(h, h[r].loc)) <= h.Keys
  {
    hide WellShaped;
    assert Holds(h, r) <= h.Keys;
  }

  lemma ClosureHeld(h: Heap, r: Ref)
    requires HeapClosed(h) && r in h
    ensures h[r].CClosure? ==> h[r].cenv in h && ValuesRefs(h[r].upvalue) <= h.Keys
    ensures h[r].LClosure? ==> h[r].lenv in h && h[r].proto in h && forall u | u in h[r].upvals :: u in h
  {
    assert Holds(h, r) <= h.Keys;
    assert h[r].LClosure? ==> forall u | u in h[r].upvals :: u in Holds(h, r);
  }
}
