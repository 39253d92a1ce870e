/** propagatemark keeps the tri-colour invariant, and propagateall leaves nothing gray behind. */
module GcPropagate {
  import opened GcHeap
  import opened GcMark
  import opened GcTricolor
  import opened Wrappers

  lemma {:induction false} MarkValuesKeep(s: State, vs: seq<Value>, n: nat, ex: set<Ref>, uv: bool, keep: set<Ref>)
    requires Ready(s) && n <= |vs| && ValuesRefs(vs) <= s.heap.Keys && Tricolor(s, ex, uv)
    requires (forall i | 0 <= i < n :: ValueRefs(vs[i]) <= keep) && ClosedUnderChildren(s.heap, keep)
    ensures Tricolor(MarkValues(s, vs, n), ex, uv)
    ensures forall i | 0 <= i < n :: AllMarked(MarkValues(s, vs, n).color, ValueRefs(vs[i]))
    ensures MarkedWithin(s, MarkValues(s, vs, n), keep)
  {
    hide Tricolor, HeapClosed, ClosedUnderChildren;
    if n > 0 {
      MarkValuesKeep(s, vs, n-1, ex, uv, keep);
      MarkValueKeeps(MarkValues(s, vs, n-1), vs[n-1], ex, uv, keep);
    }
  }

  lemma {:induction false} MarkValuesDownKeep(s: State, vs: seq<Value>, n: nat, ex: set<Ref>, uv: bool, keep: set<Ref>)
    requires Ready(s) && n <= |vs| && ValuesRefs(vs) <= s.heap.Keys && Tricolor(s, ex, uv)
    requires (forall i | 0 <= i < |vs| :: ValueRefs(vs[i]) <= keep) && ClosedUnderChildren(s.heap, keep)
    ensures Tricolor(MarkValuesDown(s, vs, n), ex, uv)
    ensures forall i | n <= i < |vs| :: AllMarked(MarkValuesDown(s, vs, n).color, ValueRefs(vs[i]))
    ensures MarkedWithin(s, MarkValuesDown(s, vs, n), keep)
    decreases |vs| - n
  {
    hide Tricolor, HeapClosed, ClosedUnderChildren;
    if n < |vs| {
      MarkValuesDownKeep(s, vs, n+1, ex, uv, keep);
      MarkValueKeeps(MarkValuesDown(s, vs, n+1), vs[n], ex, uv, keep);
    }
  }

  lemma {:induction false} MarkOptionsKeep(s: State, os: seq<Option<Ref>>, n: nat, ex: set<Ref>, uv: bool, keep: set<Ref>)
    requires Ready(s) && n <= |os| && OptionsRefs(os) <= s.heap.Keys && Tricolor(s, ex, uv)
    requires OptionsRefs(os) <= keep && ClosedUnderChildren(s.heap, keep)
    ensures Tricolor(MarkOptions(s, os, n), ex, uv)
    ensures forall i | 0 <= i < n :: AllMarked(MarkOptions(s, os, n).color, OptionRefs(os[i]))
    ensures MarkedWithin(s, MarkOptions(s, os, n), keep)
  {
    hide Tricolor, HeapClosed, ClosedUnderChildren;
    if n > 0 {
      MarkOptionsKeep(s, os, n-1, ex, uv, keep);
      assert OptionRefs(os[n-1]) <= OptionsRefs(os);
      MarkOptionKeeps(MarkOptions(s, os, n-1), os[n-1], ex, uv, keep);
    }
  }

  lemma {:induction false} MarkRefsKeep(s: State, rs: seq<Ref>, n: nat, ex: set<Ref>, uv: bool, keep: set<Ref>)
    requires Ready(s) && n <= |rs| && (forall r | r in rs :: r in s.heap && r in keep) && Tricolor(s, ex, uv)
    requires ClosedUnderChildren(s.heap, keep)
    ensures Tricolor(MarkRefs(s, rs, n), ex, uv)
    ensures forall i | 0 <= i < n :: !MarkRefs(s, rs, n).color[rs[i]].White?
    ensures MarkedWithin(s, MarkRefs(s, rs, n), keep)
  {
    hide Tricolor, HeapClosed, ClosedUnderChildren;
    if n > 0 {
      MarkRefsKeep(s, rs, n-1, ex, uv, keep);
      MarkKeeps(MarkRefs(s, rs, n-1), rs[n-1], ex, uv, keep);
    }
  }

  lemma MarkNameKeeps(s: State, o: Option<Ref>, ex: set<Ref>, uv: bool, keep: set<Ref>)
    requires Ready(s) && OptionRefs(o) <= s.heap.Keys && OptionRefs(o) <= keep && Tricolor(s, ex, uv)
    requires o.Some? ==> s.heap[o.value].Str?
    ensures Marked(s, MarkName(s, o))
    ensures Tricolor(MarkName(s, o), ex, uv)
    ensures AllMarked(MarkName(s, o).color, OptionRefs(o))
    ensures MarkedWithin(s, MarkName(s, o), keep)
  {
    hide HeapClosed;
    if o.Some? {
      var t := MarkName(s, o);
      assert BlackOk(s, o.value, ex);
      TricolorFrom(s, t, ex, uv, {o.value});
    }
  }

  lemma {:induction false} MarkNamesKeep(s: State, os: seq<Option<Ref>>, n: nat, ex: set<Ref>, uv: bool, keep: set<Ref>)
    requires Ready(s) && n <= |os| && OptionsRefs(os) <= s.heap.Keys && Tricolor(s, ex, uv)
    requires forall r | r in OptionsRefs(os) :: s.heap[r].Str?
    requires OptionsRefs(os) <= keep
    ensures Tricolor(MarkNames(s, os, n), ex, uv)
    ensures forall i | 0 <= i < n :: AllMarked(MarkNames(s, os, n).color, OptionRefs(os[i]))
    ensures MarkedWithin(s, MarkNames(s, os, n), keep)
  {
    hide Tricolor, HeapClosed, ClosedUnderChildren;
    if n > 0 {
      MarkNamesKeep(s, os, n-1, ex, uv, keep);
      assert OptionRefs(os[n-1]) <= OptionsRefs(os);
      MarkNameKeeps(MarkNames(s, os, n-1), os[n-1], ex, uv, keep);
    }
  }

  /** Scrubbing the object being traversed keeps the invariant: it only drops pointers. */
  lemma ScrubTricolor(s: State, t: State, ex: set<Ref>, uv: bool)
    requires Tricolor(s, ex, uv) && HeapScrubbed(s.heap, t.heap) && SlotsBelowTop(s.heap)
    requires t == s.(heap := t.heap)
    ensures Tricolor(t, ex, uv)
  {
    ScrubKeeps(s.heap, t.heap);
    forall r | r in t.color ensures BlackOk(t, r, ex) && GrayOk(t, r, ex, uv) {
      assert BlackOk(s, r, ex) && GrayOk(s, r, ex, uv);
      assert Scrubbed(s.heap[r], t.heap[r]);
    }
    forall r | r in t.gray || r in t.grayagain ensures Traversable(t.heap[r]) {
      assert Scrubbed(s.heap[r], t.heap[r]);
    }
  }

  lemma ScrubClosed(h: Heap, h': Heap, keep: set<Ref>)
    requires HeapScrubbed(h, h') && SlotsBelowTop(h) && ClosedUnderChildren(h, keep)
    ensures ClosedUnderChildren(h', keep)
  {
    ScrubKeeps(h, h');
  }

  lemma TraverseNodeKeeps(s: State, r: Ref, i: nat, ex: set<Ref>, uv: bool, keep: set<Ref>)
    requires Ready(s) && SlotsBelowTop(s.heap) && r in s.heap && s.heap[r].Table? && i < |s.heap[r].node|
    requires Tricolor(s, ex, uv) && ClosedUnderChildren(s.heap, keep) && r in keep
    ensures Tricolor(TraverseNode(s, r, i), ex, uv)
    ensures AllMarked(TraverseNode(s, r, i).color, EntryRefs(TraverseNode(s, r, i).heap[r].node[i]))
    ensures MarkedWithin(s, TraverseNode(s, r, i), keep)
  {
    hide Tricolor, HeapClosed, SlotsBelowTop, HeapScrubbed, Scrubbed, ClosedUnderChildren;
    var e := s.heap[r].node[i];
    var t := TraverseNode(s, r, i);
    if e.val.Nil? {
      ScrubTricolor(s, t, ex, uv);
    } else {
      EntryHeld(s.heap, r, i);
      KeptChildren(s.heap, keep, r);
      MarkValueKeeps(s, e.key, ex, uv, keep);
      MarkValueKeeps(MarkValue(s, e.key), e.val, ex, uv, keep);
    }
  }

  lemma KeptChildren(h: Heap, keep: set<Ref>, r: Ref)
    requires ClosedUnderChildren(h, keep) && r in keep
    ensures r in h && Children(h, r) <= keep
  {
  }

  ghost predicate NodesMarked(s: State, r: Ref, i: nat)
    requires r in s.heap && s.heap[r].Table?
  {
    forall j | i <= j < |s.heap[r].node| :: AllMarked(s.color, EntryRefs(s.heap[r].node[j]))
  }

  lemma NodesMarkedOneMore(u: State, t: State, r: Ref, i: nat)
    requires r in u.heap && u.heap[r].Table? && r in t.heap && t.heap[r].Table?
    requires NodesMarked(u, r, i+1) && i < |u.heap[r].node| == |t.heap[r].node|
    requires Traversed(u, t)
    requires forall j | 0 <= j < |u.heap[r].node| && j != i :: t.heap[r].node[j] == u.heap[r].node[j]
    requires AllMarked(t.color, EntryRefs(t.heap[r].node[i]))
    ensures NodesMarked(t, r, i)
  {
  }

  lemma NothingMarked(s: State, r: Ref, keep: set<Ref>)
    requires r in s.heap && s.heap[r].Table?
    ensures MarkedWithin(s, s, keep) && NodesMarked(s, r, |s.heap[r].node|)
  {
  }

  lemma MarkedWithinTransitive(s: State, u: State, t: State, keep: set<Ref>)
    requires Traversed(s, u) && Traversed(u, t) && MarkedWithin(s, u, keep) && MarkedWithin(u, t, keep)
    ensures MarkedWithin(s, t, keep)
  {
  }

  lemma {:induction false} TraverseNodesKeep(s: State, r: Ref, i: nat, ex: set<Ref>, uv: bool, keep: set<Ref>)
    requires Ready(s) && SlotsBelowTop(s.heap) && r in s.heap && s.heap[r].Table? && i <= |s.heap[r].node|
    requires Tricolor(s, ex, uv) && ClosedUnderChildren(s.heap, keep) && r in keep
    ensures Tricolor(TraverseNodes(s, r, i), ex, uv)
    ensures NodesMarked(TraverseNodes(s, r, i), r, i)
    ensures MarkedWithin(s, TraverseNodes(s, r, i), keep)
    decreases |s.heap[r].node| - i
  {
    hide Tricolor, Ready, HeapScrubbed, SlotsBelowTop, ClosedUnderChildren, AllMarked, EntryRefs, NodesMarked,
         MarkedWithin, TraverseNode, Marked;
    if i < |s.heap[r].node| {
      TraverseNodesKeep(s, r, i+1, ex, uv, keep);
      var u := TraverseNodes(s, r, i+1);
      ScrubClosed(s.heap, u.heap, keep);
      TraverseNodeKeeps(u, r, i, ex, uv, keep);
      var t := TraverseNode(u, r, i);
      NodesMarkedOneMore(u, t, r, i);
      MarkedWithinTransitive(s, u, t, keep);
    } else {
      NothingMarked(s, r, keep);
    }
  }

  lemma TableMarked(s: State, r: Ref)
    requires r in s.heap && s.heap[r].Table? && NodesMarked(s, r, 0)
    requires AllMarked(s.color, OptionRefs(s.heap[r].meta))
    requires forall i | 0 <= i < |s.heap[r].arr| :: AllMarked(s.color, ValueRefs(s.heap[r].arr[i]))
    ensures AllMarked(s.color, Holds(s.heap, r))
  {
  }

  lemma TraverseTableKeeps(s: State, r: Ref, ex: set<Ref>, uv: bool, keep: set<Ref>)
    requires Ready(s) && SlotsBelowTop(s.heap) && r in s.heap && s.heap[r].Table?
    requires Tricolor(s, ex, uv) && ClosedUnderChildren(s.heap, keep) && r in keep
    ensures Tricolor(TraverseTable(s, r), ex, uv)
    ensures AllMarked(TraverseTable(s, r).color, Holds(TraverseTable(s, r).heap, r))
    ensures MarkedWithin(s, TraverseTable(s, r), keep)
  {
    hide Tricolor, HeapClosed, HeapScrubbed, NodesMarked;
    HoldsAllocated(s.heap, r);
    var Table(mt, arr, node) := s.heap[r];
    assert OptionRefs(mt) <= Holds(s.heap, r) && OptionRefs(mt) <= Children(s.heap, r);
    assert ValuesRefs(arr) <= Holds(s.heap, r) && ValuesRefs(arr) <= Children(s.heap, r);
    forall i | 0 <= i < |arr| ensures ValueRefs(arr[i]) <= keep {
      assert ValueRefs(arr[i]) <= ValuesRefs(arr);
    }
    MarkOptionKeeps(s, mt, ex, uv, keep);
    var s1 := MarkOption(s, mt);
    MarkValuesDownKeep(s1, arr, 0, ex, uv, keep);
    var s2 := MarkValuesDown(s1, arr, 0);
    TraverseNodesKeep(s2, r, 0, ex, uv, keep);
    var t := TraverseNodes(s2, r, 0);
    ScrubbedTable(s2.heap, t.heap, r);
    TableMarked(t, r);
  }

  lemma ScrubbedTable(h: Heap, h': Heap, r: Ref)
    requires HeapScrubbed(h, h') && r in h && h[r].Table?
    ensures h'[r].Table? && h'[r].meta == h[r].meta && h'[r].arr == h[r].arr && |h'[r].node| == |h[r].node|
  {
    assert Scrubbed(h[r], h'[r]);
  }

  lemma TraverseCKeeps(s: State, r: Ref, ex: set<Ref>, uv: bool, keep: set<Ref>)
    requires Ready(s) && r in s.heap && s.heap[r].CClosure?
    requires Tricolor(s, ex, uv) && ClosedUnderChildren(s.heap, keep) && r in keep
    ensures Tricolor(TraverseClosure(s, r), ex, uv)
    ensures AllMarked(TraverseClosure(s, r).color, Holds(s.heap, r))
    ensures MarkedWithin(s, TraverseClosure(s, r), keep)
  {
    hide Tricolor, HeapClosed, WellShaped;
    HoldsAllocated(s.heap, r);
    var CClosure(env, ups) := s.heap[r];
    assert env in Holds(s.heap, r) && ValuesRefs(ups) <= Holds(s.heap, r) <= keep;
    forall i | 0 <= i < |ups| ensures ValueRefs(ups[i]) <= keep {
      assert ValueRefs(ups[i]) <= ValuesRefs(ups);
    }
    MarkKeeps(s, env, ex, uv, keep);
    MarkValuesKeep(Mark(s, env), ups, |ups|, ex, uv, keep);
  }

  lemma TraverseLKeeps(s: State, r: Ref, ex: set<Ref>, uv: bool, keep: set<Ref>)
    requires Ready(s) && r in s.heap && s.heap[r].LClosure?
    requires Tricolor(s, ex, uv) && ClosedUnderChildren(s.heap, keep) && r in keep
    ensures Tricolor(TraverseClosure(s, r), ex, uv)
    ensures AllMarked(TraverseClosure(s, r).color, Holds(s.heap, r))
    ensures MarkedWithin(s, TraverseClosure(s, r), keep)
  {
    hide Tricolor, HeapClosed, WellShaped;
    HoldsAllocated(s.heap, r);
    var LClosure(env, p, ups) := s.heap[r];
    assert Holds(s.heap, r) == {env, p} + (set u | u in ups) && Holds(s.heap, r) <= keep;
    MarkKeeps(s, env, ex, uv, keep);
    MarkKeeps(Mark(s, env), p, ex, uv, keep);
    MarkRefsKeep(Mark(Mark(s, env), p), ups, |ups|, ex, uv, keep);
  }

  lemma TraverseClosureKeeps(s: State, r: Ref, ex: set<Ref>, uv: bool, keep: set<Ref>)
    requires Ready(s) && r in s.heap && (s.heap[r].CClosure? || s.heap[r].LClosure?)
    requires Tricolor(s, ex, uv) && ClosedUnderChildren(s.heap, keep) && r in keep
    ensures Tricolor(TraverseClosure(s, r), ex, uv)
    ensures AllMarked(TraverseClosure(s, r).color, Holds(s.heap, r))
    ensures MarkedWithin(s, TraverseClosure(s, r), keep)
  {
    hide Tricolor, HeapClosed, TraverseClosure, Holds, AllMarked, MarkedWithin;
    if s.heap[r].CClosure? {
      TraverseCKeeps(s, r, ex, uv, keep);
    } else {
      TraverseLKeeps(s, r, ex, uv, keep);
    }
  }

  lemma ConstantsKeep(s: State, src: Option<Ref>, k: seq<Value>, ex: set<Ref>, uv: bool, keep: set<Ref>)
    requires Ready(s) && OptionRefs(src) <= s.heap.Keys && ValuesRefs(k) <= s.heap.Keys
    requires Tricolor(s, ex, uv) && ClosedUnderChildren(s.heap, keep)
    requires OptionRefs(src) <= keep && ValuesRefs(k) <= keep
    requires src.Some? ==> s.heap[src.value].Str?
    ensures var t := MarkConstants(s, src, k);
            && Tricolor(t, ex, uv) && MarkedWithin(s, t, keep)
            && AllMarked(t.color, OptionRefs(src))
            && forall i | 0 <= i < |k| :: AllMarked(t.color, ValueRefs(k[i]))
  {
    hide Tricolor, HeapClosed, ClosedUnderChildren, MarkName;
    forall i | 0 <= i < |k| ensures ValueRefs(k[i]) <= keep {
      assert ValueRefs(k[i]) <= ValuesRefs(k);
    }
    MarkNameKeeps(s, src, ex, uv, keep);
    MarkValuesKeep(MarkName(s, src), k, |k|, ex, uv, keep);
  }

  lemma NamesKeep(s: State, un: seq<Option<Ref>>, ps: seq<Option<Ref>>, ln: seq<Option<Ref>>,
                  ex: set<Ref>, uv: bool, keep: set<Ref>)
    requires Ready(s) && OptionsRefs(un) <= s.heap.Keys && OptionsRefs(ps) <= s.heap.Keys && OptionsRefs(ln) <= s.heap.Keys
    requires Tricolor(s, ex, uv) && ClosedUnderChildren(s.heap, keep)
    requires OptionsRefs(un) <= keep && OptionsRefs(ps) <= keep && OptionsRefs(ln) <= keep
    requires forall r | r in OptionsRefs(un) || r in OptionsRefs(ln) :: s.heap[r].Str?
    ensures var t := MarkTables(s, un, ps, ln);
            && Tricolor(t, ex, uv) && MarkedWithin(s, t, keep)
            && (forall i | 0 <= i < |un| :: AllMarked(t.color, OptionRefs(un[i])))
            && (forall i | 0 <= i < |ps| :: AllMarked(t.color, OptionRefs(ps[i])))
            && (forall i | 0 <= i < |ln| :: AllMarked(t.color, OptionRefs(ln[i])))
  {
    hide Tricolor, HeapClosed, ClosedUnderChildren, OptionsRefs, OptionRefs, AllMarked, MarkedWithin, Whites;
    MarkNamesKeep(s, un, |un|, ex, uv, keep);
    var s3 := MarkNames(s, un, |un|);
    MarkOptionsKeep(s3, ps, |ps|, ex, uv, keep);
    var s4 := MarkOptions(s3, ps, |ps|);
    MarkNamesKeep(s4, ln, |ln|, ex, uv, keep);
    var t := MarkNames(s4, ln, |ln|);
    MarkedTwice(s, s3, s4, keep);
    MarkedTwice(s, s4, t, keep);
    MarkedTwice(s3, s4, t, keep);
    OptionsStayMarked(s3, t, un);
    OptionsStayMarked(s4, t, ps);
  }

  lemma MarkedTwice(s: State, u: State, t: State, keep: set<Ref>)
    requires Marked(s, u) && Marked(u, t) && MarkedWithin(s, u, keep) && MarkedWithin(u, t, keep)
    ensures Marked(s, t) && MarkedWithin(s, t, keep)
  {
  }

  lemma OptionsStayMarked(s: State, t: State, os: seq<Option<Ref>>)
    requires Marked(s, t) && forall i | 0 <= i < |os| :: AllMarked(s.color, OptionRefs(os[i]))
    ensures forall i | 0 <= i < |os| :: AllMarked(t.color, OptionRefs(os[i]))
  {
  }

  lemma ProtoChildren(h: Heap, r: Ref, keep: set<Ref>)
    requires HeapClosed(h) && ClosedUnderChildren(h, keep) && r in h && r in keep && h[r].Proto?
    ensures OptionRefs(h[r].source) <= keep && ValuesRefs(h[r].k) <= keep && OptionsRefs(h[r].upnames) <= keep
    ensures OptionsRefs(h[r].protos) <= keep && OptionsRefs(h[r].locnames) <= keep
    ensures forall n | n in NameRefs(h[r]) :: n in h && h[n].Str?
  {
    ProtoHolds(h, r);
    assert Children(h, r) == Holds(h, r) && WellShaped(h, r);
  }

  lemma ConstantsStayMarked(s: State, t: State, src: Option<Ref>, k: seq<Value>)
    requires Marked(s, t) && AllMarked(s.color, OptionRefs(src))
    requires forall i | 0 <= i < |k| :: AllMarked(s.color, ValueRefs(k[i]))
    ensures AllMarked(t.color, OptionRefs(src))
    ensures forall i | 0 <= i < |k| :: AllMarked(t.color, ValueRefs(k[i]))
  {
  }

  lemma TraverseProtoKeeps(s: State, r: Ref, ex: set<Ref>, uv: bool, keep: set<Ref>)
    requires Ready(s) && r in s.heap && s.heap[r].Proto?
    requires Tricolor(s, ex, uv) && ClosedUnderChildren(s.heap, keep) && r in keep
    ensures Tricolor(TraverseProto(s, r), ex, uv)
    ensures AllMarked(TraverseProto(s, r).color, Holds(s.heap, r))
    ensures MarkedWithin(s, TraverseProto(s, r), keep)
  {
    hide Tricolor, HeapClosed, MarkConstants, MarkTables, AllMarked, MarkedWithin;
    var b := s.heap[r];
    ProtoHolds(s.heap, r);
    ProtoChildren(s.heap, r, keep);
    ConstantsKeep(s, b.source, b.k, ex, uv, keep);
    var s2 := MarkConstants(s, b.source, b.k);
    NamesKeep(s2, b.upnames, b.protos, b.locnames, ex, uv, keep);
    var t := TraverseProto(s, r);
    MarkedTwice(s, s2, t, keep);
    ConstantsStayMarked(s2, t, b.source, b.k);
    AllOfProto(t.color, s.heap, r);
  }

  lemma AllOfProto(c: Colors, h: Heap, r: Ref)
    requires r in h && h[r].Proto?
    requires AllMarked(c, OptionRefs(h[r].source))
    requires forall i | 0 <= i < |h[r].k| :: AllMarked(c, ValueRefs(h[r].k[i]))
    requires forall i | 0 <= i < |h[r].upnames| :: AllMarked(c, OptionRefs(h[r].upnames[i]))
    requires forall i | 0 <= i < |h[r].protos| :: AllMarked(c, OptionRefs(h[r].protos[i]))
    requires forall i | 0 <= i < |h[r].locnames| :: AllMarked(c, OptionRefs(h[r].locnames[i]))
    ensures AllMarked(c, Holds(h, r))
  {
  }

  lemma TraverseStackKeeps(s: State, r: Ref, ex: set<Ref>, uv: bool, keep: set<Ref>)
    requires Ready(s) && SlotsBelowTop(s.heap) && r in s.heap && s.heap[r].Thread?
    requires Tricolor(s, ex, uv) && ClosedUnderChildren(s.heap, keep) && r in keep
    ensures Tricolor(TraverseStack(s, r), ex, uv)
    ensures AllMarked(TraverseStack(s, r).color, Holds(TraverseStack(s, r).heap, r))
    ensures MarkedWithin(s, TraverseStack(s, r), keep)
  {
    hide HeapScrubbed;
    hide Tricolor, HeapClosed;
    var b := s.heap[r];
    StackHeld(s.heap, r);
    forall i | 0 <= i < b.top ensures ValueRefs(b.stack[i]) <= keep {
      assert b.stack[i] in b.stack[..b.top];
      assert ValueRefs(b.stack[i]) <= ValuesRefs(b.stack[..b.top]) <= Children(s.heap, r);
    }
    MarkValueKeeps(s, b.gt, ex, uv, keep);
    var s1 := MarkValue(s, b.gt);
    MarkValuesKeep(s1, b.stack, b.top, ex, uv, keep);
    var m := MarkValues(s1, b.stack, b.top);
    var t := TraverseStack(s, r);
    ScrubTricolor(m, t, ex, uv);
  }

  /** What marking needs and keeps. */
  ghost predicate Marking(s: State, uv: bool) {
    Ready(s) && SlotsBelowTop(s.heap) && Tricolor(s, {}, uv)
  }

  ghost predicate OnlyMarked(c: Colors, keep: set<Ref>) {
    forall r | r in c && !c[r].White? :: r in keep
  }

  /** The objects on `grayagain` have nothing left to mark. */
  ghost predicate AgainDone(s: State) {
    forall r | r in s.grayagain :: r in s.heap && AllMarked(s.color, Holds(s.heap, r))
  }

  /** The objects propagatemark has not dealt with yet; each step removes one. */
  ghost function Unsettled(s: State): set<Ref> {
    set r | r in s.color && s.color[r] != Black && r !in s.grayagain
  }

  lemma TakeGrayLists(s: State)
    requires ListsOk(s) && s.gray != []
    ensures ListsOk(TakeGray(s))
  {
    var r := s.gray[0];
    forall x | x in s.gray[1..] ensures x in s.gray && x != r {
    }
    NoDupCons(r, s.grayagain);
  }

  lemma TakeGrayTricolor(s: State, uv: bool)
    requires Tricolor(s, {}, uv) && s.gray != []
    ensures s.gray[0] in s.heap && s.gray[0] in s.color && Tricolor(TakeGray(s), {s.gray[0]}, uv)
  {
    hide Holds, IsOpenUpval, ListsOk;
    FirstGray(s, uv);
    var r := s.gray[0];
    var b := TakeGray(s);
    forall x | x in b.color ensures BlackOk(b, x, {r}) && GrayOk(b, x, {r}, uv) {
      assert BlackOk(s, x, {}) && GrayOk(s, x, {}, uv);
    }
    TakeGrayLists(s);
  }

  lemma TakeGrayKeeps(s: State, uv: bool)
    requires Marking(s, uv) && s.gray != []
    ensures Ready(TakeGray(s)) && Tricolor(TakeGray(s), {s.gray[0]}, uv)
    ensures Unsettled(TakeGray(s)) < Unsettled(s)
    ensures Whites(TakeGray(s).color) == Whites(s.color)
  {
    hide HeapClosed, Tricolor, SlotsBelowTop;
    var r := s.gray[0];
    FirstGray(s, uv);
    TakeGrayTricolor(s, uv);
    var b := TakeGray(s);
    NotAgain(s, r);
    assert r in Unsettled(s) && r !in Unsettled(b);
  }

  lemma NotAgain(s: State, r: Ref)
    requires exists uv :: Tricolor(s, {}, uv)
    requires r in s.gray
    ensures r !in s.grayagain
  {
  }

  lemma PropagateMarkTraverses(s: State, uv: bool, keep: set<Ref>)
    requires Marking(s, uv) && s.gray != []
    requires ClosedUnderChildren(s.heap, keep) && s.gray[0] in keep
    ensures var t := PropagateMark(s); var r := s.gray[0];
            && Tricolor(t, {r}, uv)
            && r in t.heap && AllMarked(t.color, Holds(t.heap, r))
            && MarkedWithin(TakeGray(s), t, keep)
  {
    hide Tricolor, HeapClosed, SlotsBelowTop, ClosedUnderChildren, AllMarked, MarkedWithin, TraverseTable, TraverseStack,
         TraverseProto, TraverseClosure, HeapScrubbed;
    var r := s.gray[0];
    FirstGray(s, uv);
    var b := TakeGray(s);
    TakeGrayKeeps(s, uv);
    match s.heap[r]
    case Table(_, _, _) => TraverseTableKeeps(b, r, {r}, uv, keep);
    case CClosure(_, _) => TraverseClosureKeeps(b, r, {r}, uv, keep);
    case LClosure(_, _, _) => TraverseClosureKeeps(b, r, {r}, uv, keep);
    case Thread(_, _, _, _) => TraverseStackKeeps(b, r, {r}, uv, keep);
    case Proto(_, _, _, _, _) => TraverseProtoKeeps(b, r, {r}, uv, keep);
  }

  lemma FirstGray(s: State, uv: bool)
    requires Tricolor(s, {}, uv) && s.gray != []
    ensures var r := s.gray[0]; r in s.heap && r in s.color && s.color[r] == Gray && Traversable(s.heap[r])
  {
  }

  lemma TraversedSettles(b: State, t: State)
    requires Traversed(b, t)
    ensures Unsettled(t) <= Unsettled(b)
  {
  }

  lemma TraversedAgain(s: State, t: State, r: Ref)
    requires s.gray != [] && s.gray[0] == r && r in s.heap && r in s.color
    requires Traversed(TakeGray(s), t) && SlotsBelowTop(s.heap)
    requires r in t.heap && AllMarked(t.color, Holds(t.heap, r)) && AgainDone(s)
    requires s.color[r] == Gray
    ensures AgainDone(t)
  {
    ScrubKeeps(s.heap, t.heap);
    forall x | x in t.grayagain ensures x in t.heap && AllMarked(t.color, Holds(t.heap, x)) {
      if x != r {
        assert x in s.grayagain;
      }
    }
  }

  lemma TraversedOnly(s: State, t: State, keep: set<Ref>)
    requires s.gray != [] && s.gray[0] in s.heap && s.gray[0] in s.color && s.gray[0] in keep
    requires Traversed(TakeGray(s), t) && MarkedWithin(TakeGray(s), t, keep)
    requires OnlyMarked(s.color, keep)
    ensures OnlyMarked(t.color, keep)
  {
  }

  lemma PropagateMarkKeeps(s: State, uv: bool, keep: set<Ref>)
    requires Marking(s, uv) && s.gray != []
    requires ClosedUnderChildren(s.heap, keep) && OnlyMarked(s.color, keep)
    ensures s.gray[0] in s.heap && s.gray[0] in s.color && Traversable(s.heap[s.gray[0]])
    ensures var t := PropagateMark(s);
            && Marking(t, uv)
            && ClosedUnderChildren(t.heap, keep) && OnlyMarked(t.color, keep)
            && Unsettled(t) < Unsettled(s)
            && (AgainDone(s) ==> AgainDone(t))
  {
    hide HeapClosed, SlotsBelowTop, ClosedUnderChildren, MarkedWithin, HeapScrubbed, AgainDone, ListsOk, AllMarked;
    FirstGray(s, uv);
    var r := s.gray[0];
    var b := TakeGray(s);
    var t := PropagateMark(s);
    TakeGrayKeeps(s, uv);
    PropagateMarkTraverses(s, uv, keep);
    TraversedColor(b, t, r);
    assert BlackOk(t, r, {}) && GrayOk(t, r, {}, uv) by {
      assert BlackOk(t, r, {r}) && GrayOk(t, r, {r}, uv);
    }
    TricolorNarrower(t, {}, r, uv);
    ScrubClosed(s.heap, t.heap, keep);
    TraversedSettles(b, t);
    TraversedOnly(s, t, keep);
    if AgainDone(s) {
      TraversedAgain(s, t, r);
    }
  }

  lemma TraversedColor(b: State, t: State, r: Ref)
    requires Traversed(b, t) && r in b.color && !b.color[r].White?
    ensures t.color[r] == b.color[r]
  {
  }
}
