/** The marking half of lgc.c: reallymarkobject, the traversals, propagatemark and atomic. */
module GcMark {
  import opened GcHeap
  import opened Wrappers

  /** What marking may assume: no object is dead, so every stored pointer is allocated. */
  ghost predicate HeapClosed(h: Heap) {
    forall r | r in h :: Holds(h, r) <= h.Keys && WellShaped(h, r)
  }

  /**
   * The names stored in a prototype are strings, which is why `stringmark` may just recolour them;
   * only an empty entry has a dead key.
   */
  ghost predicate WellShaped(h: Heap, r: Ref)
    requires r in h
  {
    && (h[r].Proto? ==> forall n | n in NameRefs(h[r]) :: n in h ==> h[n].Str?)
    && (h[r].Table? ==> forall e | e in h[r].node :: e.deadkey ==> e.val.Nil?)
    && (h[r].Thread? ==> h[r].top <= |h[r].stack|)
  }

  function NameRefs(b: Body): set<Ref>
    requires b.Proto?
  {
    OptionRefs(b.source) + OptionsRefs(b.upnames) + OptionsRefs(b.locnames)
  }

  ghost predicate Ready(s: State) {
    s.color.Keys == s.heap.Keys && HeapClosed(s.heap)
  }

  /** Marking only recolours white objects and only pushes on the gray list. */
  ghost predicate Marked(s: State, t: State) {
    && t == s.(color := t.color, gray := t.gray)
    && t.color.Keys == s.color.Keys
    && (forall r | r in s.color :: t.color[r] == s.color[r] || (s.color[r].White? && !t.color[r].White?))
    && Whites(t.color) <= Whites(s.color)
  }

  function Paint(s: State, r: Ref, c: Color): (t: State)
    requires r in s.color
  {
    s.(color := s.color[r := c])
  }

  function Mark(s: State, r: Ref): (t: State)
    requires Ready(s) && r in s.heap
    ensures Marked(s, t)
    decreases Whites(s.color), 1
  {
    if IsWhite(s.color, r) then ReallyMark(s, r) else s
  }

  function MarkValue(s: State, v: Value): (t: State)
    requires Ready(s) && ValueRefs(v) <= s.heap.Keys
    ensures Marked(s, t)
    decreases Whites(s.color), 2
  {
    if v.Gc? then Mark(s, v.ref) else s
  }

  function MarkOption(s: State, o: Option<Ref>): (t: State)
    requires Ready(s) && OptionRefs(o) <= s.heap.Keys
    ensures Marked(s, t)
    decreases Whites(s.color), 2
  {
    if o.Some? then Mark(s, o.value) else s
  }

  function ReallyMark(s: State, r: Ref): (t: State)
    requires Ready(s) && IsWhite(s.color, r)
    ensures Marked(s, t)
    decreases Whites(s.color), 0
  {
    var g := Paint(s, r, Gray);
    assert r in Whites(s.color) && r !in Whites(g.color);
    match s.heap[r]
    case Str(_, _) => g
    case Udata(mt, env) =>
      var b := Paint(g, r, Black);
      assert mt.Some? ==> mt.value in Holds(s.heap, r);
      assert env in Holds(s.heap, r);
      Mark(MarkOption(b, mt), env)
    case UpVal(loc) =>
      var v := UpvalValue(s.heap, loc);
      assert v.Gc? ==> v.ref in Holds(s.heap, r);
      var m := MarkValue(g, v);
      if loc.Closed? then Paint(m, r, Black) else m
    case _ => g.(gray := [r] + g.gray)
  }

  // ---------------------------------------------------------------- folds over fields

  /** The first `n` values, in order. */
  function MarkValues(s: State, vs: seq<Value>, n: nat): (t: State)
    requires Ready(s) && n <= |vs| && ValuesRefs(vs) <= s.heap.Keys
    ensures Marked(s, t)
  {
    if n == 0 then s
    else
      assert vs[n-1].Gc? ==> vs[n-1].ref in ValuesRefs(vs);
      MarkValue(MarkValues(s, vs, n-1), vs[n-1])
  }

  /** The values from index `i` up, last first. */
  function MarkValuesDown(s: State, vs: seq<Value>, i: nat): (t: State)
    requires Ready(s) && i <= |vs| && ValuesRefs(vs) <= s.heap.Keys
    ensures Marked(s, t)
    decreases |vs| - i
  {
    if i == |vs| then s
    else
      assert vs[i].Gc? ==> vs[i].ref in ValuesRefs(vs);
      MarkValue(MarkValuesDown(s, vs, i+1), vs[i])
  }

  function MarkOptions(s: State, os: seq<Option<Ref>>, n: nat): (t: State)
    requires Ready(s) && n <= |os| && OptionsRefs(os) <= s.heap.Keys
    ensures Marked(s, t)
  {
    if n == 0 then s
    else
      assert os[n-1].Some? ==> os[n-1].value in OptionsRefs(os);
      MarkOption(MarkOptions(s, os, n-1), os[n-1])
  }

  function MarkRefs(s: State, rs: seq<Ref>, n: nat): (t: State)
    requires Ready(s) && n <= |rs| && (forall r | r in rs :: r in s.heap)
    ensures Marked(s, t)
  {
    if n == 0 then s else Mark(MarkRefs(s, rs, n-1), rs[n-1])
  }

  /** stringmark: clears the white bits of a name without looking at the object. */
  function MarkName(s: State, o: Option<Ref>): (t: State)
    requires Ready(s) && OptionRefs(o) <= s.heap.Keys
  {
    if o.Some? then
      Paint(s, o.value, if s.color[o.value].White? then Gray else s.color[o.value])
    else s
  }

  function MarkNames(s: State, os: seq<Option<Ref>>, n: nat): (t: State)
    requires Ready(s) && n <= |os| && OptionsRefs(os) <= s.heap.Keys
    ensures Marked(s, t)
  {
    if n == 0 then s
    else
      assert os[n-1].Some? ==> os[n-1].value in OptionsRefs(os);
      MarkName(MarkNames(s, os, n-1), os[n-1])
  }

  // ---------------------------------------------------------------- traversals

  /** removeentry: a collectable key of an empty entry becomes a dead key. */
  function RemoveEntry(e: Entry): Entry {
    if e.key.Gc? then e.(deadkey := true) else e
  }

  function SetBody(s: State, r: Ref, b: Body): State
    requires r in s.heap
  {
    s.(heap := s.heap[r := b])
  }

  /**
   * What a traversal may do to the heap: kill keys of empty entries and clear slots above the top.
   */
  ghost predicate Scrubbed(b: Body, c: Body) {
    match (b, c)
    case (Table(mt, arr, node), Table(mt', arr', node')) =>
      && mt' == mt && arr' == arr && |node'| == |node|
      && forall i | 0 <= i < |node| :: node'[i] == node[i] || (node[i].val.Nil? && node'[i] == RemoveEntry(node[i]))
    case (Thread(gt, st, top, ou), Thread(gt', st', top', ou')) =>
      && gt' == gt && top' == top && ou' == ou && |st'| == |st|
      && forall i | 0 <= i < |st| :: st'[i] == st[i] || (top <= i && st'[i] == Nil)
    case _ => c == b
  }

  /** Open upvalues point below the stack top, so clearing the slots above it never touches them. */
  ghost predicate SlotsBelowTop(h: Heap) {
    forall r | r in h && IsOpenUpval(h, r) ::
      HasSlot(h, h[r].loc.thread, h[r].loc.level) && h[r].loc.level < h[h[r].loc.thread].top
  }

  ghost predicate HeapScrubbed(h: Heap, h': Heap) {
    h'.Keys == h.Keys && forall r | r in h :: Scrubbed(h[r], h'[r])
  }

  lemma ScrubbedTransitive(a: Heap, b: Heap, c: Heap)
    requires HeapScrubbed(a, b) && HeapScrubbed(b, c)
    ensures HeapScrubbed(a, c)
  {
    forall r | r in a ensures Scrubbed(a[r], c[r]) {
      assert Scrubbed(a[r], b[r]) && Scrubbed(b[r], c[r]);
    }
  }

  lemma ScrubHolds(h: Heap, h': Heap, r: Ref)
    requires HeapScrubbed(h, h') && SlotsBelowTop(h) && r in h
    ensures Holds(h', r) <= Holds(h, r) && Children(h', r) == Children(h, r)
  {
    hide SlotsBelowTop, HeapScrubbed;
    ScrubbedObject(h, h', r);
    match h[r]
    case Table(mt, arr, node) =>
      var node' := h'[r].node;
      forall i | 0 <= i < |node| ensures EntryRefs(node'[i]) <= EntryRefs(node[i]) && node'[i].val == node[i].val {
      }
      forall x | x in EntriesRefs(node') ensures x in EntriesRefs(node) {
      }
      assert LiveEntriesRefs(node') == LiveEntriesRefs(node);
    case Thread(gt, st, top, _) =>
      var st' := h'[r].stack;
      if top <= |st| {
        assert st'[..top] == st[..top];
      }
      assert top > |st| ==> st' == st;
      forall x | x in ValuesRefs(st') ensures x in ValuesRefs(st) {
      }
    case UpVal(loc) =>
      if loc.Open? {
        ScrubOpen(h, h', r);
      }
    case _ =>
  }

  lemma ScrubbedObject(h: Heap, h': Heap, r: Ref)
    requires HeapScrubbed(h, h') && r in h
    ensures r in h' && Scrubbed(h[r], h'[r])
  {
  }

  /** The slot of an open upvalue is below the stack top, where scrubbing changes nothing. */
  lemma ScrubOpen(h: Heap, h': Heap, r: Ref)
    requires HeapScrubbed(h, h') && SlotsBelowTop(h) && IsOpenUpval(h, r)
    ensures h'[r] == h[r] && UpvalValue(h', h[r].loc) == UpvalValue(h, h[r].loc)
    ensures HasSlot(h', h[r].loc.thread, h[r].loc.level) && h[r].loc.level < h'[h[r].loc.thread].top
  {
    hide HeapScrubbed;
    ScrubbedObject(h, h', r);
    ScrubbedObject(h, h', h[r].loc.thread);
  }

  lemma ScrubBelowTop(h: Heap, h': Heap)
    requires HeapScrubbed(h, h') && SlotsBelowTop(h)
    ensures SlotsBelowTop(h')
  {
    hide HeapScrubbed;
    forall r | IsOpenUpval(h', r)
      ensures HasSlot(h', h'[r].loc.thread, h'[r].loc.level) && h'[r].loc.level < h'[h'[r].loc.thread].top
    {
      ScrubbedKeys(h, h');
      ScrubbedObject(h, h', r);
      ScrubOpen(h, h', r);
    }
  }

  lemma ScrubShape(h: Heap, h': Heap, r: Ref)
    requires HeapScrubbed(h, h') && r in h && WellShaped(h, r)
    ensures WellShaped(h', r)
  {
    hide HeapScrubbed;
    ScrubbedObject(h, h', r);
    if h[r].Table? {
      forall e | e in h'[r].node && e.deadkey ensures e.val.Nil? {
        var i :| 0 <= i < |h'[r].node| && h'[r].node[i] == e;
        assert h[r].node[i] in h[r].node;
      }
    }
    if h[r].Proto? {
      forall n | n in NameRefs(h'[r]) && n in h' ensures h'[n].Str? {
        ScrubbedKeys(h, h');
        ScrubbedObject(h, h', n);
      }
    }
  }

  lemma ScrubbedKeys(h: Heap, h': Heap)
    requires HeapScrubbed(h, h')
    ensures h'.Keys == h.Keys
  {
  }

  /** Scrubbing drops stored pointers but no children, and keeps the heap ready for marking. */
  lemma ScrubKeeps(h: Heap, h': Heap)
    requires HeapScrubbed(h, h') && SlotsBelowTop(h)
    ensures SlotsBelowTop(h')
    ensures forall r | r in h :: r in h' && Holds(h', r) <= Holds(h, r) && Children(h', r) == Children(h, r)
    ensures HeapClosed(h) ==> HeapClosed(h')
  {
    hide SlotsBelowTop, HeapScrubbed, Holds, Children, WellShaped;
    ScrubbedKeys(h, h');
    ScrubBelowTop(h, h');
    forall r | r in h ensures Holds(h', r) <= Holds(h, r) && Children(h', r) == Children(h, r) {
      ScrubHolds(h, h', r);
    }
    if HeapClosed(h) {
      forall r | r in h' ensures Holds(h', r) <= h'.Keys && WellShaped(h', r) {
        ScrubShape(h, h', r);
      }
    }
  }

  /** The effect of a traversal: marking, and scrubbing of the traversed object. */
  ghost predicate Traversed(s: State, t: State) {
    && t == s.(heap := t.heap, color := t.color, gray := t.gray)
    && Marked(s, s.(color := t.color, gray := t.gray))
    && HeapScrubbed(s.heap, t.heap)
  }

  lemma TraversedTransitive(a: State, b: State, c: State)
    requires Traversed(a, b) && Traversed(b, c)
    ensures Traversed(a, c)
  {
    ScrubbedTransitive(a.heap, b.heap, c.heap);
  }

  lemma HoldsAllocated(h: Heap, r: Ref)
    requires HeapClosed(h) && r in h
    ensures Holds(h, r) <= h.Keys && WellShaped(h, r)
  {
  }

  /** The empty node `i` is removed. */
  function RemoveNode(s: State, r: Ref, i: nat): (t: State)
    requires Ready(s) && SlotsBelowTop(s.heap) && r in s.heap && s.heap[r].Table? && i < |s.heap[r].node|
    requires s.heap[r].node[i].val.Nil?
    ensures Traversed(s, t) && Ready(t) && SlotsBelowTop(t.heap)
    ensures t.heap[r] == s.heap[r].(node := s.heap[r].node[i := RemoveEntry(s.heap[r].node[i])])
  {
    var t := SetBody(s, r, s.heap[r].(node := s.heap[r].node[i := RemoveEntry(s.heap[r].node[i])]));
    ScrubOne(s, t, r);
    t
  }

  lemma ScrubOne(s: State, t: State, r: Ref)
    requires Ready(s) && SlotsBelowTop(s.heap) && r in s.heap
    requires r in t.heap && t == SetBody(s, r, t.heap[r]) && Scrubbed(s.heap[r], t.heap[r])
    ensures Traversed(s, t) && Ready(t) && SlotsBelowTop(t.heap)
  {
    hide HeapClosed, SlotsBelowTop;
    forall x | x in s.heap ensures Scrubbed(s.heap[x], t.heap[x]) {
    }
    ScrubKeeps(s.heap, t.heap);
  }

  function MarkEntry(s: State, e: Entry): (t: State)
    requires Ready(s) && ValueRefs(e.key) <= s.heap.Keys && ValueRefs(e.val) <= s.heap.Keys
    ensures Marked(s, t)
  {
    MarkValue(MarkValue(s, e.key), e.val)
  }

  lemma EntryHeld(h: Heap, r: Ref, i: nat)
    requires HeapClosed(h) && r in h && h[r].Table? && i < |h[r].node| && !h[r].node[i].val.Nil?
    ensures ValueRefs(h[r].node[i].key) <= h.Keys && ValueRefs(h[r].node[i].val) <= h.Keys
    ensures EntryRefs(h[r].node[i]) == ValueRefs(h[r].node[i].key) + ValueRefs(h[r].node[i].val)
    ensures EntryRefs(h[r].node[i]) <= Children(h, r)
  {
    hide HeapClosed;
    HoldsAllocated(h, r);
    var e := h[r].node[i];
    assert e in h[r].node;
    assert EntryRefs(e) <= LiveEntriesRefs(h[r].node);
    assert EntryRefs(e) <= EntriesRefs(h[r].node) <= Holds(h, r);
  }

  /** One node: an empty one is removed from circulation, another has its key and value marked. */
  function TraverseNode(s: State, r: Ref, i: nat): (t: State)
    requires Ready(s) && SlotsBelowTop(s.heap) && r in s.heap && s.heap[r].Table? && i < |s.heap[r].node|
    ensures Traversed(s, t) && Ready(t) && SlotsBelowTop(t.heap)
    ensures r in t.heap && t.heap[r].Table? && |t.heap[r].node| == |s.heap[r].node|
    ensures forall j | 0 <= j < |s.heap[r].node| && j != i :: t.heap[r].node[j] == s.heap[r].node[j]
  {
    if s.heap[r].node[i].val.Nil? then RemoveNode(s, r, i)
    else
      EntryHeld(s.heap, r, i);
      MarkedIsTraversed(s, MarkEntry(s, s.heap[r].node[i]));
      MarkEntry(s, s.heap[r].node[i])
  }

  /** Nodes from index `i` up, last first. */
  function TraverseNodes(s: State, r: Ref, i: nat): (t: State)
    requires Ready(s) && SlotsBelowTop(s.heap) && r in s.heap && s.heap[r].Table? && i <= |s.heap[r].node|
    ensures Traversed(s, t) && Ready(t) && SlotsBelowTop(t.heap)
    ensures r in t.heap && t.heap[r].Table? && |t.heap[r].node| == |s.heap[r].node|
    decreases |s.heap[r].node| - i
  {
    if i == |s.heap[r].node| then s
    else
      var u := TraverseNodes(s, r, i+1);
      var t := TraverseNode(u, r, i);
      TraversedTransitive(s, u, t);
      t
  }

  function TraverseTable(s: State, r: Ref): (t: State)
    requires Ready(s) && SlotsBelowTop(s.heap) && r in s.heap && s.heap[r].Table?
    ensures Traversed(s, t) && Ready(t) && SlotsBelowTop(t.heap)
  {
    assert OptionRefs(s.heap[r].meta) <= Holds(s.heap, r);
    assert ValuesRefs(s.heap[r].arr) <= Holds(s.heap, r);
    TraverseNodes(MarkValuesDown(MarkOption(s, s.heap[r].meta), s.heap[r].arr, 0), r, 0)
  }

  function TraverseClosure(s: State, r: Ref): (t: State)
    requires Ready(s) && r in s.heap && (s.heap[r].CClosure? || s.heap[r].LClosure?)
    ensures Marked(s, t)
  {
    match s.heap[r]
    case CClosure(env, ups) =>
      assert env in Holds(s.heap, r) && ValuesRefs(ups) <= Holds(s.heap, r);
      MarkValues(Mark(s, env), ups, |ups|)
    case LClosure(env, p, ups) =>
      assert env in Holds(s.heap, r) && p in Holds(s.heap, r);
      assert forall u | u in ups :: u in Holds(s.heap, r);
      MarkRefs(Mark(Mark(s, env), p), ups, |ups|)
  }

  lemma ProtoHolds(h: Heap, r: Ref)
    requires r in h && h[r].Proto? && HeapClosed(h)
    ensures OptionRefs(h[r].source) <= h.Keys
    ensures ValuesRefs(h[r].k) <= h.Keys
    ensures OptionsRefs(h[r].upnames) <= h.Keys
    ensures OptionsRefs(h[r].protos) <= h.Keys
    ensures OptionsRefs(h[r].locnames) <= h.Keys
  {
    assert Holds(h, r) <= h.Keys;
    assert OptionRefs(h[r].source) <= Holds(h, r);
    assert ValuesRefs(h[r].k) <= Holds(h, r);
    assert OptionsRefs(h[r].upnames) <= Holds(h, r);
    assert OptionsRefs(h[r].protos) <= Holds(h, r);
    assert OptionsRefs(h[r].locnames) <= Holds(h, r);
  }

  function MarkConstants(s: State, src: Option<Ref>, k: seq<Value>): (t: State)
    requires Ready(s) && OptionRefs(src) <= s.heap.Keys && ValuesRefs(k) <= s.heap.Keys
    ensures Marked(s, t)
  {
    MarkValues(MarkName(s, src), k, |k|)
  }

  function MarkTables(s: State, un: seq<Option<Ref>>, ps: seq<Option<Ref>>, ln: seq<Option<Ref>>): (t: State)
    requires Ready(s) && OptionsRefs(un) <= s.heap.Keys && OptionsRefs(ps) <= s.heap.Keys && OptionsRefs(ln) <= s.heap.Keys
    ensures Marked(s, t)
  {
    MarkNames(MarkOptions(MarkNames(s, un, |un|), ps, |ps|), ln, |ln|)
  }

  function TraverseProto(s: State, r: Ref): (t: State)
    requires Ready(s) && r in s.heap && s.heap[r].Proto?
    ensures Marked(s, t)
  {
    ProtoHolds(s.heap, r);
    var b := s.heap[r];
    MarkTables(MarkConstants(s, b.source, b.k), b.upnames, b.protos, b.locnames)
  }

  /** The stack with every slot from `top` on set to nil. */
  function ClearAbove(stack: seq<Value>, top: nat): seq<Value>
    requires top <= |stack|
  {
    stack[..top] + seq(|stack| - top, _ => Nil)
  }

  function MarkStack(s: State, gt: Value, stack: seq<Value>, top: nat): (t: State)
    requires Ready(s) && top <= |stack| && ValueRefs(gt) <= s.heap.Keys && ValuesRefs(stack) <= s.heap.Keys
    ensures Marked(s, t)
  {
    MarkValues(MarkValue(s, gt), stack, top)
  }

  lemma StackHeld(h: Heap, r: Ref)
    requires HeapClosed(h) && r in h && h[r].Thread?
    ensures ValueRefs(h[r].gt) <= h.Keys && ValuesRefs(h[r].stack) <= h.Keys && h[r].top <= |h[r].stack|
  {
    assert ValueRefs(h[r].gt) <= Holds(h, r) && ValuesRefs(h[r].stack) <= Holds(h, r);
    assert WellShaped(h, r);
  }

  function TraverseStack(s: State, r: Ref): (t: State)
    requires Ready(s) && SlotsBelowTop(s.heap) && r in s.heap && s.heap[r].Thread?
    ensures Traversed(s, t) && Ready(t) && SlotsBelowTop(t.heap)
  {
    StackHeld(s.heap, r);
    var b := s.heap[r];
    var m := MarkStack(s, b.gt, b.stack, b.top);
    var t := SetBody(m, r, b.(stack := ClearAbove(b.stack, b.top)));
    ScrubOne(m, t, r);
    MarkedIsTraversed(s, m);
    TraversedTransitive(s, m, t);
    t
  }

  predicate Traversable(b: Body) {
    b.Table? || b.CClosure? || b.LClosure? || b.Thread? || b.Proto?
  }

  /** The state in which the traversal of the first gray object starts: a thread goes to `grayagain` instead of black. */
  function TakeGray(s: State): State
    requires s.gray != [] && s.gray[0] in s.heap && s.gray[0] in s.color
  {
    var r := s.gray[0];
    var b := Paint(s, r, Black).(gray := s.gray[1..]);
    if s.heap[r].Thread? then Paint(b, r, Gray).(grayagain := [r] + s.grayagain) else b
  }

  /** propagatemark: takes the first gray object, blackens it (a thread stays gray) and marks what it holds. */
  function PropagateMark(s: State): (t: State)
    requires Ready(s) && SlotsBelowTop(s.heap)
    requires s.gray != [] && s.gray[0] in s.heap && Traversable(s.heap[s.gray[0]])
    ensures Ready(t) && SlotsBelowTop(t.heap) && Traversed(TakeGray(s), t)
  {
    var r := s.gray[0];
    var b := TakeGray(s);
    match s.heap[r]
    case Table(_, _, _) => TraverseTable(b, r)
    case CClosure(_, _) => MarkedIsTraversed(b, TraverseClosure(b, r)); TraverseClosure(b, r)
    case LClosure(_, _, _) => MarkedIsTraversed(b, TraverseClosure(b, r)); TraverseClosure(b, r)
    case Thread(_, _, _, _) => TraverseStack(b, r)
    case Proto(_, _, _, _, _) => MarkedIsTraversed(b, TraverseProto(b, r)); TraverseProto(b, r)
  }

  lemma MarkedIsTraversed(s: State, t: State)
    requires Marked(s, t)
    ensures Traversed(s, t)
  {
  }
}
