/** The tri-colour invariant of the propagate phase, and that every marking operation keeps it. */
module GcTricolor {
  import opened GcHeap
  import opened GcMark
  import opened Wrappers

  ghost predicate AllMarked(c: Colors, rs: set<Ref>) {
    forall r | r in rs :: r in c && !c[r].White?
  }

  /** Strings, threads and open upvalues are never black. */
  predicate CanBeBlack(b: Body) {
    match b
    case Str(_, _) => false
    case Thread(_, _, _, _) => false
    case UpVal(loc) => loc.Closed?
    case _ => true
  }

  /** A black object holds no white one, unless it is in `ex`: the objects being marked just now. */
  ghost predicate BlackOk(s: State, r: Ref, ex: set<Ref>)
    requires r in s.color && r in s.heap
  {
    s.color[r].Black? ==>
      && CanBeBlack(s.heap[r])
      && (r in ex || AllMarked(s.color, Holds(s.heap, r)))
  }

  /**
   * A gray object is due to be visited again (it is on a gray list, or it is an open upvalue), or
   * it is a string. With `uv`, the values of gray open upvalues are already marked.
   */
  ghost predicate GrayOk(s: State, r: Ref, ex: set<Ref>, uv: bool)
    requires r in s.color && r in s.heap
  {
    s.color[r].Gray? ==>
      || r in ex
      || s.heap[r].Str?
      || (IsOpenUpval(s.heap, r) && (uv ==> AllMarked(s.color, Holds(s.heap, r))))
      || r in s.gray
      || r in s.grayagain
  }

  /** The gray lists hold distinct gray objects of the kinds that are traversed. */
  ghost predicate ListsOk(s: State) {
    && (forall r | r in s.gray || r in s.grayagain ::
          r in s.heap && r in s.color && s.color[r] == Gray && Traversable(s.heap[r]))
    && NoDup(s.gray) && NoDup(s.grayagain)
    && (forall r | r in s.gray :: r !in s.grayagain)
  }

  ghost predicate Tricolor(s: State, ex: set<Ref>, uv: bool) {
    && s.color.Keys == s.heap.Keys
    && (forall r | r in s.color :: BlackOk(s, r, ex) && GrayOk(s, r, ex, uv))
    && ListsOk(s)
  }

  /** Every object that became marked lies in `keep`. */
  ghost predicate MarkedWithin(s: State, t: State, keep: set<Ref>) {
    forall r | r in s.color && s.color[r].White? && r in t.color && !t.color[r].White? :: r in keep
  }

  /** Recolouring objects one by one: only the recoloured ones have to be looked at again. */
  lemma TricolorFrom(s: State, t: State, ex: set<Ref>, uv: bool, changed: set<Ref>)
    requires Tricolor(s, ex, uv) && Marked(s, t)
    requires forall r | r in s.gray :: r in t.gray
    requires ListsOk(t)
    requires forall r | r in s.color && r !in changed :: t.color[r] == s.color[r]
    requires forall r | r in changed && r in s.color :: BlackOk(t, r, ex) && GrayOk(t, r, ex, uv)
    ensures Tricolor(t, ex, uv)
  {
    forall r | r in t.color ensures BlackOk(t, r, ex) && GrayOk(t, r, ex, uv) {
      assert BlackOk(s, r, ex) && GrayOk(s, r, ex, uv);
    }
  }

  lemma TricolorWider(s: State, ex: set<Ref>, more: set<Ref>, uv: bool)
    requires Tricolor(s, ex, uv) && ex <= more
    ensures Tricolor(s, more, uv)
  {
    forall r | r in s.color ensures BlackOk(s, r, more) && GrayOk(s, r, more, uv) {
      assert BlackOk(s, r, ex) && GrayOk(s, r, ex, uv);
    }
  }

  /** An object whose pointers are all marked needs no exemption any more. */
  lemma TricolorNarrower(s: State, ex: set<Ref>, r: Ref, uv: bool)
    requires Tricolor(s, ex + {r}, uv)
    requires r in s.color ==> BlackOk(s, r, ex) && GrayOk(s, r, ex, uv)
    ensures Tricolor(s, ex, uv)
  {
    forall x | x in s.color ensures BlackOk(s, x, ex) && GrayOk(s, x, ex, uv) {
      assert BlackOk(s, x, ex + {r}) && GrayOk(s, x, ex + {r}, uv);
    }
  }

  lemma {:induction false} MarkKeeps(s: State, r: Ref, ex: set<Ref>, uv: bool, keep: set<Ref>)
    requires Ready(s) && Tricolor(s, ex, uv) && r in s.heap
    requires r in keep && ClosedUnderChildren(s.heap, keep)
    ensures Tricolor(Mark(s, r), ex, uv)
    ensures !Mark(s, r).color[r].White?
    ensures MarkedWithin(s, Mark(s, r), keep)
    decreases Whites(s.color), 1
  {
    if IsWhite(s.color, r) {
      ReallyMarkKeeps(s, r, ex, uv, keep);
    }
  }

  lemma MarkValueKeeps(s: State, v: Value, ex: set<Ref>, uv: bool, keep: set<Ref>)
    requires Ready(s) && Tricolor(s, ex, uv) && ValueRefs(v) <= s.heap.Keys
    requires ValueRefs(v) <= keep && ClosedUnderChildren(s.heap, keep)
    ensures Tricolor(MarkValue(s, v), ex, uv)
    ensures AllMarked(MarkValue(s, v).color, ValueRefs(v))
    ensures MarkedWithin(s, MarkValue(s, v), keep)
    decreases Whites(s.color), 2
  {
    if v.Gc? {
      MarkKeeps(s, v.ref, ex, uv, keep);
    }
  }

  lemma MarkOptionKeeps(s: State, o: Option<Ref>, ex: set<Ref>, uv: bool, keep: set<Ref>)
    requires Ready(s) && Tricolor(s, ex, uv) && OptionRefs(o) <= s.heap.Keys
    requires OptionRefs(o) <= keep && ClosedUnderChildren(s.heap, keep)
    ensures Tricolor(MarkOption(s, o), ex, uv)
    ensures AllMarked(MarkOption(s, o).color, OptionRefs(o))
    ensures MarkedWithin(s, MarkOption(s, o), keep)
    decreases Whites(s.color), 2
  {
    if o.Some? {
      MarkKeeps(s, o.value, ex, uv, keep);
    }
  }

  lemma {:induction false} ReallyMarkKeeps(s: State, r: Ref, ex: set<Ref>, uv: bool, keep: set<Ref>)
    requires Ready(s) && Tricolor(s, ex, uv) && IsWhite(s.color, r)
    requires r in keep && ClosedUnderChildren(s.heap, keep)
    ensures Tricolor(ReallyMark(s, r), ex, uv)
    ensures !ReallyMark(s, r).color[r].White?
    ensures MarkedWithin(s, ReallyMark(s, r), keep)
    decreases Whites(s.color), 0
  {
    var g := Paint(s, r, Gray);
    assert r in Whites(s.color) && r !in Whites(g.color);
    match s.heap[r]
    case Str(_, _) =>
      TricolorFrom(s, g, ex, uv, {r});
    case Udata(mt, env) =>
      MarkUdataKeeps(s, r, ex, uv, keep);
    case UpVal(loc) =>
      MarkUpvalKeeps(s, r, ex, uv, keep);
    case _ =>
      PushGrayKeeps(s, r, ex, uv);
  }

  lemma PushGrayKeeps(s: State, r: Ref, ex: set<Ref>, uv: bool)
    requires Tricolor(s, ex, uv) && IsWhite(s.color, r) && Traversable(s.heap[r])
    ensures Tricolor(Paint(s, r, Gray).(gray := [r] + s.gray), ex, uv)
  {
    var t := Paint(s, r, Gray).(gray := [r] + s.gray);
    assert r !in s.gray && r !in s.grayagain;
    assert Marked(s, t);
    TricolorFrom(s, t, ex, uv, {r});
  }

  /** A closed upvalue turns black once its value is marked. */
  lemma BlackenUpval(s: State, r: Ref, ex: set<Ref>, uv: bool)
    requires Tricolor(s, ex + {r}, uv) && r in s.heap && s.heap[r].UpVal? && s.heap[r].loc.Closed?
    requires !s.color[r].White? && AllMarked(s.color, Holds(s.heap, r))
    ensures Tricolor(Paint(s, r, Black), ex, uv)
  {
    var t := Paint(s, r, Black);
    forall x | x in t.color ensures BlackOk(t, x, ex) && GrayOk(t, x, ex, uv) {
      assert BlackOk(s, x, ex + {r}) && GrayOk(s, x, ex + {r}, uv);
    }
  }

  lemma {:induction false} MarkUdataKeeps(s: State, r: Ref, ex: set<Ref>, uv: bool, keep: set<Ref>)
    requires Ready(s) && Tricolor(s, ex, uv) && IsWhite(s.color, r) && s.heap[r].Udata?
    requires r in keep && ClosedUnderChildren(s.heap, keep)
    ensures Tricolor(ReallyMark(s, r), ex, uv)
    ensures !ReallyMark(s, r).color[r].White?
    ensures MarkedWithin(s, ReallyMark(s, r), keep)
    decreases Whites(s.color), 0, 0
  {
    var b := Paint(Paint(s, r, Gray), r, Black);
    assert r in Whites(s.color) && r !in Whites(b.color) && Whites(b.color) < Whites(s.color);
    var Udata(mt, env) := s.heap[r];
    assert Holds(s.heap, r) == Children(s.heap, r) == OptionRefs(mt) + {env};
    TricolorWider(s, ex, ex + {r}, uv);
    TricolorFrom(s, b, ex + {r}, uv, {r});
    MarkOptionKeeps(b, mt, ex + {r}, uv, keep);
    var m := MarkOption(b, mt);
    MarkKeeps(m, env, ex + {r}, uv, keep);
    TricolorNarrower(Mark(m, env), ex, r, uv);
  }

  lemma {:induction false} MarkUpvalKeeps(s: State, r: Ref, ex: set<Ref>, uv: bool, keep: set<Ref>)
    requires Ready(s) && Tricolor(s, ex, uv) && IsWhite(s.color, r) && s.heap[r].UpVal?
    requires r in keep && ClosedUnderChildren(s.heap, keep)
    ensures Tricolor(ReallyMark(s, r), ex, uv)
    ensures !ReallyMark(s, r).color[r].White?
    ensures MarkedWithin(s, ReallyMark(s, r), keep)
    decreases Whites(s.color), 0, 0
  {
    var g := Paint(s, r, Gray);
    assert r in Whites(s.color) && r !in Whites(g.color);
    var loc := s.heap[r].loc;
    var v := UpvalValue(s.heap, loc);
    assert Holds(s.heap, r) == Children(s.heap, r) == ValueRefs(v);
    TricolorWider(s, ex, ex + {r}, uv);
    TricolorFrom(s, g, ex + {r}, uv, {r});
    MarkValueKeeps(g, v, ex + {r}, uv, keep);
    var m := MarkValue(g, v);
    if loc.Closed? {
      BlackenUpval(m, r, ex, uv);
    } else {
      TricolorNarrower(m, ex, r, uv);
    }
  }
}
