/** The collectable heap of lobject.h and lstate.h, and the global state of the collector. */
module GcHeap {
  import opened Wrappers

  type Ref = nat

  /** The two white marks; `currentwhite` says which one new objects get. */
  datatype WhiteKind = White0 | White1

  function Other(w: WhiteKind): WhiteKind {
    if w == White0 then White1 else White0
  }

  datatype Color = White(kind: WhiteKind) | Gray | Black

  /** A TValue: nil, another value that is not collectable, or a pointer to a collectable object. */
  datatype Value = Nil | Plain(payload: int) | Gc(ref: Ref)

  /** A hash node. A dead key keeps its pointer but is never followed again. */
  datatype Entry = Entry(key: Value, deadkey: bool, val: Value)

  /** Where the value of an upvalue lives: in a stack slot, or in the upvalue itself. */
  datatype Location = Open(thread: Ref, level: nat) | Closed(value: Value)

  datatype Body =
    | Str(bytes: seq<bv8>, hash: nat)
    | Udata(umeta: Option<Ref>, uenv: Ref)
    | UpVal(loc: Location)
    | CClosure(cenv: Ref, upvalue: seq<Value>)
    | LClosure(lenv: Ref, proto: Ref, upvals: seq<Ref>)
    | Table(meta: Option<Ref>, arr: seq<Value>, node: seq<Entry>)
    | Thread(gt: Value, stack: seq<Value>, top: nat, openupval: seq<Ref>)
    | Proto(source: Option<Ref>, k: seq<Value>, upnames: seq<Option<Ref>>,
            protos: seq<Option<Ref>>, locnames: seq<Option<Ref>>)

  type Heap = map<Ref, Body>
  type Colors = map<Ref, Color>

  datatype Phase = Pause | Propagate | SweepString | Sweep | Finalize

  /**
   * The part of global_State that the collector uses. `sweepgc` counts the elements of `rootgc`
   * that lie before the link the sweep pointer designates; `running` is the thread in control.
   */
  datatype State = State(
    heap: Heap, color: Colors, fixed: set<Ref>,
    currentwhite: WhiteKind, gcstate: Phase,
    gray: seq<Ref>, grayagain: seq<Ref>,
    rootgc: seq<Ref>, sweepgc: nat,
    strt: seq<seq<Ref>>, sweepstrgc: nat,
    uvhead: seq<Ref>,
    mainthread: Ref, running: Ref, registry: Value, mt: seq<Option<Ref>>)

  /** The hash of luaS_newlstr: long strings are sampled, one byte in every `step`. */
  function Hash(bytes: seq<bv8>): nat {
    HashFrom(bytes, |bytes|, |bytes| / 32 + 1, (|bytes| % 0x1_0000_0000) as bv32) as nat
  }

  function HashFrom(bytes: seq<bv8>, l: nat, step: nat, h: bv32): bv32
    requires l <= |bytes| && 0 < step
    decreases l
  {
    if l < step then h
    else HashFrom(bytes, l - step, step, h ^ ((h << 5) + (h >> 2) + (bytes[l-1] as bv32)))
  }

  // ---------------------------------------------------------------- references

  function ValueRefs(v: Value): set<Ref> {
    if v.Gc? then {v.ref} else {}
  }

  function ValuesRefs(vs: seq<Value>): set<Ref> {
    set v | v in vs && v.Gc? :: v.ref
  }

  function OptionRefs(o: Option<Ref>): set<Ref> {
    if o.Some? then {o.value} else {}
  }

  function OptionsRefs(os: seq<Option<Ref>>): set<Ref> {
    set o | o in os && o.Some? :: o.value
  }

  function EntryRefs(e: Entry): set<Ref> {
    (if e.deadkey then {} else ValueRefs(e.key)) + ValueRefs(e.val)
  }

  function EntriesRefs(es: seq<Entry>): set<Ref> {
    set i, r | 0 <= i < |es| && r in EntryRefs(es[i]) :: r
  }

  /** The entries a traversal follows: an entry whose value is nil is empty. */
  function LiveEntriesRefs(es: seq<Entry>): set<Ref> {
    set i, r | 0 <= i < |es| && !es[i].val.Nil? && r in EntryRefs(es[i]) :: r
  }

  predicate HasSlot(h: Heap, thread: Ref, level: nat) {
    thread in h && h[thread].Thread? && level < |h[thread].stack|
  }

  /** The current value of an upvalue, wherever it lives. */
  function UpvalValue(h: Heap, loc: Location): Value {
    match loc
    case Closed(v) => v
    case Open(th, level) => if HasSlot(h, th, level) then h[th].stack[level] else Nil
  }

  /**
   * Every pointer stored in an object that its owner could still follow, now or after the stack top
   * is raised again or an empty entry is filled: also stale slots and keys of empty entries.
   */
  function Holds(h: Heap, r: Ref): set<Ref>
    requires r in h
  {
    match h[r]
    case Str(_, _) => {}
    case Udata(mt, env) => OptionRefs(mt) + {env}
    case UpVal(loc) => ValueRefs(UpvalValue(h, loc))
    case CClosure(env, ups) => {env} + ValuesRefs(ups)
    case LClosure(env, p, ups) => {env, p} + (set u | u in ups)
    case Table(mt, arr, node) => OptionRefs(mt) + ValuesRefs(arr) + EntriesRefs(node)
    case Thread(gt, stack, _, _) => ValueRefs(gt) + ValuesRefs(stack)
    case Proto(src, k, un, ps, ln) =>
      OptionRefs(src) + ValuesRefs(k) + OptionsRefs(un) + OptionsRefs(ps) + OptionsRefs(ln)
  }

  /** The pointers that make the target reachable: live entries and slots below the stack top. */
  function Children(h: Heap, r: Ref): set<Ref>
    requires r in h
  {
    match h[r]
    case Table(mt, arr, node) => OptionRefs(mt) + ValuesRefs(arr) + LiveEntriesRefs(node)
    case Thread(gt, stack, top, _) =>
      ValueRefs(gt) + (if top <= |stack| then ValuesRefs(stack[..top]) else ValuesRefs(stack))
    case _ => Holds(h, r)
  }

  lemma ChildrenAreHeld(h: Heap, r: Ref)
    requires r in h
    ensures Children(h, r) <= Holds(h, r)
  {
  }

  // ---------------------------------------------------------------- reachability

  function Roots(s: State): set<Ref> {
    {s.mainthread, s.running} + ValueRefs(s.registry) + OptionsRefs(s.mt)
  }

  predicate Edge(h: Heap, from: Ref, to: Ref) {
    from in h && to in Children(h, from)
  }

  predicate IsPath(s: State, path: seq<Ref>) {
    && 0 < |path|
    && if |path| == 1 then path[0] in Roots(s)
       else IsPath(s, path[..|path|-1]) && Edge(s.heap, path[|path|-2], path[|path|-1])
  }

  /** The mutator can get at `r` by following pointers from the roots. */
  ghost predicate Reachable(s: State, r: Ref) {
    exists path :: IsPath(s, path) && path[|path|-1] == r
  }

  ghost predicate ClosedUnderChildren(h: Heap, keep: set<Ref>) {
    forall r | r in keep :: r in h && Children(h, r) <= keep
  }

  /** Reachability is the least set holding the roots and closed under children. */
  lemma {:induction false} ReachableIsLeast(s: State, keep: set<Ref>, path: seq<Ref>)
    requires Roots(s) <= keep && ClosedUnderChildren(s.heap, keep)
    requires IsPath(s, path)
    ensures path[|path|-1] in keep
  {
    if |path| > 1 {
      ReachableIsLeast(s, keep, path[..|path|-1]);
    }
  }

  lemma ReachableStaysInside(s: State, keep: set<Ref>)
    requires Roots(s) <= keep && ClosedUnderChildren(s.heap, keep)
    ensures forall r :: Reachable(s, r) ==> r in keep
  {
    forall r | Reachable(s, r) ensures r in keep {
      var path :| IsPath(s, path) && path[|path|-1] == r;
      ReachableIsLeast(s, keep, path);
    }
  }

  lemma ReachableStep(s: State, r: Ref, c: Ref)
    requires Reachable(s, r) && r in s.heap && c in Children(s.heap, r)
    ensures Reachable(s, c)
  {
    var path :| IsPath(s, path) && path[|path|-1] == r;
    assert (path + [c])[..|path|] == path;
    assert IsPath(s, path + [c]) && (path + [c])[|path|] == c;
  }

  lemma RootsAreReachable(s: State, r: Ref)
    requires r in Roots(s)
    ensures Reachable(s, r)
  {
    assert IsPath(s, [r]) && [r][|[r]|-1] == r;
  }

  // ---------------------------------------------------------------- colours

  predicate IsWhite(c: Colors, r: Ref) {
    r in c && c[r].White?
  }

  /** isdead: the object has the white that is not current. */
  predicate IsDead(s: State, r: Ref) {
    r in s.color && s.color[r] == White(Other(s.currentwhite))
  }

  function Whites(c: Colors): set<Ref> {
    set r | r in c && c[r].White?
  }

  ghost predicate NoDup<T>(xs: seq<T>) {
    forall i, j :: 0 <= i < j < |xs| ==> xs[i] != xs[j]
  }

  lemma NoDupCons<T>(x: T, xs: seq<T>)
    requires NoDup(xs) && x !in xs
    ensures NoDup([x] + xs)
  {
    forall i, j | 0 <= i < j < |[x] + xs| ensures ([x] + xs)[i] != ([x] + xs)[j] {
      if i == 0 {
        assert ([x] + xs)[j] == xs[j-1];
      } else {
        assert ([x] + xs)[i] == xs[i-1] && ([x] + xs)[j] == xs[j-1];
      }
    }
  }

  lemma NoDupWithout<T>(l: seq<T>, i: nat)
    requires NoDup(l) && i < |l|
    ensures NoDup(l[..i] + l[i+1..])
    ensures forall x :: x in l[..i] + l[i+1..] <==> x in l && x != l[i]
  {
    assert l == l[..i] + [l[i]] + l[i+1..];
  }

  function Remove<T(==)>(xs: seq<T>, x: T): (ys: seq<T>)
    ensures forall y | y in ys :: y in xs
    ensures forall y | y in xs && y != x :: y in ys
    ensures |ys| == if x in xs then |xs| - 1 else |xs|
  {
    if xs == [] then []
    else if xs[0] == x then xs[1..]
    else [xs[0]] + Remove(xs[1..], x)
  }

  lemma {:induction false} RemoveOnce<T>(xs: seq<T>, x: T)
    requires NoDup(xs)
    ensures NoDup(Remove(xs, x)) && x !in Remove(xs, x)
  {
    if xs != [] && xs[0] != x {
      RemoveOnce(xs[1..], x);
      NoDupCons(xs[0], Remove(xs[1..], x));
    }
  }

  function Elements(xs: seq<Ref>): set<Ref> {
    set r | r in xs
  }

  predicate IsOpenUpval(h: Heap, r: Ref) {
    r in h && h[r].UpVal? && h[r].loc.Open?
  }
}
