/** Traversal: luaH_next, and a loop that uses it while it changes fields that exist. */
module TblNext {
  import opened TblNode
  import opened TblCount
  import opened TblTable
  import opened Wrappers

  // ---------------------------------------------------------------- positions: first the array, then the nodes

  function Places(arr: seq<Value>, node: seq<Node>): nat {
    |arr| + |node|
  }

  /** The key at a position; a node that was never used has none. */
  function KeyAt(arr: seq<Value>, node: seq<Node>, p: nat): Option<Key>
    requires p < Places(arr, node)
  {
    if p < |arr| then Some(IntKey(p + 1)) else node[p-|arr|].key
  }

  function ValueAt(arr: seq<Value>, node: seq<Node>, p: nat): Value
    requires p < Places(arr, node)
  {
    if p < |arr| then arr[p] else node[p-|arr|].val
  }

  /** No position in front of `b`, from `a` on, has a value. */
  ghost predicate EmptyBetween(arr: seq<Value>, node: seq<Node>, a: nat, b: nat) {
    forall p: nat | a <= p < b && p < Places(arr, node) :: ValueAt(arr, node, p) == Nil
  }

  ghost predicate KeyedAt(arr: seq<Value>, node: seq<Node>, p: nat, k: Key) {
    p < Places(arr, node) && KeyAt(arr, node, p) == Some(k)
  }

  /** A key is at one position at most, where its value is. */
  lemma PositionUnique(arr: seq<Value>, node: seq<Node>, p: nat, q: nat, k: Key)
    requires KeysUnique(node) && Separate(arr, node) && KeyedAt(arr, node, p, k) && KeyedAt(arr, node, q, k)
    ensures p == q && Content(arr, node, k) == ValueAt(arr, node, p)
  {
    if p >= |arr| {
      assert Stored(node, p - |arr|, k);
      NodeAt(node, p - |arr|, k);
    }
    if q >= |arr| { assert Stored(node, q - |arr|, k); }
  }

  /** A key with a value has a position. */
  lemma PositionExists(arr: seq<Value>, node: seq<Node>, k: Key) returns (p: nat)
    requires Content(arr, node, k) != Nil
    ensures KeyedAt(arr, node, p, k)
  {
    if InArray(arr, k) {
      p := k.n - 1;
    } else {
      p := |arr| + NodeOf(node, k).value;
    }
  }

  // ---------------------------------------------------------------- luaH_next

  datatype NextResult = Entry(key: Key, val: Value) | End | InvalidKey

  /** findindex: the position of a key, -1 for the start of a traversal. */
  method FindIndex(t: Table, key: Option<Key>) returns (r: Option<int>)
    requires t.Valid()
    ensures key.None? ==> r == Some(-1)
    ensures key.Some? && r.Some? ==> 0 <= r.value && KeyedAt(t.arr, t.node, r.value, key.value)
    ensures r.None? ==> key.Some? && forall p: nat :: !KeyedAt(t.arr, t.node, p, key.value)
  {
    hide Chained, Separate;
    if key.None? {
      return Some(-1);
    }
    if InArray(t.arr, key.value) {
      return Some(key.value.n - 1);
    }
    var n := t.FindNode(key.value);
    if n.None? {
      NotKeyed(t.arr, t.node, key.value);
      return None;
    }
    r := Some(n.value + |t.arr|);
  }

  lemma NotKeyed(arr: seq<Value>, node: seq<Node>, k: Key)
    requires !InArray(arr, k) && Absent(node, k)
    ensures forall p: nat :: !KeyedAt(arr, node, p, k)
  {
    forall p: nat ensures !KeyedAt(arr, node, p, k) {
      if |arr| <= p { assert !Stored(node, p - |arr|, k); }
    }
  }

  /** What luaH_next finds from the position `a` on. */
  ghost predicate FirstFrom(arr: seq<Value>, node: seq<Node>, a: nat, r: NextResult, p: nat) {
    && EmptyBetween(arr, node, a, p)
    && (r.Entry? ==> a <= p && KeyedAt(arr, node, p, r.key) && ValueAt(arr, node, p) == r.val != Nil)
    && (r.End? ==> p == Places(arr, node))
    && !r.InvalidKey?
  }

  /** luaH_next: the first entry behind the given key; the key must be known, whether or not it has a value. */
  method Next(t: Table, key: Option<Key>) returns (r: NextResult, ghost p: nat)
    requires t.Valid()
    ensures r.InvalidKey? <==> key.Some? && forall q: nat :: !KeyedAt(t.arr, t.node, q, key.value)
    ensures key.None? ==> FirstFrom(t.arr, t.node, 0, r, p)
    ensures key.Some? ==> forall q: nat | KeyedAt(t.arr, t.node, q, key.value) :: FirstFrom(t.arr, t.node, q + 1, r, p)
  {
    hide Chained, Separate;
    ChainedKeys(t.hash, t.node, t.ch);
    var found := FindIndex(t, key);
    if found.None? {
      p := 0;
      return InvalidKey, p;
    }
    if key.Some? {
      forall q: nat | KeyedAt(t.arr, t.node, q, key.value) ensures q == found.value {
        PositionUnique(t.arr, t.node, q, found.value, key.value);
      }
    }
    var i: nat := found.value + 1;
    ghost var start := i;
    while i < |t.arr|
      invariant start <= i && EmptyBetween(t.arr, t.node, start, i) && i <= Places(t.arr, t.node)
    {
      if t.arr[i] != Nil {
        return Entry(IntKey(i + 1), t.arr[i]), i;
      }
      i := i + 1;
    }
    i := i - |t.arr|;
    while i < |t.node|
      invariant start <= i + |t.arr| && EmptyBetween(t.arr, t.node, start, i + |t.arr|) && i <= |t.node|
    {
      if t.node[i].val != Nil {
        EntryHasKey(t.hash, t.node, t.ch, i);
        return Entry(t.node[i].key.value, t.node[i].val), i + |t.arr|;
      }
      i := i + 1;
    }
    return End, i + |t.arr|;
  }

  lemma EntryHasKey(h: Hash, node: seq<Node>, ch: seq<seq<nat>>, i: nat)
    requires Chained(h, node, ch) && i < |node| && node[i].val != Nil
    ensures node[i].key.Some?
  {
    FreeNode(node, i);
  }

  // ---------------------------------------------------------------- a loop over a table

  /** An assignment to a field that exists: the keys stay where they are. */
  ghost predicate SameShape(arr: seq<Value>, node: seq<Node>, arr': seq<Value>, node': seq<Node>) {
    |arr'| == |arr| && |node'| == |node| && forall i: nat | i < |node| :: node'[i].key == node[i].key
  }

  lemma SameKeyedAt(arr: seq<Value>, node: seq<Node>, arr': seq<Value>, node': seq<Node>)
    requires SameShape(arr, node, arr', node')
    ensures forall p: nat, k :: KeyedAt(arr', node', p, k) <==> KeyedAt(arr, node, p, k)
  {
  }

  /** One assignment of the loop body, if the field exists. */
  method Assign(t: Table, k: Key, v: Value)
    requires t.Valid()
    modifies t
    ensures t.Valid() && SameShape(old(t.arr), old(t.node), t.arr, t.node)
    ensures forall x :: t.Lookup(x) == if x == k && old(t.Lookup(k)) != Nil then v else old(t.Lookup(x))
  {
    hide Chained, Separate, Absent, Content;
    var before := t.Get(k);
    if before != Nil {
      ValueIsStored(t.arr, t.node, k);
      var s := t.Set(k);
      t.Store(s, v, k);
    }
  }

  lemma ValueIsStored(arr: seq<Value>, node: seq<Node>, k: Key)
    requires Content(arr, node, k) != Nil
    ensures InArray(arr, k) || !Absent(node, k)
  {
    if !InArray(arr, k) && Absent(node, k) { NoNode(node, k); }
  }

  /** The visited entries, and where they were found: each position comes once. */
  ghost predicate Visited(arr: seq<Value>, node: seq<Node>, seen: seq<(Key, Value)>, at: seq<nat>, p: int) {
    && |at| == |seen|
    && (forall i: nat | i < |at| :: KeyedAt(arr, node, at[i], seen[i].0) && at[i] <= p)
    && forall i: nat, j: nat | i < j < |at| :: at[i] < at[j]
  }

  /** Every key that has a value now, at a position up to `p`, was visited. */
  ghost predicate Complete(arr: seq<Value>, node: seq<Node>, arr': seq<Value>, node': seq<Node>, at: seq<nat>, p: int) {
    forall q: nat, k | q <= p && KeyedAt(arr, node, q, k) && Content(arr', node', k) != Nil :: q in at
  }

  ghost predicate Untouched(body: nat -> seq<(Key, Value)>, k: Key) {
    forall i: nat, j: nat | j < |body(i)| :: body(i)[j].0 != k
  }

  ghost predicate Has(seen: seq<(Key, Value)>, k: Key) {
    exists i: nat :: i < |seen| && seen[i].0 == k
  }

  /** The visited entries were in the table at the start; those the body leaves alone have their values. */
  ghost predicate Genuine(arr: seq<Value>, node: seq<Node>, seen: seq<(Key, Value)>, body: nat -> seq<(Key, Value)>) {
    forall i: nat | i < |seen| :: GenuineEntry(arr, node, seen[i].0, seen[i].1, body)
  }

  ghost predicate GenuineEntry(arr: seq<Value>, node: seq<Node>, k: Key, v: Value, body: nat -> seq<(Key, Value)>) {
    v != Nil && Content(arr, node, k) != Nil && (Untouched(body, k) ==> v == Content(arr, node, k))
  }

  /** What the loop bodies have left of the table. */
  ghost predicate Left(arr: seq<Value>, node: seq<Node>, arr': seq<Value>, node': seq<Node>, body: nat -> seq<(Key, Value)>) {
    forall k :: LeftKey(Content(arr, node, k), Content(arr', node', k), Untouched(body, k))
  }

  predicate LeftKey(before: Value, now: Value, untouched: bool) {
    (now != Nil ==> before != Nil) && (untouched ==> now == before)
  }

  /** Nothing new has a value, and what is not assigned to is as before. */
  ghost predicate Updated(arr: seq<Value>, node: seq<Node>, arr': seq<Value>, node': seq<Node>, updates: seq<(Key, Value)>) {
    forall k :: LeftKey(Content(arr, node, k), Content(arr', node', k), forall j: nat | j < |updates| :: updates[j].0 != k)
  }

  /** The loop body: it assigns to fields that exist, nil or another value. */
  method RunBody(t: Table, updates: seq<(Key, Value)>)
    requires t.Valid()
    modifies t
    ensures t.Valid() && SameShape(old(t.arr), old(t.node), t.arr, t.node)
    ensures Updated(old(t.arr), old(t.node), t.arr, t.node, updates)
  {
    hide Chained, Separate, Content;
    var i: nat := 0;
    while i < |updates|
      invariant i <= |updates| && t.Valid() && SameShape(old(t.arr), old(t.node), t.arr, t.node)
      invariant forall x | t.Lookup(x) != Nil :: old(t.Lookup(x)) != Nil
      invariant forall x | forall j: nat | j < |updates| :: updates[j].0 != x :: t.Lookup(x) == old(t.Lookup(x))
    {
      Assign(t, updates[i].0, updates[i].1);
      i := i + 1;
    }
    forall k ensures LeftKey(Content(old(t.arr), old(t.node), k), Content(t.arr, t.node, k), forall j: nat | j < |updates| :: updates[j].0 != k) {
      assert t.Lookup(k) != Nil ==> old(t.Lookup(k)) != Nil;
    }
  }

  // ---------------------------------------------------------------- the steps of a traversal

  /** The entry that luaH_next found is in the table, behind the last one. */
  lemma FoundEntry(arr: seq<Value>, node: seq<Node>, arr': seq<Value>, node': seq<Node>, p: int, r: NextResult, p': nat)
    requires KeysUnique(node') && Separate(arr', node') && SameShape(arr, node, arr', node') && -1 <= p
    requires FirstFrom(arr', node', p + 1, r, p') && r.Entry?
    ensures p < p' < Places(arr, node) && KeyedAt(arr', node', p', r.key) && KeyedAt(arr, node, p', r.key)
    ensures Content(arr', node', r.key) == r.val != Nil
  {
    PositionUnique(arr', node', p', p', r.key);
  }

  /** Between two entries that luaH_next finds one after the other there is no key with a value. */
  lemma NothingBetween(arr: seq<Value>, node: seq<Node>, arr': seq<Value>, node': seq<Node>, at: seq<nat>,
                       p: int, r: NextResult, p': nat)
    requires KeysUnique(node') && Separate(arr', node') && SameShape(arr, node, arr', node') && -1 <= p
    requires Complete(arr, node, arr', node', at, p) && FirstFrom(arr', node', p + 1, r, p')
    ensures Complete(arr, node, arr', node', at + [p'], p')
  {
    SameKeyedAt(arr, node, arr', node');
    forall q: nat, k | q <= p' && KeyedAt(arr, node, q, k) && Content(arr', node', k) != Nil ensures q in at + [p'] {
      PositionUnique(arr', node', q, q, k);
    }
  }

  /** The visit of one entry, and what the loop body does then. */
  lemma VisitOne(arr: seq<Value>, node: seq<Node>, seen: seq<(Key, Value)>, at: seq<nat>, p: int, p': nat, k: Key, v: Value)
    requires Visited(arr, node, seen, at, p) && p < p' && KeyedAt(arr, node, p', k)
    ensures Visited(arr, node, seen + [(k, v)], at + [p'], p')
  {
  }

  lemma GenuineOne(arr: seq<Value>, node: seq<Node>, arr': seq<Value>, node': seq<Node>,
                   seen: seq<(Key, Value)>, body: nat -> seq<(Key, Value)>, k: Key, v: Value)
    requires Genuine(arr, node, seen, body) && Left(arr, node, arr', node', body) && v == Content(arr', node', k) != Nil
    ensures Genuine(arr, node, seen + [(k, v)], body)
  {
    assert LeftKey(Content(arr, node, k), Content(arr', node', k), Untouched(body, k));
  }

  lemma BodyLeaves(arr: seq<Value>, node: seq<Node>, arr1: seq<Value>, node1: seq<Node>, arr2: seq<Value>, node2: seq<Node>,
                   at: seq<nat>, p: int, body: nat -> seq<(Key, Value)>, i: nat)
    requires Left(arr, node, arr1, node1, body) && Complete(arr, node, arr1, node1, at, p)
    requires Updated(arr1, node1, arr2, node2, body(i))
    ensures Left(arr, node, arr2, node2, body) && Complete(arr, node, arr2, node2, at, p)
  {
    hide Content, KeyedAt;
    forall k ensures LeftKey(Content(arr, node, k), Content(arr2, node2, k), Untouched(body, k)) {
      assert LeftKey(Content(arr, node, k), Content(arr1, node1, k), Untouched(body, k));
    }
  }

  lemma SameShapeAgain(arr: seq<Value>, node: seq<Node>, arr1: seq<Value>, node1: seq<Node>, arr2: seq<Value>, node2: seq<Node>)
    requires SameShape(arr, node, arr1, node1) && SameShape(arr1, node1, arr2, node2)
    ensures SameShape(arr, node, arr2, node2)
  {
  }

  lemma AtStart(arr: seq<Value>, node: seq<Node>, body: nat -> seq<(Key, Value)>)
    ensures SameShape(arr, node, arr, node) && Visited(arr, node, [], [], -1) && Complete(arr, node, arr, node, [], -1)
    ensures Genuine(arr, node, [], body) && Left(arr, node, arr, node, body)
  {
  }

  /** At the end every key that still has a value was visited, and none was visited twice. */
  lemma AtEnd(arr: seq<Value>, node: seq<Node>, arr': seq<Value>, node': seq<Node>,
              seen: seq<(Key, Value)>, at: seq<nat>, p: int, p': nat)
    requires KeysUnique(node) && Separate(arr, node) && SameShape(arr, node, arr', node') && p' == Places(arr', node')
    requires Visited(arr, node, seen, at, p) && Complete(arr, node, arr', node', at + [p'], p')
    ensures forall i: nat, j: nat | i < j < |seen| :: seen[i].0 != seen[j].0
    ensures forall k | Content(arr', node', k) != Nil :: Has(seen, k)
  {
    hide Content, KeysUnique, Separate;
    forall i: nat, j: nat | i < j < |seen| ensures seen[i].0 != seen[j].0 {
      if seen[i].0 == seen[j].0 { PositionUnique(arr, node, at[i], at[j], seen[i].0); }
    }
    SameKeyedAt(arr, node, arr', node');
    forall k | Content(arr', node', k) != Nil ensures Has(seen, k) {
      var q := PositionExists(arr', node', k);
      assert q in at + [p'] && q != p';
      var i: nat :| i < |at| && at[i] == q;
      assert seen[i].0 == k;
    }
  }

  /**
   * A traversal, `for k, v in next, t`, whose body may assign any values, nil among them, to fields that
   * exist: it ends, it visits no key twice, every visited key was in the table when it started, every key
   * that is still there at the end was visited, and the keys that the body leaves alone are visited with
   * their values.
   */
  method Traverse(t: Table, body: nat -> seq<(Key, Value)>) returns (seen: seq<(Key, Value)>)
    requires t.Valid()
    modifies t
    ensures t.Valid()
    ensures forall i: nat, j: nat | i < j < |seen| :: seen[i].0 != seen[j].0
    ensures Genuine(old(t.arr), old(t.node), seen, body) && Left(old(t.arr), old(t.node), t.arr, t.node, body)
    ensures forall k | t.Lookup(k) != Nil :: Has(seen, k)
  {
    hide Chained, Separate, Content, KeyedAt, SameShape, FirstFrom, KeysUnique, Visited, Complete, Genuine, Left, Has, Updated;
    ghost var arr, node := t.arr, t.node;
    ChainedKeys(t.hash, node, t.ch);
    var key: Option<Key> := None;
    ghost var p: int := -1;
    ghost var at: seq<nat> := [];
    seen := [];
    AtStart(arr, node, body);
    while true
      invariant t.Valid() && SameShape(arr, node, t.arr, t.node) && -1 <= p
      invariant if key.None? then p == -1 else 0 <= p < Places(arr, node) && KeyedAt(arr, node, p, key.value)
      invariant Visited(arr, node, seen, at, p) && Complete(arr, node, t.arr, t.node, at, p)
      invariant Genuine(arr, node, seen, body) && Left(arr, node, t.arr, t.node, body)
      decreases Places(arr, node) - p
    {
      SameKeyedAt(arr, node, t.arr, t.node);
      ChainedKeys(t.hash, t.node, t.ch);
      var r, p' := Next(t, key);
      assert FirstFrom(t.arr, t.node, p + 1, r, p');
      NothingBetween(arr, node, t.arr, t.node, at, p, r, p');
      NotInvalid(t.arr, t.node, p + 1, r, p');
      if r.End? {
        AtEnd(arr, node, t.arr, t.node, seen, at, p, p');
        return;
      }
      FoundEntry(arr, node, t.arr, t.node, p, r, p');
      VisitOne(arr, node, seen, at, p, p', r.key, r.val);
      GenuineOne(arr, node, t.arr, t.node, seen, body, r.key, r.val);
      seen, at, p, key := seen + [(r.key, r.val)], at + [p'], p', Some(r.key);
      ghost var arr1, node1 := t.arr, t.node;
      RunBody(t, body(|seen| - 1));
      BodyLeaves(arr, node, arr1, node1, t.arr, t.node, at, p, body, |seen| - 1);
      SameShapeAgain(arr, node, arr1, node1, t.arr, t.node);
    }
  }

  lemma NotInvalid(arr: seq<Value>, node: seq<Node>, a: nat, r: NextResult, p: nat)
    requires FirstFrom(arr, node, a, r, p)
    ensures !r.InvalidKey? && (r.End? ==> p == Places(arr, node))
  {
  }
}
