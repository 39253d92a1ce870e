/** The length of a table: luaH_getn, which finds a border. */
module TblLength {
  import opened TblNode
  import opened TblCount
  import opened TblTable
  import opened Wrappers

  const MAX_INT: nat := 2147483645

  /** A border of a table: 0 if there is no value at 1, or an index with a value in front of one without. */
  ghost predicate IsBorder(t: Table, n: nat)
    reads t
  {
    (n == 0 || t.Lookup(IntKey(n)) != Nil) && t.Lookup(IntKey(n + 1)) == Nil
  }

  /** No index above the bound has a value. */
  ghost predicate Bounded(t: Table, bound: nat)
    reads t
  {
    forall n: nat | bound < n :: t.Lookup(IntKey(n)) == Nil
  }

  /** The largest index of an array part and of the nodes from `i` on. */
  ghost function LargestIndex(arr: seq<Value>, node: seq<Node>, i: nat): nat
    decreases |node| - i
  {
    if i >= |node| then |arr|
    else
      var rest := LargestIndex(arr, node, i + 1);
      if node[i].key.Some? && node[i].key.value.IntKey? && node[i].key.value.n > rest then node[i].key.value.n else rest
  }

  lemma {:induction false} LargestBounds(arr: seq<Value>, node: seq<Node>, i: nat)
    ensures |arr| <= LargestIndex(arr, node, i)
    ensures forall j, n | i <= j < |node| && node[j].key == Some(IntKey(n)) :: n <= LargestIndex(arr, node, i)
    decreases |node| - i
  {
    if i < |node| { LargestBounds(arr, node, i + 1); }
  }

  lemma TableBounded(t: Table)
    ensures Bounded(t, LargestIndex(t.arr, t.node, 0))
  {
    LargestBounds(t.arr, t.node, 0);
    forall n: nat | LargestIndex(t.arr, t.node, 0) < n ensures t.Lookup(IntKey(n)) == Nil {
      NoNode(t.node, IntKey(n));
    }
  }

  /** The binary searches of luaH_getn and unbound_search. */
  method Bisect(t: Table, low: nat, high: nat) returns (n: nat)
    requires t.Valid() && low < high
    requires (low == 0 || t.Lookup(IntKey(low)) != Nil) && t.Lookup(IntKey(high)) == Nil
    ensures IsBorder(t, n) && low <= n < high
  {
    hide Chained, Separate, Content;
    var i, j := low, high;
    while j - i > 1
      invariant low <= i < j <= high
      invariant (i == 0 || t.Lookup(IntKey(i)) != Nil) && t.Lookup(IntKey(j)) == Nil
    {
      var m := (i + j) / 2;
      var v := t.Get(IntKey(m));
      if v == Nil { j := m; } else { i := m; }
    }
    n := i;
  }

  /** unbound_search: by doubling, and one by one if the doubling gets too far. */
  method UnboundSearch(t: Table, start: nat) returns (n: nat)
    requires t.Valid() && (start == 0 || t.Lookup(IntKey(start)) != Nil)
    ensures IsBorder(t, n)
  {
    hide Chained, Separate, Content;
    ghost var bound := LargestIndex(t.arr, t.node, 0);
    TableBounded(t);
    var i, j := start, start + 1;
    var v := t.Get(IntKey(j));
    while v != Nil
      invariant i < j && (i == 0 || t.Lookup(IntKey(i)) != Nil) && v == t.Lookup(IntKey(j))
      decreases bound - i, bound - j
    {
      i := j;
      j := j * 2;
      if j > MAX_INT {
        n := LinearSearch(t, bound);
        return;
      }
      v := t.Get(IntKey(j));
    }
    n := Bisect(t, i, j);
  }

  /** The search from 1 on. */
  method LinearSearch(t: Table, ghost bound: nat) returns (n: nat)
    requires t.Valid() && Bounded(t, bound)
    ensures IsBorder(t, n)
  {
    hide Chained, Separate, Content;
    var i: nat := 1;
    var v := t.Get(IntKey(i));
    while v != Nil
      invariant 1 <= i && (i == 1 || t.Lookup(IntKey(i - 1)) != Nil) && v == t.Lookup(IntKey(i))
      decreases bound - i
    {
      i := i + 1;
      v := t.Get(IntKey(i));
    }
    n := i - 1;
  }

  /** luaH_getn. */
  method GetN(t: Table) returns (n: nat)
    requires t.Valid()
    ensures IsBorder(t, n)
  {
    hide Chained, Separate;
    var j: nat := |t.arr|;
    if j > 0 && t.arr[j-1] == Nil {
      n := Bisect(t, 0, j);
    } else if |t.node| == 0 {
      NoNode(t.node, IntKey(j + 1));
      n := j;
    } else {
      n := UnboundSearch(t, j);
    }
  }

  /** If the indices with a value are 1 to `n`, the length is `n`: there is no other border. */
  lemma {:induction false} DenseBorder(t: Table, n: nat, b: nat)
    requires forall i: nat | 1 <= i :: t.Lookup(IntKey(i)) != Nil <==> i <= n
    ensures IsBorder(t, b) <==> b == n
  {
    assert b >= 1 ==> (t.Lookup(IntKey(b)) != Nil <==> b <= n);
    assert t.Lookup(IntKey(b + 1)) != Nil <==> b + 1 <= n;
  }
}
