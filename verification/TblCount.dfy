/** The keys of a table as sets, and how a rehash counts them. */
module TblCount {
  import opened TblNode
  import opened TblSizes
  import opened Wrappers

  predicate InArray(arr: seq<Value>, k: Key) {
    k.IntKey? && 1 <= k.n <= |arr|
  }

  /** What a table stores with a key. */
  ghost function Content(arr: seq<Value>, node: seq<Node>, k: Key): Value {
    if InArray(arr, k) then arr[k.n-1] else NodeValue(node, k)
  }

  /** No key of the array part is in the hash part. */
  ghost predicate Separate(arr: seq<Value>, node: seq<Node>) {
    forall i: nat, k | Stored(node, i, k) :: !InArray(arr, k)
  }

  /** arrayindex and the test of countint: an index that may go to the array part. */
  predicate Candidate(k: Key) {
    k.IntKey? && 1 <= k.n <= Pow2(MAXBITS)
  }

  function ArrayKeys(arr: seq<Value>): set<int> {
    set i | 1 <= i <= |arr| && Present(arr, i)
  }

  predicate Present(arr: seq<Value>, i: int) {
    1 <= i <= |arr| && arr[i-1] != Nil
  }

  /** The keys with a value in the nodes from `i` on. */
  function LiveFrom(node: seq<Node>, i: nat): set<Key> {
    set j | i <= j < |node| && node[j].val != Nil && node[j].key.Some? :: node[j].key.value
  }

  /** Those of them that may go to the array part. */
  function IntsFrom(node: seq<Node>, i: nat): set<int> {
    set j | i <= j < |node| && node[j].val != Nil && node[j].key.Some? && Candidate(node[j].key.value) :: node[j].key.value.n
  }

  function IntKeys(s: set<int>): set<Key> {
    set n | n in s :: IntKey(n)
  }

  lemma SomeElement(s: set<int>)
    ensures s == {} || exists n :: n in s
  {
    if forall n :: n !in s { assert s == {}; }
  }

  lemma {:induction false} IntKeysSize(s: set<int>)
    ensures |IntKeys(s)| == |s|
  {
    if |s| == 0 {
      assert IntKeys(s) == {};
    } else {
      SomeElement(s);
      var n :| n in s;
      IntKeysSize(s - {n});
      assert IntKeys(s) == IntKeys(s - {n}) + {IntKey(n)};
      assert IntKey(n) !in IntKeys(s - {n});
    }
  }

  /** One more candidate goes to its slice. */
  lemma CountOne(nums: seq<nat>, keys: set<int>, n: int)
    requires Counts(nums, keys) && n !in keys && 1 <= n <= Pow2(MAXBITS)
    ensures CeilLog2(n) < |nums| && Counts(nums[CeilLog2(n) := nums[CeilLog2(n)] + 1], keys + {n})
  {
    var c := CeilLog2(n);
    CeilLog2Slice(n, c);
    if c > MAXBITS { Pow2Grows(MAXBITS, c); }
    var nums' := nums[c := nums[c] + 1];
    forall i: nat | i <= MAXBITS ensures nums'[i] == |SliceOf(keys + {n}, i)| {
      CeilLog2Slice(n, i);
      if i == c {
        assert SliceOf(keys + {n}, i) == SliceOf(keys, i) + {n};
      } else {
        assert SliceOf(keys + {n}, i) == SliceOf(keys, i);
      }
    }
  }

  /** The keys that do not fit into an array part of the given size. */
  function Rest(arr: seq<Value>, node: seq<Node>, size: nat): set<Key> {
    set k | k in IntKeys(ArrayKeys(arr)) + LiveFrom(node, 0) && !(k.IntKey? && 1 <= k.n <= size)
  }

  /** The nodes that hold a key, and so are never used for another by getfreepos. */
  function UsedNodes(node: seq<Node>): set<int> {
    set i | 0 <= i < |node| && node[i].key.Some?
  }

  function Positions(n: nat): (s: set<int>)
    ensures |s| == n && forall i :: i in s <==> 0 <= i < n
  {
    if n == 0 then {} else Positions(n - 1) + {n - 1}
  }

  lemma AllUsed(node: seq<Node>)
    ensures |UsedNodes(node)| <= |node|
    ensures (forall i: nat | i < |node| :: node[i].key.Some?) <==> |UsedNodes(node)| == |node|
  {
    var u := UsedNodes(node);
    var p := Positions(|node|);
    SubsetSize(u, p);
    if forall i: nat | i < |node| :: node[i].key.Some? {
      assert u == p;
    } else {
      var i: nat :| i < |node| && !node[i].key.Some?;
      SubsetSize(u, p - {i});
    }
  }

  /** An insertion uses at most one more node. */
  lemma OneMoreUsed(node: seq<Node>, node': seq<Node>, n: int)
    requires |node'| == |node| && forall i | 0 <= i < |node| && i != n :: node'[i].key.Some? ==> node[i].key.Some?
    ensures |UsedNodes(node')| <= |UsedNodes(node)| + 1
  {
    SubsetSize(UsedNodes(node'), UsedNodes(node) + {n});
  }

  // ---------------------------------------------------------------- all the keys of a rehash

  /** What numusearray, numusehash and countint count. */
  function Candidates(arr: seq<Value>, node: seq<Node>, k: Key): set<int> {
    ArrayKeys(arr) + IntsFrom(node, 0) + (if Candidate(k) then {k.n} else {})
  }

  predicate Fits(k: Key, size: nat) {
    k.IntKey? && 1 <= k.n <= size
  }

  /** The hash part gets exactly the keys that the array part does not take. */
  lemma RestSize(arr: seq<Value>, node: seq<Node>, k: Key, size: nat)
    requires KeysUnique(node) && Separate(arr, node) && |arr| <= Pow2(MAXBITS) && size <= Pow2(MAXBITS)
    requires Absent(node, k) && !InArray(arr, k)
    ensures |Rest(arr, node, size)| + (if Fits(k, size) then 0 else 1) + |Upto(Candidates(arr, node, k), size)| ==
              |ArrayKeys(arr)| + |LiveFrom(node, 0)| + 1
  {
    var a, l := IntKeys(ArrayKeys(arr)), LiveFrom(node, 0);
    var all := a + l + {k};
    IntKeysSize(ArrayKeys(arr));
    assert a !! l by { ArrayOrHash(arr, node); }
    assert k !in a && k !in l by { NewIsNeither(arr, node, k); }
    assert |all| == |ArrayKeys(arr)| + |LiveFrom(node, 0)| + 1;
    var inside := IntKeys(Upto(Candidates(arr, node, k), size));
    IntKeysSize(Upto(Candidates(arr, node, k), size));
    var outside := Rest(arr, node, size) + (if Fits(k, size) then {} else {k});
    InsideOrOutside(arr, node, k, size);
    assert inside !! outside;
    assert k !in Rest(arr, node, size);
  }

  lemma ArrayOrHash(arr: seq<Value>, node: seq<Node>)
    requires Separate(arr, node)
    ensures IntKeys(ArrayKeys(arr)) !! LiveFrom(node, 0)
  {
    forall k | k in LiveFrom(node, 0) ensures k !in IntKeys(ArrayKeys(arr)) {
      var j :| 0 <= j < |node| && node[j].val != Nil && node[j].key.Some? && node[j].key.value == k;
      assert Stored(node, j, k);
    }
  }

  lemma NewIsNeither(arr: seq<Value>, node: seq<Node>, k: Key)
    requires Absent(node, k) && !InArray(arr, k)
    ensures k !in IntKeys(ArrayKeys(arr)) && k !in LiveFrom(node, 0)
  {
    forall x | x in LiveFrom(node, 0) ensures x != k {
      var j :| 0 <= j < |node| && node[j].val != Nil && node[j].key.Some? && node[j].key.value == x;
      assert !Stored(node, j, k);
    }
  }

  lemma InsideFits(arr: seq<Value>, node: seq<Node>, k: Key, size: nat, x: Key)
    requires x in IntKeys(Upto(Candidates(arr, node, k), size))
    requires |arr| <= Pow2(MAXBITS)
    ensures x in IntKeys(ArrayKeys(arr)) + LiveFrom(node, 0) + {k} && Fits(x, size)
  {
    assert x.n in Candidates(arr, node, k);
    if x.n in IntsFrom(node, 0) {
      var j :| 0 <= j < |node| && node[j].val != Nil && node[j].key.Some? && Candidate(node[j].key.value) && node[j].key.value.n == x.n;
      assert node[j].key.value == x;
    }
  }

  lemma FitsInside(arr: seq<Value>, node: seq<Node>, k: Key, size: nat, x: Key)
    requires x in IntKeys(ArrayKeys(arr)) + LiveFrom(node, 0) + {k} && Fits(x, size) && size <= Pow2(MAXBITS)
    ensures x in IntKeys(Upto(Candidates(arr, node, k), size))
  {
    assert Candidate(x);
    if x in LiveFrom(node, 0) {
      var j :| 0 <= j < |node| && node[j].val != Nil && node[j].key.Some? && node[j].key.value == x;
      assert x.n in IntsFrom(node, 0);
    }
    assert x.n in Candidates(arr, node, k);
    assert x == IntKey(x.n);
  }

  lemma InsideOrOutside(arr: seq<Value>, node: seq<Node>, k: Key, size: nat)
    requires |arr| <= Pow2(MAXBITS) && size <= Pow2(MAXBITS)
    ensures IntKeys(Upto(Candidates(arr, node, k), size)) + Rest(arr, node, size) + (if Fits(k, size) then {} else {k})
              == IntKeys(ArrayKeys(arr)) + LiveFrom(node, 0) + {k}
    ensures IntKeys(Upto(Candidates(arr, node, k), size)) !! Rest(arr, node, size)
    ensures !Fits(k, size) ==> k !in IntKeys(Upto(Candidates(arr, node, k), size))
  {
    hide Candidates, LiveFrom, ArrayKeys, Upto;
    var inside := IntKeys(Upto(Candidates(arr, node, k), size));
    var all := IntKeys(ArrayKeys(arr)) + LiveFrom(node, 0) + {k};
    forall x | x in inside ensures x in all && Fits(x, size) {
      InsideFits(arr, node, k, size, x);
    }
    forall x | x in all && Fits(x, size) ensures x in inside {
      FitsInside(arr, node, k, size, x);
    }
  }
}
