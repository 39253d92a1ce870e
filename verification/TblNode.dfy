/** The hash part of a table (ltable.c): a chained scatter table with Brent's variation. */
module TblNode {
  import opened Wrappers

  datatype Value = Nil | Val(id: int)

  datatype Key = IntKey(n: int) | OtherKey(id: int)

  /** A key once stored stays when its value becomes nil; a node without key was never used. */
  datatype Node = Node(key: Option<Key>, val: Value, next: Option<nat>)

  /** The hash functions are arbitrary: they may use the key and the number of nodes. */
  type Hash = (Key, nat) -> nat

  /** mainposition. */
  function MainPosition(h: Hash, size: nat, k: Key): nat
    requires 0 < size
  {
    h(k, size) % size
  }

  // ---------------------------------------------------------------- chains

  /** The nodes on the way from `i` along the links, to the end. */
  ghost predicate IsChain(node: seq<Node>, i: nat, l: seq<nat>) {
    && 0 < |l| && l[0] == i
    && (forall j | 0 <= j < |l| :: l[j] < |node|)
    && (forall j | 0 <= j < |l| - 1 :: node[l[j]].next == Some(l[j+1]))
    && node[l[|l|-1]].next == None
  }

  ghost predicate UniquePredecessors(node: seq<Node>) {
    forall i, j | 0 <= i < |node| && 0 <= j < |node| && node[i].next.Some? && node[i].next == node[j].next :: i == j
  }

  ghost predicate Stored(node: seq<Node>, i: nat, k: Key) {
    i < |node| && node[i].key == Some(k)
  }

  /** Where a stored key must be: on the chain of its main position, which holds a key of its own. */
  ghost predicate Placed(h: Hash, node: seq<Node>, ch: seq<seq<nat>>, i: nat, k: Key)
    requires |ch| == |node| && 0 < |node|
  {
    var m := MainPosition(h, |node|, k);
    && i in ch[m]
    && node[m].key.Some? && MainPosition(h, |node|, node[m].key.value) == m
  }

  /** A node that was never used is on no chain but its own. */
  ghost predicate Unused(node: seq<Node>, i: nat) {
    i < |node| ==> node[i].next == None && node[i].val == Nil && forall j | 0 <= j < |node| :: node[j].next != Some(i)
  }

  /** Every node starts a chain, `ch[i]`, and no two nodes have the same successor. */
  ghost predicate Linked(node: seq<Node>, ch: seq<seq<nat>>) {
    && |ch| == |node|
    && (forall i: nat | i < |node| :: IsChain(node, i, ch[i]))
    && UniquePredecessors(node)
  }

  ghost predicate KeysPlaced(h: Hash, node: seq<Node>, ch: seq<seq<nat>>)
    requires |ch| == |node|
  {
    forall i: nat, k | Stored(node, i, k) :: Placed(h, node, ch, i, k)
  }

  ghost predicate KeysUnique(node: seq<Node>) {
    forall i: nat, j: nat, k | Stored(node, i, k) && Stored(node, j, k) :: i == j
  }

  ghost predicate FreeUnused(node: seq<Node>) {
    forall i: nat | i < |node| && node[i].key.None? :: Unused(node, i)
  }

  /** The invariant of the hash part. */
  ghost predicate Chained(h: Hash, node: seq<Node>, ch: seq<seq<nat>>) {
    Linked(node, ch) && KeysPlaced(h, node, ch) && KeysUnique(node) && FreeUnused(node)
  }

  // ---------------------------------------------------------------- contents

  /** The node that stores a key. */
  ghost function NodeOf(node: seq<Node>, k: Key): Option<nat> {
    if exists i: nat :: Stored(node, i, k) then (var i: nat :| Stored(node, i, k); Some(i)) else None
  }

  /** The value stored with a key, nil if there is none. */
  ghost function NodeValue(node: seq<Node>, k: Key): Value {
    var i := NodeOf(node, k);
    if i.Some? && i.value < |node| then node[i.value].val else Nil
  }

  lemma NodeAt(node: seq<Node>, i: nat, k: Key)
    requires KeysUnique(node) && Stored(node, i, k)
    ensures NodeOf(node, k) == Some(i) && NodeValue(node, k) == node[i].val
  {
  }

  ghost predicate Absent(node: seq<Node>, k: Key) {
    forall i: nat :: !Stored(node, i, k)
  }

  lemma NoNode(node: seq<Node>, k: Key)
    requires Absent(node, k)
    ensures NodeOf(node, k) == None && NodeValue(node, k) == Nil
  {
  }

  // ---------------------------------------------------------------- chains end, and are determined

  /** A chain that visited a node twice would go on for ever. */
  lemma {:induction false} ChainTail(node: seq<Node>, i: nat, l: seq<nat>, a: nat, b: nat, t: nat)
    requires IsChain(node, i, l) && a < b < |l| && l[a] == l[b] && b + t < |l|
    ensures l[a+t] == l[b+t]
  {
    if t > 0 {
      ChainTail(node, i, l, a, b, t - 1);
      assert node[l[a+t-1]].next == Some(l[a+t]) && node[l[b+t-1]].next == Some(l[b+t]);
    }
  }

  lemma NotLast(node: seq<Node>, i: nat, l: seq<nat>, c: nat)
    requires IsChain(node, i, l) && c < |l| - 1
    ensures l[c] != l[|l|-1]
  {
    assert node[l[c]].next == Some(l[c+1]);
  }

  lemma ChainDistinct(node: seq<Node>, i: nat, l: seq<nat>, a: nat, b: nat)
    requires IsChain(node, i, l) && a < b < |l|
    ensures l[a] != l[b]
  {
    var t := |l| - 1 - b;
    NotLast(node, i, l, a + t);
    if l[a] == l[b] {
      ChainTail(node, i, l, a, b, t);
    }
  }

  // ---------------------------------------------------------------- insertion in place

  /** The key goes to its main position, whose value is nil; the links stay. */
  function InPlace(node: seq<Node>, m: nat, k: Key): seq<Node>
    requires m < |node|
  {
    node[m := node[m].(key := Some(k))]
  }

  lemma SameLinks(node: seq<Node>, node': seq<Node>, ch: seq<seq<nat>>)
    requires Linked(node, ch) && |node'| == |node| && forall i: nat | i < |node| :: node'[i].next == node[i].next
    ensures Linked(node', ch)
  {
    forall i: nat | i < |node'| ensures IsChain(node', i, ch[i]) {
      assert IsChain(node, i, ch[i]);
    }
  }

  lemma InPlaceOk(h: Hash, node: seq<Node>, ch: seq<seq<nat>>, k: Key)
    requires Chained(h, node, ch) && 0 < |node| && Absent(node, k)
    ensures Chained(h, InPlace(node, MainPosition(h, |node|, k), k), ch)
  {
    hide IsChain, UniquePredecessors;
    var m := MainPosition(h, |node|, k);
    var node' := InPlace(node, m, k);
    SameLinks(node, node', ch);
    forall i: nat, x | Stored(node', i, x) ensures Placed(h, node', ch, i, x) {
      if i == m {
        assert IsChain(node, m, ch[m]);
        SelfOnChain(node, m, ch[m]);
      } else {
        assert Stored(node, i, x);
      }
    }
    forall i: nat, j: nat, x | Stored(node', i, x) && Stored(node', j, x) ensures i == j {
      if i != m { assert Stored(node, i, x); }
      if j != m { assert Stored(node, j, x); }
    }
    forall i: nat | i < |node'| && node'[i].key.None? ensures Unused(node', i) {
      assert Unused(node, i);
    }
  }

  lemma SelfOnChain(node: seq<Node>, i: nat, l: seq<nat>)
    requires IsChain(node, i, l)
    ensures i in l
  {
    assert l[0] == i;
  }

  // ---------------------------------------------------------------- the colliding key is at home: chain a new node

  /** The new key goes to the free node `n`, which is linked behind its main position `m`. */
  function InsertAfter(node: seq<Node>, m: nat, n: nat, k: Key): seq<Node>
    requires m < |node| && n < |node|
  {
    node[n := Node(Some(k), node[n].val, node[m].next)][m := node[m].(next := Some(n))]
  }

  /** A chain with `n` after `m`. */
  function Splice(l: seq<nat>, m: nat, n: nat): seq<nat> {
    if m in l then l[..IndexOf(l, m)+1] + [n] + l[IndexOf(l, m)+1..] else l
  }

  lemma UnusedOffChain(node: seq<Node>, i: nat, l: seq<nat>, n: nat)
    requires IsChain(node, i, l) && Unused(node, n) && n < |node| && i != n
    ensures n !in l
  {
    forall j | 0 <= j < |l| ensures l[j] != n {
      if 0 < j { assert node[l[j-1]].next == Some(l[j]); }
    }
  }

  lemma SpliceStep(node: seq<Node>, m: nat, n: nat, k: Key, i: nat, l: seq<nat>, p: nat, j: nat)
    requires IsChain(node, i, l) && m < |node| && n < |node| && m != n && n !in l && p < |l| && l[p] == m && j < |l|
    ensures var l' := l[..p+1] + [n] + l[p+1..]; var node' := InsertAfter(node, m, n, k);
            && l'[j] < |node| && l'[j+1] < |node| && node'[l'[j]].next == Some(l'[j+1])
  {
    var l' := l[..p+1] + [n] + l[p+1..];
    if j < p {
      ChainDistinct(node, i, l, j, p);
      assert node[l[j]].next == Some(l[j+1]) && l'[j] == l[j] && l'[j+1] == l[j+1];
    } else if j == p {
      assert l'[j] == m && l'[j+1] == n;
    } else {
      assert l'[j+1] == l[j] && node[l[j-1]].next == Some(l[j]);
      if j == p + 1 { assert l'[j] == n; } else {
        ChainDistinct(node, i, l, p, j - 1);
        assert l'[j] == l[j-1];
      }
    }
  }

  lemma SpliceEnd(node: seq<Node>, m: nat, n: nat, k: Key, i: nat, l: seq<nat>, p: nat)
    requires IsChain(node, i, l) && m < |node| && n < |node| && m != n && n !in l && p < |l| && l[p] == m
    ensures var l' := l[..p+1] + [n] + l[p+1..]; var node' := InsertAfter(node, m, n, k);
            l'[|l|] < |node| && node'[l'[|l|]].next == None
  {
    var l' := l[..p+1] + [n] + l[p+1..];
    if p < |l| - 1 {
      ChainDistinct(node, i, l, p, |l| - 1);
      assert l'[|l|] == l[|l|-1];
    } else {
      assert l'[|l|] == n;
    }
  }

  lemma SpliceIn(node: seq<Node>, m: nat, n: nat, k: Key, i: nat, l: seq<nat>, p: nat)
    requires IsChain(node, i, l) && m < |node| && n < |node| && m != n && n !in l && p < |l| && l[p] == m
    ensures IsChain(InsertAfter(node, m, n, k), i, l[..p+1] + [n] + l[p+1..])
  {
    hide InsertAfter;
    var node' := InsertAfter(node, m, n, k);
    var l' := l[..p+1] + [n] + l[p+1..];
    SameSize(node, m, n, k);
    forall j | 0 <= j < |l'| ensures l'[j] < |node'| {
      if j < |l| { SpliceStep(node, m, n, k, i, l, p, j); } else { SpliceEnd(node, m, n, k, i, l, p); }
    }
    forall j | 0 <= j < |l'| - 1 ensures node'[l'[j]].next == Some(l'[j+1]) {
      SpliceStep(node, m, n, k, i, l, p, j);
    }
    SpliceEnd(node, m, n, k, i, l, p);
  }

  lemma SameSize(node: seq<Node>, m: nat, n: nat, k: Key)
    requires m < |node| && n < |node|
    ensures |InsertAfter(node, m, n, k)| == |node|
  {
  }

  lemma SpliceHas(l: seq<nat>, m: nat, n: nat)
    ensures forall j | j in l :: j in Splice(l, m, n)
    ensures m in l ==> n in Splice(l, m, n)
  {
    if m in l {
      var p := IndexOf(l, m);
      assert l == l[..p+1] + l[p+1..];
    }
  }

  lemma SpliceChain(node: seq<Node>, m: nat, n: nat, k: Key, i: nat, l: seq<nat>)
    requires IsChain(node, i, l) && m < |node| && n < |node| && m != n && i != n && Unused(node, n)
    ensures IsChain(InsertAfter(node, m, n, k), i, Splice(l, m, n))
    ensures forall j | j in l :: j in Splice(l, m, n)
    ensures m in l ==> n in Splice(l, m, n)
  {
    UnusedOffChain(node, i, l, n);
    SpliceHas(l, m, n);
    if m in l {
      hide IsChain, InsertAfter, Unused;
      SpliceIn(node, m, n, k, i, l, IndexOf(l, m));
    } else {
      hide Unused;
      OtherChain(node, m, n, k, i, l);
    }
  }

  lemma OtherChain(node: seq<Node>, m: nat, n: nat, k: Key, i: nat, l: seq<nat>)
    requires IsChain(node, i, l) && m < |node| && n < |node| && m !in l && n !in l
    ensures IsChain(InsertAfter(node, m, n, k), i, l)
  {
    var node' := InsertAfter(node, m, n, k);
    forall j | 0 <= j < |l| - 1 ensures node'[l[j]].next == Some(l[j+1]) {
      assert node[l[j]].next == Some(l[j+1]);
    }
  }

  lemma InsertLinks(node: seq<Node>, m: nat, n: nat, k: Key)
    requires UniquePredecessors(node) && m < |node| && n < |node| && m != n && Unused(node, n)
    ensures UniquePredecessors(InsertAfter(node, m, n, k))
  {
    var node' := InsertAfter(node, m, n, k);
    forall i, j | 0 <= i < |node| && 0 <= j < |node| && node'[i].next.Some? && node'[i].next == node'[j].next ensures i == j {
      assert node[i].next != Some(n) && node[j].next != Some(n);
    }
  }

  function SplicedChains(node: seq<Node>, ch: seq<seq<nat>>, m: nat, n: nat): seq<seq<nat>>
    requires m < |ch|
  {
    seq(|ch|, i requires 0 <= i < |ch| => if i == n && 0 < |ch[m]| then [n] + ch[m][1..] else Splice(ch[i], m, n))
  }

  lemma SplicedLinked(node: seq<Node>, ch: seq<seq<nat>>, m: nat, n: nat, k: Key)
    requires Linked(node, ch) && m < |node| && n < |node| && m != n && Unused(node, n)
    ensures Linked(InsertAfter(node, m, n, k), SplicedChains(node, ch, m, n))
  {
    hide IsChain, UniquePredecessors;
    var node' := InsertAfter(node, m, n, k);
    var ch' := SplicedChains(node, ch, m, n);
    InsertLinks(node, m, n, k);
    forall i: nat | i < |node| ensures IsChain(node', i, ch'[i]) {
      if i == n {
        NewChain(node, m, n, k, ch[m]);
      } else {
        SpliceChain(node, m, n, k, i, ch[i]);
      }
    }
  }

  lemma NewChain(node: seq<Node>, m: nat, n: nat, k: Key, l: seq<nat>)
    requires IsChain(node, m, l) && m < |node| && n < |node| && m != n && Unused(node, n)
    ensures 0 < |l| && IsChain(InsertAfter(node, m, n, k), n, [n] + l[1..])
  {
    UnusedOffChain(node, m, l, n);
    var node' := InsertAfter(node, m, n, k);
    var l' := [n] + l[1..];
    forall j | 0 < j < |l| ensures l[j] != m {
      ChainDistinct(node, m, l, 0, j);
    }
    forall j | 0 <= j < |l'| - 1 ensures node'[l'[j]].next == Some(l'[j+1]) {
      assert node[l[j]].next == Some(l[j+1]);
    }
  }

  /** The colliding key is at home in its node `m`, where the new key belongs, and `n` is free. */
  ghost predicate AtHome(h: Hash, node: seq<Node>, m: nat, n: nat, k: Key) {
    && m < |node| && n < |node| && m != n && node[n].key.None? && Absent(node, k)
    && m == MainPosition(h, |node|, k)
    && node[m].key.Some? && MainPosition(h, |node|, node[m].key.value) == m
  }

  lemma InsertAfterPlaces(h: Hash, node: seq<Node>, ch: seq<seq<nat>>, m: nat, n: nat, k: Key)
    requires Linked(node, ch) && |ch| == |node| && KeysPlaced(h, node, ch) && Unused(node, n) && AtHome(h, node, m, n, k)
    ensures KeysPlaced(h, InsertAfter(node, m, n, k), SplicedChains(node, ch, m, n))
  {
    hide IsChain, Linked, Unused, Splice;
    var node' := InsertAfter(node, m, n, k);
    var ch' := SplicedChains(node, ch, m, n);
    forall i: nat, x | Stored(node', i, x) ensures Placed(h, node', ch', i, x) {
      var c := MainPosition(h, |node|, x);
      ChainOf(node, ch, if i == n then m else c);
      if i == n {
        SpliceHas(ch[m], m, n);
        SelfOnChain(node, m, ch[m]);
      } else {
        assert Stored(node, i, x) && Placed(h, node, ch, i, x);
        SpliceHas(ch[c], m, n);
      }
    }
  }

  lemma InsertAfterKeys(node: seq<Node>, m: nat, n: nat, k: Key)
    requires KeysUnique(node) && FreeUnused(node) && m < |node| && n < |node| && m != n && node[n].key.None? && Absent(node, k)
    requires node[m].key.Some?
    ensures KeysUnique(InsertAfter(node, m, n, k)) && FreeUnused(InsertAfter(node, m, n, k))
  {
    var node' := InsertAfter(node, m, n, k);
    forall i: nat, j: nat, x | Stored(node', i, x) && Stored(node', j, x) ensures i == j {
      if i != n { assert Stored(node, i, x); }
      if j != n { assert Stored(node, j, x); }
    }
    forall i: nat | i < |node'| && node'[i].key.None? ensures Unused(node', i) {
      assert Unused(node, i);
    }
  }

  lemma InsertAfterOk(h: Hash, node: seq<Node>, ch: seq<seq<nat>>, m: nat, n: nat, k: Key)
    requires Chained(h, node, ch) && AtHome(h, node, m, n, k)
    ensures |ch| == |node| && Chained(h, InsertAfter(node, m, n, k), SplicedChains(node, ch, m, n))
  {
    hide IsChain, UniquePredecessors, KeysPlaced, InsertAfter, SplicedChains, KeysUnique;
    assert Unused(node, n);
    SplicedLinked(node, ch, m, n, k);
    InsertAfterPlaces(h, node, ch, m, n, k);
    InsertAfterKeys(node, m, n, k);
  }

  lemma ChainOf(node: seq<Node>, ch: seq<seq<nat>>, i: nat)
    requires Linked(node, ch) && i < |node|
    ensures |ch| == |node| && IsChain(node, i, ch[i])
  {
  }

  // ---------------------------------------------------------------- the colliding key is not at home: move it out

  /** The colliding node moves to the free node `n` and the new key takes its place at `m`; `q` was its predecessor. */
  function MoveOut(node: seq<Node>, q: nat, m: nat, n: nat, k: Key): seq<Node>
    requires q < |node| && m < |node| && n < |node|
  {
    node[q := node[q].(next := Some(n))][n := node[m]][m := Node(Some(k), Nil, None)]
  }

  /** A chain with `n` in the place of `m`. */
  function Replace(l: seq<nat>, m: nat, n: nat): seq<nat> {
    if m in l then l[IndexOf(l, m) := n] else l
  }

  lemma PredecessorOnChain(node: seq<Node>, i: nat, l: seq<nat>, q: nat, m: nat, p: nat)
    requires IsChain(node, i, l) && UniquePredecessors(node) && q < |node| && node[q].next == Some(m)
    requires 0 < p < |l| && l[p] == m
    ensures l[p-1] == q
  {
    assert node[l[p-1]].next == Some(l[p]);
  }

  lemma ReplaceChain(node: seq<Node>, q: nat, m: nat, n: nat, k: Key, i: nat, l: seq<nat>)
    requires IsChain(node, i, l) && UniquePredecessors(node) && q < |node| && m < |node| && n < |node|
    requires node[q].next == Some(m) && m != n && q != n && q != m && i != m && i != n && Unused(node, n)
    ensures IsChain(MoveOut(node, q, m, n, k), i, Replace(l, m, n))
    ensures forall j | j in l && j != m :: j in Replace(l, m, n)
    ensures m in l ==> n in Replace(l, m, n)
  {
    UnusedOffChain(node, i, l, n);
    var node' := MoveOut(node, q, m, n, k);
    var l' := Replace(l, m, n);
    if m in l {
      var p := IndexOf(l, m);
      PredecessorOnChain(node, i, l, q, m, p);
      forall j | 0 <= j < |l| && j != p ensures l[j] != m && (l[j] == q ==> j == p - 1) {
        if j < p { ChainDistinct(node, i, l, j, p); } else { ChainDistinct(node, i, l, p, j); }
        if j < p - 1 { ChainDistinct(node, i, l, j, p - 1); } else if j > p - 1 { ChainDistinct(node, i, l, p - 1, j); }
      }
      forall j | 0 <= j < |l'| - 1 ensures node'[l'[j]].next == Some(l'[j+1]) {
        assert node[l[j]].next == Some(l[j+1]);
      }
      forall j | j in l && j != m ensures j in l' {
        var a :| 0 <= a < |l| && l[a] == j;
        assert l'[a] == j;
      }
      assert l'[p] == n;
    } else {
      forall j | 0 <= j < |l| ensures l[j] != q {
        if l[j] == q {
          NextOnChain(node, i, l, j, m);
        }
      }
      forall j | 0 <= j < |l| - 1 ensures node'[l[j]].next == Some(l[j+1]) {
        assert node[l[j]].next == Some(l[j+1]);
      }
    }
  }

  lemma NextOnChain(node: seq<Node>, i: nat, l: seq<nat>, j: nat, m: nat)
    requires IsChain(node, i, l) && j < |l| && node[l[j]].next == Some(m)
    ensures m in l
  {
    assert j + 1 < |l| && l[j+1] == m;
  }

  function MovedChains(ch: seq<seq<nat>>, m: nat, n: nat): seq<seq<nat>>
    requires m < |ch|
  {
    seq(|ch|, i requires 0 <= i < |ch| =>
      if i == m then [m] else if i == n && 0 < |ch[m]| then [n] + ch[m][1..] else Replace(ch[i], m, n))
  }

  lemma MovedChain(node: seq<Node>, q: nat, m: nat, n: nat, k: Key, l: seq<nat>)
    requires IsChain(node, m, l) && UniquePredecessors(node) && q < |node| && m < |node| && n < |node|
    requires node[q].next == Some(m) && m != n && q != n && q != m && Unused(node, n)
    ensures 0 < |l| && IsChain(MoveOut(node, q, m, n, k), n, [n] + l[1..])
  {
    UnusedOffChain(node, m, l, n);
    var node' := MoveOut(node, q, m, n, k);
    var l' := [n] + l[1..];
    forall j | 0 < j < |l| ensures l[j] != m && l[j] != q {
      ChainDistinct(node, m, l, 0, j);
      if l[j] == q { BackToStart(node, m, l, j); }
    }
    forall j | 0 <= j < |l'| - 1 ensures node'[l'[j]].next == Some(l'[j+1]) {
      assert node[l[j]].next == Some(l[j+1]);
    }
  }

  /** No node of a chain has its start as successor. */
  lemma BackToStart(node: seq<Node>, m: nat, l: seq<nat>, j: nat)
    requires IsChain(node, m, l) && j < |l|
    ensures node[l[j]].next != Some(m)
  {
    if j + 1 < |l| {
      ChainDistinct(node, m, l, 0, j + 1);
      assert node[l[j]].next == Some(l[j+1]);
    }
  }

  lemma MoveLinks(node: seq<Node>, q: nat, m: nat, n: nat, k: Key)
    requires UniquePredecessors(node) && q < |node| && m < |node| && n < |node|
    requires node[q].next == Some(m) && m != n && q != n && q != m && Unused(node, n)
    ensures UniquePredecessors(MoveOut(node, q, m, n, k))
  {
    var node' := MoveOut(node, q, m, n, k);
    forall i, j | 0 <= i < |node| && 0 <= j < |node| && node'[i].next.Some? && node'[i].next == node'[j].next ensures i == j {
      assert node[i].next != Some(n) && node[j].next != Some(n) && node[m].next != Some(n);
    }
  }

  lemma MovedLinked(node: seq<Node>, ch: seq<seq<nat>>, q: nat, m: nat, n: nat, k: Key)
    requires Linked(node, ch) && q < |node| && m < |node| && n < |node|
    requires node[q].next == Some(m) && m != n && q != n && q != m && Unused(node, n)
    ensures Linked(MoveOut(node, q, m, n, k), MovedChains(ch, m, n))
  {
    hide IsChain;
    var node' := MoveOut(node, q, m, n, k);
    var ch' := MovedChains(ch, m, n);
    MoveLinks(node, q, m, n, k);
    forall i: nat | i < |node| ensures IsChain(node', i, ch'[i]) {
      if i == m {
        AloneOnChain(node', m);
      } else if i == n {
        MovedChain(node, q, m, n, k, ch[m]);
      } else {
        ReplaceChain(node, q, m, n, k, i, ch[i]);
      }
    }
  }

  lemma AloneOnChain(node: seq<Node>, m: nat)
    requires m < |node| && node[m].next == None
    ensures IsChain(node, m, [m])
  {
  }

  /** The colliding key is not at home in the node `m`, where the new key belongs; `q` leads to it and `n` is free. */
  ghost predicate NotHome(h: Hash, node: seq<Node>, q: nat, m: nat, n: nat, k: Key) {
    && q < |node| && m < |node| && n < |node| && m != n && q != n && q != m
    && node[n].key.None? && Absent(node, k)
    && m == MainPosition(h, |node|, k)
    && node[m].key.Some? && MainPosition(h, |node|, node[m].key.value) != m
    && node[q].next == Some(m)
  }

  lemma ReplaceHas(l: seq<nat>, m: nat, n: nat)
    ensures forall j | j in l && j != m :: j in Replace(l, m, n)
    ensures m in l ==> n in Replace(l, m, n)
  {
    if m in l {
      var p := IndexOf(l, m);
      assert Replace(l, m, n)[p] == n;
      forall j | j in l && j != m ensures j in Replace(l, m, n) {
        var a :| 0 <= a < |l| && l[a] == j;
        assert Replace(l, m, n)[a] == j;
      }
    }
  }

  lemma MoveOutPlaces(h: Hash, node: seq<Node>, ch: seq<seq<nat>>, q: nat, m: nat, n: nat, k: Key)
    requires |ch| == |node| && KeysPlaced(h, node, ch) && NotHome(h, node, q, m, n, k)
    ensures KeysPlaced(h, MoveOut(node, q, m, n, k), MovedChains(ch, m, n))
  {
    hide Replace;
    var node' := MoveOut(node, q, m, n, k);
    var ch' := MovedChains(ch, m, n);
    forall i: nat, x | Stored(node', i, x) ensures Placed(h, node', ch', i, x) {
      var c := MainPosition(h, |node|, x);
      if i == m {
        assert ch'[m] == [m];
      } else {
        var from := if i == n then m else i;
        assert Stored(node, from, x) && Placed(h, node, ch, from, x);
        ReplaceHas(ch[c], m, n);
      }
    }
  }

  lemma MoveOutKeys(node: seq<Node>, q: nat, m: nat, n: nat, k: Key)
    requires KeysUnique(node) && FreeUnused(node) && q < |node| && m < |node| && n < |node| && m != n && q != n && q != m
    requires node[n].key.None? && Absent(node, k) && node[m].key.Some? && node[q].next == Some(m)
    ensures KeysUnique(MoveOut(node, q, m, n, k)) && FreeUnused(MoveOut(node, q, m, n, k))
  {
    var node' := MoveOut(node, q, m, n, k);
    forall i: nat, j: nat, x | Stored(node', i, x) && Stored(node', j, x) ensures i == j {
      if i != m { assert Stored(node, if i == n then m else i, x); }
      if j != m { assert Stored(node, if j == n then m else j, x); }
    }
    forall i: nat | i < |node'| && node'[i].key.None? ensures Unused(node', i) {
      assert Unused(node, i);
    }
  }

  lemma MoveOutOk(h: Hash, node: seq<Node>, ch: seq<seq<nat>>, q: nat, m: nat, n: nat, k: Key)
    requires Chained(h, node, ch) && NotHome(h, node, q, m, n, k)
    ensures |ch| == |node| && Chained(h, MoveOut(node, q, m, n, k), MovedChains(ch, m, n))
  {
    hide IsChain, UniquePredecessors, KeysPlaced, MoveOut, MovedChains, KeysUnique;
    assert Unused(node, n);
    MovedLinked(node, ch, q, m, n, k);
    MoveOutPlaces(h, node, ch, q, m, n, k);
    MoveOutKeys(node, q, m, n, k);
  }

  // ---------------------------------------------------------------- what the three insertions store

  /** The new key is there with a nil value; all other keys keep theirs. */
  ghost predicate Adds(node: seq<Node>, node': seq<Node>, k: Key, i: nat) {
    && |node'| == |node| && Stored(node', i, k) && node'[i].val == Nil
    && (forall x | x != k :: NodeValue(node', x) == NodeValue(node, x))
    && forall j: nat, x | Stored(node', j, x) && x != k :: !Absent(node, x)
  }

  ghost predicate Holding(node: seq<Node>, x: Key, v: Value) {
    exists i: nat :: Stored(node, i, x) && node[i].val == v
  }

  lemma IsHeld(node: seq<Node>, i: nat, x: Key)
    requires Stored(node, i, x)
    ensures Holding(node, x, node[i].val)
  {
  }

  lemma HeldValue(node: seq<Node>, x: Key, v: Value)
    requires KeysUnique(node) && v != Nil
    ensures Holding(node, x, v) <==> NodeValue(node, x) == v
  {
    if Holding(node, x, v) {
      var i: nat :| Stored(node, i, x) && node[i].val == v;
      NodeAt(node, i, x);
    }
  }

  lemma SameValue(node: seq<Node>, node': seq<Node>, x: Key)
    requires KeysUnique(node) && KeysUnique(node')
    requires forall v | v != Nil :: Holding(node, x, v) <==> Holding(node', x, v)
    ensures NodeValue(node', x) == NodeValue(node, x)
  {
    var v, v' := NodeValue(node, x), NodeValue(node', x);
    if v != Nil { HeldValue(node, x, v); HeldValue(node', x, v); }
    if v' != Nil { HeldValue(node, x, v'); HeldValue(node', x, v'); }
  }

  lemma KnownKey(node: seq<Node>, i: nat, x: Key)
    requires Stored(node, i, x)
    ensures !Absent(node, x)
  {
  }

  lemma InPlaceAdds(node: seq<Node>, m: nat, k: Key)
    requires m < |node| && KeysUnique(node) && KeysUnique(InPlace(node, m, k)) && Absent(node, k) && node[m].val == Nil
    ensures Adds(node, InPlace(node, m, k), k, m)
  {
    var node' := InPlace(node, m, k);
    forall j: nat, x | Stored(node', j, x) && x != k ensures !Absent(node, x) {
      KnownKey(node, j, x);
    }
    forall x | x != k ensures NodeValue(node', x) == NodeValue(node, x) {
      forall v | v != Nil ensures Holding(node, x, v) <==> Holding(node', x, v) {
        if Holding(node, x, v) {
          var i: nat :| Stored(node, i, x) && node[i].val == v;
          IsHeld(node', i, x);
        }
        if Holding(node', x, v) {
          var j: nat :| Stored(node', j, x) && node'[j].val == v;
          IsHeld(node, j, x);
        }
      }
      SameValue(node, node', x);
    }
  }

  lemma InsertAfterAdds(node: seq<Node>, m: nat, n: nat, k: Key)
    requires m < |node| && n < |node| && m != n && KeysUnique(node) && KeysUnique(InsertAfter(node, m, n, k))
    requires Absent(node, k) && node[n].key.None? && node[n].val == Nil
    ensures Adds(node, InsertAfter(node, m, n, k), k, n)
  {
    var node' := InsertAfter(node, m, n, k);
    forall j: nat, x | Stored(node', j, x) && x != k ensures !Absent(node, x) {
      KnownKey(node, j, x);
    }
    forall x | x != k ensures NodeValue(node', x) == NodeValue(node, x) {
      forall v | v != Nil ensures Holding(node, x, v) <==> Holding(node', x, v) {
        if Holding(node, x, v) {
          var i: nat :| Stored(node, i, x) && node[i].val == v;
          IsHeld(node', i, x);
        }
        if Holding(node', x, v) {
          var j: nat :| Stored(node', j, x) && node'[j].val == v;
          IsHeld(node, j, x);
        }
      }
      SameValue(node, node', x);
    }
  }

  lemma MoveOutAdds(node: seq<Node>, q: nat, m: nat, n: nat, k: Key)
    requires q < |node| && m < |node| && n < |node| && KeysUnique(node) && KeysUnique(MoveOut(node, q, m, n, k))
    requires m != n && q != n && q != m && Absent(node, k) && node[n].key.None?
    ensures Adds(node, MoveOut(node, q, m, n, k), k, m)
  {
    var node' := MoveOut(node, q, m, n, k);
    forall j: nat, x | Stored(node', j, x) && x != k ensures !Absent(node, x) {
      KnownKey(node, if j == n then m else j, x);
    }
    forall x | x != k ensures NodeValue(node', x) == NodeValue(node, x) {
      forall v | v != Nil ensures Holding(node, x, v) <==> Holding(node', x, v) {
        if Holding(node, x, v) {
          var i: nat :| Stored(node, i, x) && node[i].val == v;
          IsHeld(node', if i == m then n else i, x);
        }
        if Holding(node', x, v) {
          var j: nat :| Stored(node', j, x) && node'[j].val == v;
          IsHeld(node, if j == n then m else j, x);
        }
      }
      SameValue(node, node', x);
    }
  }
}
