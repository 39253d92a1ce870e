/**
 * The table of ltable.c, worked on in place: luaH_get, luaH_set with newkey and rehash, resize. It
 * answers as a map from keys to values.
 */
module TblTable {
  import opened TblNode
  import opened TblSizes
  import opened TblCount
  import opened Wrappers

  /** Where the value of a key is kept: what luaH_set returns a pointer to. */
  datatype Slot = ArraySlot(i: nat) | NodeSlot(n: nat)

  ghost predicate SlotOk(arr: seq<Value>, node: seq<Node>, s: Slot, k: Key) {
    match s
    case ArraySlot(i) => InArray(arr, k) && i == k.n - 1
    case NodeSlot(n) => !InArray(arr, k) && Stored(node, n, k)
  }

  class Table {
    const hash: Hash
    var arr: seq<Value>
    var node: seq<Node>
    var lastfree: int
    ghost var ch: seq<seq<nat>>

    /** The invariant of a table; an empty `node` is the dummy node. */
    ghost predicate Valid()
      reads this
    {
      && Chained(hash, node, ch) && Separate(arr, node) && |arr| <= Pow2(MAXBITS)
      && lastfree <= |node|
      && forall i: nat | i < |node| && lastfree <= i :: node[i].key.Some?
    }

    ghost function Lookup(k: Key): Value
      reads this
    {
      Content(arr, node, k)
    }

    ghost predicate Room(k: Key)
      reads this
    {
      InArray(arr, k) || |UsedNodes(node)| < |node|
    }

    /** luaH_new. */
    constructor (hash: Hash, narray: nat, nhash: nat)
      requires narray <= Pow2(MAXBITS)
      ensures Valid() && this.hash == hash && |arr| == narray && nhash <= |node| && NodeCount(nhash, |node|)
      ensures forall k :: Lookup(k) == Nil
    {
      this.hash := hash;
      arr := seq(narray, _ => Nil);
      new;
      SetNodeVector(nhash);
      FreshSeparate(arr, node);
      forall k ensures Lookup(k) == Nil {
        NoNode(node, k);
      }
    }

    // -------------------------------------------------------------- search

    /** The loop of luaH_get over the chain of the main position. */
    method FindNode(k: Key) returns (r: Option<nat>)
      requires Valid()
      ensures r.Some? ==> Stored(node, r.value, k)
      ensures r.None? ==> Absent(node, k)
    {
      hide UniquePredecessors, FreeUnused, KeysUnique, Separate;
      if |node| == 0 {
        return None;
      }
      var n := MainPosition(hash, |node|, k);
      ghost var l := ch[n];
      ghost var j: nat := 0;
      assert IsChain(node, n, l);
      while true
        invariant j < |l| && n == l[j] && n < |node|
        invariant forall a: nat | a < j :: node[l[a]].key != Some(k)
        decreases |l| - j
      {
        if node[n].key == Some(k) {
          return Some(n);
        }
        if node[n].next.None? {
          EndOfChain(node, l[0], l, j);
          OffChain(hash, node, ch, k, l);
          return None;
        }
        n := node[n].next.value;
        j := j + 1;
      }
    }

    /** luaH_get. */
    method Get(k: Key) returns (v: Value)
      requires Valid()
      ensures v == Lookup(k)
    {
      hide Chained, Separate;
      if InArray(arr, k) {
        return arr[k.n-1];
      }
      var i := FindNode(k);
      if i.Some? {
        ChainedKeys(hash, node, ch);
        NodeAt(node, i.value, k);
        v := node[i.value].val;
      } else {
        NoNode(node, k);
        v := Nil;
      }
    }

    // -------------------------------------------------------------- newkey

    /** getfreepos. */
    method GetFreePos() returns (r: Option<nat>)
      requires Valid()
      modifies this`lastfree
      ensures lastfree <= old(lastfree)
      ensures r.Some? ==> r.value < |node| && node[r.value].key.None? && lastfree == r.value
      ensures r.None? ==> forall i: nat | i < |node| :: node[i].key.Some?
      ensures forall i: nat | i < |node| && lastfree < i :: node[i].key.Some?
    {
      hide Chained, Separate;
      while true
        invariant lastfree <= old(lastfree)
        invariant forall i: nat | i < |node| && lastfree <= i :: node[i].key.Some?
        decreases lastfree
      {
        if lastfree <= 0 {
          lastfree := lastfree - 1;
          return None;
        }
        lastfree := lastfree - 1;
        if node[lastfree].key.None? {
          return Some(lastfree);
        }
      }
    }

    /** The walk of newkey to the node in front of `m`. */
    method FindPredecessor(o: nat, m: nat) returns (q: nat)
      requires Chained(hash, node, ch) && o < |node| && o != m && m in ch[o]
      ensures q < |node| && node[q].next == Some(m)
    {
      hide UniquePredecessors, FreeUnused, KeysUnique;
      ghost var l := ch[o];
      ghost var p := IndexOf(l, m);
      ghost var j: nat := 0;
      assert IsChain(node, o, l);
      q := o;
      while node[q].next != Some(m)
        invariant j < p && q == l[j] && q < |node|
        decreases p - j
      {
        assert node[l[j]].next == Some(l[j+1]);
        q := node[q].next.value;
        j := j + 1;
      }
    }

    /** newkey, when a free node is at hand or not needed. */
    method PlaceKey(k: Key, n: nat) returns (i: nat)
      requires Chained(hash, node, ch) && Absent(node, k) && n < |node| && node[n].key.None?
      requires node[MainPosition(hash, |node|, k)].val != Nil
      modifies this`node, this`ch
      ensures Chained(hash, node, ch) && Adds(old(node), node, k, i)
      ensures forall j: nat | j < |node| && j != n :: node[j].key.Some? <==> old(node)[j].key.Some?
      ensures node[n].key.Some?
    {
      hide KeysPlaced, UniquePredecessors, IsChain, KeysUnique;
      var mp := MainPosition(hash, |node|, k);
      FreeNode(node, mp);
      FreeNode(node, n);
      ghost var before := node;
      ChainedKeys(hash, node, ch);
      var othern := MainPosition(hash, |node|, node[mp].key.value);
      if othern != mp {
        OnOwnChain(hash, node, ch, mp);
        var q := FindPredecessor(othern, mp);
        PredecessorApart(node, ch, q, mp, n);
        MoveOutOk(hash, node, ch, q, mp, n, k);
        ChainedKeys(hash, MoveOut(node, q, mp, n, k), MovedChains(ch, mp, n));
        MoveOutAdds(node, q, mp, n, k);
        ch := MovedChains(ch, mp, n);
        node := node[q := node[q].(next := Some(n))];
        node := node[n := node[mp]];
        node := node[mp := Node(Some(k), Nil, None)];
        assert node == MoveOut(before, q, mp, n, k);
        i := mp;
      } else {
        InsertAfterOk(hash, node, ch, mp, n, k);
        ChainedKeys(hash, InsertAfter(node, mp, n, k), SplicedChains(node, ch, mp, n));
        InsertAfterAdds(node, mp, n, k);
        ch := SplicedChains(node, ch, mp, n);
        node := node[n := Node(Some(k), node[n].val, node[mp].next)];
        node := node[mp := node[mp].(next := Some(n))];
        i := n;
      }
    }

    /** The case of newkey in which the main position is not occupied. */
    method PlaceAtHome(k: Key) returns (i: nat)
      requires Chained(hash, node, ch) && Absent(node, k) && 0 < |node| && node[MainPosition(hash, |node|, k)].val == Nil
      modifies this`node
      ensures Chained(hash, node, ch) && Adds(old(node), node, k, i)
      ensures forall j: nat | j < |node| && j != i :: node[j].key.Some? <==> old(node)[j].key.Some?
    {
      i := MainPosition(hash, |node|, k);
      InPlaceOk(hash, node, ch, k);
      ChainedKeys(hash, node, ch);
      ChainedKeys(hash, InPlace(node, i, k), ch);
      InPlaceAdds(node, i, k);
      node := node[i := node[i].(key := Some(k))];
    }

    // -------------------------------------------------------------- rehash

    /** setnodevector. */
    method SetNodeVector(size: nat)
      modifies this`node, this`lastfree, this`ch
      ensures Chained(hash, node, ch) && NodeCount(size, |node|) && size <= |node| && lastfree == |node| && UsedNodes(node) == {}
      ensures forall k :: Absent(node, k)
    {
      var n: nat := 0;
      if size > 0 {
        CeilLog2Slice(size, CeilLog2(size));
        n := Pow2(CeilLog2(size));
      }
      node := seq(n, _ => Node(None, Nil, None));
      ch := seq(n, i => [i]);
      lastfree := n;
      FreshNodes(hash, node, ch);
    }

    /** numusearray. */
    method NumUseArray(nums0: seq<nat>) returns (nums: seq<nat>, ause: nat)
      requires |arr| <= Pow2(MAXBITS) && |nums0| == MAXBITS + 1 && forall i | 0 <= i <= MAXBITS :: nums0[i] == 0
      ensures Counts(nums, ArrayKeys(arr)) && ause == |ArrayKeys(arr)|
    {
      hide Pow2, ArrayKeys;
      ghost var keys := ArrayKeys(arr);
      ArrayBounds(arr);
      nums, ause := nums0, 0;
      var lg: nat, ttlg: nat, i: nat := 0, 1, 1;
      Pow2Steps(0);
      UptoNone(keys);
      while lg <= MAXBITS
        invariant lg <= MAXBITS + 1 && |nums| == MAXBITS + 1 && ttlg == Pow2(lg) && keys == ArrayKeys(arr)
        invariant ause == |Upto(keys, i - 1)| && 1 <= i
        invariant i - 1 == (if Pow2(lg) / 2 < |arr| then Pow2(lg) / 2 else |arr|)
        invariant forall j: nat | j <= MAXBITS :: nums[j] == if j < lg then |SliceOf(keys, j)| else 0
        decreases MAXBITS + 1 - lg
      {
        Pow2Steps(lg);
        var lc: nat := 0;
        var lim := ttlg;
        if lim > |arr| {
          lim := |arr|;
          if i > lim {
            NoMoreSlices(keys, |arr|, lg);
            break;
          }
        }
        ghost var start := i;
        while i <= lim
          invariant start <= i <= lim + 1
          invariant lc == |Upto(keys, i - 1)| - |Upto(keys, start - 1)|
        {
          UptoOne(arr, i);
          if arr[i-1] != Nil {
            lc := lc + 1;
          }
          i := i + 1;
        }
        SliceCounted(keys, |arr|, lg, lim);
        nums := nums[lg := nums[lg] + lc];
        ause := ause + lc;
        lg, ttlg := lg + 1, ttlg * 2;
      }
      Pow2Steps(MAXBITS);
      AllSlices(keys, |arr|, i);
    }

    /** countint. */
    method CountInt(k: Key, nums0: seq<nat>, ghost keys: set<int>) returns (nums: seq<nat>, counted: nat)
      requires Counts(nums0, keys) && (Candidate(k) ==> k.n !in keys)
      ensures Candidate(k) ==> counted == 1 && Counts(nums, keys + {k.n})
      ensures !Candidate(k) ==> counted == 0 && nums == nums0
    {
      hide Counts, Pow2;
      if Candidate(k) {
        CountOne(nums0, keys, k.n);
        var l := Log2(k.n - 1);
        var slice: nat := l + 1;
        return nums0[slice := nums0[slice] + 1], 1;
      }
      return nums0, 0;
    }

    /** numusehash. */
    method NumUseHash(nums0: seq<nat>, nasize: nat, ghost keys: set<int>) returns (nums: seq<nat>, pnasize: nat, totaluse: nat)
      requires Counts(nums0, keys) && KeysUnique(node) && FreeUnused(node) && keys !! IntsFrom(node, 0)
      ensures Counts(nums, keys + IntsFrom(node, 0)) && pnasize == nasize + |IntsFrom(node, 0)|
      ensures totaluse == |LiveFrom(node, 0)|
    {
      hide Counts, IntsFrom, LiveFrom, KeysUnique, FreeUnused;
      nums, totaluse := nums0, 0;
      var ause: nat := 0;
      var i: nat := |node|;
      NoneFrom(node);
      assert keys + {} == keys;
      while i > 0
        invariant i <= |node|
        invariant Counts(nums, keys + IntsFrom(node, i)) && ause == |IntsFrom(node, i)| && totaluse == |LiveFrom(node, i)|
      {
        i := i - 1;
        OneFrom(node, i);
        ghost var more := IntsFrom(node, i);
        ghost var some := IntsFrom(node, i + 1);
        if node[i].val != Nil {
          HasKey(node, i);
          FromLater(node, 0, i);
          var counted;
          nums, counted := CountInt(node[i].key.value, nums, keys + some);
          ause := ause + counted;
          totaluse := totaluse + 1;
          if Candidate(node[i].key.value) {
            assert keys + some + {node[i].key.value.n} == keys + more;
          }
        }
      }
      pnasize := nasize + ause;
    }

    // -------------------------------------------------------------- stores

    /** setobj on the slot that luaH_set returned. */
    method Store(s: Slot, v: Value, ghost k: Key)
      requires Valid() && SlotOk(arr, node, s, k)
      modifies this`arr, this`node
      ensures Valid() && forall x :: Lookup(x) == if x == k then v else old(Lookup(x))
      ensures |arr| == |old(arr)| && |node| == |old(node)| && UsedNodes(node) == UsedNodes(old(node))
      ensures forall i: nat | i < |node| :: node[i].key == old(node)[i].key
    {
      hide Chained;
      match s {
        case ArraySlot(i) =>
          arr := arr[i := v];
        case NodeSlot(n) =>
          WithValueOk(hash, node, ch, n, v);
          ChainedKeys(hash, node, ch);
          WithValueContent(node, n, v);
          node := node[n := node[n].(val := v)];
      }
    }

    /** luaH_set: the slot of a key, which is made if there is none; the contents stay. */
    method Set(k: Key) returns (s: Slot)
      requires Valid()
      modifies this
      ensures Valid() && SlotOk(arr, node, s, k) && forall x :: Lookup(x) == old(Lookup(x))
      ensures old(Room(k)) ==> |arr| == |old(arr)| && |node| == |old(node)|
      ensures old(Room(k)) ==> |UsedNodes(node)| <= |UsedNodes(old(node))| + (if InArray(arr, k) then 0 else 1)
      ensures InArray(old(arr), k) || !Absent(old(node), k) ==> arr == old(arr) && node == old(node)
      decreases if Room(k) then 0 else 1, 2
    {
      hide Chained, Separate;
      if InArray(arr, k) {
        return ArraySlot(k.n - 1);
      }
      var i := FindNode(k);
      if i.Some? {
        s := NodeSlot(i.value);
      } else {
        s := NewKey(k);
      }
    }

    /** newkey, when the main position is not occupied. */
    method InsertAtHome(k: Key) returns (i: nat)
      requires Valid() && Absent(node, k) && !InArray(arr, k)
      requires 0 < |node| && node[MainPosition(hash, |node|, k)].val == Nil
      modifies this`node
      ensures Valid() && Stored(node, i, k) && forall x :: Lookup(x) == old(Lookup(x))
      ensures |node| == |old(node)| && |UsedNodes(node)| <= |UsedNodes(old(node))| + 1
    {
      hide Chained, Separate, Adds, Stored, Content, UsedNodes, InArray;
      ghost var before := node;
      i := PlaceAtHome(k);
      AddedOk(arr, before, node, k, i, i);
      ChainedKeys(hash, node, ch);
      AddedContent(arr, before, node, k, i);
    }

    /** newkey, when the main position is occupied and `n` is the free node that getfreepos found. */
    method InsertCollision(k: Key, n: nat) returns (i: nat)
      requires Chained(hash, node, ch) && Separate(arr, node) && |arr| <= Pow2(MAXBITS)
      requires Absent(node, k) && !InArray(arr, k) && n < |node| && node[n].key.None? && lastfree == n
      requires forall j: nat | j < |node| && n < j :: node[j].key.Some?
      requires node[MainPosition(hash, |node|, k)].val != Nil
      modifies this`node, this`ch
      ensures Valid() && Stored(node, i, k) && forall x :: Lookup(x) == old(Lookup(x))
      ensures |node| == |old(node)| && |UsedNodes(node)| <= |UsedNodes(old(node))| + 1
    {
      hide Chained, Separate, Adds, Absent, Stored, Content, UsedNodes, InArray, Pow2, MainPosition, KeysUnique;
      ghost var before := node;
      i := PlaceKey(k, n);
      assert |node| == |before| by { AddedSize(before, node, k, i); }
      FullAbove(before, node, n);
      AddedOk(arr, before, node, k, i, n);
      ChainedKeys(hash, node, ch);
      AddedContent(arr, before, node, k, i);
    }

    /** newkey: if no free node is left, the table is rehashed once and the key goes into the new one. */
    method NewKey(k: Key) returns (s: Slot)
      requires Valid() && Absent(node, k) && !InArray(arr, k)
      modifies this
      ensures Valid() && SlotOk(arr, node, s, k) && forall x :: Lookup(x) == old(Lookup(x))
      ensures old(Room(k)) ==> |arr| == |old(arr)| && |node| == |old(node)|
      ensures old(Room(k)) ==> |UsedNodes(node)| <= |UsedNodes(old(node))| + 1
      decreases if Room(k) then 0 else 1, 1
    {
      hide Chained, Separate, Adds, Absent, Stored, Content, UsedNodes, InArray, NodeValue, Pow2;
      AllUsed(node);
      assert Room(k) <==> |UsedNodes(node)| < |node|;
      if |node| == 0 {
        Rehash(k);
        s := Set(k);
        return;
      }
      if node[MainPosition(hash, |node|, k)].val == Nil {
        var i := InsertAtHome(k);
        return NodeSlot(i);
      }
      var n := GetFreePos();
      if n.None? {
        assert |UsedNodes(node)| == |node| && !old(Room(k));
        Rehash(k);
        s := Set(k);
        return;
      }
      var i := InsertCollision(k, n.value);
      s := NodeSlot(i);
    }

    /** rehash: the new sizes leave room for every key and the new one. */
    method Rehash(k: Key)
      requires Valid() && Absent(node, k) && !InArray(arr, k) && !Room(k)
      modifies this
      ensures Valid() && Room(k) && forall x :: Lookup(x) == old(Lookup(x))
      ensures Optimal(Candidates(old(arr), old(node), k), |arr|)
      ensures NodeCount(|Rest(old(arr), old(node), |arr|)| + (if Fits(k, |arr|) then 0 else 1), |node|)
      decreases 1, 0
    {
      hide Chained, Separate, Absent, Counts, Optimal, Pow2, Upto, Rest, NodeCount;
      var nums: seq<nat> := seq(MAXBITS + 1, _ => 0);
      ChainedKeys(hash, node, ch);
      ChainedFree(hash, node, ch);
      var nasize, totaluse, used: nat;
      nums, nasize := NumUseArray(nums);
      totaluse := nasize;
      ArrayOrInts(arr, node);
      nums, nasize, used := NumUseHash(nums, nasize, ArrayKeys(arr));
      totaluse := totaluse + used;
      NewCandidate(arr, node, k);
      var counted;
      nums, counted := CountInt(k, nums, ArrayKeys(arr) + IntsFrom(node, 0));
      nasize := nasize + counted;
      totaluse := totaluse + 1;
      ghost var keys := Candidates(arr, node, k);
      var na;
      nasize, na := ComputeSizes(nums, nasize, keys);
      OptimalBound(keys, nasize);
      RestSize(arr, node, k, nasize);
      Resize(nasize, totaluse - na);
    }

    /** resize, called with room for all the keys that the array part does not take. */
    method Resize(nasize: nat, nhsize: nat)
      requires Valid() && nasize <= Pow2(MAXBITS) && |Rest(arr, node, nasize)| <= nhsize
      modifies this
      ensures Valid() && |arr| == nasize && nhsize <= |node| && forall x :: Lookup(x) == old(Lookup(x))
      ensures NodeCount(nhsize, |node|)
      ensures |UsedNodes(node)| <= |Rest(old(arr), old(node), nasize)|
      decreases 0, 4
    {
      hide Chained, Separate, Absent, Pow2, Rest, Moved, UsedNodes, Content, NodeCount;
      var oldarr, nold := arr, node;
      ChainedKeys(hash, nold, ch);
      ChainedFree(hash, nold, ch);
      assert Separate(oldarr, nold);
      ghost var rest := Rest(oldarr, nold, nasize);
      arr := if nasize > |arr| then arr + seq(nasize - |arr|, _ => Nil) else arr[..nasize];
      SetNodeVector(nhsize);
      FreshSeparate(arr, node);
      StartMoved(oldarr, nold, arr, node, nasize);
      NothingDone(oldarr, nold, nasize, rest);
      var a: nat := if nasize < |oldarr| then nasize else |oldarr|;
      while a < |oldarr|
        invariant nasize <= |oldarr| ==> nasize <= a
        invariant a <= |oldarr| && Valid() && |arr| == nasize && nhsize <= |node| && NodeCount(nhsize, |node|)
        invariant forall x :: Lookup(x) == Moved(oldarr, nold, x, a, |nold|)
        invariant |UsedNodes(node)| <= |DoneKeys(oldarr, nold, rest, a, |nold|)|
      {
        if oldarr[a] != Nil {
          MoveSlot(oldarr, nold, nasize, a);
          Reinsert(IntKey(a + 1), oldarr[a], rest, DoneKeys(oldarr, nold, rest, a, |nold|), nhsize);
        }
        MovedArray(oldarr, nold, rest, a, |nold|);
        a := a + 1;
      }
      var i: nat := |nold|;
      while i > 0
        invariant i <= |nold| && Valid() && |arr| == nasize && nhsize <= |node| && NodeCount(nhsize, |node|)
        invariant forall x :: Lookup(x) == Moved(oldarr, nold, x, |oldarr|, i)
        invariant |UsedNodes(node)| <= |DoneKeys(oldarr, nold, rest, |oldarr|, i)|
      {
        i := i - 1;
        if nold[i].val != Nil {
          MoveNode(oldarr, nold, nasize, i);
          Reinsert(nold[i].key.value, nold[i].val, rest, DoneKeys(oldarr, nold, rest, |oldarr|, i + 1), nhsize);
        }
        MovedOne(oldarr, nold, rest, i);
      }
      AllMoved(oldarr, nold, rest);
    }

    /** lua_rawset: a nil key is an error, which leaves the table as it is. */
    method RawSet(key: Option<Key>, v: Value) returns (ok: bool)
      requires Valid()
      modifies this
      ensures Valid() && (ok <==> key.Some?)
      ensures forall x :: Lookup(x) == if key == Some(x) then v else old(Lookup(x))
      ensures key.Some? && old(Room(key.value)) ==> |arr| == |old(arr)| && |node| == |old(node)|
    {
      hide Chained, Separate, UsedNodes, Content;
      if key.None? {
        return false;
      }
      var s := Set(key.value);
      Store(s, v, key.value);
      ok := true;
    }

    /** luaH_resizearray, as it is called to make the array part larger. */
    method GrowArray(nasize: nat)
      requires Valid() && |arr| <= nasize <= Pow2(MAXBITS)
      modifies this
      ensures Valid() && |arr| == nasize && forall x :: Lookup(x) == old(Lookup(x))
    {
      hide Chained, Separate;
      RestInNodes(arr, node, nasize);
      ChainedKeys(hash, node, ch);
      ChainedFree(hash, node, ch);
      LiveCount(node, 0);
      Resize(nasize, |node|);
    }

    /** One turn of the loops of resize: there is room, so the insertion does not rehash. */
    method Reinsert(k: Key, v: Value, ghost rest: set<Key>, ghost done: set<Key>, ghost nhsize: nat)
      requires Valid() && done <= rest && |rest| <= nhsize <= |node| && |UsedNodes(node)| <= |done|
      requires !InArray(arr, k) ==> k in rest && k !in done
      modifies this
      ensures Valid() && |arr| == |old(arr)| && |node| == |old(node)|
      ensures forall x :: Lookup(x) == if x == k then v else old(Lookup(x))
      ensures |UsedNodes(node)| <= |done| + (if InArray(arr, k) then 0 else 1)
      decreases 0, 3
    {
      if !InArray(arr, k) {
        SubsetLess(done, rest, k);
      }
      assert Room(k);
      var s := Set(k);
      Store(s, v, k);
    }
  }

  lemma FreshNodes(h: Hash, node: seq<Node>, ch: seq<seq<nat>>)
    requires |ch| == |node| && forall i: nat | i < |node| :: node[i] == Node(None, Nil, None) && ch[i] == [i]
    ensures Chained(h, node, ch) && UsedNodes(node) == {} && forall k :: Absent(node, k)
  {
    assert forall i: nat, k :: !Stored(node, i, k);
  }

  lemma ArrayBounds(arr: seq<Value>)
    requires |arr| <= Pow2(MAXBITS)
    ensures forall k | k in ArrayKeys(arr) :: 1 <= k <= |arr| && 1 <= k <= Pow2(MAXBITS)
  {
  }

  lemma UptoNone(keys: set<int>)
    requires forall k | k in keys :: 1 <= k
    ensures |Upto(keys, 0)| == 0
  {
    assert Upto(keys, 0) == {};
  }

  lemma UptoOne(arr: seq<Value>, i: nat)
    requires 1 <= i <= |arr|
    ensures |Upto(ArrayKeys(arr), i)| == |Upto(ArrayKeys(arr), i - 1)| + (if arr[i-1] != Nil then 1 else 0)
  {
    var keys := ArrayKeys(arr);
    assert i in keys <==> arr[i-1] != Nil;
    if arr[i-1] != Nil {
      assert Upto(keys, i) == Upto(keys, i - 1) + {i};
    } else {
      assert Upto(keys, i) == Upto(keys, i - 1);
    }
  }

  /** The keys counted by one turn of numusearray are those of its slice. */
  lemma SliceCounted(keys: set<int>, n: nat, lg: nat, lim: nat)
    requires forall k | k in keys :: 1 <= k <= n
    requires lim == if Pow2(lg) > n then n else Pow2(lg)
    ensures |Upto(keys, lim)| - |Upto(keys, if Pow2(lg) / 2 < n then Pow2(lg) / 2 else n)| == |SliceOf(keys, lg)|
  {
    SliceAdds(keys, lg);
    assert Upto(keys, lim) == Upto(keys, Pow2(lg));
    assert Upto(keys, if Pow2(lg) / 2 < n then Pow2(lg) / 2 else n) == Upto(keys, Pow2(lg) / 2);
  }

  lemma NoMoreSlices(keys: set<int>, n: nat, lg: nat)
    requires (forall k | k in keys :: 1 <= k <= n) && Pow2(lg) / 2 >= n
    ensures forall j: nat | lg <= j :: |SliceOf(keys, j)| == 0
  {
    forall j: nat | lg <= j ensures |SliceOf(keys, j)| == 0 {
      if lg < j { Pow2Grows(lg, j); }
      assert SliceOf(keys, j) == {};
    }
  }

  lemma AllSlices(keys: set<int>, n: nat, i: nat)
    requires (forall k | k in keys :: 1 <= k <= n) && 1 <= i
    ensures i - 1 >= n ==> Upto(keys, i - 1) == keys
  {
  }

  lemma NoneFrom(node: seq<Node>)
    ensures IntsFrom(node, |node|) == {} && LiveFrom(node, |node|) == {}
  {
  }

  lemma HasKey(node: seq<Node>, i: nat)
    requires FreeUnused(node) && i < |node| && node[i].val != Nil
    ensures node[i].key.Some?
  {
  }

  lemma FromLater(node: seq<Node>, i: nat, j: nat)
    requires i <= j
    ensures IntsFrom(node, j) <= IntsFrom(node, i) && LiveFrom(node, j) <= LiveFrom(node, i)
  {
  }

  /** What one node adds to the counts: its key is no other node's. */
  lemma OneFrom(node: seq<Node>, i: nat)
    requires KeysUnique(node) && FreeUnused(node) && i < |node|
    ensures node[i].val == Nil ==> IntsFrom(node, i) == IntsFrom(node, i+1) && LiveFrom(node, i) == LiveFrom(node, i+1)
    ensures node[i].val != Nil ==>
              && node[i].key.Some?
              && var k := node[i].key.value;
                 && k !in LiveFrom(node, i+1) && LiveFrom(node, i) == LiveFrom(node, i+1) + {k}
                 && (Candidate(k) ==> k.n !in IntsFrom(node, i+1) && IntsFrom(node, i) == IntsFrom(node, i+1) + {k.n})
                 && (!Candidate(k) ==> IntsFrom(node, i) == IntsFrom(node, i+1))
  {
    if node[i].val != Nil {
      HasKey(node, i);
      var k := node[i].key.value;
      assert Stored(node, i, k);
      forall j: nat | i < j < |node| && node[j].key.Some? ensures node[j].key.value != k {
        assert Stored(node, j, node[j].key.value);
      }
      LiveOne(node, i, k);
    }
  }

  lemma LiveOne(node: seq<Node>, i: nat, k: Key)
    requires i < |node| && node[i].key == Some(k) && node[i].val != Nil
    requires forall j: nat | i < j < |node| && node[j].key.Some? :: node[j].key.value != k
    ensures k !in LiveFrom(node, i+1) && LiveFrom(node, i) == LiveFrom(node, i+1) + {k}
    ensures Candidate(k) ==> k.n !in IntsFrom(node, i+1) && IntsFrom(node, i) == IntsFrom(node, i+1) + {k.n}
    ensures !Candidate(k) ==> IntsFrom(node, i) == IntsFrom(node, i+1)
  {
    hide Pow2;
    forall x | x in LiveFrom(node, i) ensures x == k || x in LiveFrom(node, i+1) {
    }
    forall x | x in IntsFrom(node, i+1) ensures x in IntsFrom(node, i) && IntKey(x) != k {
      var j :| i + 1 <= j < |node| && node[j].val != Nil && node[j].key.Some? && Candidate(node[j].key.value) && node[j].key.value.n == x;
      assert node[j].key.value == IntKey(x);
    }
    if Candidate(k) { assert k == IntKey(k.n); }
  }

  lemma EndOfChain(node: seq<Node>, i: nat, l: seq<nat>, j: nat)
    requires IsChain(node, i, l) && j < |l| && node[l[j]].next.None?
    ensures j == |l| - 1
  {
    if j < |l| - 1 { LinkAt(node, i, l, j); }
  }

  lemma LinkAt(node: seq<Node>, i: nat, l: seq<nat>, j: nat)
    requires IsChain(node, i, l) && j < |l| - 1
    ensures node[l[j]].next == Some(l[j+1])
  {
  }

  lemma OffChain(h: Hash, node: seq<Node>, ch: seq<seq<nat>>, k: Key, l: seq<nat>)
    requires Chained(h, node, ch) && 0 < |node| && l == ch[MainPosition(h, |node|, k)]
    requires forall a: nat | a < |l| :: l[a] < |node| && node[l[a]].key != Some(k)
    ensures Absent(node, k)
  {
    hide Linked, UniquePredecessors, FreeUnused, KeysUnique;
    forall i: nat ensures !Stored(node, i, k) {
      assert Stored(node, i, k) ==> i in l;
    }
  }

  lemma ChainedKeys(h: Hash, node: seq<Node>, ch: seq<seq<nat>>)
    requires Chained(h, node, ch)
    ensures KeysUnique(node) && |ch| == |node|
  {
  }

  lemma FreeNode(node: seq<Node>, i: nat)
    requires FreeUnused(node) && i < |node|
    ensures node[i].key.None? ==> Unused(node, i) && node[i].val == Nil
  {
  }

  lemma OnOwnChain(h: Hash, node: seq<Node>, ch: seq<seq<nat>>, m: nat)
    requires Chained(h, node, ch) && m < |node| && node[m].key.Some?
    ensures var o := MainPosition(h, |node|, node[m].key.value); o < |ch| && m in ch[o]
  {
    assert Stored(node, m, node[m].key.value) && Placed(h, node, ch, m, node[m].key.value);
  }

  lemma PredecessorApart(node: seq<Node>, ch: seq<seq<nat>>, q: nat, m: nat, n: nat)
    requires Linked(node, ch) && q < |node| && m < |node| && node[q].next == Some(m) && Unused(node, n) && n < |node|
    ensures q != n && q != m
  {
    assert IsChain(node, m, ch[m]);
    BackToStart(node, m, ch[m], 0);
  }

  // ---------------------------------------------------------------- stores and insertions

  function WithValue(node: seq<Node>, n: nat, v: Value): seq<Node>
    requires n < |node|
  {
    node[n := node[n].(val := v)]
  }

  lemma WithValueOk(h: Hash, node: seq<Node>, ch: seq<seq<nat>>, n: nat, v: Value)
    requires Chained(h, node, ch) && n < |node| && node[n].key.Some?
    ensures Chained(h, WithValue(node, n, v), ch) && UsedNodes(WithValue(node, n, v)) == UsedNodes(node)
    ensures forall j: nat, x :: Stored(WithValue(node, n, v), j, x) <==> Stored(node, j, x)
  {
    hide IsChain, UniquePredecessors;
    var node' := WithValue(node, n, v);
    SameLinks(node, node', ch);
    forall j: nat, x ensures Stored(node', j, x) <==> Stored(node, j, x) {
    }
    forall j: nat, x | Stored(node', j, x) ensures Placed(h, node', ch, j, x) {
      assert Stored(node, j, x) && Placed(h, node, ch, j, x);
    }
    forall i: nat, j: nat, x | Stored(node', i, x) && Stored(node', j, x) ensures i == j {
      assert Stored(node, i, x) && Stored(node, j, x);
    }
    forall i: nat | i < |node'| && node'[i].key.None? ensures Unused(node', i) {
      assert Unused(node, i);
    }
  }

  lemma WithValueContent(node: seq<Node>, n: nat, v: Value)
    requires KeysUnique(node) && n < |node| && node[n].key.Some?
    ensures forall x :: NodeValue(WithValue(node, n, v), x) == if node[n].key == Some(x) then v else NodeValue(node, x)
  {
    var node' := WithValue(node, n, v);
    assert forall j: nat, x :: Stored(node', j, x) <==> Stored(node, j, x);
    assert Stored(node, n, node[n].key.value);
    forall x ensures NodeValue(node', x) == if node[n].key == Some(x) then v else NodeValue(node, x) {
      if exists j: nat :: Stored(node, j, x) {
        var j: nat :| Stored(node, j, x);
        NodeAt(node, j, x);
        assert KeysUnique(node');
        NodeAt(node', j, x);
      } else {
        NoNode(node, x);
        NoNode(node', x);
      }
    }
  }

  lemma AddedOk(arr: seq<Value>, node: seq<Node>, node': seq<Node>, k: Key, i: nat, n: nat)
    requires Adds(node, node', k, i) && Separate(arr, node) && !InArray(arr, k)
    requires forall j: nat | j < |node| && j != n :: node'[j].key.Some? <==> node[j].key.Some?
    ensures Separate(arr, node') && |UsedNodes(node')| <= |UsedNodes(node)| + 1
    ensures i < |node'| && node'[i].key.Some?
  {
    OneMoreUsed(node, node', n);
    forall j: nat, x | Stored(node', j, x) ensures !InArray(arr, x) {
      if x != k {
        var y: nat :| Stored(node, y, x);
      }
    }
  }

  lemma AddedContent(arr: seq<Value>, node: seq<Node>, node': seq<Node>, k: Key, i: nat)
    requires Adds(node, node', k, i) && Absent(node, k) && KeysUnique(node')
    ensures forall x :: Content(arr, node', x) == Content(arr, node, x)
    ensures Stored(node', i, k)
  {
    NoNode(node, k);
    NodeAt(node', i, k);
  }

  lemma AddedSize(node: seq<Node>, node': seq<Node>, k: Key, i: nat)
    requires Adds(node, node', k, i)
    ensures |node'| == |node|
  {
  }

  lemma FullAbove(node: seq<Node>, node': seq<Node>, n: nat)
    requires |node'| == |node| && n < |node| && node'[n].key.Some?
    requires forall j: nat | j < |node| && n < j :: node[j].key.Some?
    requires forall j: nat | j < |node| && j != n :: node'[j].key.Some? <==> node[j].key.Some?
    ensures forall j: nat | j < |node| && n <= j :: node'[j].key.Some?
  {
  }

  lemma ChainedFree(h: Hash, node: seq<Node>, ch: seq<seq<nat>>)
    requires Chained(h, node, ch)
    ensures FreeUnused(node)
  {
  }

  // ---------------------------------------------------------------- the counts of a rehash

  lemma ArrayOrInts(arr: seq<Value>, node: seq<Node>)
    requires Separate(arr, node)
    ensures ArrayKeys(arr) !! IntsFrom(node, 0)
  {
    hide Pow2;
    forall x | x in IntsFrom(node, 0) ensures x !in ArrayKeys(arr) {
      var j :| 0 <= j < |node| && node[j].val != Nil && node[j].key.Some? && Candidate(node[j].key.value) && node[j].key.value.n == x;
      assert Stored(node, j, node[j].key.value);
    }
  }

  lemma NewCandidate(arr: seq<Value>, node: seq<Node>, k: Key)
    requires Absent(node, k) && !InArray(arr, k)
    ensures Candidate(k) ==> k.n !in ArrayKeys(arr) + IntsFrom(node, 0)
    ensures ArrayKeys(arr) !! IntsFrom(node, 0) && Candidate(k) ==>
              |Candidates(arr, node, k)| == |ArrayKeys(arr)| + |IntsFrom(node, 0)| + 1
    ensures ArrayKeys(arr) !! IntsFrom(node, 0) && !Candidate(k) ==>
              |Candidates(arr, node, k)| == |ArrayKeys(arr)| + |IntsFrom(node, 0)|
              && Candidates(arr, node, k) == ArrayKeys(arr) + IntsFrom(node, 0)
  {
    hide Pow2;
    if Candidate(k) {
      forall x | x in IntsFrom(node, 0) ensures x != k.n {
        var j :| 0 <= j < |node| && node[j].val != Nil && node[j].key.Some? && Candidate(node[j].key.value) && node[j].key.value.n == x;
        assert Stored(node, j, node[j].key.value);
        assert node[j].key.value == IntKey(x);
      }
    }
    assert Candidates(arr, node, k) == (ArrayKeys(arr) + IntsFrom(node, 0)) + (if Candidate(k) then {k.n} else {});
  }

  lemma OptimalBound(keys: set<int>, n: nat)
    requires Optimal(keys, n)
    ensures n <= Pow2(MAXBITS)
  {
    if n > 0 {
      var p: nat :| p <= MAXBITS && n == Pow2(p);
      if p < MAXBITS { Pow2Grows(p, MAXBITS); }
    }
  }

  // ---------------------------------------------------------------- the progress of resize

  /** What has been moved when the array up to `a` and the nodes from `j` on are done. */
  ghost function Moved(oldarr: seq<Value>, nold: seq<Node>, x: Key, a: nat, j: nat): Value {
    if InArray(oldarr, x) then (if x.n - 1 < a then oldarr[x.n-1] else Nil)
    else
      var i := NodeOf(nold, x);
      if i.Some? && j <= i.value < |nold| then nold[i.value].val else Nil
  }

  ghost function DoneKeys(oldarr: seq<Value>, nold: seq<Node>, rest: set<Key>, a: nat, j: nat): set<Key> {
    set x | x in rest && Moved(oldarr, nold, x, a, j) != Nil
  }

  lemma FreshSeparate(arr: seq<Value>, node: seq<Node>)
    requires forall k :: Absent(node, k)
    ensures Separate(arr, node)
  {
    forall i: nat, k ensures !Stored(node, i, k) {
      assert Absent(node, k);
    }
  }

  lemma StartMoved(oldarr: seq<Value>, nold: seq<Node>, arr: seq<Value>, node: seq<Node>, nasize: nat)
    requires arr == if nasize > |oldarr| then oldarr + seq(nasize - |oldarr|, _ => Nil) else oldarr[..nasize]
    requires (forall k :: Absent(node, k))
    ensures forall x :: Content(arr, node, x) == Moved(oldarr, nold, x, if nasize < |oldarr| then nasize else |oldarr|, |nold|)
  {
    forall x ensures Content(arr, node, x) == Moved(oldarr, nold, x, if nasize < |oldarr| then nasize else |oldarr|, |nold|) {
      NoNode(node, x);
    }
  }

  lemma NothingDone(oldarr: seq<Value>, nold: seq<Node>, nasize: nat, rest: set<Key>)
    requires rest == Rest(oldarr, nold, nasize)
    ensures |DoneKeys(oldarr, nold, rest, if nasize < |oldarr| then nasize else |oldarr|, |nold|)| == 0
  {
    assert DoneKeys(oldarr, nold, rest, if nasize < |oldarr| then nasize else |oldarr|, |nold|) == {};
  }

  lemma MoveSlot(oldarr: seq<Value>, nold: seq<Node>, nasize: nat, a: nat)
    requires nasize <= a < |oldarr| && oldarr[a] != Nil
    ensures IntKey(a + 1) in Rest(oldarr, nold, nasize)
    ensures IntKey(a + 1) !in DoneKeys(oldarr, nold, Rest(oldarr, nold, nasize), a, |nold|)
  {
    assert a + 1 in ArrayKeys(oldarr);
    assert IntKey(a + 1) in IntKeys(ArrayKeys(oldarr));
  }

  lemma MovedArray(oldarr: seq<Value>, nold: seq<Node>, rest: set<Key>, a: nat, j: nat)
    requires a < |oldarr|
    ensures Moved(oldarr, nold, IntKey(a + 1), a, j) == Nil
    ensures forall x :: Moved(oldarr, nold, x, a + 1, j) == if x == IntKey(a + 1) then oldarr[a] else Moved(oldarr, nold, x, a, j)
    ensures |DoneKeys(oldarr, nold, rest, a + 1, j)| ==
              |DoneKeys(oldarr, nold, rest, a, j)| + (if oldarr[a] != Nil && IntKey(a + 1) in rest then 1 else 0)
  {
    var d, d' := DoneKeys(oldarr, nold, rest, a, j), DoneKeys(oldarr, nold, rest, a + 1, j);
    forall x ensures Moved(oldarr, nold, x, a + 1, j) == if x == IntKey(a + 1) then oldarr[a] else Moved(oldarr, nold, x, a, j) {
    }
    if oldarr[a] != Nil && IntKey(a + 1) in rest {
      assert d' == d + {IntKey(a + 1)} && IntKey(a + 1) !in d;
    } else {
      assert d' == d;
    }
  }

  lemma MoveNode(oldarr: seq<Value>, nold: seq<Node>, nasize: nat, i: nat)
    requires KeysUnique(nold) && FreeUnused(nold) && Separate(oldarr, nold) && i < |nold| && nold[i].val != Nil
    ensures nold[i].key.Some?
    ensures !Fits(nold[i].key.value, nasize) ==> nold[i].key.value in Rest(oldarr, nold, nasize)
    ensures Fits(nold[i].key.value, nasize) ==> nold[i].key.value !in Rest(oldarr, nold, nasize)
    ensures nold[i].key.value !in DoneKeys(oldarr, nold, Rest(oldarr, nold, nasize), |oldarr|, i + 1)
  {
    HasKey(nold, i);
    var k := nold[i].key.value;
    assert Stored(nold, i, k);
    NodeAt(nold, i, k);
    assert k in LiveFrom(nold, 0);
  }

  lemma MovedOne(oldarr: seq<Value>, nold: seq<Node>, rest: set<Key>, i: nat)
    requires KeysUnique(nold) && FreeUnused(nold) && Separate(oldarr, nold) && i < |nold|
    ensures nold[i].val != Nil ==> nold[i].key.Some?
    ensures forall x :: Moved(oldarr, nold, x, |oldarr|, i) ==
              if nold[i].val != Nil && x == nold[i].key.value then nold[i].val else Moved(oldarr, nold, x, |oldarr|, i + 1)
    ensures |DoneKeys(oldarr, nold, rest, |oldarr|, i)| ==
              |DoneKeys(oldarr, nold, rest, |oldarr|, i + 1)| + (if nold[i].val != Nil && nold[i].key.value in rest then 1 else 0)
  {
    var d, d' := DoneKeys(oldarr, nold, rest, |oldarr|, i + 1), DoneKeys(oldarr, nold, rest, |oldarr|, i);
    if nold[i].val != Nil { HasKey(nold, i); }
    forall x ensures Moved(oldarr, nold, x, |oldarr|, i) ==
              if nold[i].val != Nil && x == nold[i].key.value then nold[i].val else Moved(oldarr, nold, x, |oldarr|, i + 1)
    {
      MovedAt(oldarr, nold, x, i);
    }
    if nold[i].val != Nil && nold[i].key.value in rest {
      var k := nold[i].key.value;
      assert Stored(nold, i, k);
      NodeAt(nold, i, k);
      assert d' == d + {k} && k !in d;
    } else {
      assert d' == d;
    }
  }

  lemma MovedAt(oldarr: seq<Value>, nold: seq<Node>, x: Key, i: nat)
    requires KeysUnique(nold) && FreeUnused(nold) && Separate(oldarr, nold) && i < |nold|
    ensures nold[i].val != Nil ==> nold[i].key.Some?
    ensures Moved(oldarr, nold, x, |oldarr|, i) ==
              if nold[i].val != Nil && x == nold[i].key.value then nold[i].val else Moved(oldarr, nold, x, |oldarr|, i + 1)
  {
    if nold[i].val != Nil { HasKey(nold, i); }
    if Stored(nold, i, x) {
      NodeAt(nold, i, x);
    } else if NodeOf(nold, x).Some? {
      IsStored(nold, x);
    }
  }

  lemma IsStored(node: seq<Node>, x: Key)
    requires NodeOf(node, x).Some?
    ensures Stored(node, NodeOf(node, x).value, x)
  {
  }

  lemma AllMoved(oldarr: seq<Value>, nold: seq<Node>, rest: set<Key>)
    ensures forall x :: Moved(oldarr, nold, x, |oldarr|, 0) == Content(oldarr, nold, x)
    ensures |DoneKeys(oldarr, nold, rest, |oldarr|, 0)| <= |rest|
  {
    SubsetKeys(DoneKeys(oldarr, nold, rest, |oldarr|, 0), rest);
  }

  /** The keys that remain when the array part grows were in nodes. */
  lemma RestInNodes(arr: seq<Value>, node: seq<Node>, size: nat)
    requires |arr| <= size
    ensures |Rest(arr, node, size)| <= |LiveFrom(node, 0)|
  {
    SubsetKeys(Rest(arr, node, size), LiveFrom(node, 0));
  }

  lemma {:induction false} LiveCount(node: seq<Node>, i: nat)
    requires KeysUnique(node) && FreeUnused(node) && i <= |node|
    ensures |LiveFrom(node, i)| <= |node| - i
    decreases |node| - i
  {
    hide IntsFrom, LiveFrom, KeysUnique, FreeUnused;
    if i == |node| {
      NoneFrom(node);
    } else {
      OneFrom(node, i);
      LiveCount(node, i + 1);
    }
  }

  lemma SubsetKeys(a: set<Key>, b: set<Key>)
    requires a <= b
    ensures |a| <= |b|
  {
    assert b == a + (b - a);
  }

  lemma SubsetLess(a: set<Key>, b: set<Key>, k: Key)
    requires a <= b && k in b && k !in a
    ensures |a| < |b|
  {
    SubsetKeys(a, b - {k});
  }
}
