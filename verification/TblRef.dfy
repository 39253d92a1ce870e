/** luaL_ref and luaL_unref of lauxlib.c: references, with a free list inside the table that holds them. */
module TblRef {
  import opened TblNode
  import opened TblCount
  import opened TblTable
  import TblLength
  import opened Wrappers

  const FREELIST_REF: int := 0
  const LUA_REFNIL: int := -1

  /** lua_tointeger of a slot of the free list: nil reads as 0. */
  function ToInteger(v: Value): int {
    if v == Nil then 0 else v.id
  }

  ghost function At(arr: seq<Value>, node: seq<Node>, r: int): Value {
    Content(arr, node, IntKey(r))
  }

  ghost function NextFree(free: seq<int>, i: int): int {
    if 0 <= i < |free| then free[i] else 0
  }

  /** `free[0]` is at FREELIST_REF, and each free slot holds the next; the last one holds nil. */
  ghost predicate FreeList(arr: seq<Value>, node: seq<Node>, free: seq<int>) {
    && ToInteger(At(arr, node, FREELIST_REF)) == NextFree(free, 0)
    && (forall i: nat | i < |free| :: ToInteger(At(arr, node, free[i])) == NextFree(free, i + 1))
    && forall i: nat, j: nat | i < j < |free| :: free[i] != free[j]
  }

  /** The indices from 1 to `n` are live references, which hold their values, or free. */
  ghost predicate Slots(arr: seq<Value>, node: seq<Node>, free: seq<int>, live: map<int, Value>, n: nat) {
    && (forall r | r in live :: 1 <= r <= n && r !in free && At(arr, node, r) == live[r] != Nil)
    && (forall r | r in free :: 1 <= r <= n)
    && (forall r | 1 <= r <= n :: r in live || r in free)
    && forall r | n < r :: At(arr, node, r) == Nil
  }

  /** lua_rawgeti. */
  method RawGetI(t: Table, r: int) returns (v: Value)
    requires t.Valid()
    ensures v == At(t.arr, t.node, r)
  {
    hide Chained, Separate, Content;
    v := t.Get(IntKey(r));
  }

  ghost predicate NotIndex(k: Key) {
    !(k.IntKey? && 0 <= k.n)
  }

  /** lua_rawseti, with an index that is not negative. */
  method RawSetI(t: Table, r: int, v: Value)
    requires t.Valid() && 0 <= r
    modifies t
    ensures t.Valid() && forall x :: At(t.arr, t.node, x) == if x == r then v else At(old(t.arr), old(t.node), x)
    ensures forall k | NotIndex(k) :: t.Lookup(k) == old(t.Lookup(k))
  {
    hide Chained, Separate, Content;
    var ok := t.RawSet(Some(IntKey(r)), v);
    forall x ensures At(t.arr, t.node, x) == if x == r then v else At(old(t.arr), old(t.node), x) {
      assert t.Lookup(IntKey(x)) == if x == r then v else old(t.Lookup(IntKey(x)));
    }
  }

  /** A table whose indices from 0 on are used by luaL_ref and luaL_unref only. */
  class References {
    const t: Table
    ghost var free: seq<int>
    ghost var live: map<int, Value>
    ghost var n: nat

    ghost predicate Valid()
      reads this, t
    {
      t.Valid() && FreeList(t.arr, t.node, free) && Slots(t.arr, t.node, free, live, n)
    }

    constructor (t: Table)
      requires t.Valid() && forall r | 0 <= r :: t.Lookup(IntKey(r)) == Nil
      ensures this.t == t && Valid() && live == map[]
    {
      this.t := t;
      free := [];
      live := map[];
      n := 0;
      new;
      assert forall r | 0 <= r :: t.Lookup(IntKey(r)) == At(t.arr, t.node, r);
    }

    /** The value of a live reference. */
    method Get(r: int) returns (v: Value)
      requires Valid() && r in live
      ensures v == live[r]
    {
      hide Chained, Separate, At, FreeList;
      v := RawGetI(t, r);
    }

    /** luaL_ref: a reference that is not in use, for a value that is not nil. */
    method Ref(v: Value) returns (r: int)
      requires Valid()
      modifies this, t
      ensures Valid()
      ensures v == Nil ==> r == LUA_REFNIL && live == old(live)
      ensures v != Nil ==> 1 <= r && r !in old(live) && live == old(live)[r := v]
      ensures forall k | NotIndex(k) :: t.Lookup(k) == old(t.Lookup(k))
    {
      hide Chained, Separate, At, FreeList, Slots;
      if v == Nil {
        return LUA_REFNIL;
      }
      ghost var arr, node := t.arr, t.node;
      var head := RawGetI(t, FREELIST_REF);
      r := ToInteger(head);
      if r != 0 {
        var tail := RawGetI(t, r);
        Taken(arr, node, free, live, n);
        RawSetI(t, FREELIST_REF, tail);
        RawSetI(t, r, v);
        TakeFree(arr, node, t.arr, t.node, free, live, n, v);
        free, live := free[1..], live[r := v];
      } else {
        Dense(arr, node, free, live, n);
        var len := TblLength.GetN(t);
        OnlyBorder(t, free, live, n, len);
        r := len + 1;
        RawSetI(t, r, v);
        TakeNew(arr, node, t.arr, t.node, live, n, v);
        live, n := live[r := v], n + 1;
      }
    }

    /** luaL_unref of a live reference; negative references are ignored. */
    method Unref(r: int)
      requires Valid() && (0 <= r ==> r in live)
      modifies this, t
      ensures Valid() && live == old(live) - {r}
      ensures forall k | NotIndex(k) :: t.Lookup(k) == old(t.Lookup(k))
    {
      hide Chained, Separate, At, FreeList;
      if r >= 0 {
        ghost var arr, node := t.arr, t.node;
        var head := RawGetI(t, FREELIST_REF);
        RawSetI(t, r, head);
        RawSetI(t, FREELIST_REF, Val(r));
        GiveBack(arr, node, t.arr, t.node, free, live, n, r);
        free := [r] + free;
      }
      live := live - {r};
    }
  }

  lemma Taken(arr: seq<Value>, node: seq<Node>, free: seq<int>, live: map<int, Value>, n: nat)
    requires FreeList(arr, node, free) && Slots(arr, node, free, live, n) && ToInteger(At(arr, node, FREELIST_REF)) != 0
    ensures free != [] && free[0] == ToInteger(At(arr, node, FREELIST_REF)) && 1 <= free[0] <= n && free[0] !in live
  {
    assert free[0] in free;
  }

  /** luaL_ref takes the first free slot. */
  lemma TakeFree(arr: seq<Value>, node: seq<Node>, arr': seq<Value>, node': seq<Node>,
                 free: seq<int>, live: map<int, Value>, n: nat, v: Value)
    requires FreeList(arr, node, free) && Slots(arr, node, free, live, n) && free != [] && v != Nil
    requires forall r :: At(arr', node', r) ==
               if r == free[0] then v else if r == FREELIST_REF then At(arr, node, free[0]) else At(arr, node, r)
    ensures FreeList(arr', node', free[1..]) && Slots(arr', node', free[1..], live[free[0] := v], n)
  {
    hide At, FreeList, Slots;
    TakeFreeList(arr, node, arr', node', free, live, n, v);
    TakeFreeSlots(arr, node, arr', node', free, live, n, v);
  }

  lemma TakeFreeList(arr: seq<Value>, node: seq<Node>, arr': seq<Value>, node': seq<Node>,
                     free: seq<int>, live: map<int, Value>, n: nat, v: Value)
    requires FreeList(arr, node, free) && Slots(arr, node, free, live, n) && free != [] && v != Nil
    requires forall r :: At(arr', node', r) ==
               if r == free[0] then v else if r == FREELIST_REF then At(arr, node, free[0]) else At(arr, node, r)
    ensures FreeList(arr', node', free[1..])
  {
    hide At;
    forall i: nat | i < |free| - 1 ensures ToInteger(At(arr', node', free[1..][i])) == NextFree(free[1..], i + 1) {
      assert free[i+1] in free && free[0] != free[i+1];
    }
    assert free[0] in free;
  }

  lemma TakeFreeSlots(arr: seq<Value>, node: seq<Node>, arr': seq<Value>, node': seq<Node>,
                      free: seq<int>, live: map<int, Value>, n: nat, v: Value)
    requires FreeList(arr, node, free) && Slots(arr, node, free, live, n) && free != [] && v != Nil
    requires forall r :: At(arr', node', r) ==
               if r == free[0] then v else if r == FREELIST_REF then At(arr, node, free[0]) else At(arr, node, r)
    ensures Slots(arr', node', free[1..], live[free[0] := v], n)
  {
    Tail(arr, node, free);
    hide At, FreeList;
    assert free[0] in free;
    assert forall r :: r in free <==> r == free[0] || r in free[1..];
  }

  lemma Tail(arr: seq<Value>, node: seq<Node>, free: seq<int>)
    requires FreeList(arr, node, free) && free != []
    ensures free[0] !in free[1..]
  {
    forall i: nat | i < |free| - 1 ensures free[1..][i] != free[0] {
      assert free[0] != free[i+1];
    }
  }

  /** luaL_ref makes a slot behind all the others. */
  lemma TakeNew(arr: seq<Value>, node: seq<Node>, arr': seq<Value>, node': seq<Node>, live: map<int, Value>, n: nat, v: Value)
    requires FreeList(arr, node, []) && Slots(arr, node, [], live, n) && v != Nil
    requires forall r :: At(arr', node', r) == if r == n + 1 then v else At(arr, node, r)
    ensures FreeList(arr', node', []) && Slots(arr', node', [], live[n + 1 := v], n + 1)
  {
    hide At;
  }

  /** luaL_unref puts the slot in front of the free list. */
  lemma GiveBack(arr: seq<Value>, node: seq<Node>, arr': seq<Value>, node': seq<Node>,
                 free: seq<int>, live: map<int, Value>, n: nat, r: int)
    requires FreeList(arr, node, free) && Slots(arr, node, free, live, n) && r in live
    requires forall x :: At(arr', node', x) ==
               if x == FREELIST_REF then Val(r) else if x == r then At(arr, node, FREELIST_REF) else At(arr, node, x)
    ensures FreeList(arr', node', [r] + free) && Slots(arr', node', [r] + free, live - {r}, n)
  {
    hide At;
    var free' := [r] + free;
    forall i: nat | i < |free'| ensures ToInteger(At(arr', node', free'[i])) == NextFree(free', i + 1) {
      if i > 0 { assert free[i-1] in free; }
    }
  }

  /** Without free slots the indices with a value are 1 to `n`. */
  lemma Dense(arr: seq<Value>, node: seq<Node>, free: seq<int>, live: map<int, Value>, n: nat)
    requires FreeList(arr, node, free) && Slots(arr, node, free, live, n) && ToInteger(At(arr, node, FREELIST_REF)) == 0
    ensures free == [] && n + 1 !in live && forall r | 1 <= r :: At(arr, node, r) != Nil <==> r <= n
  {
    assert forall i: nat | i < |free| :: free[i] in free;
  }

  /** So the length operator gives the largest reference. */
  lemma OnlyBorder(t: Table, free: seq<int>, live: map<int, Value>, n: nat, b: nat)
    requires forall r | 1 <= r :: At(t.arr, t.node, r) != Nil <==> r <= n
    requires TblLength.IsBorder(t, b)
    ensures b == n
  {
    hide Content;
    forall i: nat | 1 <= i ensures t.Lookup(IntKey(i)) != Nil <==> i <= n {
      assert At(t.arr, t.node, i) != Nil <==> i <= n;
    }
    TblLength.DenseBorder(t, n, b);
  }
}
