/** Any sequence of sets and gets: the table answers as a finite map does. */
module TblReplay {
  import opened TblNode
  import opened TblCount
  import opened TblTable
  import TblSizes
  import opened Wrappers

  /** A set or a get; the key of a set may be nil, which is an error. */
  datatype Op = SetOp(target: Option<Key>, val: Value) | GetOp(key: Key)

  function ValueIn(m: map<Key, Value>, k: Key): Value {
    if k in m then m[k] else Nil
  }

  /** To assign nil is to remove. */
  function Assign(m: map<Key, Value>, k: Key, v: Value): map<Key, Value> {
    if v == Nil then m - {k} else m[k := v]
  }

  function Step(m: map<Key, Value>, op: Op): map<Key, Value> {
    if op.SetOp? && op.target.Some? then Assign(m, op.target.value, op.val) else m
  }

  /** The map after the operations. */
  function After(m: map<Key, Value>, ops: seq<Op>): map<Key, Value> {
    if ops == [] then m else Step(After(m, ops[..|ops|-1]), ops[|ops|-1])
  }

  /** What a map answers to the gets among the operations, in their order. */
  function Answers(m: map<Key, Value>, ops: seq<Op>): seq<Value> {
    if ops == [] then []
    else
      var before := ops[..|ops|-1];
      var last := ops[|ops|-1];
      Answers(m, before) + if last.GetOp? then [ValueIn(After(m, before), last.key)] else []
  }

  ghost predicate Agrees(t: Table, m: map<Key, Value>)
    reads t
  {
    forall k :: t.Lookup(k) == ValueIn(m, k)
  }

  /** Any sequence of operations on a table, in whatever shape it is. */
  method Replay(t: Table, ops: seq<Op>, ghost m: map<Key, Value>) returns (out: seq<Value>)
    requires t.Valid() && Agrees(t, m)
    modifies t
    ensures t.Valid() && Agrees(t, After(m, ops)) && out == Answers(m, ops)
  {
    hide Chained, Separate, Content;
    out := [];
    var i: nat := 0;
    while i < |ops|
      invariant i <= |ops| && t.Valid() && Agrees(t, After(m, ops[..i])) && out == Answers(m, ops[..i])
    {
      assert ops[..i+1][..i] == ops[..i];
      if ops[i].GetOp? {
        var v := t.Get(ops[i].key);
        out := out + [v];
      } else {
        var ok := t.RawSet(ops[i].target, ops[i].val);
      }
      i := i + 1;
    }
    assert ops[..i] == ops;
  }

  /** A table made by luaH_new starts as the empty map, whatever sizes it was made with. */
  method ReplayFromNew(hash: Hash, narray: nat, nhash: nat, ops: seq<Op>) returns (out: seq<Value>)
    requires narray <= TblSizes.Pow2(TblSizes.MAXBITS)
    ensures out == Answers(map[], ops)
  {
    var t := new Table(hash, narray, nhash);
    out := Replay(t, ops, map[]);
  }

  /** The last assignment to a key decides what a get answers. */
  lemma {:induction false} LastAssignment(m: map<Key, Value>, ops: seq<Op>, i: nat, k: Key, v: Value)
    requires i < |ops| && ops[i] == SetOp(Some(k), v)
    requires forall j | i < j < |ops| && ops[j].SetOp? :: ops[j].target != Some(k)
    ensures ValueIn(After(m, ops), k) == v
  {
    if i < |ops| - 1 {
      LastAssignment(m, ops[..|ops|-1], i, k, v);
    }
  }
}
