/** Buffered input (lzio.c): a stream that a reader hands out block by block. */
module DmpZio {
  import opened DmpBytes

  const EOZ: int := -1

  function Joined(blocks: seq<Bytes>): Bytes {
    if blocks == [] then [] else blocks[0] + Joined(blocks[1..])
  }

  class Zio {
    /** What the reader is going to return; an empty block would end the stream. */
    var blocks: seq<Bytes>
    /** The last block; `n` bytes of it, from `p` on, are unread. */
    var buff: Bytes
    var p: nat
    var n: nat

    ghost predicate Valid()
      reads this
    {
      p + n == |buff| && forall b | b in blocks :: b != []
    }

    /** All that is to come, however it is split into blocks. */
    ghost function Rest(): Bytes
      requires Valid()
      reads this
    {
      buff[p..] + Joined(blocks)
    }

    /** luaZ_init. */
    constructor (blocks: seq<Bytes>)
      requires forall b | b in blocks :: b != []
      ensures Valid() && Rest() == Joined(blocks)
    {
      this.blocks := blocks;
      buff, p, n := [], 0, 0;
    }

    /** luaZ_fill: the next block, of which it takes the first byte. */
    method Fill() returns (c: int)
      requires Valid() && n == 0
      modifies this
      ensures Valid()
      ensures c == EOZ <==> old(Rest()) == []
      ensures c == EOZ ==> Rest() == [] && n == 0
      ensures c != EOZ ==> 0 <= c < 256 && [c] + Rest() == old(Rest()) && 0 < p && buff[p-1] == c
    {
      if blocks == [] {
        return EOZ;
      }
      assert blocks[0] in blocks && forall b | b in blocks[1..] :: b in blocks;
      assert buff[p..] == [];
      buff, blocks := blocks[0], blocks[1..];
      n, p := |buff| - 1, 0;
      c := buff[p];
      p := p + 1;
    }

    /** luaZ_lookahead. */
    method Lookahead() returns (c: int)
      requires Valid()
      modifies this
      ensures Valid() && Rest() == old(Rest())
      ensures c == if Rest() == [] then EOZ else Rest()[0]
      ensures c != EOZ ==> 0 < n
    {
      if n == 0 {
        var d := Fill();
        if d == EOZ {
          return EOZ;
        }
        n := n + 1;
        p := p - 1;
        assert buff[p..] == [d] + buff[p+1..];
      }
      c := buff[p];
    }

    /** The copy of luaZ_read. */
    method Take(m: nat) returns (b: Bytes)
      requires Valid() && m <= n
      modifies this
      ensures Valid() && |b| == m && old(Rest()) == b + Rest()
    {
      b := buff[p..p+m];
      assert buff[p..] == b + buff[p+m..];
      n := n - m;
      p := p + m;
    }

    /** luaZ_read: the next `size` bytes; the result tells how many are missing. */
    method Read(size: nat) returns (b: Bytes, missing: nat)
      requires Valid()
      modifies this
      ensures Valid() && missing == if size <= |old(Rest())| then 0 else size - |old(Rest())|
      ensures old(Rest()) == b + Rest() && |b| == size - missing
    {
      b := [];
      missing := size;
      while missing > 0
        invariant Valid() && missing <= size && old(Rest()) == b + Rest() && |b| == size - missing
      {
        hide Joined;
        var c := Lookahead();
        if c == EOZ {
          return;
        }
        var m := if missing <= n then missing else n;
        var x := Take(m);
        assert b + (x + Rest()) == (b + x) + Rest();
        b := b + x;
        missing := missing - m;
      }
    }
  }
}
