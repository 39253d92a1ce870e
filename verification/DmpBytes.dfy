/** Numbers and strings as bytes, in the layout of a 64-bit little-endian machine. */
module DmpBytes {
  import opened Wrappers

  type Byte = x: int | 0 <= x < 256
  type Bytes = seq<Byte>

  /** What a reader got, and the bytes behind it. */
  type Parsed<+T> = Option<(T, Bytes)>

  type U32 = x: int | 0 <= x < 0x1_0000_0000
  type Nat31 = x: int | 0 <= x < 0x8000_0000
  type Int32 = x: int | -0x8000_0000 <= x < 0x8000_0000
  type Long = x: int | -0x8000_0000_0000_0000 <= x < 0x8000_0000_0000_0000

  const SIZE_INT: nat := 4
  const SIZE_LONG: nat := 8

  function Pow256(n: nat): (p: nat)
    ensures 0 < p
  {
    if n == 0 then 1 else 256 * Pow256(n - 1)
  }

  lemma Sizes()
    ensures Pow256(SIZE_INT) == 0x1_0000_0000 && Pow256(SIZE_LONG) == 0x1_0000_0000_0000_0000
  {
    assert Pow256(2) == 0x1_0000;
    assert Pow256(4) == 0x1_0000_0000;
    assert Pow256(6) == 0x1_0000_0000_0000;
  }

  /** The lowest byte comes first. */
  function Little(n: nat, x: nat): (s: Bytes)
    ensures |s| == n
  {
    if n == 0 then [] else [x % 256] + Little(n - 1, x / 256)
  }

  function Unlittle(s: Bytes): (x: nat)
    ensures x < Pow256(|s|)
  {
    if s == [] then 0 else s[0] + 256 * Unlittle(s[1..])
  }

  lemma {:induction false} LittleBack(n: nat, x: nat)
    requires x < Pow256(n)
    ensures Unlittle(Little(n, x)) == x
  {
    if n > 0 {
      LittleBack(n - 1, x / 256);
      assert Little(n, x)[1..] == Little(n - 1, x / 256);
    }
  }

  /** LoadBlock. */
  function TakeBlock(s: Bytes, n: nat): (r: Parsed<Bytes>)
    ensures r.Some? ==> |r.value.0| == n && s == r.value.0 + r.value.1
  {
    if |s| < n then None else Some((s[..n], s[n..]))
  }

  lemma TakeBack(b: Bytes, t: Bytes)
    ensures TakeBlock(b + t, |b|) == Some((b, t))
  {
    assert (b + t)[..|b|] == b && (b + t)[|b|..] == t;
  }

  // ---------------------------------------------------------------- machine words

  function PutU32(x: U32): Bytes { Little(SIZE_INT, x) }

  function GetU32(s: Bytes): Parsed<U32> {
    Sizes();
    var r :- TakeBlock(s, SIZE_INT);
    Some((Unlittle(r.0), r.1))
  }

  /** A negative number as its two's complement. */
  function PutInt32(x: Int32): Bytes { PutU32(if x < 0 then x + 0x1_0000_0000 else x) }

  function GetInt32(s: Bytes): Parsed<Int32> {
    var r :- GetU32(s);
    Some((if r.0 >= 0x8000_0000 then r.0 - 0x1_0000_0000 else r.0, r.1))
  }

  function PutLong(x: Long): Bytes {
    Little(SIZE_LONG, if x < 0 then x + 0x1_0000_0000_0000_0000 else x)
  }

  function GetLong(s: Bytes): Parsed<Long> {
    Sizes();
    var r :- TakeBlock(s, SIZE_LONG);
    var x := Unlittle(r.0);
    Some((if x >= 0x8000_0000_0000_0000 then x - 0x1_0000_0000_0000_0000 else x, r.1))
  }

  function GetByte(s: Bytes): Parsed<Byte> {
    var r :- TakeBlock(s, 1);
    Some((r.0[0], r.1))
  }

  /** LoadInt: a negative integer is an error. */
  function GetInt(s: Bytes): Parsed<Nat31> {
    var r :- GetInt32(s);
    if r.0 < 0 then None else Some((r.0, r.1))
  }

  lemma U32Back(x: U32, t: Bytes)
    ensures GetU32(PutU32(x) + t) == Some((x, t))
  {
    Sizes();
    LittleBack(SIZE_INT, x);
    TakeBack(PutU32(x), t);
  }

  lemma Int32Back(x: Int32, t: Bytes)
    ensures GetInt32(PutInt32(x) + t) == Some((x, t))
  {
    U32Back(if x < 0 then x + 0x1_0000_0000 else x, t);
  }

  lemma IntBack(x: Nat31, t: Bytes)
    ensures GetInt(PutInt32(x) + t) == Some((x, t))
  {
    Int32Back(x, t);
  }

  lemma LongBack(x: Long, t: Bytes)
    ensures GetLong(PutLong(x) + t) == Some((x, t))
  {
    Sizes();
    LittleBack(SIZE_LONG, if x < 0 then x + 0x1_0000_0000_0000_0000 else x);
    TakeBack(PutLong(x), t);
  }

  lemma ByteBack(x: Byte, t: Bytes)
    ensures GetByte([x] + t) == Some((x, t))
  {
    TakeBack([x], t);
  }

  // ---------------------------------------------------------------- strings

  /** A string object may be missing; its size with the trailing zero fits a size_t. */
  type TString = s: Option<Bytes> | s.Some? ==> |s.value| + 1 < 0x8000_0000_0000_0000 witness None

  /** DumpString. */
  function PutString(s: TString): Bytes {
    if s.None? then PutLong(0) else PutLong(|s.value| + 1) + (s.value + [0])
  }

  /** LoadString; the size is a size_t, of which all values from 2^63 on are more than any stream has. */
  function GetString(s: Bytes): Parsed<TString> {
    var n :- GetLong(s);
    if n.0 == 0 then Some((None, n.1))
    else if n.0 < 0 then None
    else
      var b :- TakeBlock(n.1, n.0);
      Some((Some(b.0[..n.0-1]), b.1))
  }

  lemma StringBack(s: TString, t: Bytes)
    ensures GetString(PutString(s) + t) == Some((s, t))
  {
    if s.None? {
      LongBack(0, t);
    } else {
      var b := s.value + [0];
      LongBack(|s.value| + 1, b + t);
      assert PutString(s) + t == PutLong(|s.value| + 1) + (b + t);
      TakeBack(b, t);
      assert b[..|s.value|] == s.value;
    }
  }

  // ---------------------------------------------------------------- vectors

  function PutAll<T>(xs: seq<T>, put: T -> Bytes): Bytes {
    if xs == [] then [] else put(xs[0]) + PutAll(xs[1..], put)
  }

  function GetAll<T>(n: nat, s: Bytes, one: Bytes -> Parsed<T>): Parsed<seq<T>> {
    if n == 0 then Some(([], s))
    else
      var x :- one(s);
      var xs :- GetAll(n - 1, x.1, one);
      Some(([x.0] + xs.0, xs.1))
  }

  ghost predicate ComesBack<T(!new)>(x: T, put: T -> Bytes, one: Bytes -> Parsed<T>) {
    forall t :: one(put(x) + t) == Some((x, t))
  }

  /** If every element comes back, the vector does. */
  lemma {:induction false} AllBack<T(!new)>(xs: seq<T>, put: T -> Bytes, one: Bytes -> Parsed<T>, t: Bytes)
    requires forall x | x in xs :: ComesBack(x, put, one)
    ensures GetAll(|xs|, PutAll(xs, put) + t, one) == Some((xs, t))
  {
    if xs == [] {
      assert PutAll(xs, put) + t == t;
    } else {
      var behind := PutAll(xs[1..], put) + t;
      assert PutAll(xs, put) + t == put(xs[0]) + behind;
      assert ComesBack(xs[0], put, one);
      AllBack(xs[1..], put, one, t);
      assert xs == [xs[0]] + xs[1..];
    }
  }
}
