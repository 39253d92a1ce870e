/** The sizes a rehash chooses: slices of powers of two, and the best size for the array part. */
module TblSizes {

  const MAXBITS: nat := 26

  function Pow2(i: nat): (p: nat)
    ensures 0 < p
  {
    if i == 0 then 1 else 2 * Pow2(i - 1)
  }

  /** The hash part has as many nodes as the smallest power of two that is not below the size asked for, or none. */
  ghost predicate NodeCount(size: nat, n: nat) {
    if size == 0 then n == 0 else size <= n < 2 * size && exists i: nat :: n == Pow2(i)
  }

  lemma {:induction false} Pow2Grows(i: nat, j: nat)
    requires i < j
    ensures 2 * Pow2(i) <= Pow2(j)
    decreases j
  {
    if i < j - 1 { Pow2Grows(i, j - 1); }
  }

  lemma StrictOrder(i: nat, j: nat)
    requires Pow2(i) < Pow2(j)
    ensures i < j
  {
    if j < i { Pow2Grows(j, i); }
  }

  lemma Pow2Steps(i: nat)
    ensures Pow2(0) == 1 && Pow2(i + 1) == 2 * Pow2(i)
  {
  }

  // ---------------------------------------------------------------- luaO_log2

  /** The floor of the binary logarithm, and -1 for 0. */
  function FloorLog2(x: nat): (l: int)
    ensures -1 <= l && (x > 0 ==> 0 <= l)
  {
    if x == 0 then -1 else 1 + FloorLog2(x / 2)
  }

  /** ceillog2: the slice of a key. */
  function CeilLog2(k: nat): nat
    requires 1 <= k
  {
    FloorLog2(k - 1) + 1
  }

  lemma {:induction false} FloorLog2Bounds(x: nat)
    requires 0 < x
    ensures Pow2(FloorLog2(x)) <= x < 2 * Pow2(FloorLog2(x))
  {
    if x > 1 {
      FloorLog2Bounds(x / 2);
    }
  }

  /** The slice of a key is the one with 2^(i-1) < k <= 2^i, and only that one. */
  lemma CeilLog2Slice(k: nat, i: nat)
    requires 1 <= k
    ensures CeilLog2(k) == i <==> Pow2(i) / 2 < k <= Pow2(i)
  {
    if k > 1 {
      FloorLog2Bounds(k - 1);
    }
    var c := CeilLog2(k);
    if Pow2(i) / 2 < k <= Pow2(i) {
      if i < c { Pow2Grows(i, c); } else if c < i { Pow2Grows(c, i); }
    }
  }

  /** The table of luaO_log2: one more than the logarithm for bytes, 0 for 0. */
  function Log2Table(x: nat): nat
    requires x < 256
  {
    if x == 0 then 0 else if x < 2 then 1 else if x < 4 then 2 else if x < 8 then 3 else if x < 16 then 4
    else if x < 32 then 5 else if x < 64 then 6 else if x < 128 then 7 else 8
  }

  lemma ByteLog2(x: nat)
    requires x < 256
    ensures FloorLog2(x) == Log2Table(x) - 1
  {
    var a := x / 2; var b := a / 2; var c := b / 2; var d := c / 2; var e := d / 2; var f := e / 2; var g := f / 2;
    assert FloorLog2(g) == Log2Table(g) - 1 && g < 2;
    assert FloorLog2(f) == Log2Table(f) - 1 && f < 4;
    assert FloorLog2(e) == Log2Table(e) - 1 && e < 8;
    assert FloorLog2(d) == Log2Table(d) - 1 && d < 16;
    assert FloorLog2(c) == Log2Table(c) - 1 && c < 32;
    assert FloorLog2(b) == Log2Table(b) - 1 && b < 64;
    assert FloorLog2(a) == Log2Table(a) - 1 && a < 128;
  }

  /** Eight bits more add eight to the logarithm. */
  lemma ShiftLog2(x: nat)
    requires x >= 256
    ensures FloorLog2(x) == FloorLog2(x / 256) + 8
  {
    var a := x / 2; var b := a / 2; var c := b / 2; var d := c / 2; var e := d / 2; var f := e / 2; var g := f / 2;
    assert g / 2 == x / 256;
    assert FloorLog2(g) == 1 + FloorLog2(x / 256);
    assert FloorLog2(e) == 3 + FloorLog2(x / 256);
    assert FloorLog2(c) == 5 + FloorLog2(x / 256);
    assert FloorLog2(a) == 7 + FloorLog2(x / 256);
  }

  /** luaO_log2. */
  method Log2(n: nat) returns (r: int)
    ensures r == FloorLog2(n)
  {
    var l, x := -1, n;
    while x >= 256
      invariant l + 1 + FloorLog2(x) == FloorLog2(n)
    {
      ShiftLog2(x);
      l, x := l + 8, x / 256;
    }
    ByteLog2(x);
    r := l + Log2Table(x);
  }

  // ---------------------------------------------------------------- counting keys

  function SliceOf(keys: set<int>, i: nat): set<int> {
    set k | k in keys && Pow2(i) / 2 < k <= Pow2(i)
  }

  function Upto(keys: set<int>, n: nat): set<int> {
    set k | k in keys && k <= n
  }

  /** nums[i] is the number of keys in slice i. */
  ghost predicate Counts(nums: seq<nat>, keys: set<int>) {
    && |nums| == MAXBITS + 1
    && (forall k | k in keys :: 1 <= k <= Pow2(MAXBITS))
    && forall i: nat | i <= MAXBITS :: nums[i] == |SliceOf(keys, i)|
  }

  function Interval(n: nat): (s: set<int>)
    ensures |s| == n && forall k :: k in s <==> 1 <= k <= n
  {
    if n == 0 then {} else Interval(n - 1) + {n}
  }

  lemma SubsetSize(a: set<int>, b: set<int>)
    requires a <= b
    ensures |a| <= |b|
  {
    assert b == a + (b - a);
  }

  lemma UptoSize(keys: set<int>, n: nat)
    requires forall k | k in keys :: 1 <= k
    ensures |Upto(keys, n)| <= n
  {
    SubsetSize(Upto(keys, n), Interval(n));
  }

  lemma SliceAdds(keys: set<int>, i: nat)
    requires forall k | k in keys :: 1 <= k
    ensures |Upto(keys, Pow2(i))| == |Upto(keys, Pow2(i) / 2)| + |SliceOf(keys, i)|
  {
    assert Upto(keys, Pow2(i)) == Upto(keys, Pow2(i) / 2) + SliceOf(keys, i);
    assert Upto(keys, Pow2(i) / 2) !! SliceOf(keys, i);
  }

  /** More than half of the keys 1..n are present. */
  ghost predicate Dense(keys: set<int>, n: nat) {
    |Upto(keys, n)| > n / 2
  }

  /** The largest power of two whose range is more than half full, or 0. */
  ghost predicate Optimal(keys: set<int>, n: nat) {
    && (n == 0 || (Dense(keys, n) && exists p: nat :: p <= MAXBITS && n == Pow2(p)))
    && forall p: nat | Dense(keys, Pow2(p)) :: Pow2(p) <= n
  }

  /** A size that gains no key over its half is not worth considering. */
  lemma EmptySlice(keys: set<int>, i: nat)
    requires (forall k | k in keys :: 1 <= k) && |SliceOf(keys, i)| == 0
    ensures !Dense(keys, Pow2(i))
  {
    SliceAdds(keys, i);
    UptoSize(keys, Pow2(i) / 2);
  }

  /** Once every key is counted, a larger size is not dense any more. */
  lemma AllCounted(keys: set<int>, i: nat, p: nat)
    requires (forall k | k in keys :: 1 <= k) && |Upto(keys, Pow2(i))| == |keys| && i < p
    ensures !Dense(keys, Pow2(p))
  {
    Pow2Grows(i, p);
    assert Upto(keys, Pow2(i)) <= Upto(keys, Pow2(p)) <= keys;
    SubsetSize(Upto(keys, Pow2(p)), keys);
    UptoSize(keys, Pow2(i));
  }

  lemma TooLarge(keys: set<int>, i: nat, p: nat)
    requires Pow2(i) / 2 >= |keys| && i <= p
    ensures !Dense(keys, Pow2(p))
  {
    if i < p { Pow2Grows(i, p); }
    SubsetSize(Upto(keys, Pow2(p)), keys);
  }

  lemma WithinBits(keys: set<int>, i: nat)
    requires (forall k | k in keys :: 1 <= k <= Pow2(MAXBITS)) && Pow2(i) / 2 < |keys|
    ensures i <= MAXBITS
  {
    SubsetSize(keys, Interval(Pow2(MAXBITS)));
    if i > 0 {
      assert Pow2(i) / 2 == Pow2(i - 1);
      StrictOrder(i - 1, MAXBITS);
    }
  }

  /** computesizes: the early exits lose nothing and `nums` is never indexed beyond its end. */
  method ComputeSizes(nums: seq<nat>, narray: nat, ghost keys: set<int>) returns (n: nat, na: nat)
    requires Counts(nums, keys) && narray == |keys|
    ensures Optimal(keys, n) && na == |Upto(keys, n)|
    ensures n / 2 <= na <= n
  {
    hide SliceOf, Pow2;
    var i: nat, twotoi: nat, a: nat := 0, 1, 0;
    n, na := 0, 0;
    Pow2Steps(0);
    assert Upto(keys, 0) == {};
    while twotoi / 2 < narray
      invariant twotoi == Pow2(i) && a == |Upto(keys, Pow2(i) / 2)| && na == |Upto(keys, n)|
      invariant n == 0 || (Dense(keys, n) && exists p: nat :: p <= MAXBITS && n == Pow2(p))
      invariant forall p: nat | p < i && Dense(keys, Pow2(p)) :: Pow2(p) <= n
      invariant n <= Pow2(i) / 2
      decreases 2 * narray - twotoi
    {
      WithinBits(keys, i);
      SliceAdds(keys, i);
      Pow2Steps(i);
      if nums[i] > 0 {
        a := a + nums[i];
        if a > twotoi / 2 {
          n, na := twotoi, a;
        }
      } else {
        EmptySlice(keys, i);
      }
      if a == narray {
        forall p: nat | Dense(keys, Pow2(p)) ensures Pow2(p) <= n {
          if i < p { AllCounted(keys, i, p); }
        }
        UptoSize(keys, n);
        return;
      }
      i, twotoi := i + 1, twotoi * 2;
    }
    forall p: nat | Dense(keys, Pow2(p)) ensures Pow2(p) <= n {
      if i <= p { TooLarge(keys, i, p); }
    }
    UptoSize(keys, n);
  }

  /** The best size is determined by the keys. */
  lemma OptimalUnique(keys: set<int>, n: nat, n': nat)
    requires Optimal(keys, n) && Optimal(keys, n')
    ensures n == n'
  {
  }
}
