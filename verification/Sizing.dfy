/** How rehash counts the keys of a table and chooses the size of the array part. */
module Sizing {
  import opened Common
  import opened HashPart

  const MAXBITS := 26

  lemma {:induction false} Pow2Mono(a: nat, b: nat)
    requires a < b
    ensures 2 * Pow2(a) <= Pow2(b)
    decreases b
  {
    if a + 1 < b { Pow2Mono(a, b - 1); }
  }

  /** The largest array part. */
  const MAXASIZE: nat := Pow2(MAXBITS)

  /** The key is an integer from 1 to m. */
  predicate InRange(v: Value, m: nat) { v.Num? && 1 <= v.n <= m }

  /** The integer keys from 1 to m among the keys e. */
  ghost function UpTo(e: set<Value>, m: nat): set<Value> { set v | v in e && InRange(v, m) }

  /** The integer keys k among e with 2^(lg-1) < k <= 2^lg. */
  ghost function Slice(e: set<Value>, lg: nat): set<Value> {
    set v | v in e && InRange(v, Pow2(lg)) && (lg == 0 || !InRange(v, Pow2(lg - 1)))
  }

  /** nums is the histogram of the integer keys by their ceiling logarithm. */
  ghost predicate Counts(nums: seq<nat>, e: set<Value>) {
    |nums| == MAXBITS + 1 && forall lg :: 0 <= lg <= MAXBITS ==> nums[lg] == |Slice(e, lg)|
  }

  // ---- sets of integer keys ----

  lemma {:induction false} RangeSize(e: set<Value>, m: nat)
    requires forall v :: v in e ==> InRange(v, m)
    ensures |e| <= m
    decreases m
  {
    if m == 0 {
      assert e == {};
    } else {
      var top := Num(m);
      RangeSize(e - {top}, m - 1);
      assert e - {top} == if top in e then e - {top} else e;
      if top in e { assert e == (e - {top}) + {top}; }
    }
  }

  lemma SliceSplit(e: set<Value>, lg: nat)
    requires lg > 0
    ensures |UpTo(e, Pow2(lg))| == |UpTo(e, Pow2(lg - 1))| + |Slice(e, lg)|
  {
    var a, b := UpTo(e, Pow2(lg - 1)), Slice(e, lg);
    assert UpTo(e, Pow2(lg)) == a + b && a !! b;
  }

  lemma SliceFirst(e: set<Value>)
    ensures UpTo(e, 1) == Slice(e, 0)
  {
  }

  /** Which slice a key belongs to. */
  lemma SliceAdd(e: set<Value>, v: Value, lg: nat, n: nat)
    requires v !in e && InRange(v, Pow2(lg)) && (lg == 0 || !InRange(v, Pow2(lg - 1)))
    ensures |Slice(e + {v}, n)| == if n == lg then |Slice(e, n)| + 1 else |Slice(e, n)|
  {
    if n < lg { Pow2Mono(n, lg); if n < lg - 1 { Pow2Mono(n, lg - 1); } }
    if lg < n { Pow2Mono(lg, n); if lg < n - 1 { Pow2Mono(lg, n - 1); } }
    if n == lg {
      assert Slice(e + {v}, n) == Slice(e, n) + {v};
    } else {
      assert Slice(e + {v}, n) == Slice(e, n);
    }
  }

  lemma SliceSkip(e: set<Value>, v: Value, n: nat)
    requires n <= MAXBITS && !InRange(v, MAXASIZE)
    ensures Slice(e + {v}, n) == Slice(e, n) && UpTo(e + {v}, MAXASIZE) == UpTo(e, MAXASIZE)
  {
    if n < MAXBITS { Pow2Mono(n, MAXBITS); }
  }

  // ---- luaO_log2, countint ----

  function CeilLog2(x: nat): (l: nat)
    requires x > 0
    ensures x <= Pow2(l) && (l > 0 ==> Pow2(l - 1) < x)
  {
    Ceil(x, 0)
  }

  function Ceil(x: nat, l: nat): (r: nat)
    requires x > 0 && (l > 0 ==> Pow2(l - 1) < x)
    ensures x <= Pow2(r) && (r > 0 ==> Pow2(r - 1) < x)
    decreases x - Pow2(l)
  {
    if x <= Pow2(l) then l else Ceil(x, l + 1)
  }

  lemma CeilBound(x: nat)
    requires 0 < x
    ensures x <= MAXASIZE <==> CeilLog2(x) <= MAXBITS
  {
    var l := CeilLog2(x);
    if l < MAXBITS { Pow2Mono(l, MAXBITS); }
    if l > MAXBITS && l - 1 > MAXBITS { Pow2Mono(MAXBITS, l - 1); }
  }

  /** arrayindex: -1 for a key that is no int */
  function ArrayIndex(k: Value): int {
    if k.Num? && -0x8000_0000 <= k.n < 0x8000_0000 then k.n else -1
  }

  method CountInt(key: Value, nums: array<nat>, ghost e: set<Value>) returns (c: nat)
    requires Counts(nums[..], e) && key !in e
    modifies nums
    ensures Counts(nums[..], e + {key}) && |UpTo(e + {key}, MAXASIZE)| == |UpTo(e, MAXASIZE)| + c
  {
    var k := ArrayIndex(key);
    MaxSize();
    if 0 < k <= MAXASIZE {
      CeilBound(k);
      ghost var lg := CeilLog2(k);
      forall n | 0 <= n <= MAXBITS ensures |Slice(e + {key}, n)| == if n == lg then |Slice(e, n)| + 1 else |Slice(e, n)|
      {
        SliceAdd(e, key, lg, n);
      }
      assert UpTo(e + {key}, MAXASIZE) == UpTo(e, MAXASIZE) + {key};
      nums[CeilLog2(k)] := nums[CeilLog2(k)] + 1;
      return 1;
    } else {
      forall n | 0 <= n <= MAXBITS ensures Slice(e + {key}, n) == Slice(e, n) { SliceSkip(e, key, n); }
      SliceSkip(e, key, 0);
      return 0;
    }
  }

  lemma MaxSize()
    ensures MAXASIZE == 0x400_0000
  {
    assert Pow2(4) == 16;
    assert Pow2(8) == 256;
    assert Pow2(12) == 4096;
    assert Pow2(16) == 0x1_0000;
    assert Pow2(20) == 0x10_0000;
    assert Pow2(24) == 0x100_0000;
    assert Pow2(26) == 0x400_0000;
  }

  // ---- computesizes ----

  /** More than half of the slots 1..n of an array of size n would be in use. */
  ghost predicate Fits(e: set<Value>, n: nat) { |UpTo(e, n)| > n / 2 }

  /** The largest power of two that fits, or 0. */
  ghost predicate Best(e: set<Value>, n: nat) {
    && (n == 0 || (Fits(e, n) && exists i: nat :: i <= MAXBITS && n == Pow2(i)))
    && forall i: nat :: i <= MAXBITS && Fits(e, Pow2(i)) ==> Pow2(i) <= n
  }

  /** The best size, said with the keys alone: more than half of its slots are used, and of no larger one's up to 2^26. */
  lemma BestUse(e: set<Value>, n: nat, i: nat)
    requires Best(e, n) && i <= 26
    ensures n > 0 ==> 2 * |set v | v in e && v.Num? && 1 <= v.n <= n| > n && exists j: nat :: j <= 26 && n == Pow2(j)
    ensures Pow2(i) > n ==> 2 * |set v | v in e && v.Num? && 1 <= v.n <= Pow2(i)| <= Pow2(i)
  {
    assert UpTo(e, n) == set v | v in e && v.Num? && 1 <= v.n <= n;
    assert UpTo(e, Pow2(i)) == set v | v in e && v.Num? && 1 <= v.n <= Pow2(i);
  }

  lemma UpToSize(e: set<Value>, m: nat, m': nat)
    ensures |UpTo(e, m)| <= m
    ensures m <= m' ==> |UpTo(e, m)| <= |UpTo(e, m')|
  {
    RangeSize(UpTo(e, m), m);
    if m <= m' {
      assert UpTo(e, m) <= UpTo(e, m');
      assert UpTo(e, m') == UpTo(e, m) + (UpTo(e, m') - UpTo(e, m));
    }
  }

  /** The best size so far, among 2^0 .. 2^(i-1). */
  ghost predicate BestBelow(e: set<Value>, n: nat, i: nat) {
    && (n == 0 || (Fits(e, n) && exists j: nat :: j < i && n == Pow2(j)))
    && forall j: nat :: j < i && Fits(e, Pow2(j)) ==> Pow2(j) <= n
  }

  /** narray is the number of integer keys up to MAXASIZE on entry, the size chosen on exit. */
  method ComputeSizes(nums: seq<nat>, narray: nat, ghost e: set<Value>) returns (n: nat, na: nat)
    requires Counts(nums, e) && narray == |UpTo(e, MAXASIZE)|
    ensures Best(e, n) && na == |UpTo(e, n)| && n / 2 <= na <= n && n <= MAXASIZE
  {
    hide Pow2, UpTo, Slice, BestBelow, Fits, Counts, Best;
    var i, twotoi, a := 0, 1, 0;
    n, na := 0, 0;
    SizesStart(nums, e);
    while twotoi / 2 < narray
      invariant 0 <= i <= MAXBITS + 1 && twotoi == Pow2(i) && a == (if i == 0 then 0 else |UpTo(e, Pow2(i - 1))|)
      invariant BestBelow(e, n, i) && na == |UpTo(e, n)|
      decreases MAXBITS + 1 - i
    {
      SizesStep(e, narray, i, a);
      SliceCount(nums, e, i);
      ghost var n0 := n;
      if nums[i] > 0 {
        a := a + nums[i];
        if a > twotoi / 2 {  // Best: n is kept when more than n/2 of 1..n are there
          n := twotoi;
          na := a;
        }
      }
      SizesNext(e, n0, n, i, |UpTo(e, Pow2(i))|);
      if a == narray {
        SizesDone(e, narray, n, i + 1, true);
        return;
      }
      i := i + 1;
      twotoi := twotoi * 2;
    }
    SizesDone(e, narray, n, i, false);
  }

  lemma SizesStart(nums: seq<nat>, e: set<Value>)
    requires Counts(nums, e)
    ensures Pow2(0) == 1 && UpTo(e, 0) == {} && BestBelow(e, 0, 0) && |nums| == MAXBITS + 1
  {
  }

  lemma SliceCount(nums: seq<nat>, e: set<Value>, i: nat)
    requires Counts(nums, e) && i <= MAXBITS
    ensures |nums| == MAXBITS + 1 && nums[i] == |Slice(e, i)| && Pow2(i + 1) == 2 * Pow2(i)
  {
  }

  lemma SizesStep(e: set<Value>, narray: nat, i: nat, a: nat)
    requires narray == |UpTo(e, MAXASIZE)| && i <= MAXBITS + 1 && Pow2(i) / 2 < narray &&
      a == (if i == 0 then 0 else |UpTo(e, Pow2(i - 1))|)
    ensures i <= MAXBITS && |UpTo(e, Pow2(i))| == a + |Slice(e, i)|
    ensures |UpTo(e, Pow2(i))| <= Pow2(i) && a <= Pow2(i) / 2
  {
    UpToSize(e, Pow2(i), Pow2(i));
    UpToSize(e, MAXASIZE, MAXASIZE);
    if i == 0 { SliceFirst(e); } else { SliceSplit(e, i); UpToSize(e, Pow2(i - 1), Pow2(i - 1)); }
  }

  lemma SizesNext(e: set<Value>, n0: nat, n: nat, i: nat, a: nat)
    requires BestBelow(e, n0, i) && a == |UpTo(e, Pow2(i))| &&
      n == (if |Slice(e, i)| > 0 && a > Pow2(i) / 2 then Pow2(i) else n0)
    requires |Slice(e, i)| == 0 ==> a <= Pow2(i) / 2
    ensures BestBelow(e, n, i + 1)
  {
    hide Pow2, UpTo, Slice;
    forall j: nat | j < i + 1 && Fits(e, Pow2(j)) ensures Pow2(j) <= n
    {
      if j < i { Pow2Mono(j, i); }
    }
  }

  /** No larger size fits: the loop ended at i, or all keys had been counted by then. */
  lemma SizesDone(e: set<Value>, narray: nat, n: nat, i: nat, all: bool)
    requires narray == |UpTo(e, MAXASIZE)| && i <= MAXBITS + 1 && BestBelow(e, n, i)
    requires if all then i > 0 && |UpTo(e, Pow2(i - 1))| == narray else narray <= Pow2(i) / 2
    ensures Best(e, n) && |UpTo(e, n)| <= n && n / 2 <= |UpTo(e, n)| && n <= MAXASIZE
  {
    hide Pow2, UpTo;
    UpToSize(e, n, n);
    if n > 0 {
      var j: nat :| j < i && n == Pow2(j);
      if j < MAXBITS { Pow2Mono(j, MAXBITS); }
    }
    forall j: nat | j <= MAXBITS && Fits(e, Pow2(j)) ensures Pow2(j) <= n
    {
      if j >= i {
        if j < MAXBITS { Pow2Mono(j, MAXBITS); }
        UpToSize(e, Pow2(j), MAXASIZE);
        if all {
          UpToSize(e, Pow2(i - 1), Pow2(i - 1));
          Pow2Mono(i - 1, j);
        } else if i < j {
          Pow2Mono(i, j);
        }
        assert false;
      }
    }
  }
}
