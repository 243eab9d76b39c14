/** Counting the keys of a table: numusearray and numusehash. */
module TableCount {
  import opened Common
  import opened HashPart
  import opened Sizing
  import opened TableVals

  /** The keys with a value among the first hi slots of the array part. */
  ghost function ArrKeys(arr: seq<Value>, hi: nat): set<Value>
    requires hi <= |arr|
  {
    set i | 0 <= i < hi && arr[i] != Nil :: Num(i + 1)
  }

  /** The keys with a value in the nodes from lo on. */
  ghost function NodeKeys(node: seq<Node>, lo: nat): set<Value> {
    set i | lo <= i < |node| && node[i].val != Nil :: node[i].key.v
  }

  /** All keys with a value. */
  ghost function KeysOf(arr: seq<Value>, node: seq<Node>): set<Value> { ArrKeys(arr, |arr|) + NodeKeys(node, 0) }

  /** The keys of a table are exactly those whose value is not nil. */
  lemma KeysAre(h: (Value, nat) -> nat, arr: seq<Value>, s: Hash, k: Value)
    requires HashOk(h, s) && Outside(s.node, |arr|)
    ensures k in KeysOf(arr, s.node) <==> ValueOf(arr, s.node, k) != Nil
  {
    if k in NodeKeys(s.node, 0) {
      var i :| 0 <= i < |s.node| && s.node[i].val != Nil && s.node[i].key.v == k;
      assert FreeAt(s, i);
      ValAt(h, s, k, i);
    }
    if ValueOf(arr, s.node, k) != Nil && !InRange(k, |arr|) {
      assert s.node[IndexOf(s.node, k)].key.v in NodeKeys(s.node, 0);
    }
    if InRange(k, |arr|) && arr[k.n - 1] != Nil { assert k in ArrKeys(arr, |arr|); }
  }

  // ---- the array part ----

  lemma ArrNext(arr: seq<Value>, hi: nat)
    requires hi < |arr|
    ensures ArrKeys(arr, hi + 1) == (if arr[hi] != Nil then ArrKeys(arr, hi) + {Num(hi + 1)} else ArrKeys(arr, hi)) &&
      Num(hi + 1) !in ArrKeys(arr, hi)
  {
  }

  /** Only the slots of a slice matter for it. */
  lemma ArrSlice(arr: seq<Value>, hi: nat, lg: nat)
    requires hi <= |arr| && (hi == |arr| || Pow2(lg) <= hi)
    ensures Slice(ArrKeys(arr, hi), lg) == Slice(ArrKeys(arr, |arr|), lg)
  {
    forall v | v in Slice(ArrKeys(arr, |arr|), lg) ensures v in ArrKeys(arr, hi)
    {
      assert v == Num(v.n - 1 + 1) && 0 <= v.n - 1 < hi && arr[v.n - 1] != Nil;
    }
  }

  lemma SliceEmpty(arr: seq<Value>, hi: nat, lg: nat)
    requires hi <= |arr| && lg > 0 && hi <= Pow2(lg - 1)
    ensures Slice(ArrKeys(arr, hi), lg) == {}
  {
  }

  method NumUseArray(arr: seq<Value>, nums: array<nat>) returns (ause: nat)
    requires |arr| <= MAXASIZE && nums[..] == seq(MAXBITS + 1, i => 0)
    modifies nums
    ensures Counts(nums[..], ArrKeys(arr, |arr|)) && ause == |ArrKeys(arr, |arr|)|
  {
    hide Pow2, Slice, ArrKeys, Counts;
    var lg, ttlg, i := 0, 1, 1;
    ause := 0;
    ArrStart(arr);
    while lg <= MAXBITS
      invariant 0 <= lg <= MAXBITS + 1 && nums.Length == MAXBITS + 1 && ttlg == Pow2(lg)
      invariant i == (if lg == 0 then 1 else Least(Pow2(lg - 1), |arr|) + 1) && 1 <= i <= |arr| + 1
      invariant forall m :: 0 <= m < lg ==> nums[m] == |Slice(ArrKeys(arr, |arr|), m)|
      invariant forall m :: lg <= m <= MAXBITS ==> nums[m] == 0
      invariant ause == |ArrKeys(arr, i - 1)|
    {
      var lc, lim := 0, ttlg;
      Doubled(lg);
      if lim > |arr| {
        lim := |arr|;
        if i > lim {
          RestEmpty(arr, lg);
          break;
        }
      }
      SliceNone(arr, lg, i - 1);
      while i <= lim
        invariant 1 <= i <= lim + 1 && (lg > 0 ==> i > Pow2(lg - 1))
        modifies {}
        invariant lc == |Slice(ArrKeys(arr, i - 1), lg)| && ause + lc == |ArrKeys(arr, i - 1)|
      {
        ArrNext(arr, i - 1);
        if arr[i - 1] != Nil {
          SliceAdd(ArrKeys(arr, i - 1), Num(i), lg, lg);
          lc := lc + 1;
        }
        i := i + 1;
      }
      ArrSlice(arr, lim, lg);
      nums[lg] := nums[lg] + lc;
      ause := ause + lc;
      lg, ttlg := lg + 1, ttlg * 2;
    }
    ArrDone(arr, nums[..]);
  }

  function Least(a: nat, b: nat): nat { if a < b then a else b }

  lemma ArrStart(arr: seq<Value>)
    ensures Pow2(0) == 1 && |ArrKeys(arr, 0)| == 0
  {
    assert ArrKeys(arr, 0) == {};
  }

  lemma Doubled(lg: nat)
    ensures Pow2(lg + 1) == 2 * Pow2(lg) && Pow2(lg) >= 1 && (lg > 0 ==> Pow2(lg) == 2 * Pow2(lg - 1))
  {
  }

  lemma SliceNone(arr: seq<Value>, lg: nat, hi: nat)
    requires hi <= |arr| && hi == if lg == 0 then 0 else Least(Pow2(lg - 1), |arr|)
    ensures |Slice(ArrKeys(arr, hi), lg)| == 0
  {
    if lg == 0 { assert Slice(ArrKeys(arr, hi), lg) == {}; } else { SliceEmpty(arr, hi, lg); }
  }

  lemma RestEmpty(arr: seq<Value>, lg: nat)
    requires |arr| == 0 || (lg > 0 && |arr| <= Pow2(lg - 1))
    ensures forall m :: lg <= m <= MAXBITS ==> |Slice(ArrKeys(arr, |arr|), m)| == 0
  {
    forall m | lg <= m <= MAXBITS ensures |Slice(ArrKeys(arr, |arr|), m)| == 0
    {
      if |arr| == 0 {
        assert Slice(ArrKeys(arr, 0), m) == {};
      } else {
        if lg < m { Pow2Mono(lg - 1, m - 1); }
        SliceEmpty(arr, |arr|, m);
      }
    }
  }

  lemma ArrDone(arr: seq<Value>, nums: seq<nat>)
    requires |nums| == MAXBITS + 1 && forall m :: 0 <= m <= MAXBITS ==> nums[m] == |Slice(ArrKeys(arr, |arr|), m)|
    ensures Counts(nums, ArrKeys(arr, |arr|))
  {
  }

  lemma ArrUpTo(arr: seq<Value>)
    requires |arr| <= MAXASIZE
    ensures UpTo(ArrKeys(arr, |arr|), MAXASIZE) == ArrKeys(arr, |arr|)
  {
  }

  // ---- the hash part ----

  lemma NodeNext(h: (Value, nat) -> nat, arr: seq<Value>, s: Hash, i: nat)
    requires HashOk(h, s) && Outside(s.node, |arr|) && i < |s.node|
    ensures NodeKeys(s.node, i) == if s.node[i].val != Nil then NodeKeys(s.node, i + 1) + {s.node[i].key.v}
      else NodeKeys(s.node, i + 1)
    ensures s.node[i].val != Nil ==> s.node[i].key.v !in ArrKeys(arr, |arr|) && s.node[i].key.v !in NodeKeys(s.node, i + 1)
  {
    if s.node[i].val != Nil {
      assert FreeAt(s, i);
      forall j | i + 1 <= j < |s.node| && s.node[j].val != Nil
        ensures s.node[j].key.v != s.node[i].key.v { assert UniqueAt(s, i, j) && FreeAt(s, j); }
    }
  }

  method NumUseHash(h: (Value, nat) -> nat, ghost arr: seq<Value>, ghost s: Hash, node: seq<Node>, nums: array<nat>)
    returns (totaluse: nat, ause: nat)
    requires HashOk(h, s) && s.node == node && Outside(node, |arr|) && Counts(nums[..], ArrKeys(arr, |arr|))
    modifies nums
    ensures Counts(nums[..], KeysOf(arr, node)) && totaluse == |NodeKeys(node, 0)|
    ensures |UpTo(KeysOf(arr, node), MAXASIZE)| == |UpTo(ArrKeys(arr, |arr|), MAXASIZE)| + ause
  {
    hide HashOk, Outside, Counts, NodeKeys, ArrKeys, UpTo;
    totaluse, ause := 0, 0;
    var i := |node|;
    ghost var a := ArrKeys(arr, |arr|);
    NodeStart(node, a);
    while i > 0
      invariant 0 <= i <= |node| && Counts(nums[..], a + NodeKeys(node, i)) && totaluse == |NodeKeys(node, i)|
      invariant |UpTo(a + NodeKeys(node, i), MAXASIZE)| == |UpTo(a, MAXASIZE)| + ause
    {
      i := i - 1;
      NodeNext(h, arr, s, i);
      if node[i].val != Nil {
        assert a + NodeKeys(node, i) == (a + NodeKeys(node, i + 1)) + {node[i].key.v};
        var c := CountInt(node[i].key.v, nums, a + NodeKeys(node, i + 1));
        ause := ause + c;
        totaluse := totaluse + 1;
      }
    }
  }

  lemma NodeStart(node: seq<Node>, a: set<Value>)
    ensures |NodeKeys(node, |node|)| == 0 && a + NodeKeys(node, |node|) == a
  {
    assert NodeKeys(node, |node|) == {};
  }

  lemma KeysSplit(h: (Value, nat) -> nat, arr: seq<Value>, s: Hash)
    requires HashOk(h, s) && Outside(s.node, |arr|)
    ensures |KeysOf(arr, s.node)| == |ArrKeys(arr, |arr|)| + |NodeKeys(s.node, 0)|
  {
    forall v | v in NodeKeys(s.node, 0) ensures v !in ArrKeys(arr, |arr|)
    {
      var i :| 0 <= i < |s.node| && s.node[i].val != Nil && s.node[i].key.v == v;
      assert FreeAt(s, i);
    }
    assert ArrKeys(arr, |arr|) !! NodeKeys(s.node, 0);
  }
}
