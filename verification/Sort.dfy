/** table.sort: the quicksort of ltablib.c, in place, under any strict weak order. Positions count from 0 here. */
module Sort {
  import opened Common

  // ---- orders ----

  ghost predicate StrictWeak<T(!new)>(lt: (T, T) -> bool) {
    (forall x :: !lt(x, x)) &&
    (forall x, y, z :: lt(x, y) && lt(y, z) ==> lt(x, z)) &&
    (forall x, y, z :: !lt(x, y) && !lt(y, x) && !lt(y, z) && !lt(z, y) ==> !lt(x, z) && !lt(z, x))
  }

  /** "not greater" is transitive. */
  lemma AtMostTrans<T(!new)>(lt: (T, T) -> bool, x: T, y: T, z: T)
    requires StrictWeak(lt) && !lt(y, x) && !lt(z, y)
    ensures !lt(z, x)
  {
    assert lt(z, x) && lt(x, y) ==> lt(z, y);
    assert lt(y, z) && lt(z, x) ==> lt(y, x);
    assert !lt(x, y) && !lt(y, x) && !lt(y, z) && !lt(z, y) ==> !lt(z, x);
  }

  lemma Asymmetric<T(!new)>(lt: (T, T) -> bool, x: T, y: T)
    requires StrictWeak(lt) && lt(x, y)
    ensures !lt(y, x)
  {
    assert lt(x, y) && lt(y, x) ==> lt(x, x);
  }

  // ---- what a pass may do to the range l..u ----

  /** t is s with the elements from l to u in some other order. */
  ghost predicate Perm<T>(s: seq<T>, t: seq<T>, l: int, u: int)
    requires 0 <= l <= u + 1 <= |s|
  {
    |t| == |s| && t[..l] == s[..l] && t[u + 1..] == s[u + 1..] && multiset(t[l..u + 1]) == multiset(s[l..u + 1])
  }

  lemma PermRefl<T>(s: seq<T>, l: int, u: int)
    requires 0 <= l <= u + 1 <= |s|
    ensures Perm(s, s, l, u)
  {
  }

  lemma PermTrans<T>(s: seq<T>, t: seq<T>, v: seq<T>, l: int, u: int)
    requires 0 <= l <= u + 1 <= |s| && Perm(s, t, l, u) && Perm(t, v, l, u)
    ensures Perm(s, v, l, u)
  {
  }

  lemma PermAt<T>(s: seq<T>, t: seq<T>, l: int, u: int, k: int)
    requires 0 <= l <= u + 1 <= |s| && Perm(s, t, l, u) && 0 <= k < |s|
    ensures !(l <= k <= u) ==> t[k] == s[k]
    ensures l <= k <= u ==> exists h :: l <= h <= u && s[h] == t[k]
  {
    if k < l { assert t[..l][k] == s[..l][k]; }
    else if k > u { assert t[u + 1..][k - u - 1] == s[u + 1..][k - u - 1]; }
    else {
      assert t[k] == t[l..u + 1][k - l];
      assert t[k] in multiset(t[l..u + 1]);
      assert t[k] in s[l..u + 1];
    }
  }

  /** A permutation of a part is one of the whole. */
  lemma PermWiden<T>(s: seq<T>, t: seq<T>, j: int, i: int, l: int, u: int)
    requires 0 <= l <= j <= i + 1 <= u + 1 <= |s| && Perm(s, t, j, i)
    ensures Perm(s, t, l, u)
  {
    assert s[l..u + 1] == s[l..j] + s[j..i + 1] + s[i + 1..u + 1];
    assert t[l..u + 1] == t[l..j] + t[j..i + 1] + t[i + 1..u + 1];
    assert t[..l] == t[..j][..l] && t[l..j] == t[..j][l..];
    assert s[..l] == s[..j][..l] && s[l..j] == s[..j][l..];
    assert t[u + 1..] == t[i + 1..][u - i..] && t[i + 1..u + 1] == t[i + 1..][..u - i];
    assert s[u + 1..] == s[i + 1..][u - i..] && s[i + 1..u + 1] == s[i + 1..][..u - i];
  }

  lemma SwapPerm<T>(s: seq<T>, i: int, j: int, l: int, u: int)
    requires 0 <= l <= u + 1 <= |s| && l <= i <= u && l <= j <= u
    ensures Perm(s, s[i := s[j]][j := s[i]], l, u)
  {
    var t := s[i := s[j]][j := s[i]];
    var m := s[l..u + 1];
    assert t[l..u + 1] == m[i - l := m[j - l]][j - l := m[i - l]];
  }

  method Swap<T>(a: array<T>, i: int, j: int, l: int, u: int)
    requires 0 <= l <= u + 1 <= a.Length && l <= i <= u && l <= j <= u
    modifies a
    ensures a[..] == old(a[..])[i := old(a[j])][j := old(a[i])]
    ensures Perm(old(a[..]), a[..], l, u)
  {
    a[i], a[j] := a[j], a[i];
    SwapPerm(old(a[..]), i, j, l, u);
  }

  // ---- the order of the elements ----

  /** No element from l to u is greater than a later one. */
  ghost predicate Sorted<T(!new)>(s: seq<T>, lt: (T, T) -> bool, l: int, u: int)
    requires 0 <= l <= u + 1 <= |s|
  {
    forall x, y :: l <= x < y <= u ==> !lt(s[y], s[x])
  }

  /** From lo to hi only pairs inside l..u may still be out of order. */
  ghost predicate Settled<T(!new)>(s: seq<T>, lt: (T, T) -> bool, lo: int, hi: int, l: int, u: int)
    requires 0 <= lo <= hi + 1 <= |s|
  {
    forall x, y :: lo <= x < y <= hi && !(l <= x && y <= u) ==> !lt(s[y], s[x])
  }

  lemma SettledPerm<T(!new)>(s: seq<T>, t: seq<T>, lt: (T, T) -> bool, lo: int, hi: int, l: int, u: int)
    requires 0 <= lo <= l <= u + 1 <= hi + 1 <= |s| && Settled(s, lt, lo, hi, l, u) && Perm(s, t, l, u)
    ensures Settled(t, lt, lo, hi, l, u)
  {
    forall x, y | lo <= x < y <= hi && !(l <= x && y <= u) ensures !lt(t[y], t[x]) {
      PermAt(s, t, l, u, x);
      PermAt(s, t, l, u, y);
    }
  }

  /** Everything below p is at most the element at p, and everything above at least. */
  ghost predicate Split<T(!new)>(s: seq<T>, lt: (T, T) -> bool, l: int, p: int, u: int)
    requires 0 <= l <= p <= u < |s|
  {
    (forall x :: l <= x < p ==> !lt(s[p], s[x])) && forall y :: p < y <= u ==> !lt(s[y], s[p])
  }

  lemma SplitPerm<T(!new)>(s: seq<T>, t: seq<T>, lt: (T, T) -> bool, l: int, p: int, u: int, j: int, i: int)
    requires 0 <= l <= p <= u < |s| && l <= j <= i + 1 && i <= u && (i < p || p < j)
    requires Split(s, lt, l, p, u) && Perm(s, t, j, i)
    ensures Split(t, lt, l, p, u)
  {
    PermAt(s, t, j, i, p);
    forall x | l <= x < p ensures !lt(t[p], t[x]) { PermAt(s, t, j, i, x); }
    forall y | p < y <= u ensures !lt(t[y], t[p]) { PermAt(s, t, j, i, y); }
  }

  /** One side of a split in order: what is left to do is the other side. */
  lemma SplitSettled<T(!new)>(s: seq<T>, lt: (T, T) -> bool, lo: int, hi: int, l: int, p: int, u: int, left: bool)
    requires StrictWeak(lt) && 0 <= lo <= l <= p <= u <= hi < |s|
    requires Settled(s, lt, lo, hi, l, u) && Split(s, lt, l, p, u)
    requires if left then Sorted(s, lt, l, p - 1) else Sorted(s, lt, p + 1, u)
    ensures if left then Settled(s, lt, lo, hi, p + 1, u) else Settled(s, lt, lo, hi, l, p - 1)
  {
    var l1, u1 := if left then p + 1 else l, if left then u else p - 1;
    forall x, y | lo <= x < y <= hi && !(l1 <= x && y <= u1) ensures !lt(s[y], s[x]) {
      if l <= x && y <= u && x < p && p < y { AtMostTrans(lt, s[x], s[p], s[y]); }
    }
  }

  // ---- the algorithm ----

  /** The element at l, the middle one and the one at u put in order; ranges of two or three are then sorted. */
  method OrderThree<T(!new)>(a: array<T>, lt: (T, T) -> bool, l: int, u: int)
    requires StrictWeak(lt) && 0 <= l < u < a.Length
    modifies a
    ensures Perm(old(a[..]), a[..], l, u)
    ensures u - l >= 2 ==> !lt(a[(l + u) / 2], a[l]) && !lt(a[u], a[(l + u) / 2])
    ensures !lt(a[u], a[l])
  {
    ghost var s := a[..];
    PermRefl(s, l, u);
    if lt(a[u], a[l]) {
      Asymmetric(lt, a[u], a[l]);
      Swap(a, l, u, l, u);
    }
    if u - l == 1 { return; }
    var i := (l + u) / 2;
    ghost var t := a[..];
    if lt(a[i], a[l]) {
      Asymmetric(lt, a[i], a[l]);
      AtMostTrans(lt, a[i], a[l], a[u]);
      Swap(a, i, l, l, u);
      PermTrans(s, t, a[..], l, u);
    } else if lt(a[u], a[i]) {
      Asymmetric(lt, a[u], a[i]);
      AtMostTrans(lt, a[l], a[u], a[i]);
      Swap(a, i, u, l, u);
      PermTrans(s, t, a[..], l, u);
    } else {
      AtMostTrans(lt, a[l], a[i], a[u]);
    }
  }

  /** The first scan: up from i to the first element not below the pivot. It ends at u - 1 at the latest. */
  method ScanUp<T(!new)>(a: array<T>, lt: (T, T) -> bool, i0: int, u: int, pivot: T) returns (i: int)
    requires StrictWeak(lt) && 0 <= i0 < u - 1 && u < a.Length && a[u - 1] == pivot
    ensures i0 < i <= u - 1 && !lt(a[i], pivot) && forall k :: i0 < k < i ==> lt(a[k], pivot)
  {
    i := i0 + 1;
    while lt(a[i], pivot)
      invariant i0 < i <= u - 1 && forall k :: i0 < k < i ==> lt(a[k], pivot)
      decreases u - i
    {
      if i > u { assert false; }
      i := i + 1;
    }
  }

  /** The second scan: down from j to the first element not above the pivot. It ends at l at the latest. */
  method ScanDown<T(!new)>(a: array<T>, lt: (T, T) -> bool, j0: int, l: int, pivot: T) returns (j: int)
    requires StrictWeak(lt) && 0 <= l < j0 < a.Length && !lt(pivot, a[l])
    ensures l <= j < j0 && !lt(pivot, a[j]) && forall k :: j < k < j0 ==> lt(pivot, a[k])
  {
    j := j0 - 1;
    while lt(pivot, a[j])
      invariant l <= j < j0 && forall k :: j < k < j0 ==> lt(pivot, a[k])
      decreases j
    {
      if j < l { assert false; }
      j := j - 1;
    }
  }

  /** The elements up to i are at most the pivot, and those from j on at least. */
  ghost predicate Sides<T(!new)>(s: seq<T>, lt: (T, T) -> bool, pivot: T, l: int, i: int, j: int, u: int)
    requires 0 <= l && i < |s| && 0 <= j && u < |s|
  {
    (forall k :: l <= k <= i ==> !lt(pivot, s[k])) && forall k :: j <= k <= u ==> !lt(s[k], pivot)
  }

  lemma SidesGrow<T(!new)>(s: seq<T>, lt: (T, T) -> bool, pivot: T, l: int, i: int, j: int, u: int, i1: int, j1: int)
    requires StrictWeak(lt) && 0 <= l <= i < i1 <= u < |s| && l <= j1 < j <= u && Sides(s, lt, pivot, l, i, j, u)
    requires forall k :: i < k < i1 ==> lt(s[k], pivot)
    requires forall k :: j1 < k < j ==> lt(pivot, s[k])
    ensures Sides(s, lt, pivot, l, i1 - 1, j1 + 1, u)
  {
    forall k | i < k < i1 ensures !lt(pivot, s[k]) { Asymmetric(lt, s[k], pivot); }
    forall k | j1 < k < j ensures !lt(s[k], pivot) { Asymmetric(lt, pivot, s[k]); }
  }

  lemma SidesSwap<T(!new)>(s: seq<T>, lt: (T, T) -> bool, pivot: T, l: int, i: int, j: int, u: int)
    requires 0 <= l <= i <= j <= u < |s| && Sides(s, lt, pivot, l, i - 1, j + 1, u)
    requires !lt(s[i], pivot) && !lt(pivot, s[j])
    ensures Sides(s[i := s[j]][j := s[i]], lt, pivot, l, i, j, u)
  {
  }

  /** The pivot comes to the place where the scans met. */
  lemma SidesSplit<T(!new)>(s: seq<T>, lt: (T, T) -> bool, pivot: T, l: int, i: int, u: int)
    requires 0 <= l < i < u < |s| && s[u - 1] == pivot && Sides(s, lt, pivot, l, i - 1, i, u)
    ensures Split(s[u - 1 := s[i]][i := s[u - 1]], lt, l, i, u)
  {
  }

  /** One round of the partition: both scans, and the exchange if they have not met. */
  method Round<T(!new)>(a: array<T>, lt: (T, T) -> bool, l: int, i0: int, j0: int, u: int, pivot: T)
    returns (i: int, j: int)
    requires StrictWeak(lt) && 0 <= l <= i0 <= j0 <= u - 1 && i0 < u - 1 && l < j0 && u < a.Length && a[u - 1] == pivot
    requires Sides(a[..], lt, pivot, l, i0, j0, u)
    modifies a
    ensures i0 < i <= u - 1 && l <= j < j0 && a[u - 1] == pivot && Perm(old(a[..]), a[..], l, u)
    ensures j < i ==> Sides(a[..], lt, pivot, l, i - 1, i, u)
    ensures i <= j ==> Sides(a[..], lt, pivot, l, i, j, u)
  {
    hide Perm, StrictWeak;
    ghost var s := a[..];
    i := ScanUp(a, lt, i0, u, pivot);
    assert !lt(pivot, s[l]);
    j := ScanDown(a, lt, j0, l, pivot);
    SidesGrow(s, lt, pivot, l, i0, j0, u, i, j);
    PermRefl(s, l, u);
    if j < i { return; }
    SidesSwap(s, lt, pivot, l, i, j, u);
    Swap(a, i, j, l, u);
  }

  lemma SidesStart<T(!new)>(s: seq<T>, lt: (T, T) -> bool, l: int, u: int)
    requires StrictWeak(lt) && 0 <= l < u < |s| && !lt(s[u - 1], s[l]) && !lt(s[u], s[u - 1])
    ensures Sides(s, lt, s[u - 1], l, l, u - 1, u)
  {
  }

  /** The partition: the pivot waits at u - 1, and ends at p with its sides around it. */
  method Partition<T(!new)>(a: array<T>, lt: (T, T) -> bool, l: int, u: int) returns (p: int)
    requires StrictWeak(lt) && 0 <= l && l + 3 <= u < a.Length && !lt(a[u - 1], a[l]) && !lt(a[u], a[u - 1])
    modifies a
    ensures l < p < u && Perm(old(a[..]), a[..], l, u) && Split(a[..], lt, l, p, u)
  {
    hide Perm, Split, Sides, StrictWeak;
    ghost var s := a[..];
    var pivot, i, j := a[u - 1], l, u - 1;
    PermRefl(s, l, u);
    SidesStart(s, lt, l, u);
    while true
      invariant l <= i <= j <= u - 1 && i < u - 1 && l < j && a[u - 1] == pivot
      invariant Perm(s, a[..], l, u) && Sides(a[..], lt, pivot, l, i, j, u)
      decreases u - i
    {
      ghost var t := a[..];
      i, j := Round(a, lt, l, i, j, u, pivot);
      PermTrans(s, t, a[..], l, u);
      if j < i { break; }
    }
    ghost var t := a[..];
    SidesSplit(t, lt, pivot, l, i, u);
    Swap(a, u - 1, i, l, u);
    PermTrans(s, t, a[..], l, u);
    p := i;
  }

  function Log2(n: int): nat { if n <= 1 then 0 else 1 + Log2(n / 2) }

  lemma {:induction false} Log2Mono(m: int, n: int)
    requires m <= n
    ensures Log2(m) <= Log2(n)
    decreases n
  {
    if n > 1 && m > 1 { Log2Mono(m / 2, n / 2); }
  }

  lemma HalfDepth(small: int, n: int)
    requires n >= 2 && 2 * small <= n
    ensures 1 + Log2(small) <= Log2(n)
  {
    Log2Mono(small, n / 2);
  }

  lemma SortedTwo<T(!new)>(s: seq<T>, lt: (T, T) -> bool, l: int)
    requires 0 <= l < |s| - 1 && !lt(s[l + 1], s[l])
    ensures Sorted(s, lt, l, l + 1)
  {
  }

  lemma SortedThree<T(!new)>(s: seq<T>, lt: (T, T) -> bool, l: int)
    requires 0 <= l < |s| - 2 && !lt(s[l + 1], s[l]) && !lt(s[l + 2], s[l + 1]) && !lt(s[l + 2], s[l])
    ensures Sorted(s, lt, l, l + 2)
  {
  }

  /** One pass over a range: it is in order already, or split by an element at p. */
  method Divide<T(!new)>(a: array<T>, lt: (T, T) -> bool, l: int, u: int) returns (p: int, done: bool)
    requires StrictWeak(lt) && 0 <= l < u < a.Length
    modifies a
    ensures Perm(old(a[..]), a[..], l, u)
    ensures if done then Sorted(a[..], lt, l, u) else l < p < u && Split(a[..], lt, l, p, u)
  {
    hide Perm, Split, StrictWeak, Sorted;
    ghost var s := a[..];
    p, done := l, true;
    OrderThree(a, lt, l, u);
    if u - l == 1 {
      SortedTwo(a[..], lt, l);
      return;
    }
    if u - l == 2 {
      SortedThree(a[..], lt, l);
      return;
    }
    done := false;
    ghost var t := a[..];
    Swap(a, (l + u) / 2, u - 1, l, u);
    PermTrans(s, t, a[..], l, u);
    ghost var v := a[..];
    p := Partition(a, lt, l, u);
    PermTrans(s, v, a[..], l, u);
  }

  lemma Divided<T(!new)>(s: seq<T>, t: seq<T>, v: seq<T>, lt: (T, T) -> bool, lo: int, hi: int, l: int, u: int)
    requires 0 <= lo <= l <= u + 1 <= hi + 1 <= |s|
    requires Perm(s, t, lo, hi) && Settled(t, lt, lo, hi, l, u) && Perm(t, v, l, u)
    ensures Perm(s, v, lo, hi) && Settled(v, lt, lo, hi, l, u)
    ensures Sorted(v, lt, l, u) ==> Sorted(v, lt, lo, hi)
  {
    PermWiden(t, v, l, u, lo, hi);
    PermTrans(s, t, v, lo, hi);
    SettledPerm(t, v, lt, lo, hi, l, u);
  }

  /** The side from j to i has been sorted: the other side is what is left. */
  lemma Narrowed<T(!new)>(s: seq<T>, t: seq<T>, v: seq<T>, lt: (T, T) -> bool, lo: int, hi: int, l: int, p: int,
    u: int, left: bool)
    requires StrictWeak(lt) && 0 <= lo <= l < p < u <= hi < |s|
    requires Perm(s, t, lo, hi) && Settled(t, lt, lo, hi, l, u) && Split(t, lt, l, p, u)
    requires if left then Perm(t, v, l, p - 1) && Sorted(v, lt, l, p - 1) else Perm(t, v, p + 1, u) && Sorted(v, lt, p + 1, u)
    ensures Perm(s, v, lo, hi)
    ensures if left then Settled(v, lt, lo, hi, p + 1, u) else Settled(v, lt, lo, hi, l, p - 1)
  {
    hide Settled, Split, Sorted, StrictWeak;
    var j, i := if left then l else p + 1, if left then p - 1 else u;
    PermWiden(t, v, j, i, l, u);
    Divided(s, t, v, lt, lo, hi, l, u);
    SplitPerm(t, v, lt, l, p, u, j, i);
    SplitSettled(v, lt, lo, hi, l, p, u, left);
  }

  lemma AllLeft<T(!new)>(s: seq<T>, lt: (T, T) -> bool, lo: int, hi: int)
    requires 0 <= lo <= hi + 1 <= |s|
    ensures Settled(s, lt, lo, hi, lo, hi)
  {
  }

  lemma NoneLeft<T(!new)>(s: seq<T>, lt: (T, T) -> bool, lo: int, hi: int, l: int, u: int)
    requires 0 <= lo <= hi + 1 <= |s| && u <= l && Settled(s, lt, lo, hi, l, u)
    ensures Sorted(s, lt, lo, hi)
  {
  }

  /**
   * auxsort: the range from lo to hi in order. depth counts the recursive calls active at once; the smaller
   * side is the one sorted by a call, so that it stays below the logarithm of the range.
   */
  method AuxSort<T(!new)>(a: array<T>, lt: (T, T) -> bool, lo: int, hi: int) returns (ghost depth: nat)
    requires StrictWeak(lt) && 0 <= lo <= hi + 1 <= a.Length
    modifies a
    ensures Perm(old(a[..]), a[..], lo, hi) && Sorted(a[..], lt, lo, hi)
    ensures depth <= Log2(hi - lo + 1)
    decreases hi - lo + 1
  {
    hide Perm, Settled, Split, Sorted, Log2, StrictWeak;
    var l, u := lo, hi;
    ghost var s := a[..];
    depth := 0;
    PermRefl(s, lo, hi);
    AllLeft(s, lt, lo, hi);
    while l < u
      invariant lo <= l <= u + 1 <= hi + 1 && Perm(s, a[..], lo, hi) && Settled(a[..], lt, lo, hi, l, u)
      invariant depth <= Log2(hi - lo + 1)
      decreases u - l
    {
      ghost var t := a[..];
      var p, done := Divide(a, lt, l, u);
      Divided(s, t, a[..], lt, lo, hi, l, u);
      if done { return; }
      t := a[..];
      ghost var l0, u0, left := l, u, p - l < u - p;
      var i, j;
      if p - l < u - p {
        j, i, l := l, p - 1, p + 1;
      } else {
        j, i, u := p + 1, u, p - 1;
      }
      ghost var d := AuxSort(a, lt, j, i);
      HalfDepth(i - j + 1, hi - lo + 1);
      depth := if 1 + d > depth then 1 + d else depth;
      Narrowed(s, t, a[..], lt, lo, hi, l0, p, u0, left);
    }
    NoneLeft(a[..], lt, lo, hi, l, u);
  }

  /** table.sort: the same elements, none before a smaller one. */
  method SortAll<T(!new)>(a: array<T>, lt: (T, T) -> bool) returns (ghost depth: nat)
    requires StrictWeak(lt)
    modifies a
    ensures multiset(a[..]) == multiset(old(a[..]))
    ensures forall x, y :: 0 <= x < y < a.Length ==> !lt(a[y], a[x])
    ensures depth <= Log2(a.Length)
  {
    depth := AuxSort(a, lt, 0, a.Length - 1);
    assert a[..] == a[0..a.Length - 1 + 1] && old(a[..]) == old(a[..])[0..a.Length - 1 + 1];
  }

  /** Log2 is the logarithm to base two, rounded down. */
  lemma {:induction false} Log2Bound(n: int)
    requires n >= 1
    ensures Pow2(Log2(n)) <= n < 2 * Pow2(Log2(n))
    decreases n
  {
    if n > 1 { Log2Bound(n / 2); }
  }
}
