/** The string table of lstring.c: interning in hash buckets that grow, shrink, and are swept by the collector. */
module Strings {
  import opened Common

  type Id = nat

  /** white is 0 or 1, or 2 for a string that the collector has marked. */
  datatype TString = TString(text: seq<Byte>, hash: nat, white: nat, fixed: bool)

  const MINSIZE := 32

  predicate IsPow2(n: int)
    decreases n
  {
    n == 1 || (n > 1 && n % 2 == 0 && IsPow2(n / 2))
  }

  // ---- buckets ----

  /** All the strings of the buckets. */
  ghost function Items(h: seq<seq<Id>>): multiset<Id> { if h == [] then multiset{} else multiset(h[0]) + Items(h[1..]) }

  lemma {:induction false} ItemsUpdate(h: seq<seq<Id>>, b: nat, v: seq<Id>)
    requires b < |h|
    ensures Items(h[b := v]) + multiset(h[b]) == Items(h) + multiset(v)
    decreases |h|
  {
    var u := h[b := v];
    if b == 0 {
      assert u[0] == v && u[1..] == h[1..];
      assert multiset(v) + Items(h[1..]) + multiset(h[b]) == multiset(h[b]) + Items(h[1..]) + multiset(v);
    } else {
      assert u[0] == h[0] && u[1..] == h[1..][b - 1 := v];
      ItemsUpdate(h[1..], b - 1, v);
      var m, w := Items(h[1..][b - 1 := v]), Items(h[1..]);
      assert multiset(h[0]) + m + multiset(h[b]) == multiset(h[0]) + (m + multiset(h[b]));
      assert multiset(h[0]) + w + multiset(v) == multiset(h[0]) + (w + multiset(v));
    }
  }

  lemma {:induction false} ItemsMember(h: seq<seq<Id>>, x: Id)
    ensures x in Items(h) <==> exists b :: 0 <= b < |h| && x in h[b]
    decreases |h|
  {
    if h != [] {
      ItemsMember(h[1..], x);
      assert x in Items(h) <==> x in h[0] || x in Items(h[1..]);
      if x in Items(h[1..]) {
        var b :| 0 <= b < |h[1..]| && x in h[1..][b];
        assert x in h[b + 1];
      }
      if b :| 0 < b < |h| && x in h[b] { assert x in h[1..][b - 1]; }
    }
  }

  lemma {:induction false} ItemsNone(h: seq<seq<Id>>)
    requires forall b :: 0 <= b < |h| ==> h[b] == []
    ensures Items(h) == multiset{}
  {
    if h != [] { ItemsNone(h[1..]); }
  }

  /** Every string lies in the bucket of its hash. */
  ghost predicate Homes(h: seq<seq<Id>>, strs: map<Id, TString>) {
    forall b, i :: 0 <= b < |h| && 0 <= i < |h[b]| ==> h[b][i] in strs && strs[h[b][i]].hash % |h| == b
  }

  /** A string put in front of its bucket. */
  lemma Chained(h: seq<seq<Id>>, strs: map<Id, TString>, x: Id)
    requires |h| > 0 && Homes(h, strs) && x in strs
    ensures var b := strs[x].hash % |h|; Homes(h[b := [x] + h[b]], strs) && Items(h[b := [x] + h[b]]) == Items(h) + multiset{x}
  {
    var b := strs[x].hash % |h|;
    ItemsFront(h, b, x);
    hide Items;
    var u := h[b := [x] + h[b]];
    forall c, i | 0 <= c < |u| && 0 <= i < |u[c]| ensures u[c][i] in strs && strs[u[c][i]].hash % |u| == c {
      if c != b { assert u[c] == h[c]; } else if i > 0 { assert u[c][i] == h[c][i - 1]; }
    }
  }

  lemma Given<T>(m: multiset<T>, t: multiset<T>, v: multiset<T>, x: T)
    requires m + v == t + (multiset{x} + v)
    ensures m == t + multiset{x}
  {
    forall y ensures m[y] == (t + multiset{x})[y] { assert (m + v)[y] == (t + (multiset{x} + v))[y]; }
  }

  lemma ItemsFront(h: seq<seq<Id>>, b: nat, x: Id)
    requires b < |h|
    ensures Items(h[b := [x] + h[b]]) == Items(h) + multiset{x}
  {
    hide Items;
    ItemsUpdate(h, b, [x] + h[b]);
    assert multiset([x] + h[b]) == multiset{x} + multiset(h[b]);
    Given(Items(h[b := [x] + h[b]]), Items(h), multiset(h[b]), x);
  }

  /** No content twice, no string twice, and hashes that depend on the content alone. */
  ghost predicate Unique(ms: multiset<Id>, strs: map<Id, TString>, hashOf: seq<Byte> -> nat) {
    (forall x :: x in ms ==> x in strs && ms[x] == 1 && strs[x].hash == hashOf(strs[x].text)) &&
    forall x, y :: x in ms && y in ms && strs[x].text == strs[y].text ==> x == y
  }

  /** The string with this text, if there is one, is in the bucket where it is looked for. */
  lemma Located(h: seq<seq<Id>>, strs: map<Id, TString>, hashOf: seq<Byte> -> nat, x: Id)
    requires Homes(h, strs) && Unique(Items(h), strs, hashOf) && x in Items(h)
    ensures x in h[hashOf(strs[x].text) % |h|]
  {
    ItemsMember(h, x);
    var b :| 0 <= b < |h| && x in h[b];
    var i :| 0 <= i < |h[b]| && h[b][i] == x;
  }

  // ---- the whole table, on values ----

  ghost predicate Good(h: seq<seq<Id>>, strs: map<Id, TString>, nuse: int, next: Id, hashOf: seq<Byte> -> nat) {
    |h| > 0 && Homes(h, strs) && Unique(Items(h), strs, hashOf) && nuse == |Items(h)| &&
    forall x :: x in strs ==> x < next && x in Items(h)
  }

  lemma GoodKnown(h: seq<seq<Id>>, strs: map<Id, TString>, nuse: int, next: Id, hashOf: seq<Byte> -> nat)
    requires Good(h, strs, nuse, next, hashOf)
    ensures forall x :: x in strs <==> x in Items(h)
    ensures forall x, y :: x in strs && y in strs && strs[x].text == strs[y].text ==> x == y
    ensures forall x :: x in strs ==> x < next
    ensures forall b, k :: 0 <= b < |h| && 0 <= k < |h[b]| ==> h[b][k] in strs
  {
  }

  /** A string with this text can only be in the bucket of its hash. */
  lemma GoodSearch(h: seq<seq<Id>>, strs: map<Id, TString>, nuse: int, next: Id, hashOf: seq<Byte> -> nat,
    str: seq<Byte>)
    requires Good(h, strs, nuse, next, hashOf)
    requires forall k :: 0 <= k < |h[hashOf(str) % |h|]| ==>
      h[hashOf(str) % |h|][k] in strs && strs[h[hashOf(str) % |h|][k]].text != str
    ensures forall x :: x in strs ==> strs[x].text != str
  {
    forall x | x in strs ensures strs[x].text != str { if strs[x].text == str { Located(h, strs, hashOf, x); } }
  }

  lemma GoodPaint(h: seq<seq<Id>>, strs: map<Id, TString>, nuse: int, next: Id, hashOf: seq<Byte> -> nat, x: Id,
    white: nat)
    requires Good(h, strs, nuse, next, hashOf) && x in strs
    ensures Good(h, strs[x := strs[x].(white := white)], nuse, next, hashOf)
  {
    hide Items;
  }

  lemma GoodFix(h: seq<seq<Id>>, strs: map<Id, TString>, nuse: int, next: Id, hashOf: seq<Byte> -> nat, x: Id)
    requires Good(h, strs, nuse, next, hashOf) && x in strs
    ensures Good(h, strs[x := strs[x].(fixed := true)], nuse, next, hashOf)
  {
    hide Items;
  }

  lemma GoodEnter(h: seq<seq<Id>>, strs: map<Id, TString>, nuse: int, next: Id, hashOf: seq<Byte> -> nat, s: TString)
    requires Good(h, strs, nuse, next, hashOf) && s.hash == hashOf(s.text) && forall x :: x in strs ==>
      strs[x].text != s.text
    ensures
      var b := s.hash % |h|;
      var u := h[b := [next] + h[b]];
      Good(u, strs[next := s], nuse + 1, next + 1, hashOf) && Items(u) == Items(h) + multiset{next}
  {
    hide Items;
    var more := strs[next := s];
    assert Homes(h, more);
    Chained(h, more, next);
    assert Unique(Items(h) + multiset{next}, more, hashOf);
  }

  lemma GoodRechain(h: seq<seq<Id>>, u: seq<seq<Id>>, strs: map<Id, TString>, nuse: int, next: Id,
    hashOf: seq<Byte> -> nat)
    requires Good(h, strs, nuse, next, hashOf) && |u| > 0 && Homes(u, strs) && Items(u) == Items(h)
    ensures Good(u, strs, nuse, next, hashOf)
  {
  }

  /** A string taken out of its bucket, and freed. */
  lemma GoodFree(h: seq<seq<Id>>, strs: map<Id, TString>, nuse: int, next: Id, hashOf: seq<Byte> -> nat, b: nat, i: nat)
    requires Good(h, strs, nuse, next, hashOf) && b < |h| && i < |h[b]|
    ensures
      var x := h[b][i];
      var u := h[b := h[b][..i] + h[b][i + 1..]];
      Good(u, strs - {x}, nuse - 1, next, hashOf) && Items(u) == Items(h) - multiset{x} && x in strs
  {
    var x := h[b][i];
    FreedItems(h, b, i);
    ItemsMember(h, x);
    hide Items, Homes;
    FreedHomes(h, strs, b, i, Items(h) - multiset{x}, hashOf);
    InHome(h, strs, b);
    FreedUnique(Items(h), strs, x, hashOf);
  }

  lemma FreedUnique(ms: multiset<Id>, strs: map<Id, TString>, x: Id, hashOf: seq<Byte> -> nat)
    requires Unique(ms, strs, hashOf) && x in ms
    ensures Unique(ms - multiset{x}, strs - {x}, hashOf) && |ms - multiset{x}| == |ms| - 1
    ensures forall y :: y in strs - {x} && y in ms ==> y in ms - multiset{x}
  {
  }

  lemma FreedItems(h: seq<seq<Id>>, b: nat, i: nat)
    requires b < |h| && i < |h[b]|
    ensures Items(h[b := h[b][..i] + h[b][i + 1..]]) == Items(h) - multiset{h[b][i]}
  {
    var x, v := h[b][i], h[b][..i] + h[b][i + 1..];
    ItemsUpdate(h, b, v);
    hide Items;
    WithOut(h[b], i);
    Taken(Items(h[b := v]), Items(h), multiset(v), x);
  }

  lemma WithOut<T>(s: seq<T>, i: nat)
    requires i < |s|
    ensures multiset(s) == multiset(s[..i] + s[i + 1..]) + multiset{s[i]}
  {
    assert s == s[..i] + [s[i]] + s[i + 1..];
  }

  lemma Taken<T>(m: multiset<T>, t: multiset<T>, v: multiset<T>, x: T)
    requires m + (v + multiset{x}) == t + v
    ensures m == t - multiset{x}
  {
    forall y ensures m[y] == (t - multiset{x})[y] { assert (m + (v + multiset{x}))[y] == (t + v)[y]; }
  }

  lemma FreedHomes(h: seq<seq<Id>>, strs: map<Id, TString>, b: nat, i: nat, left: multiset<Id>,
    hashOf: seq<Byte> -> nat)
    requires Homes(h, strs) && Unique(Items(h), strs, hashOf) && b < |h| && i < |h[b]|
    requires left == Items(h) - multiset{h[b][i]} && left == Items(h[b := h[b][..i] + h[b][i + 1..]])
    ensures Homes(h[b := h[b][..i] + h[b][i + 1..]], strs - {h[b][i]})
  {
    var u := h[b := h[b][..i] + h[b][i + 1..]];
    forall c, k | 0 <= c < |u| && 0 <= k < |u[c]|
      ensures u[c][k] in strs - {h[b][i]} && strs[u[c][k]].hash % |u| == c
    {
      FreedOther(h, strs, b, i, left, hashOf, c, k);
      FreedFrom(h, b, i, c, k);
    }
  }

  /** What is left in the buckets is not the string that was freed. */
  lemma FreedOther(h: seq<seq<Id>>, strs: map<Id, TString>, b: nat, i: nat, left: multiset<Id>,
    hashOf: seq<Byte> -> nat, c: nat, k: nat)
    requires Unique(Items(h), strs, hashOf) && b < |h| && i < |h[b]|
    requires left == Items(h) - multiset{h[b][i]} && left == Items(h[b := h[b][..i] + h[b][i + 1..]])
    requires var u := h[b := h[b][..i] + h[b][i + 1..]]; c < |u| && k < |u[c]|
    ensures h[b := h[b][..i] + h[b][i + 1..]][c][k] != h[b][i]
  {
    var u := h[b := h[b][..i] + h[b][i + 1..]];
    ItemsMember(h, h[b][i]);
    ItemsMember(u, u[c][k]);
    hide Items;
    assert u[c][k] in left;
  }

  /** What is left in a bucket was there before. */
  lemma FreedFrom(h: seq<seq<Id>>, b: nat, i: nat, c: nat, k: nat)
    requires b < |h| && i < |h[b]|
    requires var u := h[b := h[b][..i] + h[b][i + 1..]]; c < |u| && k < |u[c]|
    ensures exists m :: 0 <= m < |h[c]| && h[c][m] == h[b := h[b][..i] + h[b][i + 1..]][c][k]
  {
    var u := h[b := h[b][..i] + h[b][i + 1..]];
    var m := if c == b && k >= i then k + 1 else k;
    assert h[c][m] == u[c][k];
  }

  lemma InHome(h: seq<seq<Id>>, strs: map<Id, TString>, b: nat)
    requires Homes(h, strs) && b < |h|
    ensures forall k :: 0 <= k < |h[b]| ==> h[b][k] in strs
  {
  }

  // ---- sweeping, on values ----

  /** Dead, and not one of the strings that are never collected. */
  predicate Doomed(s: TString, currentwhite: nat) { s.white == 1 - currentwhite && !s.fixed }

  /** What becomes of a string when the sweep passes: gone, or painted with the white of the next cycle. */
  ghost predicate Passed(s0: map<Id, TString>, s1: map<Id, TString>, x: Id, white: nat)
    requires x in s0
  {
    if s0[x].white == 1 - white && !s0[x].fixed then x !in s1
    else x in s1 && s1[x] == s0[x].(white := white)
  }

  /** Of the strings at home in bucket b those that are not in left have been swept; no other string has changed. */
  ghost predicate BucketSwept(s0: map<Id, TString>, s1: map<Id, TString>, left: seq<Id>, b: nat, size: nat, white: nat)
    requires size > 0
  {
    (forall x :: x in s1 ==> x in s0) &&
    forall x :: x in s0 ==> if s0[x].hash % size == b && x !in left then Passed(s0, s1, x, white) else x in s1 && s1[x] == s0[x]
  }

  lemma SweptOne(s0: map<Id, TString>, s1: map<Id, TString>, s2: map<Id, TString>, x: Id, left: seq<Id>, b: nat,
    size: nat, white: nat)
    requires size > 0 && BucketSwept(s0, s1, [x] + left, b, size, white) && x !in left && x in s0 &&
      s0[x].hash % size == b
    requires x in s1 && s2 == if Doomed(s1[x], white) then s1 - {x} else s1[x := s1[x].(white := white)]
    ensures BucketSwept(s0, s2, left, b, size, white)
  {
    assert x in [x] + left;
    forall y | y in s0 ensures if s0[y].hash % size == b && y !in left then Passed(s0, s2, y, white) else y in s2 && s2[y] == s0[y] {
      if y != x { assert y in [x] + left <==> y in left; }
    }
  }

  lemma SweptNone(h: seq<seq<Id>>, strs: map<Id, TString>, nuse: int, next: Id, hashOf: seq<Byte> -> nat, b: nat,
    white: nat)
    requires Good(h, strs, nuse, next, hashOf) && b < |h|
    ensures BucketSwept(strs, strs, h[b], b, |h|, white) && NoDup(h[b])
    ensures forall k :: 0 <= k < |h[b]| ==> h[b][k] in strs && strs[h[b][k]].hash % |h| == b
  {
    forall x | x in strs && strs[x].hash % |h| == b ensures x in h[b] { Located(h, strs, hashOf, x); }
    BucketNoDup(h, strs, hashOf, b);
  }

  lemma BucketNoDup(h: seq<seq<Id>>, strs: map<Id, TString>, hashOf: seq<Byte> -> nat, b: nat)
    requires Unique(Items(h), strs, hashOf) && b < |h|
    ensures NoDup(h[b])
  {
    BucketItems(h, b);
    hide Items;
    forall i, j | 0 <= i < j < |h[b]| ensures h[b][i] != h[b][j] {
      if h[b][i] == h[b][j] { Twice(h[b], i, j); }
    }
  }

  lemma {:induction false} BucketItems(h: seq<seq<Id>>, b: nat)
    requires b < |h|
    ensures multiset(h[b]) <= Items(h)
    decreases b
  {
    if b > 0 { BucketItems(h[1..], b - 1); }
  }

  lemma Twice<T>(s: seq<T>, i: nat, j: nat)
    requires i < j < |s| && s[i] == s[j]
    ensures multiset(s)[s[i]] >= 2
  {
    assert s == s[..j] + [s[j]] + s[j + 1..];
    assert s[i] == s[..j][i] && s[i] in multiset(s[..j]);
  }

  lemma GoodNone(h: seq<seq<Id>>, hashOf: seq<Byte> -> nat)
    requires |h| > 0 && forall b :: 0 <= b < |h| ==> h[b] == []
    ensures Good(h, map[], 0, 0, hashOf) && Items(h) == multiset{}
  {
    ItemsNone(h);
  }

  class StringTable {
    var strs: map<Id, TString>
    var hash: array<seq<Id>>
    var nuse: int
    var next: Id
    var currentwhite: nat
    var sweeping: bool
    var sweepstrgc: nat
    const hashOf: seq<Byte> -> nat

    ghost function Table(): multiset<Id>
      reads this, hash
    {
      Items(hash[..])
    }

    ghost predicate Valid()
      reads this, hash
    {
      Good(hash[..], strs, nuse, next, hashOf) && IsPow2(hash.Length) && currentwhite < 2 &&
        (sweeping ==> sweepstrgc < hash.Length)
    }

    predicate IsDead(x: Id)
      requires x in strs
      reads this
    {
      strs[x].white == 1 - currentwhite
    }

    constructor (hashOf: seq<Byte> -> nat)
      ensures Valid() && fresh(hash) && strs == map[] && this.hashOf == hashOf && !sweeping && hash.Length == MINSIZE
    {
      strs, nuse, next, currentwhite, sweeping, sweepstrgc := map[], 0, 0, 0, false, 0;
      hash := new seq<Id>[MINSIZE](_ => []);
      this.hashOf := hashOf;
      new;
      GoodNone(hash[..], hashOf);
    }

    /** One list of luaS_resize, chained string by string to the new buckets. */
    method RechainList(h: array<seq<Id>>, list: seq<Id>)
      requires h.Length > 0 && h != hash && Homes(h[..], strs) && forall k :: 0 <= k < |list| ==> list[k] in strs
      modifies h
      ensures Homes(h[..], strs) && Items(h[..]) == old(Items(h[..])) + multiset(list)
    {
      hide Homes, Items;
      var p := list;
      while |p| > 0
        invariant Homes(h[..], strs) && Items(h[..]) + multiset(p) == old(Items(h[..])) + multiset(list)
        invariant forall k :: 0 <= k < |p| ==> p[k] in strs
      {
        var h1 := strs[p[0]].hash % h.Length;
        Chained(h[..], strs, p[0]);
        assert p == [p[0]] + p[1..];
        h[h1] := [p[0]] + h[h1];
        p := p[1..];
      }
    }

    /** The loops of luaS_resize: every string in its new bucket. */
    method Rechain(size: nat) returns (h: array<seq<Id>>)
      requires Homes(hash[..], strs) && size > 0
      ensures fresh(h) && h.Length == size && Homes(h[..], strs) && Items(h[..]) == Table()
    {
      h := new seq<Id>[size](_ => []);
      ItemsNone(h[..]);
      ghost var all := hash[..];
      assert Homes(h[..], strs);
      var i := 0;
      assert all[0..] == all;
      while i < hash.Length
        modifies h
        invariant 0 <= i <= hash.Length && Homes(h[..], strs) && Items(h[..]) + Items(all[i..]) == Table()
      {
        hide Homes;
        assert all[i..][1..] == all[i + 1..];
        assert forall k :: 0 <= k < |hash[i]| ==> hash[i][k] in strs by { InHome(all, strs, i); }
        RechainList(h, hash[i]);
        i := i + 1;
      }
    }

    /** luaS_resize: the same strings in a table of another size, unless the table is being swept. */
    method Resize(newsize: nat)
      requires Valid() && newsize > 0 && IsPow2(newsize)
      modifies this`hash
      ensures Valid() && Table() == old(Table())
      ensures if sweeping then hash == old(hash) else fresh(hash) && hash.Length == newsize
    {
      hide IsPow2, Items;
      if sweeping { return; }
      var h := Rechain(newsize);
      GoodRechain(hash[..], h[..], strs, nuse, next, hashOf);
      hash := h;
    }

    /** changewhite, stringmark, or another change of colour. */
    method Paint(x: Id, white: nat)
      requires Valid() && x in strs
      modifies this`strs
      ensures Valid() && strs == old(strs)[x := old(strs[x]).(white := white)]
    {
      hide Good, IsPow2;
      GoodPaint(hash[..], strs, nuse, next, hashOf, x, white);
      strs := strs[x := strs[x].(white := white)];
    }

    /** luaS_fix: a string that is never collected. */
    method Fix(x: Id)
      requires Valid() && x in strs
      modifies this`strs
      ensures Valid() && strs == old(strs)[x := old(strs[x]).(fixed := true)]
    {
      hide Good, IsPow2;
      GoodFix(hash[..], strs, nuse, next, hashOf, x);
      strs := strs[x := strs[x].(fixed := true)];
    }

    /** newlstr, the entry in the table. */
    method Enter(str: seq<Byte>) returns (r: Id)
      requires Valid() && forall x :: x in strs ==> strs[x].text != str
      modifies this`strs, this`nuse, this`next, hash
      ensures Valid() && r !in old(strs) && strs == old(strs)[r := TString(str, hashOf(str), currentwhite, false)]
      ensures r == old(next) && next == r + 1 && nuse == old(nuse) + 1
    {
      hide IsPow2, Items, Homes, Unique;
      r := next;
      ghost var was := hash[..];
      var s := TString(str, hashOf(str), currentwhite, false);
      GoodEnter(was, strs, nuse, next, hashOf, s);
      var b := s.hash % hash.Length;
      strs, next, nuse := strs[r := s], next + 1, nuse + 1;
      hash[b] := [r] + hash[b];
      assert hash[..] == was[b := [r] + was[b]];
    }

    /** newlstr */
    method NewLStr(str: seq<Byte>) returns (r: Id)
      requires Valid() && forall x :: x in strs ==> strs[x].text != str
      modifies this`strs, this`nuse, this`next, this`hash, hash
      ensures nuse == old(nuse) + 1
      ensures hash.Length == if !sweeping && nuse > old(hash.Length) && old(hash.Length) <= 0x3FFF_FFFE
        then 2 * old(hash.Length)
        else old(hash.Length)
      ensures Valid() && r !in old(strs) && strs == old(strs)[r := TString(str, hashOf(str), currentwhite, false)]
      ensures hash == old(hash) || fresh(hash)
      ensures r == old(next) && next == r + 1
    {
      hide Good;
      r := Enter(str);
      if nuse > hash.Length && hash.Length <= MAXINT / 2 {
        Resize(hash.Length * 2);
      }
    }

    /** luaS_newlstr: the string with this text, found or made; a dead one is brought back. */
    method Intern(str: seq<Byte>) returns (r: Id)
      requires Valid()
      modifies this`strs, this`nuse, this`next, this`hash, hash
      ensures Valid() && (hash == old(hash) || fresh(hash))
      ensures nuse == old(nuse) + if r in old(strs) then 0 else 1
      ensures hash.Length == if r !in old(strs) && !sweeping && nuse > old(hash.Length) &&
        old(hash.Length) <= 0x3FFF_FFFE then 2 * old(hash.Length)
        else old(hash.Length)
      ensures r in strs && strs[r].text == str && !IsDead(r)
      ensures if r in old(strs) then strs == old(strs)[r := old(strs[r]).(white := strs[r].white)]
        else strs == old(strs)[r := strs[r]]
      ensures if r in old(strs) then next == old(next) else r == old(next) && next == r + 1
      ensures r !in old(strs) <==> forall x :: x in old(strs) ==> old(strs[x]).text != str
    {
      hide IsPow2, Items, Homes, Unique;
      GoodKnown(hash[..], strs, nuse, next, hashOf);
      var b := hashOf(str) % hash.Length;
      var o, i := hash[b], 0;
      assert o == hash[..][b];
      while i < |o| && strs[o[i]].text != str
        modifies {}
        invariant 0 <= i <= |o| && forall k :: 0 <= k < |o| ==> o[k] in strs
        invariant forall k :: 0 <= k < i ==> strs[o[k]].text != str
      {
        i := i + 1;
      }
      if i < |o| {
        r := o[i];
        if IsDead(r) { Paint(r, currentwhite); }
        return;
      }
      GoodSearch(hash[..], strs, nuse, next, hashOf, str);
      r := NewLStr(str);
    }

    // ---- the sweep ----

    /** The end of atomic: what is not marked is dead now, and sweeping starts at the first bucket. */
    method Flip()
      requires Valid() && !sweeping
      modifies this`currentwhite, this`sweeping, this`sweepstrgc
      ensures Valid() && sweeping && sweepstrgc == 0 && currentwhite == 1 - old(currentwhite)
    {
      hide Items, Homes, Unique;
      currentwhite, sweeping, sweepstrgc := 1 - currentwhite, true, 0;
    }

    /** sweeplist on string i of bucket b: kept and painted white, or freed. */
    method SweepOne(b: nat, i: nat) returns (j: nat)
      requires Valid() && b < hash.Length && i < |hash[b]|
      modifies this`strs, this`nuse, hash
      ensures Valid() && old(hash[b])[i] in old(strs)
      ensures Doomed(old(strs[hash[b][i]]), currentwhite) ==> j == i && strs == old(strs) - {old(hash[b][i])}
      ensures Doomed(old(strs[hash[b][i]]), currentwhite) ==>
        hash[..] == old(hash[..])[b := old(hash[b])[..i] + old(hash[b])[i + 1..]]
      ensures !Doomed(old(strs[hash[b][i]]), currentwhite) ==> j == i + 1 && hash[..] == old(hash[..])
      ensures var x := old(hash[b][i]);
        !Doomed(old(strs[x]), currentwhite) ==> strs == old(strs)[x := old(strs[x]).(white := currentwhite)]
    {
      hide Good, IsPow2, Items;
      var x := hash[b][i];
      ghost var was := hash[..];
      GoodFree(was, strs, nuse, next, hashOf, b, i);
      if !Doomed(strs[x], currentwhite) {
        Paint(x, currentwhite);
        j := i + 1;
      } else {
        hash[b] := hash[b][..i] + hash[b][i + 1..];
        assert hash[..] == was[b := was[b][..i] + was[b][i + 1..]];
        strs, nuse := strs - {x}, nuse - 1;
        j := i;
      }
    }

    /** The sweep of one bucket. */
    method SweepList(b: nat)
      requires Valid() && b < hash.Length
      modifies this`strs, this`nuse, hash
      ensures Valid() && BucketSwept(old(strs), strs, [], b, hash.Length, currentwhite)
    {
      hide Good, IsPow2, BucketSwept;
      var i := 0;
      SweptNone(hash[..], strs, nuse, next, hashOf, b, currentwhite);
      ghost var s0, todo := strs, hash[b];
      assert hash[b][i..] == todo[0..] == todo;
      ghost var k := 0;
      while i < |hash[b]|
        invariant Valid() && 0 <= k <= |todo| && 0 <= i <= |hash[b]| && hash[b][i..] == todo[k..]
        invariant BucketSwept(s0, strs, todo[k..], b, hash.Length, currentwhite)
        decreases |todo| - k
      {
        ghost var s1 := strs;
        assert hash[b][i] == hash[b][i..][0] == todo[k] && todo[k..] == [todo[k]] + todo[k + 1..];
        ghost var before := hash[b];
        i := SweepOne(b, i);
        assert hash[b][i..] == todo[k + 1..] by { assert before[|before| - |todo[k..]|..][1..] == todo[k..][1..]; }
        SweptOne(s0, s1, strs, todo[k], todo[k + 1..], b, hash.Length, currentwhite);
        k := k + 1;
      }
      assert todo[k..] == [];
    }

    /** One step of the collector in the string phase. */
    method SweepStep()
      requires Valid() && sweeping
      modifies this`strs, this`nuse, this`sweepstrgc, this`sweeping, hash
      ensures Valid() && BucketSwept(old(strs), strs, [], old(sweepstrgc), hash.Length, currentwhite)
      ensures sweepstrgc == old(sweepstrgc) + 1 && sweeping == (sweepstrgc < hash.Length)
    {
      hide Good, IsPow2, BucketSwept;
      SweepList(sweepstrgc);
      sweepstrgc := sweepstrgc + 1;
      if sweepstrgc >= hash.Length { sweeping := false; }
    }

    /** checkSizes: a table with few strings is halved. */
    method CheckSizes()
      requires Valid()
      modifies this`hash
      ensures Valid() && (hash == old(hash) || fresh(hash))
      ensures hash.Length == if !sweeping && nuse < old(hash.Length) / 4 && old(hash.Length) > 64
        then old(hash.Length) / 2 else old(hash.Length)
    {
      hide Good;
      if nuse < hash.Length / 4 && hash.Length > MINSIZE * 2 {
        Resize(hash.Length / 2);
      }
    }

    /** All steps of a sweep, with nothing in between: exactly the dead strings go, and none is dead afterwards. */
    method Sweep()
      requires Valid() && sweeping && sweepstrgc == 0
      modifies this`strs, this`nuse, this`sweepstrgc, this`sweeping, hash
      ensures Valid() && !sweeping && forall x :: x in strs ==> !IsDead(x)
      ensures (forall x :: x in strs ==> x in old(strs)) && forall x :: x in old(strs) ==>
        Passed(old(strs), strs, x, currentwhite)
    {
      hide Good, IsPow2, BucketSwept, SweptBelow;
      ghost var s0 := strs;
      BelowNone(s0, hash.Length, currentwhite);
      while sweeping
        invariant Valid() && sweepstrgc <= hash.Length && sweeping == (sweepstrgc < hash.Length)
        invariant SweptBelow(s0, strs, sweepstrgc, hash.Length, currentwhite)
        decreases hash.Length - sweepstrgc
      {
        ghost var s1 := strs;
        SweepStep();
        BelowMore(s0, s1, strs, sweepstrgc - 1, hash.Length, currentwhite);
      }
      BelowAll(s0, strs, hash.Length, currentwhite);
    }
  }

  /** The buckets below n have been swept, the others not. */
  ghost predicate SweptBelow(s0: map<Id, TString>, s: map<Id, TString>, n: nat, size: nat, w: nat)
    requires size > 0
  {
    (forall x :: x in s ==> x in s0) &&
    forall x :: x in s0 ==> if s0[x].hash % size < n then Passed(s0, s, x, w) else x in s && s[x] == s0[x]
  }

  lemma BelowNone(s0: map<Id, TString>, size: nat, w: nat)
    requires size > 0
    ensures SweptBelow(s0, s0, 0, size, w)
  {
  }

  lemma BelowMore(s0: map<Id, TString>, s1: map<Id, TString>, s2: map<Id, TString>, n: nat, size: nat, w: nat)
    requires size > 0 && SweptBelow(s0, s1, n, size, w) && BucketSwept(s1, s2, [], n, size, w)
    ensures SweptBelow(s0, s2, n + 1, size, w)
  {
  }

  lemma BelowAll(s0: map<Id, TString>, s: map<Id, TString>, size: nat, w: nat)
    requires size > 0 && SweptBelow(s0, s, size, size, w) && w < 2
    ensures forall x :: x in s ==> x in s0 && s[x].white != 1 - w
    ensures forall x :: x in s0 ==> Passed(s0, s, x, w)
  {
  }

  // ---- whole runs ----

  datatype Op = Get(text: seq<Byte>) | Mark(x: Id) | Fix(x: Id) | Start | Step | Check

  /** Two handles that are still in the table are the same exactly when their texts are. */
  ghost predicate SameByText(ops: seq<Op>, got: seq<Option<Id>>, strs: map<Id, TString>) {
    |got| <= |ops| &&
    (forall i :: 0 <= i < |got| && got[i].Some? && got[i].value in strs ==>
      ops[i].Get? && strs[got[i].value].text == ops[i].text) &&
    forall i, j :: 0 <= i < |got| && 0 <= j < |got| && got[i].Some? && got[j].Some? && got[i].value in strs && got[j].value in strs ==>
      (got[i] == got[j] <==> ops[i].text == ops[j].text)
  }

  /** What holds between two states with some operations in between: handles and texts never change hands. */
  ghost predicate Later(s0: map<Id, TString>, n0: Id, s1: map<Id, TString>, n1: Id) {
    n0 <= n1 && forall x :: x in s1 && x < n0 ==> x in s0 && s1[x].text == s0[x].text
  }

  /** One operation; what the program gets is a string it asked for. */
  method Do(t: StringTable, op: Op) returns (got: Option<Id>)
    requires t.Valid()
    modifies t, t.hash
    ensures t.Valid() && (t.hash == old(t.hash) || fresh(t.hash)) && Later(old(t.strs), old(t.next), t.strs, t.next)
    ensures op.Get? ==> got.Some? && got.value in t.strs && t.strs[got.value].text == op.text && !t.IsDead(got.value)
    ensures !op.Get? ==> got == None
  {
    hide Good, IsPow2, Items, BucketSwept;
    GoodKnown(t.hash[..], t.strs, t.nuse, t.next, t.hashOf);
    got := None;
    match op {
      case Get(text) =>
        var x := t.Intern(text);
        got := Some(x);
      case Mark(x) => if x in t.strs { t.Paint(x, 2); }
      case Fix(x) => if x in t.strs { t.Fix(x); }
      case Start => if !t.sweeping { t.Flip(); }
      case Step => if t.sweeping { StepLater(t); }
      case Check => t.CheckSizes();
    }
  }

  method StepLater(t: StringTable)
    requires t.Valid() && t.sweeping
    modifies t, t.hash
    ensures t.Valid() && t.hash == old(t.hash) && Later(old(t.strs), old(t.next), t.strs, t.next)
  {
    hide Good, IsPow2;
    t.SweepStep();
  }

  /**
   * Every run of interning, marking, sweeping, growing and shrinking: of two strings that the program got and
   * that are still there, the handles are equal exactly when the contents are.
   */
  method Run(hashOf: seq<Byte> -> nat, ops: seq<Op>) returns (t: StringTable, got: seq<Option<Id>>)
    ensures t.Valid() && |got| == |ops| && SameByText(ops, got, t.strs)
  {
    t := new StringTable(hashOf);
    got := [];
    while |got| < |ops|
      invariant t.Valid() && fresh(t) && fresh(t.hash) && |got| <= |ops|
      invariant SameByText(ops, got, t.strs) && forall i :: 0 <= i < |got| && got[i].Some? ==> got[i].value < t.next
    {
      hide SameByText;
      ghost var s0, n0, before := t.strs, t.next, got;
      var x := Do(t, ops[|got|]);
      SameLater(ops, before, s0, n0, x, t.strs, t.next, t.hash[..], t.nuse, t.hashOf);
      got := got + [x];
    }
  }

  lemma SameLater(ops: seq<Op>, got: seq<Option<Id>>, s0: map<Id, TString>, n0: Id, x: Option<Id>, s1: map<Id,
    TString>, n1: Id, h: seq<seq<Id>>, nuse: int, hashOf: seq<Byte> -> nat)
    requires |got| < |ops| && SameByText(ops, got, s0) && Later(s0, n0, s1, n1) && Good(h, s1, nuse, n1, hashOf)
    requires forall i :: 0 <= i < |got| && got[i].Some? ==> got[i].value < n0
    requires if ops[|got|].Get? then x.Some? && x.value in s1 && s1[x.value].text == ops[|got|].text else x == None
    ensures SameByText(ops, got + [x], s1) && forall i :: 0 <= i < |got + [x]| && (got + [x])[i].Some? ==>
      (got + [x])[i].value < n1
  {
    GoodKnown(h, s1, nuse, n1, hashOf);
    hide Good;
    var all := got + [x];
    forall i | 0 <= i < |all| && all[i].Some? && all[i].value in s1 ensures ops[i].Get? &&
      s1[all[i].value].text == ops[i].text {
      if i < |got| { assert all[i] == got[i]; }
    }
  }
}
