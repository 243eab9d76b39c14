/** What a table maps each key to, and how the steps of newkey leave that unchanged. */
module TableVals {
  import opened Common
  import opened HashPart
  import opened Sizing

  predicate LiveAt(node: seq<Node>, k: Value, i: int) { 0 <= i < |node| && node[i].key == Live(k) }

  ghost function IndexOf(node: seq<Node>, k: Value): (r: int)
    ensures if exists i :: LiveAt(node, k, i) then LiveAt(node, k, r) else r == -1
  {
    if exists i :: LiveAt(node, k, i) then
      var i :| LiveAt(node, k, i);
      i
    else -1
  }

  ghost function HVal(node: seq<Node>, k: Value): Value {
    if k != Nil && IndexOf(node, k) >= 0 then node[IndexOf(node, k)].val else Nil
  }

  /** The value of t[k]; nil when there is none. */
  ghost function ValueOf(arr: seq<Value>, node: seq<Node>, k: Value): Value {
    if InRange(k, |arr|) then arr[k.n - 1] else HVal(node, k)
  }

  ghost predicate SameValues(arr: seq<Value>, node: seq<Node>, arr': seq<Value>, node': seq<Node>) {
    forall k :: ValueOf(arr', node', k) == ValueOf(arr, node, k)
  }

  /** No integer key of the array part is in the hash part. */
  ghost predicate Outside(node: seq<Node>, n: nat) {
    forall i :: 0 <= i < |node| && node[i].key.Live? ==> !InRange(node[i].key.v, n)
  }

  ghost predicate KeyedFrom(node: seq<Node>, lastfree: int) {
    forall i :: 0 <= i < |node| && i >= lastfree ==> Keyed(node[i])
  }

  ghost predicate TableOk(h: (Value, nat) -> nat, arr: seq<Value>, s: Hash, lsizenode: nat, lastfree: int,
    dummy: bool) {
    && HashOk(h, s) && |arr| <= MAXASIZE && Outside(s.node, |arr|)
    && lsizenode <= MAXBITS && |s.node| == Pow2(lsizenode) && lastfree <= |s.node|
    && (if dummy then lsizenode == 0 && s.node == [FREE] && lastfree <= 0 else KeyedFrom(s.node, lastfree))
  }

  /** The nodes in use. */
  ghost function KeySet(node: seq<Node>): set<nat> { set i: nat | i < |node| && Keyed(node[i]) }

  lemma ValAt(h: (Value, nat) -> nat, s: Hash, k: Value, i: nat)
    requires HashOk(h, s) && LiveAt(s.node, k, i) && k != Nil
    ensures HVal(s.node, k) == s.node[i].val
  {
    var j := IndexOf(s.node, k);
    assert UniqueAt(s, i, j);
  }

  /** A vector that holds every valued key of another, and no other value, holds the same values. */
  lemma SameHash(h: (Value, nat) -> nat, s: Hash, s': Hash)
    requires HashOk(h, s) && HashOk(h, s')
    requires forall i :: 0 <= i < |s.node| && s.node[i].val != Nil ==> KeptNode(s.node[i], s'.node)
    requires forall i :: 0 <= i < |s'.node| && s'.node[i].val != Nil ==> KeptNode(s'.node[i], s.node)
    ensures forall k :: HVal(s'.node, k) == HVal(s.node, k)
  {
    forall k ensures HVal(s'.node, k) == HVal(s.node, k)
    {
      HalfHash(h, s, s', k);
      HalfHash(h, s', s, k);
    }
  }

  ghost predicate KeptNode(n: Node, node: seq<Node>) { exists j ::
    0 <= j < |node| && node[j].key == n.key && node[j].val == n.val }

  lemma HalfHash(h: (Value, nat) -> nat, s: Hash, s': Hash, k: Value)
    requires HashOk(h, s) && HashOk(h, s')
    requires forall i :: 0 <= i < |s.node| && s.node[i].val != Nil ==> KeptNode(s.node[i], s'.node)
    ensures HVal(s.node, k) != Nil ==> HVal(s'.node, k) == HVal(s.node, k)
  {
    if HVal(s.node, k) != Nil {
      var i := IndexOf(s.node, k);
      assert KeptNode(s.node[i], s'.node);
      var j :| 0 <= j < |s'.node| && s'.node[j].key == s.node[i].key && s'.node[j].val == s.node[i].val;
      ValAt(h, s', k, j);
    }
  }

  lemma PutMainSame(h: (Value, nat) -> nat, s: Hash, k: Value, mp: nat)
    requires HashOk(h, s) && Absent(s, k) && mp < |s.node| && mp == Main(h, k, |s.node|) && s.node[mp].val == Nil
    ensures forall k' :: HVal(PutMain(s, k, mp).node, k') == HVal(s.node, k')
    ensures KeySet(PutMain(s, k, mp).node) == KeySet(s.node) + {mp}
  {
    var s' := PutMain(s, k, mp);
    PutMainOk(h, s, k, mp);
    forall i | 0 <= i < |s.node| && s.node[i].val != Nil ensures KeptNode(s.node[i],
      s'.node) { assert s'.node[i] == s.node[i]; }
    forall i | 0 <= i < |s'.node| && s'.node[i].val != Nil ensures KeptNode(s'.node[i],
      s.node) { assert s'.node[i] == s.node[i]; }
    hide HashOk, HVal;
    SameHash(h, s, s');
  }

  lemma InsertAfterSame(h: (Value, nat) -> nat, s: Hash, k: Value, mp: nat, n: nat)
    requires HashOk(h, s) && Absent(s, k) && mp < |s.node| && mp == Main(h, k, |s.node|) && s.node[mp].val != Nil
    requires Main(h, s.node[mp].key.v, |s.node|) == mp && n < |s.node| && !Keyed(s.node[n])
    ensures s.node[mp].next < |s.node|
    ensures forall k' :: HVal(InsertAfter(s, k, mp, n).node, k') == HVal(s.node, k')
    ensures KeySet(InsertAfter(s, k, mp, n).node) == KeySet(s.node) + {n}
  {
    hide HashOk, HVal, KeptNode, Absent, KeySet;
    InsertAfterOk(h, s, k, mp, n);
    FreeFacts(h, s, mp, n);
    AbsentKey(s, k);
    InsertKeys(s, k, mp, n);
    var s' := InsertAfter(s, k, mp, n);
    forall i | 0 <= i < |s.node| && s.node[i].val != Nil ensures KeptNode(s.node[i],
      s'.node) { IsKept(s.node[i], s'.node, i); }
    forall i | 0 <= i < |s'.node| && s'.node[i].val != Nil ensures KeptNode(s'.node[i],
      s.node) { IsKept(s'.node[i], s.node, i); }
    SameHash(h, s, s');
  }

  lemma FreeFacts(h: (Value, nat) -> nat, s: Hash, mp: nat, n: nat)
    requires HashOk(h, s) && mp < |s.node| && s.node[mp].val != Nil && n < |s.node| && !Keyed(s.node[n])
    ensures Sized(s) && n != mp && s.node[n].val == Nil && Keyed(s.node[mp]) && s.node[mp].key.Live? &&
      s.node[mp].next < |s.node|
  {
    assert FreeAt(s, n) && FreeAt(s, mp) && LinkAt(s, mp);
  }

  lemma AbsentKey(s: Hash, k: Value)
    requires Absent(s, k)
    ensures k != Nil
  {
  }

  lemma InsertKeys(s: Hash, k: Value, mp: nat, n: nat)
    requires Sized(s) && mp < |s.node| && n < |s.node| && n != mp && s.node[mp].next < |s.node| && k != Nil &&
      Keyed(s.node[mp])
    ensures KeySet(InsertAfter(s, k, mp, n).node) == KeySet(s.node) + {n}
  {
  }

  lemma MoveKeys(s: Hash, k: Value, mp: nat, n: nat, prev: nat)
    requires Sized(s) && mp < |s.node| && n < |s.node| && prev < |s.node| && n != mp && prev != mp && prev != n &&
      k != Nil && Keyed(s.node[mp])
    ensures KeySet(MoveAway(s, k, mp, n, prev).node) == KeySet(s.node) + {n}
  {
  }

  lemma IsKept(n: Node, node: seq<Node>, j: nat)
    requires j < |node| && node[j].key == n.key && node[j].val == n.val
    ensures KeptNode(n, node)
  {
  }

  lemma MoveAwaySame(h: (Value, nat) -> nat, s: Hash, k: Value, mp: nat, n: nat, prev: nat)
    requires HashOk(h, s) && Absent(s, k) && mp < |s.node| && mp == Main(h, k, |s.node|) && s.node[mp].val != Nil
    requires Main(h, s.node[mp].key.v, |s.node|) != mp && n < |s.node| && !Keyed(s.node[n]) && prev < |s.node| &&
      s.node[prev].next == mp
    ensures forall k' :: HVal(MoveAway(s, k, mp, n, prev).node, k') == HVal(s.node, k')
    ensures KeySet(MoveAway(s, k, mp, n, prev).node) == KeySet(s.node) + {n}
  {
    hide HashOk, HVal, KeptNode, Absent, KeySet;
    MoveAwayOk(h, s, k, mp, n, prev);
    PrevFacts(h, s, mp, n, prev);
    FreeFacts(h, s, mp, n);
    AbsentKey(s, k);
    MoveKeys(s, k, mp, n, prev);
    var s' := MoveAway(s, k, mp, n, prev);
    forall i | 0 <= i < |s.node| && s.node[i].val != Nil ensures KeptNode(s.node[i],
      s'.node) { IsKept(s.node[i], s'.node, if i == mp then n else i); }
    forall i | 0 <= i < |s'.node| && s'.node[i].val != Nil ensures KeptNode(s'.node[i],
      s.node) { IsKept(s'.node[i], s.node, if i == n then mp else i); }
    SameHash(h, s, s');
  }

  lemma PrevFacts(h: (Value, nat) -> nat, s: Hash, mp: nat, n: nat, prev: nat)
    requires HashOk(h, s) && mp < |s.node| && prev < |s.node| && s.node[prev].next == mp && n < |s.node| &&
      !Keyed(s.node[n])
    ensures prev != mp && prev != n
  {
    assert LinkAt(s, prev) && FreeAt(s, n);
  }

  /** Storing a value at a key that has a node. */
  lemma StoreOk(h: (Value, nat) -> nat, s: Hash, k: Value, i: nat, v: Value)
    requires HashOk(h, s) && LiveAt(s.node, k, i) && k != Nil
    ensures var s' := s.(node := s.node[i := s.node[i].(val := v)]);
      HashOk(h, s') && (forall k' :: HVal(s'.node, k') == if k' == k then v else HVal(s.node, k')) &&
        KeySet(s'.node) == KeySet(s.node)
  {
    var s' := s.(node := s.node[i := s.node[i].(val := v)]);
    forall m | 0 <= m < |s'.node| ensures LinkAt(s', m) { assert LinkAt(s, m); LinkSame(s, s', m); }
    forall m | 0 <= m < |s'.node| ensures HomeAt(h, s', m) { assert HomeAt(h, s, m); }
    forall m | 0 <= m < |s'.node| ensures FreeAt(s', m) { assert FreeAt(s, m); }
    forall m, j | 0 <= m < |s'.node| && 0 <= j < |s'.node| ensures UniqueAt(s', m, j) { assert UniqueAt(s, m, j); }
    forall k' ensures HVal(s'.node, k') == if k' == k then v else HVal(s.node, k') { StoredVal(h, s, s', k, i, v, k'); }
  }

  lemma StoredVal(h: (Value, nat) -> nat, s: Hash, s': Hash, k: Value, i: nat, v: Value, k': Value)
    requires HashOk(h, s) && HashOk(h, s') && LiveAt(s.node, k, i) && k != Nil &&
      s' == s.(node := s.node[i := s.node[i].(val := v)])
    ensures HVal(s'.node, k') == if k' == k then v else HVal(s.node, k')
  {
    if k' == k {
      ValAt(h, s', k, i);
    } else if k' != Nil && exists j :: LiveAt(s.node, k', j) {
      var j :| LiveAt(s.node, k', j);
      assert LiveAt(s'.node, k', j);
      ValAt(h, s, k', j);
      ValAt(h, s', k', j);
    } else {
      assert forall j :: LiveAt(s'.node, k', j) ==> LiveAt(s.node, k', j);
    }
  }

  /** All nodes are in use when no free one is found. */
  lemma AllUsed(node: seq<Node>)
    requires KeyedFrom(node, 0)
    ensures |KeySet(node)| == |node|
  {
    UsedSize(node, |node|);
    assert KeySet(node) == set i: nat | i < |node| && Keyed(node[i]);
  }

  lemma {:induction false} UsedSize(node: seq<Node>, n: nat)
    requires KeyedFrom(node, 0) && n <= |node|
    ensures |set i: nat | i < n && Keyed(node[i])| == n
  {
    if n > 0 {
      UsedSize(node, n - 1);
      assert (set i: nat | i < n && Keyed(node[i])) == (set i: nat | i < n - 1 && Keyed(node[i])) + {n - 1};
    }
  }

  /** A fresh vector: each node alone on its chain. */
  ghost function Fresh(n: nat): Hash {
    Hash(seq(n, i => FREE), seq(n, i => i), seq(n, i => 0.0))
  }

  lemma FreshHash(h: (Value, nat) -> nat, n: nat)
    requires n > 0
    ensures HashOk(h, Fresh(n)) && KeySet(Fresh(n).node) == {} && forall k :: HVal(Fresh(n).node, k) == Nil
  {
    var s := Fresh(n);
    forall i | 0 <= i < n ensures LinkAt(s, i) { assert forall m :: 0 <= m < n && Joined(s, m, i) ==> m == i; }
    forall k ensures HVal(s.node, k) == Nil {
    }
  }
}
