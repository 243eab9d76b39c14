/** Traversal: where a key stands in the order of luaH_next, and what may change under a traversal. */
module TableIter {
  import opened HashPart
  import opened Sizing
  import opened TableVals

  /** Only objects can be collected; their keys then turn dead. */
  predicate Collectable(v: Value) { v.Other? }

  /** The collector retags the key of an empty entry. */
  function Killed(s: Hash, i: nat): Hash
    requires i < |s.node|
  {
    s.(node := s.node[i := s.node[i].(key := Dead(s.node[i].key.v))])
  }

  lemma KilledOk(h: (Value, nat) -> nat, s: Hash, i: nat)
    requires HashOk(h, s) && i < |s.node| && s.node[i].val == Nil && s.node[i].key.Live? && Collectable(s.node[i].key.v)
    ensures HashOk(h, Killed(s, i)) && forall k :: HVal(Killed(s, i).node, k) == HVal(s.node, k)
  {
    hide HVal, KeptNode;
    var s' := Killed(s, i);
    forall m | 0 <= m < |s.node| ensures LinkAt(s', m) { assert LinkAt(s, m); LinkSame(s, s', m); }
    forall m | 0 <= m < |s.node| ensures HomeAt(h, s', m) { assert HomeAt(h, s, m); }
    forall m | 0 <= m < |s.node| ensures FreeAt(s', m) { assert FreeAt(s, m); }
    forall m, j | 0 <= m < |s.node| && 0 <= j < |s.node| ensures UniqueAt(s', m, j) { assert UniqueAt(s, m, j) &&
      UniqueAt(s, j, m); }
    forall m | 0 <= m < |s.node| && s.node[m].val != Nil ensures KeptNode(s.node[m],
      s'.node) { IsKept(s.node[m], s'.node, m); }
    forall m | 0 <= m < |s.node| && s'.node[m].val != Nil ensures KeptNode(s'.node[m],
      s.node) { IsKept(s'.node[m], s.node, m); }
    SameHash(h, s, s');
  }

  // ---- positions ----

  /** The node that findindex finds for a key: the first on its chain with that key, live or dead. */
  ghost predicate FirstAt(s: Hash, k: Value, i: int) {
    && Sized(s) && 0 <= i < |s.node| && Matches(s.node[i], k)
    && forall j :: 0 <= j < |s.node| && Matches(s.node[j], k) ==> s.chain[j] == s.chain[i] && s.pos[i] <= s.pos[j]
  }

  predicate Matches(n: Node, k: Value) { Keyed(n) && n.key.v == k && (n.key.Dead? ==> Collectable(k)) }

  /** A live key is the first with its address. */
  lemma LiveFirst(h: (Value, nat) -> nat, s: Hash, i: nat)
    requires HashOk(h, s) && i < |s.node| && s.node[i].key.Live? && Keyed(s.node[i])
    ensures FirstAt(s, s.node[i].key.v, i)
  {
    forall j | 0 <= j < |s.node| && Matches(s.node[j], s.node[i].key.v) ensures s.chain[j] == s.chain[i] &&
      s.pos[i] <= s.pos[j]
    {
      assert UniqueAt(s, i, j);
    }
  }

  lemma FirstOnly(h: (Value, nat) -> nat, s: Hash, k: Value, i: nat, j: nat)
    requires HashOk(h, s) && FirstAt(s, k, i) && FirstAt(s, k, j)
    ensures i == j
  {
    assert LinkAt(s, i) && LinkAt(s, j);
    assert Joined(s, i, j);
  }

  /** The value at a position of the traversal: the array part, then the nodes. */
  function ValueAt(arr: seq<Value>, node: seq<Node>, p: nat): Value {
    if p < |arr| then arr[p] else if p - |arr| < |node| then node[p - |arr|].val else Nil
  }

  function KeyAt(arr: seq<Value>, node: seq<Node>, p: nat): Value {
    if p < |arr| then Num(p + 1) else if p - |arr| < |node| then node[p - |arr|].key.v else Nil
  }

  /** findindex leads from the key k to the position p; nil stands before the first. */
  ghost predicate Stands(arr: seq<Value>, s: Hash, k: Value, p: int) {
    if k == Nil then p == -1
    else if InRange(k, |arr|) then p == k.n - 1
    else FirstAt(s, k, p - |arr|)
  }

  /** Each position with a value is found again from its key, and holds the key's value. */
  lemma PositionOf(h: (Value, nat) -> nat, arr: seq<Value>, s: Hash, p: nat)
    requires HashOk(h, s) && Outside(s.node, |arr|) && ValueAt(arr, s.node, p) != Nil
    ensures var k := KeyAt(arr, s.node, p);
      k != Nil && Stands(arr, s, k, p) && ValueOf(arr, s.node, k) == ValueAt(arr, s.node, p)
  {
    if p >= |arr| {
      var i := p - |arr|;
      assert FreeAt(s, i);
      LiveFirst(h, s, i);
      ValAt(h, s, s.node[i].key.v, i);
    }
  }

  /** Every key with a value has a position. */
  lemma HasPosition(h: (Value, nat) -> nat, arr: seq<Value>, s: Hash, k: Value) returns (p: nat)
    requires HashOk(h, s) && Outside(s.node, |arr|) && ValueOf(arr, s.node, k) != Nil
    ensures p < |arr| + |s.node| && KeyAt(arr, s.node, p) == k && ValueAt(arr, s.node, p) == ValueOf(arr, s.node, k)
  {
    if InRange(k, |arr|) { p := k.n - 1; } else { p := |arr| + IndexOf(s.node, k); }
  }

  // ---- what a traversal allows to change ----

  /** No key came or moved: values changed, and keys of empty entries turned dead. */
  ghost predicate Settled(arr: seq<Value>, s: Hash, arr': seq<Value>, s': Hash) {
    && |arr'| == |arr| && Sized(s) && s'.chain == s.chain && s'.pos == s.pos && |s'.node| == |s.node|
    && forall i :: 0 <= i < |s.node| ==> SettledAt(s.node[i], s'.node[i])
  }

  predicate SettledAt(n: Node, n': Node) {
    && n'.key.v == n.key.v && n'.next == n.next && (n.key.Dead? ==> n'.key.Dead?) &&
      (n'.key.Dead? && n.key.Live? ==> Collectable(n.key.v))
  }

  /** A key stands where it stood. */
  lemma StandsStill(arr: seq<Value>, s: Hash, arr': seq<Value>, s': Hash, k: Value, p: int)
    requires Settled(arr, s, arr', s') && Stands(arr, s, k, p)
    ensures Stands(arr', s', k, p)
  {
    if k != Nil && !InRange(k, |arr|) {
      var i := p - |arr|;
      assert SettledAt(s.node[i], s'.node[i]);
      forall j | 0 <= j < |s'.node| && Matches(s'.node[j], k) ensures s'.chain[j] == s'.chain[i] &&
        s'.pos[i] <= s'.pos[j]
      {
        assert SettledAt(s.node[j], s'.node[j]) && Matches(s.node[j], k);
      }
    }
  }

  lemma SettledTrans(a: seq<Value>, s: Hash, a': seq<Value>, s': Hash, a'': seq<Value>, s'': Hash)
    requires Settled(a, s, a', s') && Settled(a', s', a'', s'')
    ensures Settled(a, s, a'', s'')
  {
    forall i | 0 <= i < |s.node| ensures SettledAt(s.node[i], s''.node[i]) { assert SettledAt(s.node[i], s'.node[i]) &&
      SettledAt(s'.node[i], s''.node[i]); }
  }

  // ---- changes made between two calls of luaH_next ----

  /** An existing field is assigned, or the key of an empty entry is collected. */
  datatype Change = Assign(k: Value, v: Value) | Collect(i: nat)

  predicate Touches(cs: seq<Change>, k: Value) { exists i :: 0 <= i < |cs| && cs[i].Assign? && cs[i].k == k }

  predicate Clears(cs: seq<Change>, k: Value) { exists i :: 0 <= i < |cs| && cs[i] == Assign(k, Nil) }

  /** What a list of changes does to the value at a position. */
  ghost predicate ChangedAt(arr: seq<Value>, node: seq<Node>, arr': seq<Value>, node': seq<Node>, cs: seq<Change>,
    p: nat) {
    var k := KeyAt(arr, node, p);
    && (!Touches(cs, k) ==> ValueAt(arr', node', p) == ValueAt(arr, node, p))
    && (!Clears(cs, k) && ValueAt(arr, node, p) != Nil ==> ValueAt(arr', node', p) != Nil)
  }

  ghost predicate Changed(arr: seq<Value>, s: Hash, arr': seq<Value>, s': Hash, cs: seq<Change>) {
    Settled(arr, s, arr', s') && forall p: nat :: ChangedAt(arr, s.node, arr', s'.node, cs, p)
  }

  lemma KeyStays(arr: seq<Value>, s: Hash, arr': seq<Value>, s': Hash, p: nat)
    requires Settled(arr, s, arr', s')
    ensures KeyAt(arr', s'.node, p) == KeyAt(arr, s.node, p)
  {
    if |arr| <= p && p - |arr| < |s.node| { assert SettledAt(s.node[p - |arr|], s'.node[p - |arr|]); }
  }

  lemma ChangedMore(a: seq<Value>, s: Hash, a': seq<Value>, s': Hash, a'': seq<Value>, s'': Hash, cs: seq<Change>,
    more: seq<Change>)
    requires Changed(a, s, a', s', cs) && Changed(a', s', a'', s'', more)
    ensures Changed(a, s, a'', s'', cs + more)
  {
    SettledTrans(a, s, a', s', a'', s'');
    forall p: nat ensures ChangedAt(a, s.node, a'', s''.node, cs + more, p)
    {
      KeyStays(a, s, a', s', p);
      var k := KeyAt(a, s.node, p);
      assert ChangedAt(a, s.node, a', s'.node, cs, p) && ChangedAt(a', s'.node, a'', s''.node, more, p);
      PartTouches(cs, more, k);
    }
  }

  lemma PartTouches(cs: seq<Change>, more: seq<Change>, k: Value)
    ensures !Touches(cs + more, k) ==> !Touches(cs, k) && !Touches(more, k)
    ensures !Clears(cs + more, k) ==> !Clears(cs, k) && !Clears(more, k)
  {
    if Touches(cs, k) {
      var i :| 0 <= i < |cs| && cs[i].Assign? && cs[i].k == k;
      assert (cs + more)[i] == cs[i];
    }
    if Touches(more, k) {
      var i :| 0 <= i < |more| && more[i].Assign? && more[i].k == k;
      assert (cs + more)[|cs| + i] == more[i];
    }
    if Clears(cs, k) {
      var i :| 0 <= i < |cs| && cs[i] == Assign(k, Nil);
      assert (cs + more)[i] == cs[i];
    }
    if Clears(more, k) {
      var i :| 0 <= i < |more| && more[i] == Assign(k, Nil);
      assert (cs + more)[|cs| + i] == more[i];
    }
  }

  lemma ChangedNone(arr: seq<Value>, s: Hash)
    requires Sized(s)
    ensures Changed(arr, s, arr, s, [])
  {
  }

  lemma ChangedArray(arr: seq<Value>, s: Hash, i: nat, v: Value)
    requires Sized(s) && i < |arr|
    ensures Changed(arr, s, arr[i := v], s, [Assign(Num(i + 1), v)])
  {
    var c := Assign(Num(i + 1), v);
    assert [c][0] == c;
  }

  lemma ChangedNode(arr: seq<Value>, s: Hash, i: nat, v: Value)
    requires Sized(s) && i < |s.node|
    ensures Changed(arr, s, arr, s.(node := s.node[i := s.node[i].(val := v)]), [Assign(s.node[i].key.v, v)])
  {
    var c := Assign(s.node[i].key.v, v);
    assert [c][0] == c;
  }

  lemma ChangedKilled(arr: seq<Value>, s: Hash, i: nat)
    requires Sized(s) && i < |s.node| && Collectable(s.node[i].key.v)
    ensures Changed(arr, s, arr, Killed(s, i), [])
  {
  }

  // ---- a whole traversal ----

  /** The position is in the array part or has a live key, so its key occurs nowhere else. */
  ghost predicate LivePos(arr: seq<Value>, node: seq<Node>, p: nat) {
    p < |arr| || (p - |arr| < |node| && node[p - |arr|].key.Live? && Keyed(node[p - |arr|]))
  }

  lemma KeysDiffer(h: (Value, nat) -> nat, arr: seq<Value>, s: Hash, p: nat, q: nat)
    requires HashOk(h, s) && Outside(s.node, |arr|) && LivePos(arr, s.node, p) && LivePos(arr, s.node, q) && p != q
    ensures KeyAt(arr, s.node, p) != KeyAt(arr, s.node, q)
  {
    if p >= |arr| && q >= |arr| { assert UniqueAt(s, p - |arr|, q - |arr|); }
  }

  /** A position with a value now had a live key all along. */
  lemma ValuedLive(h: (Value, nat) -> nat, arr: seq<Value>, s: Hash, arr': seq<Value>, s': Hash, p: nat)
    requires HashOk(h, s') && Settled(arr, s, arr', s') && ValueAt(arr', s'.node, p) != Nil
    ensures LivePos(arr, s.node, p) && KeyAt(arr', s'.node, p) == KeyAt(arr, s.node, p)
  {
    KeyStays(arr, s, arr', s', p);
    if p >= |arr| { assert FreeAt(s', p - |arr|) && SettledAt(s.node[p - |arr|], s'.node[p - |arr|]); }
  }

  /** The first n visits were at increasing positions ps of the table as it was, and passed no entry that had to be seen. */
  ghost predicate Visited(a: seq<Value>, s: Hash, visited: seq<(Value, Value)>, ps: seq<nat>, p: int, cs: seq<Change>) {
    && |ps| == |visited| && (forall i :: 0 <= i < |ps| ==>
      ps[i] <= p && LivePos(a, s.node, ps[i]) && visited[i].0 == KeyAt(a, s.node, ps[i]))
    && (forall i, j :: 0 <= i < j < |ps| ==> ps[i] < ps[j])
    && (forall m: nat :: m <= p && ValueAt(a, s.node, m) != Nil && !Clears(cs, KeyAt(a, s.node, m)) ==> m in ps)
    && (forall i :: 0 <= i < |ps| && !Touches(cs, visited[i].0) ==> visited[i].1 == ValueAt(a, s.node, ps[i]))
    && (forall i :: 0 <= i < |ps| ==> visited[i].1 != Nil)
  }

  lemma VisitNext(h: (Value, nat) -> nat, a: seq<Value>, s: Hash, a': seq<Value>, s': Hash,
    visited: seq<(Value, Value)>, ps: seq<nat>, p: int, q: nat, cs: seq<Change>)
    requires Visited(a, s, visited, ps, p, cs) && Changed(a, s, a', s', cs) && HashOk(h, s') && p < q &&
      ValueAt(a', s'.node, q) != Nil
    requires forall m: nat :: p < m < q ==> ValueAt(a', s'.node, m) == Nil
    ensures Visited(a, s, visited + [(KeyAt(a', s'.node, q), ValueAt(a', s'.node, q))], ps + [q], q, cs)
  {
    ValuedLive(h, a, s, a', s', q);
    forall m: nat | m <= q && ValueAt(a, s.node, m) != Nil && !Clears(cs, KeyAt(a, s.node, m)) ensures m in ps + [q]
    {
      assert ChangedAt(a, s.node, a', s'.node, cs, m);
    }
    assert ChangedAt(a, s.node, a', s'.node, cs, q);
  }

  lemma VisitEnd(a: seq<Value>, s: Hash, a': seq<Value>, s': Hash, visited: seq<(Value, Value)>, ps: seq<nat>, p: int,
    cs: seq<Change>)
    requires Visited(a, s, visited, ps, p, cs) && Changed(a, s, a', s', cs)
    requires forall m: nat :: p < m ==> ValueAt(a', s'.node, m) == Nil
    ensures forall m: nat :: ValueAt(a, s.node, m) != Nil && !Clears(cs, KeyAt(a, s.node, m)) ==> m in ps
  {
    forall m: nat | ValueAt(a, s.node, m) != Nil && !Clears(cs, KeyAt(a, s.node, m)) ensures m in ps
    {
      assert ChangedAt(a, s.node, a', s'.node, cs, m);
    }
  }

  /** More changes excuse more. */
  lemma VisitedMore(a: seq<Value>, s: Hash, visited: seq<(Value, Value)>, ps: seq<nat>, p: int, cs: seq<Change>,
    more: seq<Change>)
    requires Visited(a, s, visited, ps, p, cs)
    ensures Visited(a, s, visited, ps, p, cs + more)
  {
    forall k ensures (!Clears(cs + more, k) ==> !Clears(cs, k)) &&
      (!Touches(cs + more, k) ==> !Touches(cs, k)) { PartTouches(cs, more, k); }
  }

  /**
   What a traversal has seen: no key twice, no entry without a value, every key with a value that no change took
   away, and with that value if no change touched it.
   */
  ghost predicate SeenAll(a: seq<Value>, node: seq<Node>, visited: seq<(Value, Value)>, cs: seq<Change>) {
    && (forall i, j :: 0 <= i < j < |visited| ==> visited[i].0 != visited[j].0)
    && (forall k :: ValueOf(a, node, k) != Nil && !Clears(cs, k) ==> Seen(visited, k))
    && (forall i :: 0 <= i < |visited| && !Touches(cs, visited[i].0) ==> visited[i].1 == ValueOf(a, node, visited[i].0))
    && (forall i :: 0 <= i < |visited| ==> visited[i].1 != Nil)
  }

  predicate Seen(visited: seq<(Value, Value)>, k: Value) { exists i :: 0 <= i < |visited| && visited[i].0 == k }

  lemma AllSeen(h: (Value, nat) -> nat, a: seq<Value>, s: Hash, visited: seq<(Value, Value)>, ps: seq<nat>, p: int,
    cs: seq<Change>)
    requires HashOk(h, s) && Outside(s.node, |a|) && Visited(a, s, visited, ps, p, cs)
    requires forall m: nat :: ValueAt(a, s.node, m) != Nil && !Clears(cs, KeyAt(a, s.node, m)) ==> m in ps
    ensures SeenAll(a, s.node, visited, cs)
  {
    forall i, j | 0 <= i < j < |visited| ensures visited[i].0 != visited[j].0 { KeysDiffer(h, a, s, ps[i], ps[j]); }
    forall k | ValueOf(a, s.node, k) != Nil && !Clears(cs, k) ensures Seen(visited, k)
    {
      var m := HasPosition(h, a, s, k);
      assert m in ps;
      var i :| 0 <= i < |ps| && ps[i] == m;
      assert visited[i].0 == k;
    }
    forall i | 0 <= i < |visited| && !Touches(cs, visited[i].0)
      ensures visited[i].1 == ValueOf(a, s.node, visited[i].0) { LiveValue(h, a, s, ps[i]); }
  }

  lemma LiveValue(h: (Value, nat) -> nat, arr: seq<Value>, s: Hash, p: nat)
    requires HashOk(h, s) && Outside(s.node, |arr|) && LivePos(arr, s.node, p)
    ensures ValueOf(arr, s.node, KeyAt(arr, s.node, p)) == ValueAt(arr, s.node, p)
  {
    if p >= |arr| { ValAt(h, s, s.node[p - |arr|].key.v, p - |arr|); }
  }
}
