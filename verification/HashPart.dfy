/**
 The node vector of a table: a chained scatter table with Brent's variation. A ghost chain number and
 position for every node say which chain it is on, and where; `next` is the successor in that order.
 */
module HashPart {

  /** Table keys and values; Num is a number with an integer value, Other any other one or an object. */
  datatype Value = Nil | Bool(b: bool) | Num(n: int) | NaN | Other(id: nat)

  /** LUA_TDEADKEY keeps the address of the object that was the key. */
  datatype Key = Live(v: Value) | Dead(v: Value)

  datatype Node = Node(key: Key, val: Value, next: int)

  const FREE := Node(Live(Nil), Nil, -1)

  predicate Keyed(n: Node) { n.key != Live(Nil) }

  /** mainposition: h is the hash function, which also depends on the size. */
  function Main(h: (Value, nat) -> nat, v: Value, size: nat): (p: nat)
    requires size > 0
    ensures p < size
  {
    h(v, size) % size
  }

  datatype Hash = Hash(node: seq<Node>, chain: seq<nat>, pos: seq<real>)

  ghost predicate Sized(s: Hash) { |s.chain| == |s.pos| == |s.node| > 0 }

  predicate Joined(s: Hash, i: nat, j: nat)
    requires i < |s.chain| && j < |s.chain|
  {
    s.chain[i] == s.chain[j]
  }

  /** next leads to the next node on the chain, and nowhere at its end. */
  ghost predicate LinkAt(s: Hash, i: nat)
    requires Sized(s) && i < |s.node|
  {
    var j := s.node[i].next;
    && (forall m :: 0 <= m < |s.node| && m != i && Joined(s, m, i) ==> s.pos[m] != s.pos[i])
    && (j < 0 ==> forall m :: 0 <= m < |s.node| && Joined(s, m, i) ==> s.pos[m] <= s.pos[i])
    && (j >= 0 ==>
        && j < |s.node| && s.chain[j] == s.chain[i] && s.pos[i] < s.pos[j]
        && forall m :: 0 <= m < |s.node| && Joined(s, m, i) ==> s.pos[m] <= s.pos[i] || s.pos[m] >= s.pos[j])
  }

  /** A key is on the chain from its main position, where some key is at home. */
  ghost predicate HomeAt(h: (Value, nat) -> nat, s: Hash, i: nat)
    requires Sized(s) && i < |s.node|
  {
    Keyed(s.node[i]) ==>
      var p := Main(h, s.node[i].key.v, |s.node|);
      && s.chain[p] == s.chain[i] && s.pos[p] <= s.pos[i]
      && (p != i ==> Keyed(s.node[p]) && Main(h, s.node[p].key.v, |s.node|) == p)
  }

  ghost predicate FreeAt(s: Hash, i: nat)
    requires Sized(s) && i < |s.node|
  {
    && (!Keyed(s.node[i]) ==> forall m :: 0 <= m < |s.node| && m != i ==> s.chain[m] != s.chain[i])
    && (!Keyed(s.node[i]) || s.node[i].key.Dead? ==> s.node[i].val == Nil)
    && s.node[i].key != Live(NaN)
  }

  /** No live key occurs twice, and a live key comes before dead ones with the same address. */
  ghost predicate UniqueAt(s: Hash, i: nat, j: nat)
    requires Sized(s) && i < |s.node| && j < |s.node|
  {
    s.node[i].key.Live? && Keyed(s.node[i]) && i != j && s.node[j].key.v == s.node[i].key.v ==>
      s.node[j].key.Dead? && s.chain[i] == s.chain[j] && s.pos[i] < s.pos[j]
  }

  ghost predicate HashOk(h: (Value, nat) -> nat, s: Hash) {
    && Sized(s)
    && (forall i :: 0 <= i < |s.node| ==> LinkAt(s, i))
    && (forall i :: 0 <= i < |s.node| ==> HomeAt(h, s, i))
    && (forall i :: 0 <= i < |s.node| ==> FreeAt(s, i))
    && (forall i, j :: 0 <= i < |s.node| && 0 <= j < |s.node| ==> UniqueAt(s, i, j))
  }

  // ---- the three ways newkey finds room ----

  /** The main position holds no value: it takes the key. */
  function PutMain(s: Hash, k: Value, mp: nat): Hash
    requires mp < |s.node|
  {
    s.(node := s.node[mp := s.node[mp].(key := Live(k))])
  }

  ghost predicate Absent(s: Hash, k: Value) {
    k != Nil && k != NaN && forall i :: 0 <= i < |s.node| ==> s.node[i].key != Live(k)
  }

  lemma PutMainOk(h: (Value, nat) -> nat, s: Hash, k: Value, mp: nat)
    requires HashOk(h, s) && Absent(s, k) && mp < |s.node| && mp == Main(h, k, |s.node|) && s.node[mp].val == Nil
    ensures HashOk(h, PutMain(s, k, mp))
  {
    var s' := PutMain(s, k, mp);
    forall i | 0 <= i < |s'.node| ensures LinkAt(s', i) { assert LinkAt(s, i); LinkSame(s, s', i); }
    forall i | 0 <= i < |s'.node| ensures HomeAt(h, s', i) { assert HomeAt(h, s, i); }
    forall i | 0 <= i < |s'.node| ensures FreeAt(s', i) { assert FreeAt(s, i); }
    forall i, j | 0 <= i < |s'.node| && 0 <= j < |s'.node| ensures UniqueAt(s', i, j)
    {
      assert UniqueAt(s, i, j) && HomeAt(h, s, j) && LinkAt(s, i);
    }
  }

  lemma LinkSame(s: Hash, s': Hash, i: nat)
    requires Sized(s) && Sized(s') && s'.chain == s.chain && s'.pos == s.pos && i < |s.node| &&
      s'.node[i].next == s.node[i].next && LinkAt(s, i)
    ensures LinkAt(s', i)
  {
    assert forall m :: 0 <= m < |s.node| && Joined(s', m, i) ==> Joined(s, m, i);
  }

  /** A position between mp and the next node on its chain. */
  function Between(s: Hash, mp: nat): real
    requires |s.pos| == |s.node| && mp < |s.node| && s.node[mp].next < |s.node|
  {
    if s.node[mp].next < 0 then s.pos[mp] + 1.0 else (s.pos[mp] + s.pos[s.node[mp].next]) / 2.0
  }

  /** The colliding key is at home: the new key goes to the free node n, next on the chain. */
  function InsertAfter(s: Hash, k: Value, mp: nat, n: nat): Hash
    requires |s.chain| == |s.pos| == |s.node| && mp < |s.node| && n < |s.node| && s.node[mp].next < |s.node|
  {
    Hash(s.node[n := Node(Live(k), Nil, s.node[mp].next)][mp := s.node[mp].(next := n)],
         s.chain[n := s.chain[mp]], s.pos[n := Between(s, mp)])
  }

  lemma InsertAfterOk(h: (Value, nat) -> nat, s: Hash, k: Value, mp: nat, n: nat)
    requires HashOk(h, s) && Absent(s, k) && mp < |s.node| && mp == Main(h, k, |s.node|) && s.node[mp].val != Nil
    requires Main(h, s.node[mp].key.v, |s.node|) == mp && n < |s.node| && !Keyed(s.node[n])
    ensures s.node[mp].next < |s.node| && HashOk(h, InsertAfter(s, k, mp, n))
  {
    assert LinkAt(s, mp) && FreeAt(s, mp) && FreeAt(s, n);
    var s' := InsertAfter(s, k, mp, n);
    assert n != mp;
    forall i | 0 <= i < |s'.node| ensures LinkAt(s', i) { InsertLink(s, k, mp, n, i); }
    forall i | 0 <= i < |s'.node| ensures HomeAt(h, s', i) { assert HomeAt(h, s, i) && FreeAt(s, n); }
    forall i | 0 <= i < |s'.node| ensures FreeAt(s', i) { assert FreeAt(s, i) && FreeAt(s, n); }
    forall i, j | 0 <= i < |s'.node| && 0 <= j < |s'.node| ensures UniqueAt(s', i, j)
    {
      assert UniqueAt(s, i, j) && HomeAt(h, s, j) && LinkAt(s, mp) && FreeAt(s, mp);
      assert Joined(s, j, mp) <==> s.chain[j] == s.chain[mp];
    }
  }

  lemma InsertLink(s: Hash, k: Value, mp: nat, n: nat, i: nat)
    requires Sized(s) && mp < |s.node| && n < |s.node| && n != mp && i < |s.node| && LinkAt(s, i) && LinkAt(s, mp)
    requires forall m :: 0 <= m < |s.node| && m != n ==> s.chain[m] != s.chain[n]
    ensures s.node[mp].next < |s.node| && LinkAt(InsertAfter(s, k, mp, n), i)
  {
    var s' := InsertAfter(s, k, mp, n);
    forall m | 0 <= m < |s.node| && m != n ensures i != n ==> (Joined(s', m, i) <==> Joined(s, m, i)) {}
    forall m | 0 <= m < |s.node| && m != n ensures Joined(s', m, n) <==> Joined(s, m, mp) {}
    if i != n && i != mp && Joined(s, i, mp) { assert Joined(s, mp, i); }
  }

  /** The colliding key is not at home: it moves to the free node n, and mp starts a chain of its own. */
  function MoveAway(s: Hash, k: Value, mp: nat, n: nat, prev: nat): Hash
    requires |s.chain| == |s.pos| == |s.node| && mp < |s.node| && n < |s.node| && prev < |s.node|
  {
    Hash(s.node[prev := s.node[prev].(next := n)][n := s.node[mp]][mp := Node(Live(k), Nil, -1)],
         s.chain[n := s.chain[mp]][mp := s.chain[n]], s.pos[n := s.pos[mp]][mp := s.pos[n]])
  }

  lemma MoveAwayOk(h: (Value, nat) -> nat, s: Hash, k: Value, mp: nat, n: nat, prev: nat)
    requires HashOk(h, s) && Absent(s, k) && mp < |s.node| && mp == Main(h, k, |s.node|) && s.node[mp].val != Nil
    requires Main(h, s.node[mp].key.v, |s.node|) != mp && n < |s.node| && !Keyed(s.node[n]) && prev < |s.node| &&
      s.node[prev].next == mp
    ensures HashOk(h, MoveAway(s, k, mp, n, prev))
  {
    assert LinkAt(s, mp) && LinkAt(s, prev) && FreeAt(s, mp) && FreeAt(s, n) && HomeAt(h, s, mp);
    var s' := MoveAway(s, k, mp, n, prev);
    assert n != mp && prev != mp && prev != n;
    forall i | 0 <= i < |s'.node| ensures LinkAt(s', i) { MoveLink(s, k, mp, n, prev, i); }
    forall i | 0 <= i < |s'.node| ensures HomeAt(h, s', i) { MoveHome(h, s, k, mp, n, prev, i); }
    forall i | 0 <= i < |s'.node| ensures FreeAt(s', i) { assert FreeAt(s, i) && FreeAt(s, n) && FreeAt(s, mp); }
    forall i, j | 0 <= i < |s'.node| && 0 <= j < |s'.node| ensures UniqueAt(s', i, j)
    {
      MoveUnique(h, s, k, mp, n, prev, i, j);
    }
  }

  lemma MoveLink(s: Hash, k: Value, mp: nat, n: nat, prev: nat, i: nat)
    requires Sized(s) && mp < |s.node| && n < |s.node| && prev < |s.node| && n != mp && prev != mp && prev != n &&
      i < |s.node|
    requires LinkAt(s, i) && LinkAt(s, mp) && LinkAt(s, prev) && s.node[prev].next == mp
    requires forall m :: 0 <= m < |s.node| && m != n ==> s.chain[m] != s.chain[n]
    ensures LinkAt(MoveAway(s, k, mp, n, prev), i)
  {
    var s' := MoveAway(s, k, mp, n, prev);
    forall m | 0 <= m < |s.node| && m != n && m != mp
      ensures i != n && i != mp ==> (Joined(s', m, i) <==> Joined(s, m, i))
      ensures (Joined(s', m, n) <==> Joined(s, m, mp)) && !Joined(s', m, mp)
    {
    }
    if i != n && i != mp {
      assert (Joined(s', n, i) <==> Joined(s, mp, i)) && !Joined(s', mp, i);
      if s.node[i].next == mp && i != prev { assert Joined(s, i, prev) && Joined(s, prev, i); }
    }
  }

  lemma MoveHome(h: (Value, nat) -> nat, s: Hash, k: Value, mp: nat, n: nat, prev: nat, i: nat)
    requires HashOk(h, s) && mp < |s.node| && n < |s.node| && prev < |s.node| && mp == Main(h, k, |s.node|) &&
      i < |s.node|
    requires Keyed(s.node[mp]) && Main(h, s.node[mp].key.v, |s.node|) != mp && !Keyed(s.node[n]) && n != mp &&
      prev != mp && prev != n
    ensures HomeAt(h, MoveAway(s, k, mp, n, prev), i)
  {
    assert HomeAt(h, s, i) && HomeAt(h, s, mp);
  }

  lemma MoveUnique(h: (Value, nat) -> nat, s: Hash, k: Value, mp: nat, n: nat, prev: nat, i: nat, j: nat)
    requires HashOk(h, s) && mp < |s.node| && n < |s.node| && prev < |s.node| && mp == Main(h, k, |s.node|) &&
      i < |s.node| && j < |s.node|
    requires Absent(s, k) && Main(h, s.node[mp].key.v, |s.node|) != mp && !Keyed(s.node[n]) && n != mp && prev != mp &&
      prev != n
    requires Keyed(s.node[mp]) && s.node[mp].key.Live?
    ensures UniqueAt(MoveAway(s, k, mp, n, prev), i, j)
  {
    var i', j' := if i == n then mp else if i == mp then n else i, if j == n then mp else if j == mp then n else j;
    assert UniqueAt(s, i', j') && HomeAt(h, s, j');
  }

  // ---- what the invariant says of the links themselves ----

  /** In-degree at most one. */
  lemma OneLink(s: Hash, i: nat, j: nat)
    requires Sized(s) && i < |s.node| && j < |s.node| && LinkAt(s, i) && LinkAt(s, j) && i != j && s.node[i].next >= 0
    ensures s.node[j].next != s.node[i].next
  {
    if s.node[j].next == s.node[i].next { assert Joined(s, j, i) && Joined(s, i, j); }
  }

  /** The node reached from i by n links; -1 past the end. */
  function Walk(node: seq<Node>, i: int, n: nat): int
    decreases n
  {
    if n == 0 || !(0 <= i < |node|) then i else Walk(node, node[i].next, n - 1)
  }

  /** The nodes of i's chain from i on. */
  ghost function Ahead(s: Hash, i: nat): set<nat>
    requires Sized(s) && i < |s.node|
  {
    set m: nat | m < |s.node| && s.chain[m] == s.chain[i] && s.pos[m] >= s.pos[i]
  }

  lemma AheadNext(s: Hash, i: nat)
    requires Sized(s) && i < |s.node| && LinkAt(s, i) && s.node[i].next >= 0
    ensures Ahead(s, s.node[i].next) < Ahead(s, i)
    ensures |Ahead(s, s.node[i].next)| < |Ahead(s, i)|
  {
    var a, b := Ahead(s, s.node[i].next), Ahead(s, i);
    assert a <= b && i in b && i !in a;
    Smaller(a, b);
  }

  lemma Smaller<T>(a: set<T>, b: set<T>)
    requires a < b
    ensures |a| < |b|
  {
    assert |b - a| > 0;
    assert b == a + (b - a);
  }

  /** Following next from i leads to every later node of its chain: links have no cycle. */
  lemma {:induction false} Reaches(s: Hash, i: nat, j: nat)
    requires Sized(s) && i < |s.node| && j < |s.node| && (forall m :: 0 <= m < |s.node| ==> LinkAt(s, m))
    requires s.chain[j] == s.chain[i] && s.pos[i] <= s.pos[j]
    ensures exists n: nat :: Walk(s.node, i, n) == j
    decreases |Ahead(s, i)|
  {
    if i == j {
      assert Walk(s.node, i, 0) == j;
    } else {
      assert LinkAt(s, i) && Joined(s, j, i);
      AheadNext(s, i);
      Reaches(s, s.node[i].next, j);
      var n: nat :| Walk(s.node, s.node[i].next, n) == j;
      assert Walk(s.node, i, n + 1) == j;
    }
  }

  /** Every key is found by following the links from its main position. */
  lemma KeyReached(h: (Value, nat) -> nat, s: Hash, i: nat)
    requires HashOk(h, s) && i < |s.node| && Keyed(s.node[i])
    ensures exists n: nat :: Walk(s.node, Main(h, s.node[i].key.v, |s.node|), n) == i
  {
    assert HomeAt(h, s, i);
    Reaches(s, Main(h, s.node[i].key.v, |s.node|), i);
  }
}
