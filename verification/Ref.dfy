/** luaL_ref and luaL_unref: references to objects, kept in a table with a free list threaded through it. */
module Ref {
  import opened Common
  import opened HashPart
  import opened TableVals
  import opened Sizing
  import opened Table
  import opened TableCount

  const FREELIST := 0
  const REFNIL := -1

  function ToInteger(v: Value): int { if v.Num? then v.n else 0 }

  /** The entry for a number. */
  ghost function Entry(arr: seq<Value>, node: seq<Node>, r: int): Value { ValueOf(arr, node, Num(r)) }

  /** What the entry for r leads to on the free list; 0 ends the list. */
  ghost function Link(arr: seq<Value>, node: seq<Node>, r: int): int { ToInteger(Entry(arr, node, r)) }

  ghost function LinkTo(free: seq<int>, i: int): int { if 0 <= i < |free| then free[i] else 0 }

  /**
   * The references from 1 to top are either held, each with its object, or free; the free ones form the list
   * that starts at entry 0, without repetition; no entry above top is in use.
   */
  ghost predicate Linked(arr: seq<Value>, node: seq<Node>, held: map<int, Value>, free: seq<int>, top: nat) {
    (forall r :: r in held ==> held[r] != Nil && Entry(arr, node, r) == held[r]) &&
    NoDup(free) && (forall r :: r in free ==> r !in held) &&
    (forall r :: 1 <= r <= top <==> r in held || r in free) &&
    (forall r: int :: r > top ==> Entry(arr, node, r) == Nil) &&
    Link(arr, node, FREELIST) == LinkTo(free, 0) &&
    forall i :: 0 <= i < |free| ==> Link(arr, node, free[i]) == LinkTo(free, i + 1)
  }

  /** One table is another with one entry changed. */
  ghost predicate Set(arr: seq<Value>, node: seq<Node>, arr': seq<Value>, node': seq<Node>, r: int, v: Value) {
    forall k :: ValueOf(arr', node', k) == if k == Num(r) then v else ValueOf(arr, node, k)
  }

  /** Entry q after the entry for r has been set. */
  lemma SetEntry(arr: seq<Value>, node: seq<Node>, arr': seq<Value>, node': seq<Node>, r: int, v: Value, q: int)
    requires Set(arr, node, arr', node', r, v)
    ensures Entry(arr', node', q) == if q == r then v else Entry(arr, node, q)
  {
  }

  /** With an empty free list there are no holes: the only border is top. */
  lemma BorderTop(arr: seq<Value>, node: seq<Node>, held: map<int, Value>, top: nat, n: nat)
    requires Linked(arr, node, held, [], top)
    requires (n == 0 || Entry(arr, node, n) != Nil) && Entry(arr, node, n + 1) == Nil
    ensures n == top
  {
    assert 1 <= n + 1 <= top ==> n + 1 in held;
  }

  lemma TakeNew(arr: seq<Value>, node: seq<Node>, held: map<int, Value>, top: nat, v: Value, arr': seq<Value>,
    node': seq<Node>)
    requires Linked(arr, node, held, [], top) && v != Nil && Set(arr, node, arr', node', top + 1, v)
    ensures Linked(arr', node', held[top + 1 := v], [], top + 1)
  {
    forall q ensures Entry(arr', node', q) == if q == top + 1 then v
      else Entry(arr, node, q) { SetEntry(arr, node, arr', node', top + 1, v, q); }
    hide Entry;
  }

  /** The first free reference is taken: its link becomes the start of the list. */
  lemma TakeFree(arr: seq<Value>, node: seq<Node>, held: map<int, Value>, free: seq<int>, top: nat, v: Value,
    arr1: seq<Value>, node1: seq<Node>, arr2: seq<Value>, node2: seq<Node>)
    requires Linked(arr, node, held, free, top) && |free| > 0 && v != Nil
    requires Set(arr, node, arr1, node1, FREELIST, Entry(arr, node, free[0])) &&
      Set(arr1, node1, arr2, node2, free[0], v)
    ensures Linked(arr2, node2, held[free[0] := v], free[1..], top)
  {
    var f := free[0];
    assert f in free && f >= 1;
    forall q ensures Entry(arr2, node2, q) == if q == f then v else if q == FREELIST then Entry(arr, node, f)
      else Entry(arr, node, q) {
      SetEntry(arr, node, arr1, node1, FREELIST, Entry(arr, node, f), q);
      SetEntry(arr1, node1, arr2, node2, f, v, q);
    }
    NoDupTail(free);
    hide Entry;
    forall i | 0 <= i < |free[1..]| ensures Link(arr2, node2, free[1..][i]) == LinkTo(free[1..], i + 1) {
      assert free[1..][i] == free[i + 1] && free[i + 1] in free;
    }
  }

  /** A reference is given back: it becomes the first free one. */
  lemma GiveBack(arr: seq<Value>, node: seq<Node>, held: map<int, Value>, free: seq<int>, top: nat, r: int,
    arr1: seq<Value>, node1: seq<Node>, arr2: seq<Value>, node2: seq<Node>)
    requires Linked(arr, node, held, free, top) && r in held
    requires Set(arr, node, arr1, node1, r, Entry(arr, node, FREELIST)) &&
      Set(arr1, node1, arr2, node2, FREELIST, Num(r))
    ensures Linked(arr2, node2, held - {r}, [r] + free, top)
  {
    var all := [r] + free;
    assert r >= 1;
    forall q ensures Entry(arr2, node2, q) == if q == FREELIST then Num(r) else if q == r
      then Entry(arr, node, FREELIST) else Entry(arr, node, q) {
      SetEntry(arr, node, arr1, node1, r, Entry(arr, node, FREELIST), q);
      SetEntry(arr1, node1, arr2, node2, FREELIST, Num(r), q);
    }
    NoDupCons(r, free);
    hide Entry;
    forall i | 0 <= i < |all| ensures Link(arr2, node2, all[i]) == LinkTo(all, i + 1) {
      if i > 0 { assert all[i] == free[i - 1] && free[i - 1] in free; }
    }
  }

  datatype Res = Good(ref: int) | Raised(msg: string)

  class Registry {
    const t: Table
    /** The references the program holds, and what each stands for. */
    var held: map<int, Value>
    ghost var free: seq<int>
    ghost var top: nat

    ghost predicate Valid()
      reads this, t
    {
      t.Valid() && Linked(t.arr, t.node, held, free, top)
    }

    /** One raw assignment to a number. */
    method RawSetI(r: int, v: Value) returns (s: Status)
      requires t.Valid()
      modifies t
      ensures s.Success? ==> t.Valid() && Set(old(t.arr), old(t.node), t.arr, t.node, r, v)
      ensures s.Success? ==> |KeysOf(t.arr, t.node)| <= old(|KeysOf(t.arr, t.node)|) + 1
      ensures old(|KeysOf(t.arr, t.node)|) < MAXASIZE ==> s.Success?
    {
      hide ValueOf, KeysOf, TableOk;
      ghost var arr, node, g := t.arr, t.node, t.Part();
      TableParts(t.h, arr, g, t.lsizenode, t.lastfree, t.dummy);
      s := t.Put(Num(r), v);
      if s.Success? {
        forall k ensures ValueOf(t.arr, t.node, k) == if k == Num(r) then v else ValueOf(arr, node, k) {
          assert t.At(k) == if k == Num(r) then v else old(t.At(k));
        }
        TableParts(t.h, t.arr, t.Part(), t.lsizenode, t.lastfree, t.dummy);
        KeysOneMore(t.h, arr, g, t.arr, t.Part(), Num(r));
      }
    }

    method RawGetI(r: int) returns (v: Value)
      requires t.Valid()
      ensures v == Entry(t.arr, t.node, r)
    {
      var slot := t.GetNum(r);
      v := t.Load(slot, Num(r));
    }

    /** luaL_ref: a reference that is not in use stands for v from now on. */
    method Ref(v: Value) returns (r: Res)
      requires Valid()
      modifies this, t
      ensures v == Nil ==> r == Good(-1) && Valid() && held == old(held)
      ensures v != Nil && r.Good? ==> Valid() && r.ref >= 1 && r.ref !in old(held) && held == old(held)[r.ref := v]
      ensures old(|KeysOf(t.arr, t.node)|) + 2 <= MAXASIZE ==>
        r.Good? && |KeysOf(t.arr, t.node)| <= old(|KeysOf(t.arr, t.node)|) + 2
      ensures v != Nil && r.Good? && old(free) != [] ==> r.ref == old(free)[0] && top == old(top)
    {
      hide Linked, ValueOf, KeysOf, TableOk, Set;
      if v == Nil { return Good(REFNIL); }
      ghost var arr, node := t.arr, t.node;
      LinkedStart(arr, node, held, free, top);
      var first := RawGetI(FREELIST);
      var ref := ToInteger(first);
      if ref != 0 {
        var next := RawGetI(ref);
        var s := RawSetI(FREELIST, next);
        if s.Failure? { return Raised(s.msg); }
        ghost var arr1, node1 := t.arr, t.node;
        s := RawSetI(ref, v);
        if s.Failure? { return Raised(s.msg); }
        TakeFree(arr, node, held, free, top, v, arr1, node1, t.arr, t.node);
        free := free[1..];
      } else {
        var n := t.GetN();
        BorderTop(arr, node, held, top, n);
        ref := n + 1;
        var s := RawSetI(ref, v);
        if s.Failure? { return Raised(s.msg); }
        TakeNew(arr, node, held, top, v, t.arr, t.node);
        top := ref;
      }
      held := held[ref := v];
      r := Good(ref);
    }

    /** luaL_unref: r is free again, and will be the next one handed out. */
    method Unref(r: int) returns (s: Status)
      requires Valid() && (r < 0 || r in held)
      modifies this, t
      ensures s.Success? ==> Valid() && held == old(held) - {r}
      ensures s.Success? && r >= 0 ==> free == [r] + old(free)
      ensures old(|KeysOf(t.arr, t.node)|) + 2 <= MAXASIZE ==>
        s.Success? && |KeysOf(t.arr, t.node)| <= old(|KeysOf(t.arr, t.node)|) + 2
    {
      hide Linked, ValueOf, KeysOf, TableOk, Set;
      s := Success;
      ghost var arr, node := t.arr, t.node;
      LinkedStart(arr, node, held, free, top);
      if r >= 0 {
        var first := RawGetI(FREELIST);
        s := RawSetI(r, first);
        if s.Failure? { return; }
        ghost var arr1, node1 := t.arr, t.node;
        s := RawSetI(FREELIST, Num(r));
        if s.Failure? { return; }
        GiveBack(arr, node, held, free, top, r, arr1, node1, t.arr, t.node);
        free := [r] + free;
      } else {
        assert held - {r} == held;
      }
      held := held - {r};
    }

    /** What a held reference stands for is what it was made for. */
    method Deref(r: int) returns (v: Value)
      requires Valid() && r in held
      ensures v == held[r]
    {
      v := RawGetI(r);
    }

    constructor (h: (Value, nat) -> nat)
      ensures Valid() && held == map[] && fresh(t)
    {
      t := new Table.Empty(h);
      held, free, top := map[], [], 0;
    }
  }

  lemma LinkedStart(arr: seq<Value>, node: seq<Node>, held: map<int, Value>, free: seq<int>, top: nat)
    requires Linked(arr, node, held, free, top)
    ensures Link(arr, node, FREELIST) == LinkTo(free, 0) && (forall r :: r in held ==> 1 <= r <= top) &&
      forall r :: r in free ==> r >= 1 && r !in held
    ensures if free == [] then Link(arr, node, FREELIST) == 0 else Link(arr, node, FREELIST) == free[0] >= 1
  {
    if free != [] { assert free[0] in free; }
  }

  datatype Op = Take(v: Value) | Drop(r: int)

  /** Any program that gives back only what it holds: every reference it holds stands for its own object. */
  method Run(g: Registry, ops: seq<Op>) returns (s: Status)
    requires g.Valid()
    modifies g, g.t
    ensures s.Success? ==> g.Valid()
    ensures old(|KeysOf(g.t.arr, g.t.node)|) + 2 * |ops| <= MAXASIZE ==> s.Success?
  {
    hide Linked, KeysOf, TableOk;
    var i := 0;
    while i < |ops|
      invariant 0 <= i <= |ops| && g.Valid()
      invariant old(|KeysOf(g.t.arr, g.t.node)|) + 2 * |ops| <= MAXASIZE ==>
        |KeysOf(g.t.arr, g.t.node)| <= old(|KeysOf(g.t.arr, g.t.node)|) + 2 * i
    {
      match ops[i] {
        case Take(v) =>
          var r := g.Ref(v);
          if r.Raised? { return Failure(r.msg); }
        case Drop(r) =>
          if r in g.held {
            var d := g.Unref(r);
            if d.Failure? { return d; }
          }
      }
      i := i + 1;
    }
    s := Success;
  }
}
