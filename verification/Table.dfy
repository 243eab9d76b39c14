/** The tables of ltable.c: values kept by position or by hash. */
module Table {
  import opened Common
  import opened HashPart
  import opened Sizing
  import opened TableCount
  import opened TableIter
  import opened TableVals

  /** Where the value of a key is kept. */
  datatype Slot = InArray(i: nat) | InNode(i: nat) | NilObject

  predicate SlotOf(arr: seq<Value>, node: seq<Node>, s: Slot, k: Value) {
    match s
    case InArray(i) => i < |arr| && k == Num(i + 1)
    case InNode(i) => LiveAt(node, k, i) && k != Nil && !InRange(k, |arr|)
    case NilObject => true
  }

  class Table {
    const h: (Value, nat) -> nat
    var arr: seq<Value>
    var node: seq<Node>
    var lsizenode: nat
    var lastfree: int
    var dummy: bool          // node is the shared dummynode
    ghost var chain: seq<nat>
    ghost var pos: seq<real>

    ghost function Part(): Hash
      reads this
    {
      Hash(node, chain, pos)
    }

    ghost predicate Valid()
      reads this
    {
      TableOk(h, arr, Part(), lsizenode, lastfree, dummy)
    }

    ghost function At(k: Value): Value
      reads this
    {
      ValueOf(arr, node, k)
    }

    // ---- searching ----

    /** The search loop of luaH_get and its variants, from the main position along the chain. */
    method Search(k: Value) returns (r: Option<nat>)
      requires Valid() && k != Nil
      ensures if r.Some? then LiveAt(node, k, r.value) else Missing(node, k)
    {
      hide HashOk;
      ghost var s := Part();
      SizeThere(h, s);
      var n: int := Main(h, k, |node|);
      ghost var p: nat := n;
      SearchStart(h, s, k);
      while n >= 0
        invariant |s.chain| == |s.pos| == |node| && p < |node| && n < |node| &&
          (n >= 0 ==> s.chain[n] == s.chain[p] && s.pos[n] >= s.pos[p])
        invariant forall i :: 0 <= i < |node| && LiveAt(node, k, i) ==> n >= 0 && s.pos[i] >= s.pos[n]
        decreases if n >= 0 then |Ahead(s, n)| + 1 else 0
      {
        if node[n].key == Live(k) { return Some(n); }
        SearchNext(h, s, k, p, n);
        n := node[n].next;
      }
      return None;
    }

    /** luaH_getnum */
    method GetNum(k: int) returns (s: Slot)
      requires Valid()
      ensures SlotOf(arr, node, s, Num(k)) && (s.NilObject? ==> Missing(node, Num(k)) && !InRange(Num(k), |arr|))
    {
      if 0 <= k - 1 < |arr| { return InArray(k - 1); }
      var r := Search(Num(k));
      return if r.Some? then InNode(r.value) else NilObject;
    }

    /** luaH_get */
    method Get(k: Value) returns (s: Slot)
      requires Valid()
      ensures SlotOf(arr, node, s, k) && (s.NilObject? ==> k == Nil || (Missing(node, k) && !InRange(k, |arr|)))
    {
      ArraySmall(h, arr, Part(), lsizenode, lastfree, dummy);
      match k {
        case Nil => return NilObject;
        case Num(n) =>
          if -0x8000_0000 <= n < 0x8000_0000 {
            s := GetNum(n);
            return;
          }
        case _ =>
      }
      var r := Search(k);
      return if r.Some? then InNode(r.value) else NilObject;
    }

    /** The value in a slot. */
    method Load(s: Slot, ghost k: Value) returns (v: Value)
      requires Valid() && SlotOf(arr, node, s, k) && (s.NilObject? ==>
        k == Nil || (Missing(node, k) && !InRange(k, |arr|)))
      ensures v == At(k)
    {
      match s {
        case InArray(i) => return arr[i];
        case InNode(i) => ValAt(h, Part(), k, i); return node[i].val;
        case NilObject => if k != Nil { NoVal(node, k); } return Nil;
      }
    }

    /** Storing through the pointer luaH_set returned. */
    method Store(s: Slot, ghost k: Value, v: Value)
      requires Valid() && SlotOf(arr, node, s, k) && !s.NilObject?
      modifies this`arr, this`node
      ensures Valid() && (forall k' :: At(k') == if k' == k then v else old(At(k')))
      ensures |arr| == old(|arr|) && |node| == old(|node|) && KeySet(node) == old(KeySet(node))
      ensures arr == (if s.InArray? then old(arr)[s.i := v] else old(arr))
      ensures node == (if s.InNode? then old(node)[s.i := old(node)[s.i].(val := v)] else old(node))
    {
      hide HashOk, HVal;
      match s {
        case InArray(i) => arr := arr[i := v];
        case InNode(i) =>
          StoreOk(h, Part(), k, i, v);
          node := node[i := node[i].(val := v)];
      }
    }

    /** getfreepos: -1 when every node is in use. */
    method GetFreePos() returns (n: int)
      requires Valid()
      modifies this`lastfree
      ensures lastfree <= old(lastfree)
      ensures n >= 0 ==> n == lastfree < |node| && !Keyed(node[n]) && !dummy && TableOk(h, arr, Part(), lsizenode, n + 1, dummy)
      ensures n < 0 ==> Valid() && (dummy || |KeySet(node)| == |node|)
    {
      hide HashOk;
      while lastfree > 0
        invariant lastfree <= old(lastfree) && Valid()
        decreases lastfree
      {
        lastfree := lastfree - 1;
        if !Keyed(node[lastfree]) { return lastfree; }
      }
      lastfree := lastfree - 1;
      if !dummy { AllUsed(node); }
      return -1;
    }

    // ---- inserting a new key ----

    /** The node before mp on its chain; othern is the main position of the colliding key. */
    method Predecessor(othern: nat, mp: nat) returns (prev: nat)
      requires HashOk(h, Part()) && mp < |node| && node[mp].val != Nil &&
        othern == Main(h, node[mp].key.v, |node|) != mp
      ensures prev < |node| && node[prev].next == mp
    {
      hide HashOk;
      ghost var s := Part();
      PrevStart(h, s, mp);
      prev := othern;
      while node[prev].next != mp
        invariant prev < |node| && s.chain[prev] == s.chain[mp] && s.pos[prev] < s.pos[mp]
        decreases |Ahead(s, prev)|
      {
        PrevNext(h, s, prev, mp);
        prev := node[prev].next;
      }
    }

    /** newkey, a free position n having been found for a collision at mp. */
    method Collide(k: Value, mp: nat, n: nat) returns (p: nat)
      requires TableOk(h, arr, Part(), lsizenode, n + 1, false) && n < |node| && !Keyed(node[n])
      requires Absent(Part(), k) && !InRange(k, |arr|) && mp == Main(h, k, |node|) && node[mp].val != Nil
      modifies this`node, this`chain, this`pos
      ensures TableOk(h, arr, Part(), lsizenode, n, false) && LiveAt(node, k, p)
      ensures SameValues(arr, old(node), arr, node) && |KeySet(node)| <= old(|KeySet(node)|) + 1 &&
        |node| == old(|node|)
    {
      hide TableOk, HashOk, SameValues, KeySet, HVal;
      ghost var s := Part();
      TableParts(h, arr, s, lsizenode, n + 1, false);
      var othern := Main(h, node[mp].key.v, |node|);
      if othern != mp {  // MoveAwayOk: the squatter moves, its predecessor is found along its own chain
        var prev := Predecessor(othern, mp);
        MoveAwayTable(h, arr, s, lsizenode, k, mp, n, prev);
        node := node[prev := node[prev].(next := n)];
        node := node[n := node[mp]];
        node := node[mp := Node(Live(k), Nil, -1)];
        chain, pos := MoveAway(s, k, mp, n, prev).chain, MoveAway(s, k, mp, n, prev).pos;
        assert Part() == MoveAway(s, k, mp, n, prev);
        p := mp;
      } else {  // InsertAfterOk: the new key becomes the second of the chain
        InsertAfterTable(h, arr, s, lsizenode, k, mp, n);
        chain, pos := InsertAfter(s, k, mp, n).chain, InsertAfter(s, k, mp, n).pos;
        node := node[n := Node(Live(k), Nil, node[mp].next)];
        node := node[mp := node[mp].(next := n)];
        assert Part() == InsertAfter(s, k, mp, n);
        p := n;
      }
    }

    /** newkey. With room for the key no rehash is needed. */
    method NewKey(k: Value, ghost room: bool) returns (s: Status, slot: Slot)
      requires Valid() && Absent(Part(), k) && !InRange(k, |arr|) && (room ==> !dummy && |KeySet(node)| < |node|)
      modifies this
      ensures s.Success? ==> Valid() && SlotOf(arr, node, slot, k) && !slot.NilObject? && SameValues(old(arr), old(node), arr, node)
      ensures room ==> s.Success? && arr == old(arr) && |node| == old(|node|) && !dummy && |KeySet(node)| <= old(|KeySet(node)|) + 1
      ensures old(|KeysOf(arr, node)|) < MAXASIZE ==> s.Success?
      decreases if room then 0 else 1, 2
    {
      hide TableOk, HashOk, SameValues, KeySet, HVal, Absent;
      slot := NilObject;
      ghost var g, a0 := Part(), arr;
      TableParts(h, arr, g, lsizenode, lastfree, dummy);
      AbsentNot(g, k);
      var mp := Main(h, k, |node|);
      if node[mp].val != Nil || dummy {
        var n := GetFreePos();
        if n < 0 {  // every node is in use: one rehash makes room, and the key fits then
          :- Rehash(k);
          ghost var a1, n1 := arr, node;
          s, slot := SetKey(k, true);
          SameTrans(a0, g.node, a1, n1, arr, node);
          return;
        }
        mp := Collide(k, mp, n);
      } else {
        PutMainTable(h, arr, g, lsizenode, lastfree, k, mp);
        node := node[mp := node[mp].(key := Live(k))];
      }
      return Success, InNode(mp);
    }

    /** luaH_set */
    method SetKey(k: Value, ghost room: bool) returns (s: Status, slot: Slot)
      requires Valid() && (room ==> InRange(k, |arr|) || (!dummy && |KeySet(node)| < |node|))
      modifies this
      ensures s.Success? ==> Valid() && SlotOf(arr, node, slot, k) && !slot.NilObject? && SameValues(old(arr), old(node), arr, node)
      ensures k == Nil || k == NaN ==> s.Failure? && Valid() && arr == old(arr) && node == old(node)
      ensures k != Nil && k != NaN && old(|KeysOf(arr, node)|) < MAXASIZE ==> s.Success?
      ensures room && k != Nil && k != NaN ==>
        s.Success? && arr == old(arr) && |node| == old(|node|) && dummy == old(dummy) &&
        |KeySet(node)| <= old(|KeySet(node)|) + if InRange(k, |arr|) then 0 else 1
      decreases if room then 0 else 1, 3
    {
      hide TableOk, HashOk, KeySet, HVal;
      ghost var g := Part();
      slot := Get(k);
      if !slot.NilObject? {
        NoNaN(h, arr, g, lsizenode, lastfree, dummy, slot, k);
        return Success, slot;
      }
      if k == Nil { return Failure("table index is nil"), slot; }
      if k == NaN { return Failure("table index is NaN"), slot; }
      MissingAbsent(g, k);
      s, slot := NewKey(k, room);
    }

    /** luaH_setnum */
    method SetNum(n: int, ghost room: bool) returns (s: Status, slot: Slot)
      requires Valid() && (room ==> InRange(Num(n), |arr|) || (!dummy && |KeySet(node)| < |node|))
      modifies this
      ensures s.Success? ==> Valid() && SlotOf(arr, node, slot, Num(n)) && !slot.NilObject? && SameValues(old(arr), old(node), arr, node)
      ensures room ==>
        s.Success? && arr == old(arr) && |node| == old(|node|) && dummy == old(dummy) &&
        |KeySet(node)| <= old(|KeySet(node)|) + if InRange(Num(n), |arr|) then 0 else 1
      decreases if room then 0 else 1, 3
    {
      hide TableOk, HashOk, KeySet, HVal;
      slot := GetNum(n);
      if !slot.NilObject? { return Success, slot; }
      MissingAbsent(Part(), Num(n));
      s, slot := NewKey(Num(n), room);
    }

    // ---- growing ----

    method SetArrayVector(size: nat)
      requires size >= |arr|
      modifies this`arr
      ensures |arr| == size && forall i :: 0 <= i < size ==> arr[i] == if i < |old(arr)| then old(arr)[i] else Nil
    {
      var i := |arr|;
      while i < size
        invariant |old(arr)| <= i <= size && |arr| == i
        invariant forall j :: 0 <= j < i ==> arr[j] == if j < |old(arr)| then old(arr)[j] else Nil
      {
        arr := arr + [Nil];
        i := i + 1;
      }
    }

    method SetNodeVector(size: nat) returns (s: Status)
      modifies this`node, this`lsizenode, this`lastfree, this`dummy, this`chain, this`pos
      ensures size <= MAXASIZE ==> s.Success?
      ensures s.Success? ==> Part() == Fresh(|node|) && lsizenode <= MAXBITS && |node| == Pow2(lsizenode) && size <= |node|
      ensures s.Success? ==> if size == 0 then dummy && lastfree == 0 && lsizenode == 0 else !dummy && lastfree == |node|
    {
      var lsize := 0;
      if size == 0 {
        node, dummy, lastfree := [FREE], true, 0;
      } else {
        lsize := CeilLog2(size);
        CeilBound(size);
        if lsize > MAXBITS { return Failure("table overflow"); }
        var n := Pow2(lsize);
        node, dummy, lastfree := [], false, n;
        while |node| < n
          invariant |node| <= n && node == seq(|node|, i => FREE) && !dummy && lastfree == n
          decreases n - |node|
        {
          node := node + [FREE];
        }
      }
      lsizenode := lsize;
      chain, pos := Fresh(|node|).chain, Fresh(|node|).pos;
      return Success;
    }

    /** A state while resize puts back the keys in `done` (and those the array part kept). */
    ghost predicate Rebuilding(a0: seq<Value>, n0: seq<Node>, nasize: nat, nhsize: nat, done: set<Value>)
      reads this
    {
      && Valid() && |arr| == nasize && nhsize <= |node| && (nhsize > 0 ==> !dummy)
      && done <= KeysOf(a0, n0) && (forall k :: k in done ==> !InRange(k, Least(nasize, |a0|)))
      && (forall k :: At(k) == Rebuilt(a0, n0, nasize, done, k))
      && |KeySet(node)| <= |HashKeys(done, nasize)|
    }

    method Reinsert(k: Value, v: Value, isnum: bool, ghost a0: seq<Value>, ghost n0: seq<Node>, ghost nhsize: nat,
      ghost done: set<Value>)
      requires Rebuilding(a0, n0, |arr|, nhsize, done) && k in KeysOf(a0, n0) && k !in done &&
        !InRange(k, Least(|arr|, |a0|))
      requires v == ValueOf(a0, n0, k) && |HashKeys(KeysOf(a0, n0), |arr|)| <= nhsize && k != Nil && k != NaN &&
        (isnum ==> k.Num?)
      modifies this
      ensures |arr| == old(|arr|) && Rebuilding(a0, n0, |arr|, nhsize, done + {k})
      decreases 0, 4
    {
      hide TableOk, KeysOf, KeySet, HVal, HashKeys, Rebuilt, ValueOf;
      HashRoom(KeysOf(a0, n0), done, k, |arr|);
      RebuiltMore(a0, n0, |arr|, done, k);
      ghost var nasize, a1, n1 := |arr|, arr, node;
      var s, slot;
      if isnum {
        s, slot := SetNum(k.n, true);
      } else {
        s, slot := SetKey(k, true);
      }
      ghost var a2, n2 := arr, node;
      Store(slot, k, v);
      forall k' ensures At(k') == Rebuilt(a0, n0, nasize, done + {k}, k')
      {
        assert ValueOf(a1, n1, k') == Rebuilt(a0, n0, nasize, done, k') && ValueOf(a2, n2, k') == ValueOf(a1, n1, k');
      }
    }

    /** The array part as it will be, and an empty hash part. */
    method FreshVectors(nasize: nat, nhsize: nat) returns (s: Status)
      requires Valid() && nasize <= MAXASIZE
      modifies this
      ensures s.Success? ==> Rebuilding(old(arr), old(node), nasize, nhsize, {})
      ensures nhsize <= MAXASIZE ==> s.Success?
    {
      hide Pow2, HashOk;
      ghost var a0, n0 := arr, node;
      if nasize > |arr| { SetArrayVector(nasize); }
      :- SetNodeVector(nhsize);
      if nasize < |arr| { arr := arr[..nasize]; }  // the slice that leaves the array is put back key by key
      FreshOk(h, a0, n0, arr, Part(), lsizenode, lastfree, dummy, nasize);
      return Success;
    }

    /** rehash: the array part gets the best size, and the hash part room for the key ek. */
    method Rehash(ek: Value) returns (s: Status)
      requires Valid() && Absent(Part(), ek) && !InRange(ek, |arr|)
      modifies this
      ensures s.Success? ==> Valid() && SameValues(old(arr), old(node), arr, node)
      ensures s.Success? ==> InRange(ek, |arr|) || (!dummy && |KeySet(node)| < |node|)
      ensures s.Success? ==> Best(old(KeysOf(arr, node)) + {ek}, |arr|)
      ensures old(|KeysOf(arr, node)|) < MAXASIZE ==> s.Success?
      decreases 1, 1
    {
      hide TableOk, HashOk, KeysOf, KeySet, HashKeys, HVal, Counts, UpTo, Best, ArrKeys, NodeKeys, Outside, SameValues,
        Absent, Slice, Pow2;
      ghost var g, e := Part(), KeysOf(arr, node);
      RehashStart(h, arr, g, lsizenode, lastfree, dummy, ek);
      var nums := new nat[MAXBITS + 1](i => 0);
      NumsStart(nums[..]);
      var nasize := NumUseArray(arr, nums);
      var totaluse := nasize;
      var total, ints := NumUseHash(h, arr, g, node, nums);
      totaluse, nasize := totaluse + total, nasize + ints;
      var c := CountInt(ek, nums, e);
      nasize, totaluse := nasize + c, totaluse + 1;
      var n, na := ComputeSizes(nums[..], nasize, e + {ek});
      RehashRoom(e, ek, n);
      s := Resize(n, totaluse - na);
    }

    method Resize(nasize: nat, nhsize: nat) returns (s: Status)
      requires Valid() && nasize <= MAXASIZE && |HashKeys(KeysOf(arr, node), nasize)| <= nhsize
      modifies this
      ensures s.Success? ==> Valid() && |arr| == nasize && SameValues(old(arr), old(node), arr, node)
      ensures s.Success? ==> |KeySet(node)| <= |HashKeys(old(KeysOf(arr, node)), nasize)| && nhsize <= |node| && (nhsize > 0 ==> !dummy)
      ensures nhsize <= MAXASIZE ==> s.Success?
      decreases 1, 0
    {
      hide TableOk, HashOk, KeysOf, KeySet, HVal, HashKeys, Rebuilt, ArrKeys, NodeKeys;
      var oldarr, nold := arr, node;  // Rebuilding compares against these two
      ghost var g := Part();
      TableParts(h, arr, g, lsizenode, lastfree, dummy);
      :- FreshVectors(nasize, nhsize);
      ghost var done: set<Value> := {};
      var i := nasize;
      while i < |oldarr|
        invariant nasize <= i && (i <= |oldarr| || i == nasize) && |arr| == nasize &&
          Rebuilding(oldarr, nold, nasize, nhsize, done)
        invariant done == SliceKeys(oldarr, nasize, i)
      {
        SliceNext(oldarr, nold, nasize, i);
        if oldarr[i] != Nil {
          Reinsert(Num(i + 1), oldarr[i], true, oldarr, nold, nhsize, done);
          done := done + {Num(i + 1)};
        }
        i := i + 1;
      }
      i := |nold|;
      NodesStart(oldarr, nold, nasize, done);
      while i > 0
        invariant 0 <= i <= |nold| && |arr| == nasize && Rebuilding(oldarr, nold, nasize, nhsize, done)
        invariant done == SliceKeys(oldarr, nasize, |oldarr|) + NodeKeys(nold, i)
      {
        i := i - 1;
        NodeReady(h, oldarr, g, i, nasize, lsizenode);
        if nold[i].val != Nil {
          Reinsert(nold[i].key.v, nold[i].val, false, oldarr, nold, nhsize, done);
          done := done + {nold[i].key.v};
        }
      }
      AllBack(h, oldarr, g, nasize, done);
      return Success;
    }

    /** luaH_resizearray, as it is called: to make the array part larger. */
    method ResizeArray(nasize: nat) returns (s: Status)
      requires Valid() && |arr| <= nasize <= MAXASIZE
      modifies this
      ensures s.Success? && Valid() && |arr| == nasize && SameValues(old(arr), old(node), arr, node)
    {
      hide HashOk, HashKeys, KeysOf, HVal, SameValues, Pow2;
      var nsize := if dummy then 0 else |node|;
      GrowRoom(h, arr, Part(), lsizenode, lastfree, dummy, nasize);
      s := Resize(nasize, nsize);
    }

    /** luaH_new */
    constructor Empty(h: (Value, nat) -> nat)
      ensures this.h == h && arr == [] && Part() == Fresh(1) && lsizenode == 0 && lastfree == 0 && dummy
    {
      this.h := h;
      arr, node, lsizenode, lastfree, dummy := [], [FREE], 0, 0, true;
      chain, pos := Fresh(1).chain, Fresh(1).pos;
      new;
      assert node == Fresh(1).node;
    }

    static method New(h: (Value, nat) -> nat, narray: nat, nhash: nat) returns (s: Status, t: Table)
      requires narray <= MAXASIZE
      ensures fresh(t) && (nhash <= MAXASIZE ==> s.Success?)
      ensures s.Success? ==> t.Valid() && t.h == h && |t.arr| == narray && nhash <= |t.node| && forall k ::
        t.At(k) == Nil
    {
      hide HashOk, Pow2, HVal;
      t := new Table.Empty(h);
      t.SetArrayVector(narray);
      s := t.SetNodeVector(nhash);
      if s.Success? { FreshOk(h, [], [FREE], t.arr, t.Part(), t.lsizenode, t.lastfree, t.dummy, narray); }
    }

    // ---- assignments ----

    /** t[k] = v */
    method Put(k: Value, v: Value) returns (s: Status)
      requires Valid()
      modifies this
      ensures s.Success? ==> Valid() && forall k' :: At(k') == if k' == k then v else old(At(k'))
      ensures k == Nil || k == NaN ==> s.Failure? && Valid() && arr == old(arr) && node == old(node)
      ensures k != Nil && k != NaN && old(|KeysOf(arr, node)|) < MAXASIZE ==> s.Success?
    {
      hide TableOk, KeysOf, HVal, ValueOf;
      ghost var a0, n0 := arr, node;
      var slot;
      s, slot := SetKey(k, false);
      if s.Success? {
        ghost var a1, n1 := arr, node;
        Store(slot, k, v);
        forall k' ensures At(k') == if k' == k then v else ValueOf(a0, n0,
          k') { assert ValueOf(a1, n1, k') == ValueOf(a0, n0, k'); }
      }
    }

    /** The collector retags the key of an empty entry whose object it is going to free. */
    method CollectKey(i: nat)
      requires Valid()
      modifies this`node
      ensures node == if i < |old(node)| && old(node)[i].val == Nil && old(node)[i].key.Live? &&
        old(node)[i].key.v.Other?
        then old(node)[i := old(node)[i].(key := Dead(old(node)[i].key.v))] else old(node)
      ensures Valid() && (forall k :: At(k) == old(At(k))) && Changed(arr, old(Part()), arr, Part(), [])
    {
      hide HashOk, HVal, Pow2, Changed;
      ghost var g := Part();
      TableParts(h, arr, g, lsizenode, lastfree, dummy);
      SizedThere(h, arr, g);
      ChangedNone(arr, g);
      if i < |node| && node[i].val == Nil && node[i].key.Live? && Collectable(node[i].key.v) {
        KilledOk(h, g, i);
        ChangedKilled(arr, g, i);
        node := node[i := node[i].(key := Dead(node[i].key.v))];
        assert Part() == Killed(g, i);
      }
    }

    /** The table agrees with a finite map. */
    ghost predicate Agrees(m: map<Value, Value>)
      reads this
    {
      forall k :: At(k) == Lookup(m, k)
    }

    /**
     Any sequence of assignments, readings, enlargements of the array part and collections of keys does
     to the table, and reads from it, what it does to a finite map.
     */
    method Run(ops: seq<Op>, ghost m: map<Value, Value>) returns (s: Status, out: seq<Value>)
      requires Valid() && Agrees(m)
      modifies this
      ensures s.Success? ==> Valid() && Agrees(MapAfter(m, ops)) && out == Readings(m, ops)
      ensures |m| + |ops| <= MAXASIZE ==> s.Success?
    {
      hide TableOk, HashOk, HVal, ValueOf, Agrees;
      out := [];
      ghost var m' := m;
      var i := 0;
      assert ops[..0] == [];
      while i < |ops|
        invariant 0 <= i <= |ops| && Valid() && m' == MapAfter(m, ops[..i]) && Agrees(m') &&
          out == Readings(m, ops[..i])
      {
        MapNext(m, ops, i);
        MapSize(m, ops[..i]);
        var r :- Do(ops[i], m');
        out := out + r;
        m' := MapDo(m', ops[i]);
        i := i + 1;
      }
      assert ops[..i] == ops;
      return Success, out;
    }

    method Do(op: Op, ghost m: map<Value, Value>) returns (s: Status, r: seq<Value>)
      requires Valid() && Agrees(m)
      modifies this
      ensures s.Success? ==> Valid() && Agrees(MapDo(m, op)) && r == Reading(m, op)
      ensures |m| < MAXASIZE ==> s.Success?
    {
      hide TableOk, HashOk, HVal, ValueOf;
      r := [];
      match op {
        case OpSet(k, v) =>
          ghost var a0, n0 := arr, node;
          KeysWithin(h, arr, Part(), lsizenode, lastfree, dummy, m);
          s := Put(k, v);
          if k == Nil || k == NaN { return Success, []; }  // an error, and the table as it was
        case OpGet(k) =>
          var slot := Get(k);
          var v := Load(slot, k);
          return Success, [v];
        case OpGrow(n) =>
          SmallArray(h, arr, Part(), lsizenode, lastfree, dummy);
          if |arr| <= n <= MAXASIZE { s := ResizeArray(n); } else { s := Success; }
        case OpCollect(i) =>
          CollectKey(i);
          s := Success;
      }
    }

    // ---- traversal ----

    /** findindex: where the key stands in the traversal; -1 for nil. */
    method FindIndex(k: Value) returns (s: Status, i: int)
      requires Valid()
      ensures s.Success? ==> Stands(arr, Part(), k, i) && -1 <= i < |arr| + |node|
      ensures s.Failure? ==> k != Nil && !InRange(k, |arr|) && forall i :: 0 <= i < |node| ==> !Matches(node[i], k)
    {
      hide HashOk;
      if k == Nil { return Success, -1; }
      ArraySmall(h, arr, Part(), lsizenode, lastfree, dummy);
      i := ArrayIndex(k);
      if 0 < i <= |arr| { return Success, i - 1; }
      s, i := FindNode(k);
      i := i + |arr|;
    }

    /** The search of findindex along the chain. A dead key will do. */
    method FindNode(k: Value) returns (s: Status, i: int)
      requires Valid() && k != Nil
      ensures s.Success? ==> FirstAt(Part(), k, i)
      ensures s.Failure? ==> forall i :: 0 <= i < |node| ==> !Matches(node[i], k)
    {
      hide HashOk;
      ghost var g := Part();
      SizeThere(h, g);
      i := Main(h, k, |node|);
      ghost var p: nat := i;
      FindStart(h, g, k);
      while i >= 0
        invariant |g.chain| == |g.pos| == |node| && p < |node| && i < |node| &&
          (i >= 0 ==> g.chain[i] == g.chain[p] && g.pos[i] >= g.pos[p])
        invariant forall j :: 0 <= j < |node| && Matches(node[j], k) ==> i >= 0 && g.pos[j] >= g.pos[i]
        decreases if i >= 0 then |Ahead(g, i)| + 1 else 0
      {
        if node[i].key == Live(k) || (node[i].key == Dead(k) && Collectable(k)) { return Success, i; }
        FindNext(h, g, k, p, i);
        i := node[i].next;
      }
      return Failure("invalid key to 'next'"), i;
    }

    /** luaH_next: the next entry with a value after the place where the key stands; none at the end. */
    method Next(k: Value) returns (s: Status, e: Option<(Value, Value)>, ghost p: int, ghost q: int)
      requires Valid()
      ensures s.Success? ==> Stands(arr, Part(), k, p) && -1 <= p < q && forall m: nat :: p < m < q ==>
        ValueAt(arr, node, m) == Nil
      ensures s.Success? ==>
        if e.Some? then q < |arr| + |node| && ValueAt(arr, node, q) != Nil &&
          e.value == (KeyAt(arr, node, q), ValueAt(arr, node, q))
        else q == |arr| + |node|
      ensures s.Failure? ==> k != Nil && !InRange(k, |arr|) && forall i :: 0 <= i < |node| ==> !Matches(node[i], k)
    {
      hide TableOk, Stands, Matches;
      e, q := None, 0;
      var i;
      s, i := FindIndex(k);
      p := i;
      if s.Failure? { return; }
      i := i + 1;
      while i < |arr|
        invariant p < i && i <= |arr| + |node| && forall m: nat :: p < m < i ==> ValueAt(arr, node, m) == Nil
      {
        if arr[i] != Nil { return Success, Some((Num(i + 1), arr[i])), p, i; }
        i := i + 1;
      }
      i := i - |arr|;
      while i < |node|
        invariant 0 <= i <= |node| && p < i + |arr| && forall m: nat :: p < m < i + |arr| ==>
          ValueAt(arr, node, m) == Nil
      {
        if node[i].val != Nil { return Success, Some((node[i].key.v, node[i].val)), p, i + |arr|; }
        i := i + 1;
      }
      return Success, None, p, i + |arr|;
    }

    /** An assignment to a field that exists already; nothing otherwise. */
    method Reassign(k: Value, v: Value)
      requires Valid()
      modifies this`arr, this`node
      ensures Valid() && Changed(old(arr), old(Part()), arr, Part(), [Assign(k, v)])
    {
      hide TableOk, HashOk, HVal, Changed;
      ghost var g, a := Part(), arr;
      TableParts(h, arr, g, lsizenode, lastfree, dummy);
      SizedThere(h, arr, g);
      var slot := Get(k);
      if slot.NilObject? {
        ChangedNothing(arr, g, k, v);
      } else {
        Store(slot, k, v);
        match slot {
          case InArray(i) => ChangedArray(a, g, i, v); assert Part() == g;
          case InNode(i) => ChangedNode(a, g, i, v); assert Part() == g.(node := g.node[i := g.node[i].(val := v)]);
          case NilObject => assert false;
        }
      }
    }

    method Change1(c: Change)
      requires Valid()
      modifies this`arr, this`node
      ensures Valid() && Changed(old(arr), old(Part()), arr, Part(), [c])
    {
      hide TableOk, HashOk, HVal, Changed;
      ghost var g, a := Part(), arr;
      match c {
        case Assign(k, v) => Reassign(k, v);
        case Collect(i) =>
          CollectKey(i);
          ChangedIdle(a, g, arr, Part(), c);
      }
    }

    method ChangeAll(cs: seq<Change>)
      requires Valid()
      modifies this`arr, this`node
      ensures Valid() && Changed(old(arr), old(Part()), arr, Part(), cs)
    {
      hide TableOk, HashOk, HVal, Changed;
      ghost var g, a := Part(), arr;
      TableParts(h, arr, g, lsizenode, lastfree, dummy);
      SizedThere(h, arr, g);
      ChangedNone(arr, g);
      var i := 0;
      assert cs[..0] == [];
      while i < |cs|
        invariant 0 <= i <= |cs| && Valid() && Changed(a, g, arr, Part(), cs[..i])
      {
        ghost var g1, a1 := Part(), arr;
        Change1(cs[i]);
        ChangedMore(a, g, a1, g1, arr, Part(), cs[..i], [cs[i]]);
        assert cs[..i + 1] == cs[..i] + [cs[i]];
        i := i + 1;
      }
      assert cs[..i] == cs;
    }

    /**
     A traversal with luaH_next from nil to the end, the changes steps[n] being made after the n-th entry:
     it ends without an error, sees no key twice, and sees every entry that no change took away.
     */
    method Traverse(steps: seq<seq<Change>>) returns (s: Status, visited: seq<(Value, Value)>, ghost cs: seq<Change>)
      requires Valid()
      modifies this`arr, this`node
      ensures s.Success? && Valid() && SeenAll(old(arr), old(node), visited, cs)
      ensures exists n :: 0 <= n <= |steps| && cs == Flat(steps[..n]) && (|visited| <= |steps| ==> n == |visited|)
    {
      hide TableOk, HashOk, HVal, Changed, Visited, Stands, SeenAll, Flat;
      ghost var g, a := Part(), arr;
      TableParts(h, arr, g, lsizenode, lastfree, dummy);
      SizedThere(h, arr, g);
      ChangedNone(arr, g);
      visited, cs := [], [];
      var key := Nil;
      ghost var p: int, ps: seq<nat>, n: nat := -1, [], 0;
      TraverseStart(a, g, steps);
      while true
        invariant Valid() && Changed(a, g, arr, Part(), cs) && Visited(a, g, visited, ps, p, cs) &&
          Stands(arr, Part(), key, p)
        invariant |arr| == |a| && |node| == |g.node| && -1 <= p < |a| + |g.node| &&
          (key == Nil || ValidKey(arr, Part(), key, p))
        invariant n <= |steps| && cs == Flat(steps[..n]) && n == if |visited| <= |steps| then |visited| else |steps|
        decreases |a| + |g.node| - p
      {
        var e; ghost var p', q;
        s, e, p', q := Next(key);
        NextWorks(h, arr, Part(), lsizenode, lastfree, dummy, key, p, p', s);
        if e.None? {
          EndAll(h, a, g, arr, Part(), visited, ps, p, q, cs);
          return;
        }
        VisitOne(h, a, g, arr, Part(), lsizenode, lastfree, dummy, visited, ps, p, q, cs);
        visited := visited + [e.value];
        ps, p, key := ps + [q], q, e.value.0;
        if |visited| <= |steps| {
          ghost var g1, a1 := Part(), arr;
          ChangeAll(steps[|visited| - 1]);
          StepMore(h, a, g, a1, g1, arr, Part(), visited, ps, p, cs, steps[|visited| - 1], key, steps, n);
          cs, n := cs + steps[|visited| - 1], n + 1;
        }
      }
    }

    // ---- borders ----

    /** n is present (or 0), and n + 1 is not. */
    ghost predicate Border(n: int)
      reads this
    {
      n >= 0 && (n == 0 || At(Num(n)) != Nil) && At(Num(n + 1)) == Nil
    }

    method IsNil(k: int) returns (b: bool)
      requires Valid()
      ensures b <==> At(Num(k)) == Nil
    {
      var slot := GetNum(k);
      var v := Load(slot, Num(k));
      return v == Nil;
    }

    /** unbound_search: i is 0 or present; doubling, then bisection, and a linear search should j overflow. */
    method UnboundSearch(start: nat) returns (i: int)
      requires Valid() && (start == 0 || At(Num(start)) != Nil) && start <= MAXASIZE
      ensures Border(i)
    {
      hide TableOk, ValueOf;
      i := start;
      var j := start + 1;
      MaxSize();
      var absent := IsNil(j);
      while !absent  // a border lies between i and j at every exit
        invariant i < j && (i == 0 || At(Num(i)) != Nil) && i >= 0 && (absent <==> At(Num(j)) == Nil) &&
          1 <= j <= 0x7fff_ffff
        decreases 0x7fff_ffff - j, !absent
      {
        i := j;
        j := j * 2;
        if j > 0x7fff_ffff {
          i := LinearSearch();  // a linear search still ends, by the number of keys
          return;
        }
        absent := IsNil(j);
      }
      while j - i > 1
        invariant 0 <= i < j && (i == 0 || At(Num(i)) != Nil) && At(Num(j)) == Nil
      {
        var m := (i + j) / 2;
        var none := IsNil(m);
        if none { j := m; } else { i := m; }
      }
    }

    method LinearSearch() returns (i: int)
      requires Valid()
      ensures Border(i)
    {
      hide TableOk, ValueOf, KeysOf;
      ghost var g := Part();
      TableParts(h, arr, g, lsizenode, lastfree, dummy);
      i := 1;
      var absent := IsNil(i);
      while !absent
        invariant i >= 1 && (absent <==> At(Num(i)) == Nil) && forall m :: 1 <= m < i ==> At(Num(m)) != Nil
        decreases |KeysOf(arr, node)| + 1 - i, !absent
      {
        Bounded(h, arr, g, i);
        i := i + 1;
        absent := IsNil(i);
      }
      i := i - 1;
    }

    /** luaH_getn: always a border. */
    method GetN() returns (n: int)
      requires Valid()
      ensures Border(n)
    {
      hide HashOk, HVal;
      var j := |arr|;
      if j > 0 && arr[j - 1] == Nil {
        var i := 0;
        while j - i > 1
          invariant 0 <= i < j <= |arr| && (i == 0 || arr[i - 1] != Nil) && arr[j - 1] == Nil
        {
          var m := (i + j) / 2;
          if arr[m - 1] == Nil { j := m; } else { i := m; }
        }
        return i;
      } else if dummy {
        DummyNone(node, Num(j + 1));
        return j;
      } else {
        n := UnboundSearch(j);
      }
    }
  }

  // ---- lemmas for traversal and borders ----

  lemma FindStart(h: (Value, nat) -> nat, s: Hash, k: Value)
    requires HashOk(h, s) && k != Nil
    ensures forall i :: 0 <= i < |s.node| && Matches(s.node[i], k) ==>
      s.chain[i] == s.chain[Main(h, k, |s.node|)] && s.pos[i] >= s.pos[Main(h, k, |s.node|)]
  {
    forall i | 0 <= i < |s.node| && Matches(s.node[i], k)
      ensures s.chain[i] == s.chain[Main(h, k, |s.node|)] && s.pos[i] >= s.pos[Main(h, k, |s.node|)]
    {
      assert HomeAt(h, s, i);
    }
  }

  lemma FindNext(h: (Value, nat) -> nat, s: Hash, k: Value, p: nat, n: nat)
    requires HashOk(h, s) && k != Nil && p == Main(h, k, |s.node|) && n < |s.node| && s.chain[n] == s.chain[p] &&
      s.pos[n] >= s.pos[p] && !Matches(s.node[n], k)
    requires forall i :: 0 <= i < |s.node| && Matches(s.node[i], k) ==> s.pos[i] >= s.pos[n]
    ensures var m := s.node[n].next;
      && m < |s.node| && (m >= 0 ==> s.chain[m] == s.chain[p] && s.pos[m] >= s.pos[p] && |Ahead(s, m)| < |Ahead(s, n)|)
      && (forall i :: 0 <= i < |s.node| && Matches(s.node[i], k) ==> m >= 0 && s.pos[i] >= s.pos[m])
  {
    assert LinkAt(s, n);
    FindStart(h, s, k);
    if s.node[n].next >= 0 { AheadNext(s, n); }
    forall i | 0 <= i < |s.node| && Matches(s.node[i], k) ensures s.node[n].next >= 0 &&
      s.pos[i] >= s.pos[s.node[n].next]
    {
      assert Joined(s, i, n);
    }
  }

  lemma ChangedNothing(arr: seq<Value>, s: Hash, k: Value, v: Value)
    requires Sized(s)
    ensures Changed(arr, s, arr, s, [Assign(k, v)])
  {
  }

  lemma ChangedIdle(arr: seq<Value>, s: Hash, arr': seq<Value>, s': Hash, c: Change)
    requires Changed(arr, s, arr', s', []) && c.Collect?
    ensures Changed(arr, s, arr', s', [c])
  {
    assert [] + [c] == [c];
    ChangedMore(arr, s, arr', s', arr', s', [], [c]) by { assert Settled(arr', s', arr', s'); }
  }

  /** All changes of a list of steps. */
  function Flat(steps: seq<seq<Change>>): seq<Change> {
    if steps == [] then [] else Flat(steps[..|steps| - 1]) + steps[|steps| - 1]
  }

  /** The key is the one that stands at p. */
  ghost predicate ValidKey(arr: seq<Value>, s: Hash, key: Value, p: int) { p >= 0 && Stands(arr, s, key, p) }

  lemma TraverseStart(a: seq<Value>, s: Hash, steps: seq<seq<Change>>)
    requires Sized(s)
    ensures Visited(a, s, [], [], -1, []) && Stands(a, s, Nil, -1) && Flat(steps[..0]) == []
  {
  }

  /** The key of the traversal is always found, at the position reached. */
  lemma NextWorks(h: (Value, nat) -> nat, arr: seq<Value>, s: Hash, lsizenode: nat, lastfree: int, dummy: bool,
    key: Value, p: int, p': int, st: Status)
    requires TableOk(h, arr, s, lsizenode, lastfree, dummy) && Stands(arr, s, key, p) &&
      (st.Success? ==> Stands(arr, s, key, p'))
    requires st.Failure? ==> key != Nil && !InRange(key, |arr|) && forall i :: 0 <= i < |s.node| ==>
      !Matches(s.node[i], key)
    ensures st.Success? && p' == p
  {
    if key != Nil && !InRange(key, |arr|) {
      if st.Success? { FirstOnly(h, s, key, p - |arr|, p' - |arr|); }
    }
  }

  lemma VisitOne(h: (Value, nat) -> nat, a: seq<Value>, s: Hash, a': seq<Value>, s': Hash, lsizenode: nat,
    lastfree: int, dummy: bool,
                 visited: seq<(Value, Value)>, ps: seq<nat>, p: int, q: nat, cs: seq<Change>)
    requires TableOk(h, a', s', lsizenode, lastfree, dummy) && Changed(a, s, a', s', cs) &&
      Visited(a, s, visited, ps, p, cs)
    requires p < q && ValueAt(a', s'.node, q) != Nil && forall m: nat :: p < m < q ==> ValueAt(a', s'.node, m) == Nil
    ensures var k := KeyAt(a', s'.node, q);
      Visited(a, s, visited + [(k, ValueAt(a', s'.node, q))], ps + [q], q, cs) && Stands(a', s', k, q) &&
        ValidKey(a', s', k, q)
  {
    hide Visited, Changed, HashOk, Stands;
    VisitNext(h, a, s, a', s', visited, ps, p, q, cs);
    PositionOf(h, a', s', q);
  }

  lemma EndAll(h: (Value, nat) -> nat, a: seq<Value>, s: Hash, a': seq<Value>, s': Hash, visited: seq<(Value, Value)>,
    ps: seq<nat>, p: int, q: int, cs: seq<Change>)
    requires HashOk(h, s) && Outside(s.node, |a|) && Changed(a, s, a', s', cs) && Visited(a, s, visited, ps, p, cs)
    requires q == |a'| + |s'.node| && forall m: nat :: p < m < q ==> ValueAt(a', s'.node, m) == Nil
    ensures SeenAll(a, s.node, visited, cs)
  {
    hide HashOk, Visited, Changed;
    VisitEnd(a, s, a', s', visited, ps, p, cs);
    AllSeen(h, a, s, visited, ps, p, cs);
  }

  lemma StepMore(h: (Value, nat) -> nat, a: seq<Value>, s: Hash, a1: seq<Value>, s1: Hash, a2: seq<Value>, s2: Hash,
                 visited: seq<(Value, Value)>, ps: seq<nat>, p: int, cs: seq<Change>, more: seq<Change>, key: Value,
                   steps: seq<seq<Change>>, n: nat)
    requires Changed(a, s, a1, s1, cs) && Changed(a1, s1, a2, s2, more) && Visited(a, s, visited, ps, p, cs) &&
      ValidKey(a1, s1, key, p)
    requires n < |steps| && steps[n] == more && cs == Flat(steps[..n])
    ensures Changed(a, s, a2, s2, cs + more) && Visited(a, s, visited, ps, p, cs + more) && ValidKey(a2, s2, key, p) &&
      Stands(a2, s2, key, p)
    ensures cs + more == Flat(steps[..n + 1]) && |a2| == |a| && |s2.node| == |s.node|
  {
    ChangedMore(a, s, a1, s1, a2, s2, cs, more);
    VisitedMore(a, s, visited, ps, p, cs, more);
    StandsStill(a1, s1, a2, s2, key, p);
    assert steps[..n + 1][..n] == steps[..n];
    hide Visited;
  }

  /** No more integers in a row than there are keys. */
  lemma Bounded(h: (Value, nat) -> nat, arr: seq<Value>, s: Hash, i: int)
    requires HashOk(h, s) && Outside(s.node, |arr|) && i >= 1 && forall m :: 1 <= m <= i ==>
      ValueOf(arr, s.node, Num(m)) != Nil
    ensures i <= |KeysOf(arr, s.node)|
  {
    var e, t := KeysOf(arr, s.node), Row(i);
    forall v | v in t ensures v in e { KeysAre(h, arr, s, v); }
    RowSize(i);
    assert e == t + (e - t);
  }

  ghost function Row(n: int): set<Value> { set m | 1 <= m <= n :: Num(m) }

  lemma {:induction false} RowSize(n: int)
    requires n >= 0
    ensures |Row(n)| == n
  {
    if n == 0 {
      assert Row(0) == {};
    } else {
      RowSize(n - 1);
      assert Row(n) == Row(n - 1) + {Num(n)};
    }
  }

  lemma DummyNone(node: seq<Node>, k: Value)
    requires node == [FREE]
    ensures HVal(node, k) == Nil
  {
  }

  // ---- runs ----

  datatype Op = OpSet(k: Value, v: Value) | OpGet(k: Value) | OpGrow(n: nat) | OpCollect(i: nat)

  /** The value of a key in a map, which holds no nils. */
  function Lookup(m: map<Value, Value>, k: Value): Value { if k in m then m[k] else Nil }

  function MapDo(m: map<Value, Value>, op: Op): map<Value, Value> {
    if op.OpSet? && op.k != Nil && op.k != NaN then (if op.v == Nil then m - {op.k} else m[op.k := op.v]) else m
  }

  function Reading(m: map<Value, Value>, op: Op): seq<Value> { if op.OpGet? then [Lookup(m, op.k)] else [] }

  function MapAfter(m: map<Value, Value>, ops: seq<Op>): map<Value, Value> {
    if ops == [] then m else MapDo(MapAfter(m, ops[..|ops| - 1]), ops[|ops| - 1])
  }

  /** What a run reads. */
  function Readings(m: map<Value, Value>, ops: seq<Op>): seq<Value> {
    if ops == [] then [] else Readings(m, ops[..|ops| - 1]) + Reading(MapAfter(m, ops[..|ops| - 1]), ops[|ops| - 1])
  }

  lemma MapNext(m: map<Value, Value>, ops: seq<Op>, i: nat)
    requires i < |ops|
    ensures MapAfter(m, ops[..i + 1]) == MapDo(MapAfter(m, ops[..i]), ops[i])
    ensures Readings(m, ops[..i + 1]) == Readings(m, ops[..i]) + Reading(MapAfter(m, ops[..i]), ops[i])
  {
    assert ops[..i + 1][..i] == ops[..i];
  }

  lemma {:induction false} MapSize(m: map<Value, Value>, ops: seq<Op>)
    ensures |MapAfter(m, ops)| <= |m| + |ops|
  {
    if ops != [] {
      MapSize(m, ops[..|ops| - 1]);
      var m', op := MapAfter(m, ops[..|ops| - 1]), ops[|ops| - 1];
      assert MapDo(m', op).Keys <= m'.Keys + (if op.OpSet? then {op.k} else {});
      Fewer(MapDo(m', op).Keys, m'.Keys + (if op.OpSet? then {op.k} else {}));
    }
  }

  lemma Fewer(a: set<Value>, b: set<Value>)
    requires a <= b
    ensures |a| <= |b|
  {
    assert b == a + (b - a);
  }

  /** A table that stands for a map has no more keys than the map. */
  lemma KeysWithin(h: (Value, nat) -> nat, arr: seq<Value>, s: Hash, lsizenode: nat, lastfree: int, dummy: bool,
    m: map<Value, Value>)
    requires TableOk(h, arr, s, lsizenode, lastfree, dummy) && forall k :: ValueOf(arr, s.node, k) == Lookup(m, k)
    ensures |KeysOf(arr, s.node)| <= |m|
  {
    hide HashOk, ValueOf, KeysOf, Pow2;
    forall k | k in KeysOf(arr, s.node) ensures k in m.Keys { KeysAre(h, arr, s, k); }
    Fewer(KeysOf(arr, s.node), m.Keys);
  }

  /** One assignment adds at most one key. */
  lemma KeysOneMore(h: (Value, nat) -> nat, arr: seq<Value>, s: Hash, arr': seq<Value>, s': Hash, k0: Value)
    requires HashOk(h, s) && Outside(s.node, |arr|) && HashOk(h, s') && Outside(s'.node, |arr'|)
    requires forall k :: k != k0 ==> ValueOf(arr', s'.node, k) == ValueOf(arr, s.node, k)
    ensures |KeysOf(arr', s'.node)| <= |KeysOf(arr, s.node)| + 1
  {
    hide HashOk, ValueOf, KeysOf;
    forall k | k in KeysOf(arr', s'.node) ensures k in KeysOf(arr, s.node) + {k0} {
      KeysAre(h, arr, s, k);
      KeysAre(h, arr', s', k);
    }
    Fewer(KeysOf(arr', s'.node), KeysOf(arr, s.node) + {k0});
  }

  lemma SmallArray(h: (Value, nat) -> nat, arr: seq<Value>, s: Hash, lsizenode: nat, lastfree: int, dummy: bool)
    requires TableOk(h, arr, s, lsizenode, lastfree, dummy)
    ensures |arr| <= MAXASIZE
  {
  }

  lemma SizedThere(h: (Value, nat) -> nat, arr: seq<Value>, s: Hash)
    requires HashOk(h, s)
    ensures Sized(s)
  {
  }

  /** A larger array part leaves no more keys to the hash part than it had. */
  lemma GrowRoom(h: (Value, nat) -> nat, arr: seq<Value>, s: Hash, lsizenode: nat, lastfree: int, dummy: bool,
    nasize: nat)
    requires TableOk(h, arr, s, lsizenode, lastfree, dummy) && |arr| <= nasize
    ensures |HashKeys(KeysOf(arr, s.node), nasize)| <= if dummy then 0 else |s.node|
    ensures |s.node| <= MAXASIZE
  {
    hide HashOk;
    var e, n := HashKeys(KeysOf(arr, s.node), nasize), NodeKeys(s.node, 0);
    assert e <= n;
    assert n == e + (n - e);
    NodeCount(s.node, 0);
    if dummy { assert n == {}; }
    if lsizenode < MAXBITS { Pow2Mono(lsizenode, MAXBITS); }
  }

  lemma {:induction false} NodeCount(node: seq<Node>, lo: nat)
    requires lo <= |node|
    ensures |NodeKeys(node, lo)| <= |node| - lo
    decreases |node| - lo
  {
    if lo < |node| {
      NodeCount(node, lo + 1);
      assert NodeKeys(node, lo) <= NodeKeys(node, lo + 1) + {node[lo].key.v};
      var a, b := NodeKeys(node, lo), NodeKeys(node, lo + 1) + {node[lo].key.v};
      assert b == a + (b - a);
    } else {
      assert NodeKeys(node, lo) == {};
    }
  }

  /** No node has the live key k. */
  ghost predicate Missing(node: seq<Node>, k: Value) { forall i :: !LiveAt(node, k, i) }

  lemma NoVal(node: seq<Node>, k: Value)
    requires Missing(node, k)
    ensures HVal(node, k) == Nil
  {
  }

  lemma ArraySmall(h: (Value, nat) -> nat, arr: seq<Value>, s: Hash, lsizenode: nat, lastfree: int, dummy: bool)
    requires TableOk(h, arr, s, lsizenode, lastfree, dummy)
    ensures |arr| <= 0x400_0000
  {
    MaxSize();
  }

  lemma SizeThere(h: (Value, nat) -> nat, s: Hash)
    requires HashOk(h, s)
    ensures |s.chain| == |s.pos| == |s.node| > 0
  {
  }

  lemma SearchStart(h: (Value, nat) -> nat, s: Hash, k: Value)
    requires HashOk(h, s) && k != Nil
    ensures forall i :: 0 <= i < |s.node| && LiveAt(s.node, k, i) ==>
      s.chain[i] == s.chain[Main(h, k, |s.node|)] && s.pos[i] >= s.pos[Main(h, k, |s.node|)]
  {
    forall i | 0 <= i < |s.node| && LiveAt(s.node, k, i)
      ensures s.chain[i] == s.chain[Main(h, k, |s.node|)] && s.pos[i] >= s.pos[Main(h, k, |s.node|)]
    {
      assert HomeAt(h, s, i);
    }
  }

  /** Passing a node that does not hold the key. */
  lemma SearchNext(h: (Value, nat) -> nat, s: Hash, k: Value, p: nat, n: nat)
    requires HashOk(h, s) && k != Nil && p == Main(h, k, |s.node|) && n < |s.node| && s.chain[n] == s.chain[p] &&
      s.pos[n] >= s.pos[p] && s.node[n].key != Live(k)
    requires forall i :: 0 <= i < |s.node| && LiveAt(s.node, k, i) ==> s.pos[i] >= s.pos[n]
    ensures var m := s.node[n].next;
      && m < |s.node| && (m >= 0 ==> s.chain[m] == s.chain[p] && s.pos[m] >= s.pos[p] && |Ahead(s, m)| < |Ahead(s, n)|)
      && (forall i :: 0 <= i < |s.node| && LiveAt(s.node, k, i) ==> m >= 0 && s.pos[i] >= s.pos[m])
  {
    assert LinkAt(s, n);
    SearchStart(h, s, k);
    if s.node[n].next >= 0 { AheadNext(s, n); }
    forall i | 0 <= i < |s.node| && LiveAt(s.node, k, i) ensures s.node[n].next >= 0 &&
      s.pos[i] >= s.pos[s.node[n].next]
    {
      assert Joined(s, i, n);
    }
  }

  // ---- lemmas for newkey ----

  lemma PrevStart(h: (Value, nat) -> nat, s: Hash, mp: nat)
    requires HashOk(h, s) && mp < |s.node| && s.node[mp].val != Nil && Main(h, s.node[mp].key.v, |s.node|) != mp
    ensures var p := Main(h, s.node[mp].key.v, |s.node|); |s.chain| == |s.pos| == |s.node| && s.chain[p] == s.chain[mp] && s.pos[p] < s.pos[mp]
  {
    assert HomeAt(h, s, mp) && FreeAt(s, mp) && LinkAt(s, mp);
    assert Joined(s, Main(h, s.node[mp].key.v, |s.node|), mp);
  }

  lemma PrevNext(h: (Value, nat) -> nat, s: Hash, prev: nat, mp: nat)
    requires HashOk(h, s) && prev < |s.node| && mp < |s.node| && s.chain[prev] == s.chain[mp] &&
      s.pos[prev] < s.pos[mp] && s.node[prev].next != mp
    ensures var q := s.node[prev].next; 0 <= q < |s.node| && s.chain[q] == s.chain[mp] && s.pos[q] < s.pos[mp] && |Ahead(s, q)| < |Ahead(s, prev)|
  {
    assert LinkAt(s, prev) && LinkAt(s, mp) && Joined(s, mp, prev);
    assert Joined(s, s.node[prev].next, mp);
    AheadNext(s, prev);
  }

  lemma TableParts(h: (Value, nat) -> nat, arr: seq<Value>, s: Hash, lsizenode: nat, lastfree: int, dummy: bool)
    requires TableOk(h, arr, s, lsizenode, lastfree, dummy)
    ensures HashOk(h, s) && |s.node| > 0 && |s.node| == |s.chain| == |s.pos| && Outside(s.node, |arr|)
  {
  }

  lemma AbsentNot(s: Hash, k: Value)
    requires Absent(s, k)
    ensures k != Nil && k != NaN && Missing(s.node, k)
  {
  }

  lemma MissingAbsent(s: Hash, k: Value)
    requires Missing(s.node, k) && k != Nil && k != NaN
    ensures Absent(s, k)
  {
    forall i | 0 <= i < |s.node| ensures s.node[i].key != Live(k) { assert !LiveAt(s.node, k, i); }
  }

  lemma NoNaN(h: (Value, nat) -> nat, arr: seq<Value>, s: Hash, lsizenode: nat, lastfree: int, dummy: bool, slot: Slot,
    k: Value)
    requires TableOk(h, arr, s, lsizenode, lastfree, dummy) && SlotOf(arr, s.node, slot, k) && !slot.NilObject?
    ensures k != Nil && k != NaN
  {
    if slot.InNode? { assert FreeAt(s, slot.i); }
  }

  lemma ValuesSame(arr: seq<Value>, node: seq<Node>, node': seq<Node>)
    requires forall k :: HVal(node', k) == HVal(node, k)
    ensures SameValues(arr, node, arr, node')
  {
  }

  lemma SameTrans(a: seq<Value>, n: seq<Node>, a': seq<Value>, n': seq<Node>, a'': seq<Value>, n'': seq<Node>)
    requires SameValues(a, n, a', n') && SameValues(a', n', a'', n'')
    ensures SameValues(a, n, a'', n'')
  {
    forall k ensures ValueOf(a'', n'', k) == ValueOf(a, n, k) { assert ValueOf(a', n', k) == ValueOf(a, n, k); }
  }

  lemma OneMoreKey(node: seq<Node>, node': seq<Node>, n: nat)
    requires KeySet(node') == KeySet(node) + {n}
    ensures |KeySet(node')| <= |KeySet(node)| + 1
  {
  }

  lemma PutMainTable(h: (Value, nat) -> nat, arr: seq<Value>, s: Hash, lsizenode: nat, lastfree: int, k: Value, mp: nat)
    requires TableOk(h, arr, s, lsizenode, lastfree, false) && Absent(s, k) && !InRange(k, |arr|) && mp < |s.node| &&
      mp == Main(h, k, |s.node|) && s.node[mp].val == Nil
    ensures var s' := PutMain(s, k, mp);
      && TableOk(h, arr, s', lsizenode, lastfree, false) && LiveAt(s'.node, k, mp) && |s'.node| == |s.node|
      && SameValues(arr, s.node, arr, s'.node) && |KeySet(s'.node)| <= |KeySet(s.node)| + 1
  {
    hide HashOk, HVal, KeySet, SameValues, Pow2;
    PutMainOk(h, s, k, mp);
    PutMainSame(h, s, k, mp);
    ValuesSame(arr, s.node, PutMain(s, k, mp).node);
    OneMoreKey(s.node, PutMain(s, k, mp).node, mp);
  }

  lemma InsertAfterTable(h: (Value, nat) -> nat, arr: seq<Value>, s: Hash, lsizenode: nat, k: Value, mp: nat, n: nat)
    requires TableOk(h, arr, s, lsizenode, n + 1, false) && Absent(s, k) && !InRange(k, |arr|) && mp < |s.node| &&
      mp == Main(h, k, |s.node|)
    requires s.node[mp].val != Nil && Main(h, s.node[mp].key.v, |s.node|) == mp && n < |s.node| && !Keyed(s.node[n])
    ensures s.node[mp].next < |s.node| && n != mp && s.node[n].val == Nil
    ensures var s' := InsertAfter(s, k, mp, n);
      && TableOk(h, arr, s', lsizenode, n, false) && LiveAt(s'.node, k, n) && |s'.node| == |s.node|
      && SameValues(arr, s.node, arr, s'.node) && |KeySet(s'.node)| <= |KeySet(s.node)| + 1
  {
    hide HashOk, HVal, KeySet, SameValues, Pow2;
    InsertAfterOk(h, s, k, mp, n);
    InsertAfterSame(h, s, k, mp, n);
    FreeFacts(h, s, mp, n);
    AbsentNot(s, k);
    ValuesSame(arr, s.node, InsertAfter(s, k, mp, n).node);
    OneMoreKey(s.node, InsertAfter(s, k, mp, n).node, n);
  }

  lemma MoveAwayTable(h: (Value, nat) -> nat, arr: seq<Value>, s: Hash, lsizenode: nat, k: Value, mp: nat, n: nat,
    prev: nat)
    requires TableOk(h, arr, s, lsizenode, n + 1, false) && Absent(s, k) && !InRange(k, |arr|) && mp < |s.node| &&
      mp == Main(h, k, |s.node|)
    requires s.node[mp].val != Nil && Main(h, s.node[mp].key.v, |s.node|) != mp && n < |s.node| && !Keyed(s.node[n])
    requires prev < |s.node| && s.node[prev].next == mp
    ensures n != mp && prev != mp && prev != n
    ensures var s' := MoveAway(s, k, mp, n, prev);
      && TableOk(h, arr, s', lsizenode, n, false) && LiveAt(s'.node, k, mp) && |s'.node| == |s.node|
      && SameValues(arr, s.node, arr, s'.node) && |KeySet(s'.node)| <= |KeySet(s.node)| + 1
  {
    hide HashOk, HVal, KeySet, SameValues, Pow2;
    MoveAwayOk(h, s, k, mp, n, prev);
    MoveAwaySame(h, s, k, mp, n, prev);
    FreeFacts(h, s, mp, n);
    PrevFacts(h, s, mp, n, prev);
    AbsentNot(s, k);
    ValuesSame(arr, s.node, MoveAway(s, k, mp, n, prev).node);
    OneMoreKey(s.node, MoveAway(s, k, mp, n, prev).node, n);
  }

  // ---- lemmas for resize ----

  lemma NumsStart(nums: seq<nat>)
    requires |nums| == MAXBITS + 1 && forall i :: 0 <= i < |nums| ==> nums[i] == 0
    ensures nums == seq(MAXBITS + 1, i => 0)
  {
  }

  lemma RehashStart(h: (Value, nat) -> nat, arr: seq<Value>, s: Hash, lsizenode: nat, lastfree: int, dummy: bool,
    ek: Value)
    requires TableOk(h, arr, s, lsizenode, lastfree, dummy) && Absent(s, ek) && !InRange(ek, |arr|)
    ensures HashOk(h, s) && Outside(s.node, |arr|) && |arr| <= MAXASIZE && ek !in KeysOf(arr, s.node)
    ensures |KeysOf(arr, s.node)| == |ArrKeys(arr, |arr|)| + |NodeKeys(s.node, 0)| &&
      UpTo(ArrKeys(arr, |arr|), MAXASIZE) == ArrKeys(arr, |arr|)
  {
    hide HashOk, HVal, KeysOf, ArrKeys, NodeKeys, UpTo;
    AbsentNot(s, ek);
    NoVal(s.node, ek);
    KeysAre(h, arr, s, ek);
    KeysSplit(h, arr, s);
    ArrUpTo(arr);
  }

  /** What the array part does not take fits in the hash part, with the pending key. */
  lemma RehashRoom(e: set<Value>, ek: Value, n: nat)
    requires ek !in e
    ensures |UpTo(e + {ek}, n)| <= |e| + 1
    ensures |HashKeys(e, n)| + (if InRange(ek, n) then 0 else 1) == |e| + 1 - |UpTo(e + {ek}, n)|
  {
    var a, b := UpTo(e, n), HashKeys(e, n);
    assert e == a + b && a !! b;
    assert UpTo(e + {ek}, n) == if InRange(ek, n) then a + {ek} else a;
  }

  /** Those of the keys e that an array part of size n leaves to the hash part. */
  ghost function HashKeys(e: set<Value>, n: nat): set<Value> { set v | v in e && !InRange(v, n) }

  /** The value of k while the keys in done have been put back. */
  ghost function Rebuilt(a0: seq<Value>, n0: seq<Node>, nasize: nat, done: set<Value>, k: Value): Value {
    if InRange(k, Least(nasize, |a0|)) then a0[k.n - 1] else if k in done then ValueOf(a0, n0, k) else Nil
  }

  lemma RebuiltMore(a0: seq<Value>, n0: seq<Node>, nasize: nat, done: set<Value>, k: Value)
    requires !InRange(k, Least(nasize, |a0|))
    ensures forall k' :: Rebuilt(a0, n0, nasize, done + {k}, k') == if k' == k then ValueOf(a0, n0, k)
      else Rebuilt(a0, n0, nasize, done, k')
  {
  }

  /** There is room for one more key as long as one is missing. */
  lemma HashRoom(e: set<Value>, done: set<Value>, k: Value, n: nat)
    requires done <= e && k in e && k !in done
    ensures InRange(k, n) ==> HashKeys(done + {k}, n) == HashKeys(done, n)
    ensures !InRange(k, n) ==> |HashKeys(done + {k}, n)| == |HashKeys(done, n)| + 1 && |HashKeys(done, n)| < |HashKeys(e, n)|
  {
    var a, b := HashKeys(done, n), HashKeys(e, n);
    if InRange(k, n) {
      assert HashKeys(done + {k}, n) == a;
    } else {
      assert HashKeys(done + {k}, n) == a + {k};
      assert b == (a + {k}) + (b - (a + {k}));
    }
  }

  lemma FreshOk(h: (Value, nat) -> nat, a0: seq<Value>, n0: seq<Node>, arr: seq<Value>, s: Hash, lsizenode: nat,
    lastfree: int, dummy: bool, nasize: nat)
    requires s == Fresh(|s.node|) && lsizenode <= MAXBITS && |s.node| == Pow2(lsizenode) && |arr| == nasize <= MAXASIZE
    requires if dummy then lastfree == 0 && lsizenode == 0 else lastfree == |s.node|
    requires forall i :: 0 <= i < nasize ==> arr[i] == if i < |a0| then a0[i] else Nil
    ensures TableOk(h, arr, s, lsizenode, lastfree, dummy) && KeySet(s.node) == {}
    ensures forall k :: ValueOf(arr, s.node, k) == Rebuilt(a0, n0, nasize, {}, k)
  {
    hide HashOk, HVal;
    FreshHash(h, |s.node|);
    if dummy { assert s.node == [FREE]; }
  }

  ghost function SliceKeys(a0: seq<Value>, lo: nat, hi: nat): set<Value> {
    set i | lo <= i < hi && i < |a0| && a0[i] != Nil :: Num(i + 1)
  }

  lemma SliceNext(a0: seq<Value>, n0: seq<Node>, lo: nat, i: nat)
    requires lo <= i < |a0|
    ensures SliceKeys(a0, lo, i + 1) == if a0[i] != Nil then SliceKeys(a0, lo, i) + {Num(i + 1)}
      else SliceKeys(a0, lo, i)
    ensures Num(i + 1) !in SliceKeys(a0, lo, i) && !InRange(Num(i + 1), Least(lo, |a0|)) &&
      ValueOf(a0, n0, Num(i + 1)) == a0[i]
    ensures a0[i] != Nil ==> Num(i + 1) in KeysOf(a0, n0)
    ensures SliceKeys(a0, lo, lo) == {}
  {
    if a0[i] != Nil { assert Num(i + 1) in ArrKeys(a0, |a0|); }
  }

  lemma NodesStart(a0: seq<Value>, n0: seq<Node>, lo: nat, done: set<Value>)
    ensures NodeKeys(n0, |n0|) == {} && SliceKeys(a0, lo, lo) == {} && (lo >= |a0| ==> SliceKeys(a0, lo, |a0|) == {})
  {
  }

  /** The key of an old node may be put back. */
  lemma NodeReady(h: (Value, nat) -> nat, a0: seq<Value>, s: Hash, i: nat, nasize: nat, lsizenode: nat)
    requires HashOk(h, s) && Outside(s.node, |a0|) && i < |s.node|
    ensures var k := s.node[i].key.v;
      && NodeKeys(s.node, i) == (if s.node[i].val != Nil then NodeKeys(s.node, i + 1) + {k}
        else NodeKeys(s.node, i + 1))
      && (s.node[i].val != Nil ==>
          && k != Nil && k != NaN && k in KeysOf(a0, s.node) && k !in NodeKeys(s.node, i + 1) &&
            k !in SliceKeys(a0, nasize, |a0|)
          && !InRange(k, Least(nasize, |a0|)) && ValueOf(a0, s.node, k) == s.node[i].val)
  {
    NodeNext(h, a0, s, i);
    if s.node[i].val != Nil {
      assert FreeAt(s, i);
      ValAt(h, s, s.node[i].key.v, i);
      assert s.node[i].key.v in NodeKeys(s.node, 0);
      forall j | nasize <= j < |a0| && a0[j] != Nil
        ensures Num(j + 1) != s.node[i].key.v { assert InRange(Num(j + 1), |a0|); }
    }
  }

  /** Everything is back. */
  lemma AllBack(h: (Value, nat) -> nat, a0: seq<Value>, s: Hash, nasize: nat, done: set<Value>)
    requires HashOk(h, s) && Outside(s.node, |a0|) && done == SliceKeys(a0, nasize, |a0|) + NodeKeys(s.node, 0)
    ensures forall k :: Rebuilt(a0, s.node, nasize, done, k) == ValueOf(a0, s.node, k)
    ensures done <= KeysOf(a0, s.node) && |HashKeys(done, nasize)| <= |HashKeys(KeysOf(a0, s.node), nasize)|
  {
    forall k ensures Rebuilt(a0, s.node, nasize, done, k) == ValueOf(a0, s.node, k)
    {
      KeysAre(h, a0, s, k);
      if k in ArrKeys(a0, |a0|) && !InRange(k, Least(nasize, |a0|)) { assert k in SliceKeys(a0, nasize, |a0|); }
    }
    forall v | v in SliceKeys(a0, nasize, |a0|) ensures v in ArrKeys(a0, |a0|) {}
    var a, b := HashKeys(done, nasize), HashKeys(KeysOf(a0, s.node), nasize);
    assert a <= b;
    assert b == a + (b - a);
  }
}
