/** What a collection leaves of the entries of tables, said by what is alive when its marking is over. */
module GcWeak {
  import opened Common
  import opened GcHeap
  import opened GcInv
  import opened GcLists

  /**
   One half of an entry may stay where it is: it is not collectable, or a string, or alive; and, as the value, it
   is no userdata whose finalizer has been called or is about to be (bit3).
   */
  predicate Stays(objs: Heap, m': Marks, A: set<Ref>, v: Value, isvalue: bool) {
    v.Gc? && v.ref in objs && !objs[v.ref].Str? ==>
      v.ref in A && !(isvalue && objs[v.ref].Udata? && v.ref in m' && m'[v.ref].bit3)
  }

  /** The `__mode` of the table's metatable makes its values weak. */
  predicate WeakValues(objs: Heap, o: Obj)
    requires o.Table?
  {
    o.mt.Some? && o.mt.value in objs && objs[o.mt.value].Table? && objs[o.mt.value].mode.v
  }

  predicate WeakKeys(objs: Heap, o: Obj)
    requires o.Table?
  {
    o.mt.Some? && o.mt.value in objs && objs[o.mt.value].Table? && objs[o.mt.value].mode.k
  }

  /**
   An entry of a table that is cleared goes when one half may not stay, and is untouched otherwise; in the array
   part this is for tables with weak values. In a table that is not cleared every entry is untouched. What is left
   in a live table is alive.
   */
  ghost predicate TableLeft(objs: Heap, objs': Heap, m': Marks, A: set<Ref>, weak: seq<Ref>, r: Ref)
    requires r in objs && objs[r].Table?
  {
    var o := objs[r];
    && r in objs' && objs'[r].Table? && objs'[r] == o.(arr := objs'[r].arr, node := objs'[r].node)
    && |objs'[r].arr| == |o.arr| && |objs'[r].node| == |o.node|
    && (forall i :: 0 <= i < |o.arr| ==>
        objs'[r].arr[i] == if r in weak && WeakValues(objs, o) && !Stays(objs, m', A, o.arr[i], true) then Nil
          else o.arr[i])
    && (forall i :: 0 <= i < |o.node| ==> NodeLeft(objs, m', A, r in weak, o.node[i], objs'[r].node[i]))
    && (r in A ==> AllOk(objs'[r].arr, A) && forall i :: 0 <= i < |objs'[r].node| ==> NodeLive(objs'[r].node[i], A))
  }

  /** An entry that goes loses its value, and its key is tagged as dead if it is collectable; an empty one stays empty. */
  predicate NodeLeft(objs: Heap, m': Marks, A: set<Ref>, cleared: bool, n: Node, n': Node) {
    var dead := n.key.Live? && n.key.v.Gc? && n'.key == Dead(n.key.v.ref);
    if n.val.Nil? then n'.val.Nil? && (n'.key == n.key || dead)
    else if cleared && !(Stays(objs, m', A, n.val, true) && (n.key.Live? ==> Stays(objs, m', A, n.key.v, false)))
    then n'.val.Nil? && (if n.key.Live? && n.key.v.Gc? then dead else n'.key == n.key)
    else n' == n
  }

  /**
   The tables that are cleared: alive, and weak by their metatable; of these it is all, but for the `known` ones,
   which had been traversed before when their metatable did not say so yet.
   */
  ghost predicate WeakList(objs: Heap, known: set<Ref>, A: set<Ref>, weak: seq<Ref>) {
    && (forall r :: r in weak ==> r in A && r in objs && objs[r].Table? && (WeakKeys(objs, objs[r]) || WeakValues(objs, objs[r])))
    && (forall r :: r in A && r in objs && objs[r].Table? && r !in known ==>
        WeakKeys(objs, objs[r]) || WeakValues(objs, objs[r]) ==> r in weak)
  }

  /** What the atomic step leaves of a heap; A is what is alive after it. */
  ghost predicate EntriesLeft(objs: Heap, known: set<Ref>, objs': Heap, m': Marks, A: set<Ref>, weak: seq<Ref>) {
    && WeakList(objs, known, A, weak)
    && objs'.Keys == objs.Keys && (forall r :: r in objs && !objs[r].Table? ==> objs'[r] == objs[r])
    && (forall r :: r in objs && objs[r].Table? ==> TableLeft(objs, objs', m', A, weak, r))
  }

  // ---- proofs ----

  lemma ModeIs(objs: Heap, o: Obj)
    requires o.Table?
    ensures ModeOf(objs, o.mt) == Mode(WeakKeys(objs, o), WeakValues(objs, o))
  {
  }

  /** When everything is marked, the weak list holds what it should. */
  lemma WeakListed(objs: Heap, known: set<Ref>, cw: bool, o2: Heap, m2: Marks, again: seq<Ref>, weak: seq<Ref>)
    requires MarkInv(o2, m2, cw, [], again, weak, {}) && WeakFit(o2, m2, weak) && HeapKept(objs, o2)
    requires forall r :: r in again ==> r in o2 && o2[r].Thread?
    requires BlackWeak(o2, m2) <= known
    ensures WeakList(objs, known, NonWhite(m2), weak)
  {
    hide Tri, BlackOk, NoneDead, LiveClosed, HeapKept, Fits, ModeOf, WeakKeys, WeakValues;
    forall r | r in objs && objs[r].Table?
      ensures r in o2 && o2[r].Table? && ModeOf(o2, o2[r].mt) == Mode(WeakKeys(objs, objs[r]),
        WeakValues(objs, objs[r]))
    {
      KeptTable(objs, o2, r);
      ModeIs(objs, objs[r]);
    }
    forall r | r in weak
      ensures r in NonWhite(m2) && r in objs && objs[r].Table? && (WeakKeys(objs, objs[r]) || WeakValues(objs, objs[r]))
    {
      assert Fits(o2, m2, r);
      KeptBack(objs, o2, r);
      FitMode(o2, m2, r);
    }
    forall r | r in NonWhite(m2) && r in objs && objs[r].Table? && r !in known &&
      (WeakKeys(objs, objs[r]) || WeakValues(objs, objs[r]))
      ensures r in weak
    {
      assert r !in BlackWeak(o2, m2);
      assert m2[r].color.Gray?;
    }
  }

  /** One value, as cleartable decides on it, and as it looks when the strings it met are marked as well. */
  lemma ClearedStays(objs: Heap, o2: Heap, m2: Marks, m3: Marks, K: set<Ref>, v: Value, iskey: bool)
    requires SameKinds(objs, o2) && StrMarks(o2, m2, m3, K) && objs.Keys == m2.Keys
    ensures IsCleared(o2, m2, v, iskey) <==> !Stays(objs, m3, NonWhite(m3), v, !iskey)
  {
  }

  lemma KeptKinds(objs: Heap, o2: Heap)
    requires HeapKept(objs, o2)
    ensures SameKinds(objs, o2)
  {
    forall r | r in objs ensures (objs[r].Str? <==> o2[r].Str?) && (objs[r].Udata? <==> o2[r].Udata?)
    {
      assert ObjKept(objs[r], o2[r]);
    }
  }

  /** The clearing of one table. */
  lemma ClearedTable(objs: Heap, o2: Heap, m2: Marks, m3: Marks, weak: seq<Ref>, K: set<Ref>, r: Ref)
    requires HeapKept(objs, o2) && StrMarks(o2, m2, m3, K) && objs.Keys == m2.Keys && WeakFit(o2, m2, weak)
    requires LiveClosed(Cleared(o2, m2, weak), NonWhite(m3))
    requires r in objs && objs[r].Table?
    ensures TableLeft(objs, Cleared(o2, m2, weak), m3, NonWhite(m3), weak, r)
  {
    hide HeapKept, StrMarks, WeakFit, IsCleared, Stays, NonWhite, Fits, ModeOf, Cleared, LiveClosed, NodeLeft;
    var o3, A := Cleared(o2, m2, weak), NonWhite(m3);
    KeptKinds(objs, o2);
    KeptTable(objs, o2, r);
    ClearedAt(o2, m2, weak, r);
    ModeIs(objs, objs[r]);
    if r in weak { WeakBits(o2, m2, weak, r); }
    if r in A { LiveTable(o3, A, r); }
    forall i | 0 <= i < |objs[r].arr|
      ensures o3[r].arr[i] == if r in weak && WeakValues(objs, objs[r]) && !Stays(objs, m3, A, objs[r].arr[i], true)
        then Nil else objs[r].arr[i]
    {
      ClearedStays(objs, o2, m2, m3, K, objs[r].arr[i], false);
    }
    forall i | 0 <= i < |objs[r].node| ensures NodeLeft(objs, m3, A, r in weak, objs[r].node[i], o3[r].node[i])
    {
      NodeDone(objs, o2, m2, m3, K, r in weak, objs[r].node[i], o2[r].node[i], o3[r].node[i]);
    }
  }

  lemma NodeDone(objs: Heap, o2: Heap, m2: Marks, m3: Marks, K: set<Ref>, cleared: bool, n: Node, n2: Node, n3: Node)
    requires SameKinds(objs, o2) && StrMarks(o2, m2, m3, K) && objs.Keys == m2.Keys
    requires KeptEntry(n, n2) && n3 == if cleared then ClearNode(o2, m2, n2) else n2
    ensures NodeLeft(objs, m3, NonWhite(m3), cleared, n, n3)
  {
    hide StrMarks, SameKinds, IsCleared, Stays, NonWhite;
    if n.key.Live? { ClearedStays(objs, o2, m2, m3, K, n.key.v, true); }
    ClearedStays(objs, o2, m2, m3, K, n.val, false);
  }

  lemma WeakBits(objs: Heap, m: Marks, weak: seq<Ref>, r: Ref)
    requires WeakFit(objs, m, weak) && r in weak
    ensures r in objs && r in m && objs[r].Table? && ModeOf(objs, objs[r].mt) == Mode(m[r].bit3, m[r].bit4)
  {
    assert Fits(objs, m, r);
  }

  lemma LiveTable(objs: Heap, A: set<Ref>, r: Ref)
    requires LiveClosed(objs, A) && r in objs && r in A && objs[r].Table?
    ensures AllOk(objs[r].arr, A) && forall i :: 0 <= i < |objs[r].node| ==> NodeLive(objs[r].node[i], A)
  {
    assert RefsIn(objs, objs[r], A);
  }

  /** The whole step. */
  lemma EntriesAfter(objs: Heap, known: set<Ref>, o2: Heap, m2: Marks, o3: Heap, m3: Marks, weak: seq<Ref>, K: set<Ref>)
    requires HeapKept(objs, o2) && o3 == Cleared(o2, m2, weak) && StrMarks(o2, m2, m3, K) && objs.Keys == m2.Keys
    requires WeakFit(o2, m2, weak) && WeakList(objs, known, NonWhite(m2), weak) && LiveClosed(o3, NonWhite(m3))
    ensures EntriesLeft(objs, known, o3, m3, NonWhite(m3), weak)
  {
    hide HeapKept, StrMarks, WeakFit, LiveClosed, TableLeft, Cleared;
    TablesMarked(objs, o2, m2, m3, K);
    OthersKept(objs, o2, m2, weak);
    forall r | r in objs && objs[r].Table? ensures TableLeft(objs, o3, m3, NonWhite(m3), weak, r)
    {
      ClearedTable(objs, o2, m2, m3, weak, K, r);
    }
  }

  lemma OthersKept(objs: Heap, o2: Heap, m2: Marks, weak: seq<Ref>)
    requires HeapKept(objs, o2)
    ensures var o3 := Cleared(o2, m2, weak);
      o3.Keys == objs.Keys && forall r :: r in objs && !objs[r].Table? ==> o3[r] == objs[r]
  {
    forall r | r in objs && !objs[r].Table? ensures o2[r] == objs[r] { assert ObjKept(objs[r], o2[r]); }
  }

  lemma TablesMarked(objs: Heap, o2: Heap, m2: Marks, m3: Marks, K: set<Ref>)
    requires HeapKept(objs, o2) && StrMarks(o2, m2, m3, K)
    ensures forall r :: r in objs && objs[r].Table? ==> (r in NonWhite(m2) <==> r in NonWhite(m3))
  {
    KeptKinds(objs, o2);
  }

  lemma FitMode(objs: Heap, m: Marks, r: Ref)
    requires Fits(objs, m, r)
    ensures r in objs && r in m && objs[r].Table? && !m[r].color.White?
    ensures ModeOf(objs, objs[r].mt) == Mode(m[r].bit3, m[r].bit4) && (m[r].bit3 || m[r].bit4)
  {
  }

  predicate KeptEntry(n: Node, n': Node) {
    n' == n || (n.val.Nil? && n'.val.Nil? && n.key.Live? && n.key.v.Gc? && n'.key == Dead(n.key.v.ref))
  }

  lemma KeptTable(objs: Heap, objs': Heap, r: Ref)
    requires HeapKept(objs, objs') && r in objs && objs[r].Table?
    ensures r in objs' && objs'[r].Table? && objs'[r].mt == objs[r].mt &&
      ModeOf(objs', objs'[r].mt) == ModeOf(objs, objs[r].mt)
    ensures objs'[r] == objs[r].(node := objs'[r].node) && |objs'[r].node| == |objs[r].node|
    ensures forall i :: 0 <= i < |objs[r].node| ==>
      KeptEntry(objs[r].node[i], objs'[r].node[i])
  {
    assert ObjKept(objs[r], objs'[r]);
    KeptMode(objs, objs', objs[r].mt);
  }

  lemma KeptBack(objs: Heap, objs': Heap, r: Ref)
    requires HeapKept(objs, objs') && r in objs' && objs'[r].Table?
    ensures r in objs && objs[r].Table?
  {
    assert ObjKept(objs[r], objs'[r]);
  }

  // ---- longer stretches ----

  lemma StaysKinds(objs: Heap, objs': Heap, m: Marks, A: set<Ref>, v: Value, isvalue: bool)
    requires SameKinds(objs, objs')
    ensures Stays(objs, m, A, v, isvalue) <==> Stays(objs', m, A, v, isvalue)
  {
  }

  /** What is left of a heap is left of an earlier one that only the retagging of dead keys has changed. */
  lemma EntriesFrom(o: Heap, objs: Heap, objs': Heap, m': Marks, A: set<Ref>, weak: seq<Ref>)
    requires HeapKept(o, objs) && EntriesLeft(objs, {}, objs', m', A, weak)
    ensures EntriesLeft(o, {}, objs', m', A, weak)
  {
    hide HeapKept, TableLeft, WeakKeys, WeakValues;
    KeptDomain(o, objs);
    forall r | r in o && o[r].Table?
      ensures objs[r].Table? && TableLeft(o, objs', m', A, weak, r)
      ensures WeakKeys(o, o[r]) == WeakKeys(objs, objs[r]) && WeakValues(o, o[r]) == WeakValues(objs, objs[r])
    {
      KeptTable(o, objs, r);
      ModeIs(o, o[r]);
      ModeIs(objs, objs[r]);
      TableFrom(o, objs, objs', m', A, weak, r);
    }
    forall r | r in o && !o[r].Table? ensures objs[r] == o[r] { KeptOther(o, objs, r); }
    forall r | r in objs && objs[r].Table? ensures o[r].Table? { KeptBack(o, objs, r); }
  }

  lemma KeptOther(objs: Heap, objs': Heap, r: Ref)
    requires HeapKept(objs, objs') && r in objs && !objs[r].Table?
    ensures r in objs' && objs'[r] == objs[r]
  {
    assert ObjKept(objs[r], objs'[r]);
  }

  lemma TableFrom(o: Heap, objs: Heap, objs': Heap, m': Marks, A: set<Ref>, weak: seq<Ref>, r: Ref)
    requires HeapKept(o, objs) && r in o && o[r].Table? && r in objs && objs[r].Table?
    requires TableLeft(objs, objs', m', A, weak, r) && WeakValues(o, o[r]) == WeakValues(objs, objs[r])
    ensures TableLeft(o, objs', m', A, weak, r)
  {
    hide HeapKept, WeakValues, Stays, SameKinds;
    KeptKinds(o, objs);
    KeptTable(o, objs, r);
    forall v, isvalue ensures Stays(o, m', A, v, isvalue) <==> Stays(objs, m', A, v, isvalue)
    {
      StaysKinds(o, objs, m', A, v, isvalue);
    }
    forall i | 0 <= i < |o[r].node| ensures NodeLeft(o, m', A, r in weak, o[r].node[i], objs'[r].node[i])
    {
      assert KeptEntry(o[r].node[i], objs[r].node[i]) && NodeLeft(objs, m', A, r in weak, objs[r].node[i],
        objs'[r].node[i]);
    }
  }

  /** The same with headers and a set that say the same of what can be lost. */
  lemma TableOnwards(o: Heap, objs1: Heap, m1: Marks, A1: set<Ref>, objs2: Heap, m2: Marks, A2: set<Ref>,
    weak: seq<Ref>, r: Ref)
    requires r in o && o[r].Table? && TableLeft(o, objs1, m1, A1, weak, r)
    requires r in objs2 && objs2[r] == objs1[r] && r in A1 && r in A2 && A1 <= A2
    requires forall v, isvalue :: Stays(o, m1, A1, v, isvalue) <==> Stays(o, m2, A2, v, isvalue)
    ensures TableLeft(o, objs2, m2, A2, weak, r)
  {
    hide WeakValues, Stays;
    forall i | 0 <= i < |o[r].node| ensures NodeLeft(o, m2, A2, r in weak, o[r].node[i], objs2[r].node[i])
    {
      assert NodeLeft(o, m1, A1, r in weak, o[r].node[i], objs1[r].node[i]);
    }
  }
}
