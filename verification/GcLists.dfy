/**
 Which list owns which object (rootgc, the string buckets, a thread's open upvalues, tmudata), and
 the two list computations of the atomic step: separating userdata and clearing weak tables.
 */
module GcLists {
  import opened Common
  import opened GcHeap
  import opened GcInv

  ghost predicate ThreadOk(objs: Heap, t: Ref)
    requires t in objs && objs[t].Thread?
  {
    var ups := objs[t].openupval;
    && (forall i :: 0 <= i < |ups| ==>
        ups[i] in objs && objs[ups[i]].IsOpen() && objs[ups[i]].cell.thread == t &&
          objs[ups[i]].cell.level < |objs[t].stack|)
    && (forall i, j :: 0 <= i < j < |ups| ==> objs[ups[i]].cell.level > objs[ups[j]].cell.level)
  }

  /** Every open upvalue list is strictly descending by stack level: one upvalue for each slot. */
  ghost predicate ThreadsOk(objs: Heap) {
    forall t :: t in objs && objs[t].Thread? ==> ThreadOk(objs, t)
  }

  ghost predicate OnRoot(objs: Heap, r: Ref) { r in objs && !objs[r].Str? && !objs[r].IsOpen() }

  ghost predicate RootOk(objs: Heap, rootgc: seq<Ref>, tmudata: seq<Ref>) {
    && NoDup(rootgc) && NoDup(tmudata)
    && (forall r :: r in rootgc ==> OnRoot(objs, r) && r !in tmudata)
    && (forall r :: r in tmudata ==> r in objs && objs[r].Udata?)
  }

  ghost predicate StringsOk(objs: Heap, strt: seq<seq<Ref>>) {
    forall b :: 0 <= b < |strt| ==>
      NoDup(strt[b]) && forall r :: r in strt[b] ==> r in objs && objs[r] == Str(b)
  }

  /** The list an object hangs on. */
  ghost predicate Owner(objs: Heap, rootgc: seq<Ref>, strt: seq<seq<Ref>>, tmudata: seq<Ref>, r: Ref)
    requires r in objs
  {
    match objs[r]
    case Str(b) => b < |strt| && r in strt[b]
    case UpVal(Open(t, _)) => t in objs && objs[t].Thread? && r in objs[t].openupval
    case _ => r in rootgc || r in tmudata
  }

  ghost predicate Owned(objs: Heap, rootgc: seq<Ref>, strt: seq<seq<Ref>>, tmudata: seq<Ref>, uvhead: seq<Ref>) {
    && ThreadsOk(objs)
    && RootOk(objs, rootgc, tmudata)
    && StringsOk(objs, strt)
    && UvheadOk(objs, uvhead)
    && (forall r :: r in objs ==> Owner(objs, rootgc, strt, tmudata, r))
  }

  /** rootgc is: other objects, then the main thread, then the userdata. */
  ghost predicate MainOk(objs: Heap, rootgc: seq<Ref>, mainidx: nat, mainthread: Ref) {
    && mainidx < |rootgc| && rootgc[mainidx] == mainthread && mainthread in objs && objs[mainthread].Thread?
    && (forall i :: 0 <= i < |rootgc| && rootgc[i] in objs ==> (objs[rootgc[i]].Udata? <==> i > mainidx))
  }

  // ---- luaC_separateudata ----

  /** Separated: to be considered at all; of these, the ones with a finalizer move to tmudata. */
  predicate Picked(marked: Marks, r: Ref, all: bool) {
    r in marked && (marked[r].color.White? || all) && !marked[r].bit3
  }

  predicate Moves(objs: Heap, marked: Marks, r: Ref, all: bool) {
    Picked(marked, r, all) && r in objs && objs[r].Udata? && HasGc(objs, objs[r].mt)
  }

  function Moved(objs: Heap, marked: Marks, us: seq<Ref>, all: bool): (m: seq<Ref>)
    ensures forall r :: r in m <==> r in us && Moves(objs, marked, r, all)
  {
    if us == [] then []
    else if Moves(objs, marked, us[0], all) then [us[0]] + Moved(objs, marked, us[1..], all)
    else Moved(objs, marked, us[1..], all)
  }

  function Stay(objs: Heap, marked: Marks, us: seq<Ref>, all: bool): (k: seq<Ref>)
    ensures forall r :: r in k <==> r in us && !Moves(objs, marked, r, all)
  {
    if us == [] then []
    else if Moves(objs, marked, us[0], all) then Stay(objs, marked, us[1..], all)
    else [us[0]] + Stay(objs, marked, us[1..], all)
  }

  /** The finalized bits luaC_separateudata sets. */
  function Finalized(marked: Marks, us: seq<Ref>, all: bool): (m: Marks)
    ensures m.Keys == marked.Keys
  {
    map r | r in marked :: if r in us && Picked(marked, r, all) then marked[r].(bit3 := true) else marked[r]
  }

  /** Nothing is lost or duplicated: the userdata are split between the two lists, each keeping its order. */
  lemma {:induction false} SeparateConserves(objs: Heap, marked: Marks, us: seq<Ref>, all: bool)
    ensures multiset(Stay(objs, marked, us, all)) + multiset(Moved(objs, marked, us, all)) == multiset(us)
    ensures NoDup(us) ==> NoDup(Stay(objs, marked, us, all)) && NoDup(Moved(objs, marked, us, all))
  {
    hide Moves, NoDup;
    if us != [] {
      assert us == [us[0]] + us[1..];
      SeparateConserves(objs, marked, us[1..], all);
    }
    if NoDup(us) { SeparateNoDup(objs, marked, us, all); }
  }

  lemma {:induction false} SeparateNoDup(objs: Heap, marked: Marks, us: seq<Ref>, all: bool)
    requires NoDup(us)
    ensures NoDup(Stay(objs, marked, us, all)) && NoDup(Moved(objs, marked, us, all))
  {
    hide Moves;
    if us != [] {
      NoDupTail(us);
      SeparateNoDup(objs, marked, us[1..], all);
    }
  }

  /** Strictly descending lists stay so: what is moved is moved newest first. */
  ghost predicate Descending(s: seq<Ref>) {
    forall i, j :: 0 <= i < j < |s| ==> s[i] > s[j]
  }

  lemma SeparateNone(objs: Heap, marked: Marks, pre: seq<Ref>, us: seq<Ref>, all: bool)
    ensures us[..|us|] == us
    ensures Finalized(marked, us[..0], all) == marked
    ensures |Stay(objs, marked, us[..0], all)| == 0
    ensures forall t: seq<Ref> :: t + Moved(objs, marked, us[..0], all) == t
    ensures pre + Stay(objs, marked, us[..0], all) + us[0..] == pre + us
  {
  }

  /** One step of the loop over the userdata. */
  lemma {:induction false} SeparateOne(objs: Heap, marked: Marks, us: seq<Ref>, k: nat, all: bool)
    requires k < |us| && NoDup(us)
    ensures var r, done, next := us[k], us[..k], us[..k + 1];
      var m := Finalized(marked, done, all);
      && (r in m <==> r in marked) && (r in marked ==> m[r] == marked[r])
      && Finalized(marked, next, all) == (if Picked(m, r, all) then m[r := m[r].(bit3 := true)] else m)
      && (Picked(m, r, all) <==> r in m && (m[r].color.White? || all) && !m[r].bit3)
      && (Moves(objs, marked, r, all) <==> Picked(m, r, all) && r in objs && objs[r].Udata? && HasGc(objs, objs[r].mt))
      && Stay(objs, marked, next, all) == Stay(objs, marked, done, all) + (if Moves(objs, marked, r, all) then []
        else [r])
      && Moved(objs, marked, next, all) == Moved(objs, marked, done, all) + (if Moves(objs, marked, r, all) then [r]
        else [])
  {
    var r, done, next := us[k], us[..k], us[..k + 1];
    assert next == done + [r];
    assert r !in done;
    StayAppend(objs, marked, done, r, all);
    MovedAppend(objs, marked, done, r, all);
    FinalizedAppend(marked, done, r, all);
  }

  lemma FinalizedAppend(marked: Marks, done: seq<Ref>, r: Ref, all: bool)
    requires r !in done
    ensures var m := Finalized(marked, done, all);
      && (r in marked ==> m[r] == marked[r])
      && Finalized(marked, done + [r], all) == (if Picked(m, r, all) then m[r := m[r].(bit3 := true)] else m)
  {
    var m := Finalized(marked, done, all);
    var m' := if Picked(m, r, all) then m[r := m[r].(bit3 := true)] else m;
    assert forall x :: x in done + [r] <==> x in done || x == r;
    assert forall x :: x in marked ==> Finalized(marked, done + [r], all)[x] == m'[x];
  }

  /** Stepping over, or cutting out, the element at the end of the part already done. */
  lemma Splice(pre: seq<Ref>, stay: seq<Ref>, us: seq<Ref>, k: nat)
    requires k <= |us|
    ensures var s, p := pre + stay + us[k..], |pre| + |stay|;
      && (p < |s| <==> k < |us|)
      && (k == |us| ==> us[..k] == us && s == pre + stay)
      && (k < |us| ==> s[p] == us[k] && s[..p] + s[p + 1..] == pre + stay + us[k + 1..]
                       && s == pre + (stay + [us[k]]) + us[k + 1..])
  {
    if k < |us| {
      assert us[k..] == [us[k]] + us[k + 1..];
    }
  }

  lemma {:induction false} StayAppend(objs: Heap, marked: Marks, us: seq<Ref>, r: Ref, all: bool)
    ensures Stay(objs, marked, us + [r], all) == Stay(objs, marked, us, all) + (if Moves(objs, marked, r, all) then []
      else [r])
  {
    hide Moves;
    if us == [] {
      assert us + [r] == [r];
    } else {
      assert (us + [r])[1..] == us[1..] + [r];
      StayAppend(objs, marked, us[1..], r, all);
    }
  }

  lemma {:induction false} MovedAppend(objs: Heap, marked: Marks, us: seq<Ref>, r: Ref, all: bool)
    ensures Moved(objs, marked, us + [r], all) == Moved(objs, marked, us, all) + (if Moves(objs, marked, r, all)
      then [r] else [])
  {
    hide Moves;
    if us == [] {
      assert us + [r] == [r];
    } else {
      assert (us + [r])[1..] == us[1..] + [r];
      MovedAppend(objs, marked, us[1..], r, all);
    }
  }

  predicate Unfinalized(marked: Marks, r: Ref) { r in marked && !marked[r].bit3 }

  /** The userdata not yet finalized stand in reverse order of creation. */
  ghost predicate NewestFirst(marked: Marks, us: seq<Ref>) {
    forall i, j :: 0 <= i < j < |us| && Unfinalized(marked, us[i]) && Unfinalized(marked, us[j]) ==> us[i] > us[j]
  }

  lemma {:induction false} MovedNewestFirst(objs: Heap, marked: Marks, us: seq<Ref>, all: bool)
    requires NewestFirst(marked, us)
    ensures Descending(Moved(objs, marked, us, all))
  {
    if us != [] {
      assert NewestFirst(marked, us[1..]) by {
        assert forall i :: 0 <= i < |us[1..]| ==> us[1..][i] == us[i + 1];
      }
      MovedNewestFirst(objs, marked, us[1..], all);
      var rest := Moved(objs, marked, us[1..], all);
      forall k | 0 <= k < |rest| && Moves(objs, marked, us[0], all) ensures us[0] > rest[k]
      {
        assert rest[k] in rest;
        var j :| 0 <= j < |us[1..]| && us[1..][j] == rest[k];
        assert us[j + 1] == rest[k];
      }
    }
  }

  // ---- cleartable ----

  /** iscleared, but for its side effect on strings. */
  predicate IsCleared(objs: Heap, marked: Marks, v: Value, iskey: bool) {
    v.Gc? && v.ref in objs && v.ref in marked && !objs[v.ref].Str? &&
    (marked[v.ref].color.White? || (objs[v.ref].Udata? && !iskey && marked[v.ref].bit3))
  }

  function ClearValue(objs: Heap, marked: Marks, v: Value): Value {
    if IsCleared(objs, marked, v, false) then Nil else v
  }

  predicate NodeCleared(objs: Heap, marked: Marks, n: Node) {
    !n.val.Nil? && ((n.key.Live? && IsCleared(objs, marked, n.key.v, true)) || IsCleared(objs, marked, n.val, false))
  }

  function ClearNode(objs: Heap, marked: Marks, n: Node): Node {
    if NodeCleared(objs, marked, n) then RemoveEntry(n.(val := Nil)) else n
  }

  function ClearTable(objs: Heap, marked: Marks, o: Obj, weakval: bool): (o': Obj)
    requires o.Table?
    ensures o'.Table? && o'.mt == o.mt
  {
    o.(arr := if weakval then seq(|o.arr|, i requires 0 <= i < |o.arr| => ClearValue(objs, marked, o.arr[i]))
      else o.arr,
       node := seq(|o.node|, i requires 0 <= i < |o.node| => ClearNode(objs, marked, o.node[i])))
  }

  /** All the tables of the weak list cleared. */
  function Cleared(objs: Heap, marked: Marks, weak: seq<Ref>): (objs': Heap)
    ensures objs'.Keys == objs.Keys
  {
    map r | r in objs ::
      if r in weak && objs[r].Table? then ClearTable(objs, marked, objs[r], r in marked && marked[r].bit4) else objs[r]
  }

  /** Only strings were marked. */
  ghost predicate StrMarks(objs: Heap, m: Marks, m': Marks, K: set<Ref>) {
    m'.Keys == m.Keys &&
    forall r :: r in m ==>
      m'[r] == m[r] || (r in objs && objs[r].Str? && r in K && m[r].color.White? && m'[r] == m[r].(color := Gray))
  }

  lemma StrMarksTrans(objs: Heap, m: Marks, m1: Marks, m2: Marks, K: set<Ref>)
    requires StrMarks(objs, m, m1, K) && StrMarks(objs, m1, m2, K)
    ensures StrMarks(objs, m, m2, K) && NonWhite(m1) <= NonWhite(m2)
  {
  }

  /** Two heaps that agree on which objects are strings and which are userdata. */
  ghost predicate SameKinds(objs: Heap, objs': Heap) {
    objs.Keys == objs'.Keys &&
    forall r :: r in objs ==> (objs[r].Str? <==> objs'[r].Str?) && (objs[r].Udata? <==> objs'[r].Udata?)
  }

  predicate NodeStrMarked(objs: Heap, n: Node, S: set<Ref>) {
    !n.val.Nil? ==> (n.key.Live? ==> StrOk(objs, n.key.v, S)) && StrOk(objs, n.val, S)
  }

  predicate TableStrMarked(objs: Heap, o: Obj, weakval: bool, S: set<Ref>)
    requires o.Table?
  {
    && (weakval ==> forall i :: 0 <= i < |o.arr| ==> StrOk(objs, o.arr[i], S))
    && (forall i :: 0 <= i < |o.node| ==> NodeStrMarked(objs, o.node[i], S))
  }

  /** Where the clearing of one value or node is decided, marking strings or clearing other tables plays no part. */
  lemma IsClearedStable(objs: Heap, objs': Heap, m: Marks, m': Marks, K: set<Ref>)
    requires SameKinds(objs, objs') && StrMarks(objs, m, m', K)
    ensures forall v, k :: IsCleared(objs, m, v, k) == IsCleared(objs', m', v, k)
    ensures forall v :: ClearValue(objs, m, v) == ClearValue(objs', m', v)
    ensures forall n :: ClearNode(objs, m, n) == ClearNode(objs', m', n)
  {
    forall v: Value, k ensures IsCleared(objs, m, v, k) == IsCleared(objs', m', v, k) {}
    forall v: Value ensures ClearValue(objs, m, v) == ClearValue(objs', m', v) {}
    forall n: Node ensures ClearNode(objs, m, n) == ClearNode(objs', m', n) {}
  }

  /** After clearing, a weak table holds marked objects only, keys, values and strong halves alike. */
  lemma ClearedTableLive(objs: Heap, m: Marks, o: Obj, bits: Mark, S: set<Ref>, S': set<Ref>)
    requires o.Table? && ObjLive(o, objs.Keys) && objs.Keys == m.Keys
    requires S == NonWhite(m) && S <= S'
    requires TableCovered(o, bits.bit3, bits.bit4, S)
    requires TableStrMarked(objs, ClearTable(objs, m, o, bits.bit4), bits.bit4, S')
    ensures ObjLive(ClearTable(objs, m, o, bits.bit4), S')
  {
    var o' := ClearTable(objs, m, o, bits.bit4);
    forall i | 0 <= i < |o'.arr| ensures Ok(o'.arr[i], S')
    {
      assert Ok(o.arr[i], objs.Keys);
      if bits.bit4 { assert StrOk(objs, o'.arr[i], S'); }
    }
    forall i | 0 <= i < |o'.node| ensures NodeLive(o'.node[i], S')
    {
      assert NodeLive(o.node[i], objs.Keys) && NodeStrMarked(objs, o'.node[i], S');
    }
  }

  /**
   The heap at the end of the atomic step, before the white flip: nothing marked refers to anything
   white, weak references included.
   */
  lemma AtomicCloses(objs: Heap, m: Marks, m': Marks, cw: bool, again: seq<Ref>, weak: seq<Ref>, K: set<Ref>)
    requires MarkInv(objs, m, cw, [], again, weak, {})
    requires forall r :: r in again ==> r in objs && objs[r].Thread?
    requires StrMarks(objs, m, m', K)
    requires var objs' := Cleared(objs, m, weak);
      forall r :: r in weak ==> TableStrMarked(objs, objs'[r], m[r].bit4, NonWhite(m'))
    ensures LiveClosed(Cleared(objs, m, weak), NonWhite(m'))
  {
    var objs' := Cleared(objs, m, weak);
    var S, S' := NonWhite(m), NonWhite(m');
    StrMarksTrans(objs, m, m, m', K);
    forall r | r in objs && r in S' ensures RefsIn(objs', objs'[r], S')
    {
      if objs[r].Str? {
      } else {
        assert r in S && Covered(objs, objs[r], m[r], S) && RefsIn(objs, objs[r], objs.Keys);
        if r in weak {
          ClearedTableLive(objs, m, objs[r], m[r], S, S');
        } else {
          if objs[r].Table? { assert m[r].color.Black?; }
          LiveMonotone(objs[r], S, S');
        }
      }
    }
  }

  // ---- cleartable, one table after the other ----

  predicate TableStrOk(objs: Heap, o: Obj, K: set<Ref>)
    requires o.Table?
  {
    && (forall i :: 0 <= i < |o.arr| ==> StrOk(objs, o.arr[i], K))
    && (forall i :: 0 <= i < |o.node| && !o.node[i].val.Nil? ==> NodeStrOk(objs, o.node[i], K))
  }

  /** The first i tables of the weak list have been cleared. */
  ghost predicate ClearedUpTo(o0: Heap, m0: Marks, weak: seq<Ref>, i: nat, objs: Heap, m: Marks, K: set<Ref>) {
    && i <= |weak|
    && objs == Cleared(o0, m0, weak[..i])
    && StrMarks(o0, m0, m, K)
    && (forall j :: 0 <= j < i ==>
        weak[j] in m0 && weak[j] in objs && objs[weak[j]].Table? &&
          TableStrMarked(o0, objs[weak[j]], m0[weak[j]].bit4, NonWhite(m)))
  }

  lemma ClearedNone(o0: Heap, m0: Marks, weak: seq<Ref>, K: set<Ref>)
    ensures ClearedUpTo(o0, m0, weak, 0, o0, m0, K)
  {
    assert Cleared(o0, m0, weak[..0]) == o0;
  }

  lemma ClearedAll(o0: Heap, m0: Marks, weak: seq<Ref>, objs: Heap, m: Marks, K: set<Ref>)
    requires ClearedUpTo(o0, m0, weak, |weak|, objs, m, K)
    ensures objs == Cleared(o0, m0, weak) && StrMarks(o0, m0, m, K)
    ensures forall r :: r in weak ==> r in m0 && r in objs && objs[r].Table? && TableStrMarked(o0, objs[r], m0[r].bit4, NonWhite(m))
  {
    assert weak[..|weak|] == weak;
  }

  lemma StrMarksSame(objs: Heap, m: Marks, K: set<Ref>)
    ensures StrMarks(objs, m, m, K)
  {
  }

  lemma ClearReady(o0: Heap, m0: Marks, weak: seq<Ref>, i: nat, objs: Heap, m: Marks, K: set<Ref>)
    requires o0.Keys == m0.Keys && NoDup(weak) && i < |weak| && ClearedUpTo(o0, m0, weak, i, objs, m, K)
    requires forall r :: r in weak ==> r in o0 && o0[r].Table? && TableStrOk(o0, o0[r], K)
    ensures var r := weak[i];
      && r in objs && r in m && objs[r] == o0[r] && objs[r].Table? && objs.Keys == m.Keys && m[r].bit4 == m0[r].bit4
      && (forall i :: 0 <= i < |objs[r].arr| ==> StrOk(objs, objs[r].arr[i], K))
      && (forall i :: 0 <= i < |objs[r].node| && !objs[r].node[i].val.Nil? ==> NodeStrOk(objs, objs[r].node[i], K))
      && SameKinds(o0, objs)
  {
    var r := weak[i];
    assert r in weak && r !in weak[..i];
    assert SameKinds(o0, objs);
    assert TableStrOk(o0, o0[r], K);
  }

  lemma ClearDone(o0: Heap, m0: Marks, weak: seq<Ref>, i: nat, o1: Heap, m1: Marks, m2: Marks, m3: Marks,
                  arr: seq<Value>, node: seq<Node>, K: set<Ref>)
    requires o0.Keys == m0.Keys && NoDup(weak) && i < |weak| && ClearedUpTo(o0, m0, weak, i, o1, m1, K)
    requires forall r :: r in weak ==> r in o0 && o0[r].Table?
    requires StrMarks(o1, m1, m2, K) && StrMarks(o1, m2, m3, K)
    requires var r := weak[i];
      && r in o1 && r in m1 && o1[r] == o0[r] && SameKinds(o0, o1) && m1[r].bit4 == m0[r].bit4
      && |arr| == |o1[r].arr| && |node| == |o1[r].node|
      && (if m1[r].bit4 then
            (forall j :: 0 <= j < |arr| ==> arr[j] == ClearValue(o1, m1, o1[r].arr[j]) && StrOk(o1, arr[j], NonWhite(m2)))
          else arr == o1[r].arr)
      && (forall j :: 0 <= j < |node| ==> node[j] == ClearNode(o1, m2, o1[r].node[j]) && NodeStrMarked(o1, node[j], NonWhite(m3)))
    ensures ClearedUpTo(o0, m0, weak, i + 1, o1[weak[i] := o1[weak[i]].(arr := arr, node := node)], m3, K)
  {
    hide *;
    var r := weak[i];
    StrMarksTrans(o1, m1, m2, m3, K);
    StrMarksKinds(o0, o1, m1, m3, K);
    ClearedMembers(o0, m0, weak, i, o1, m1, K);
    StrMarksTrans(o0, m0, m1, m3, K);
    SameClear(o0, m0, o1, m1, m2, r, arr, node, K);
    ClearedNext(o0, m0, weak, i, o1);
    NewStrMarked(o0, o1, m1, m2, m3, r, arr, node, K);
    ClearedUpToNext(o0, m0, weak, i, o1, m1, m3, o1[r].(arr := arr, node := node), K);
  }

  lemma ClearedMembers(o0: Heap, m0: Marks, weak: seq<Ref>, i: nat, o1: Heap, m1: Marks, K: set<Ref>)
    requires ClearedUpTo(o0, m0, weak, i, o1, m1, K)
    ensures StrMarks(o0, m0, m1, K) && o1 == Cleared(o0, m0, weak[..i])
  {
  }

  lemma NewStrMarked(o0: Heap, o1: Heap, m1: Marks, m2: Marks, m3: Marks, r: Ref, arr: seq<Value>, node: seq<Node>,
    K: set<Ref>)
    requires SameKinds(o0, o1) && StrMarks(o1, m2, m3, K)
    requires r in m1 && r in o1 && o1[r].Table?
    requires m1[r].bit4 ==> forall j :: 0 <= j < |arr| ==> StrOk(o1, arr[j], NonWhite(m2))
    requires forall j :: 0 <= j < |node| ==> NodeStrMarked(o1, node[j], NonWhite(m3))
    ensures TableStrMarked(o0, o1[r].(arr := arr, node := node), m1[r].bit4, NonWhite(m3))
  {
    StrMarksTrans(o1, m2, m2, m3, K);
    StrMarkedKinds(o0, o1, NonWhite(m3));
  }

  lemma ClearedUpToNext(o0: Heap, m0: Marks, weak: seq<Ref>, i: nat, o1: Heap, m1: Marks, m3: Marks, o': Obj,
    K: set<Ref>)
    requires NoDup(weak) && i < |weak| && ClearedUpTo(o0, m0, weak, i, o1, m1, K) && weak[i] in o1
    requires StrMarks(o0, m0, m3, K) && NonWhite(m1) <= NonWhite(m3)
    requires weak[i] in m0 && o'.Table? && TableStrMarked(o0, o', m0[weak[i]].bit4, NonWhite(m3))
    requires o1[weak[i] := o'] == Cleared(o0, m0, weak[..i + 1])
    ensures ClearedUpTo(o0, m0, weak, i + 1, o1[weak[i] := o'], m3, K)
  {
    hide Cleared, StrMarks, StrOk, NodeStrMarked;
    forall j | 0 <= j < i ensures TableStrMarked(o0, o1[weak[j]], m0[weak[j]].bit4, NonWhite(m3))
    {
      StrMarkedGrows(o0, o1[weak[j]], m0[weak[j]].bit4, NonWhite(m1), NonWhite(m3));
    }
  }

  lemma StrMarkedKinds(o0: Heap, o1: Heap, S: set<Ref>)
    requires SameKinds(o0, o1)
    ensures forall v :: StrOk(o1, v, S) == StrOk(o0, v, S)
    ensures forall n :: NodeStrMarked(o1, n, S) == NodeStrMarked(o0, n, S)
  {
    forall v: Value ensures StrOk(o1, v, S) == StrOk(o0, v, S) {}
    forall n: Node ensures NodeStrMarked(o1, n, S) == NodeStrMarked(o0, n, S) {}
  }

  lemma StrMarkedGrows(objs: Heap, o: Obj, weakval: bool, S: set<Ref>, S': set<Ref>)
    requires o.Table? && TableStrMarked(objs, o, weakval, S) && S <= S'
    ensures TableStrMarked(objs, o, weakval, S')
  {
    forall i | 0 <= i < |o.node| ensures NodeStrMarked(objs, o.node[i], S')
    {
      assert NodeStrMarked(objs, o.node[i], S);
    }
  }

  lemma SameClear(o0: Heap, m0: Marks, o1: Heap, m1: Marks, m2: Marks, r: Ref, arr: seq<Value>, node: seq<Node>,
    K: set<Ref>)
    requires SameKinds(o0, o1) && StrMarks(o0, m0, m1, K) && StrMarks(o1, m1, m2, K)
    requires r in o0 && r in m0 && r in m1 && o0[r].Table? && m1[r].bit4 == m0[r].bit4
    requires |arr| == |o0[r].arr| && |node| == |o0[r].node|
    requires if m1[r].bit4 then (forall j :: 0 <= j < |arr| ==> arr[j] == ClearValue(o1, m1, o0[r].arr[j]))
      else arr == o0[r].arr
    requires forall j :: 0 <= j < |node| ==> node[j] == ClearNode(o1, m2, o0[r].node[j])
    ensures o0[r].(arr := arr, node := node) == ClearTable(o0, m0, o0[r], m0[r].bit4)
  {
    IsClearedStable(o0, o1, m0, m1, K);
    IsClearedStable(o1, o1, m1, m2, K);
    var t := ClearTable(o0, m0, o0[r], m0[r].bit4);
    assert t.arr == arr;
    assert t.node == node;
  }

  lemma ClearedAt(objs: Heap, marked: Marks, weak: seq<Ref>, x: Ref)
    requires x in objs
    ensures Cleared(objs, marked, weak)[x] == if x in weak && objs[x].Table?
      then ClearTable(objs, marked, objs[x], x in marked && marked[x].bit4) else objs[x]
  {
  }

  lemma NotBefore(s: seq<Ref>, i: nat)
    requires NoDup(s) && i < |s|
    ensures s[i] !in s[..i]
  {
  }

  lemma UpdatedHeap(objs: Heap, objs': Heap, r: Ref, o: Obj)
    requires objs'.Keys == objs.Keys && r in objs && forall x :: x in objs' ==> objs'[x] == if x == r then o
      else objs[x]
    ensures objs' == objs[r := o]
  {
  }

  lemma ClearedStep(o0: Heap, m0: Marks, weak: seq<Ref>, i: nat, x: Ref)
    requires i < |weak| && weak[i] !in weak[..i] && x in o0 && o0.Keys == m0.Keys && weak[i] in o0 && o0[weak[i]].Table?
    ensures Cleared(o0, m0, weak[..i + 1])[x] ==
      if x == weak[i] then ClearTable(o0, m0, o0[weak[i]], m0[weak[i]].bit4) else Cleared(o0, m0, weak[..i])[x]
  {
    hide ClearTable;
    assert weak[..i + 1] == weak[..i] + [weak[i]];
    ClearedAt(o0, m0, weak[..i + 1], x);
    ClearedAt(o0, m0, weak[..i], x);
  }

  lemma ClearedNext(o0: Heap, m0: Marks, weak: seq<Ref>, i: nat, o1: Heap)
    requires NoDup(weak) && i < |weak| && o0.Keys == m0.Keys && weak[i] in o0 && o0[weak[i]].Table? &&
      o1 == Cleared(o0, m0, weak[..i])
    ensures Cleared(o0, m0, weak[..i + 1]) == o1[weak[i] := ClearTable(o0, m0, o0[weak[i]], m0[weak[i]].bit4)]
  {
    hide ClearTable, Cleared;
    NotBefore(weak, i);
    var w := ClearTable(o0, m0, o0[weak[i]], m0[weak[i]].bit4);
    var a := Cleared(o0, m0, weak[..i + 1]);
    forall x | x in o0 ensures a[x] == if x == weak[i] then w else o1[x] { ClearedStep(o0, m0, weak, i, x); }
    UpdatedHeap(o1, a, weak[i], w);
  }

  lemma StrMarksKinds(o0: Heap, o1: Heap, m: Marks, m': Marks, K: set<Ref>)
    requires SameKinds(o0, o1) && StrMarks(o1, m, m', K)
    ensures StrMarks(o0, m, m', K)
  {
  }

  // ---- atomic ----

  ghost predicate UdataFrom(objs: Heap, rootgc: seq<Ref>, mainidx: nat) {
    mainidx < |rootgc| && forall i :: mainidx < i < |rootgc| ==> rootgc[i] in objs && objs[rootgc[i]].Udata?
  }

  /** Userdata whose finalizer is still to be called lie in K. */
  ghost predicate PendingIn(objs: Heap, marked: Marks, rootgc: seq<Ref>, K: set<Ref>) {
    forall r :: r in rootgc && r in objs && r in marked && objs[r].Udata? && HasGc(objs, objs[r].mt) && !marked[r].bit3 ==> r in K
  }

  /** What separating the userdata does to the marking invariant. */
  lemma SeparateSound(objs: Heap, marked: Marks, cw: bool, gray: seq<Ref>, again: seq<Ref>, weak: seq<Ref>,
                      rootgc: seq<Ref>, mainidx: nat, tm: seq<Ref>, K: set<Ref>)
    requires MarkInv(objs, marked, cw, gray, again, weak, SetOf(tm))
    requires RootOk(objs, rootgc, tm) && UdataFrom(objs, rootgc, mainidx)
    requires NonWhite(marked) <= K && SetOf(tm) <= K && PendingIn(objs, marked, rootgc, K)
    ensures NoDup(rootgc) && mainidx < |rootgc| && forall i :: mainidx < i < |rootgc| ==> rootgc[i] in marked
    ensures var us := rootgc[mainidx + 1..];
      var m', tm' := Finalized(marked, us, false), tm + Moved(objs, marked, us, false);
      && MarkInv(objs, m', cw, gray, again, weak, SetOf(tm'))
      && NonWhite(m') == NonWhite(marked) && SetOf(tm') <= K
      && (forall r :: r in tm' ==> r in objs && objs[r].Udata?)
  {
    var us := rootgc[mainidx + 1..];
    var m', tm' := Finalized(marked, us, false), tm + Moved(objs, marked, us, false);
    assert forall r :: r in us ==> r in objs && objs[r].Udata? && r in rootgc;
    assert SameButFinalized(objs, marked, m');
    FinalizedKeeps(objs, marked, m', cw, gray, again, weak, SetOf(tm));
    Widen(objs, m', cw, gray, again, weak, SetOf(tm), SetOf(tm'));
  }

  lemma FitFinalized(objs: Heap, rootgc: seq<Ref>, mainidx: nat, m: Marks, weak: seq<Ref>)
    requires UdataFrom(objs, rootgc, mainidx)
    ensures WeakFit(objs, m, weak) ==> WeakFit(objs, Finalized(m, rootgc[mainidx + 1..], false), weak)
  {
    var us := rootgc[mainidx + 1..];
    assert forall r :: r in us ==> r in objs && objs[r].Udata?;
  }

  lemma BlackFinalized(objs: Heap, rootgc: seq<Ref>, mainidx: nat, m: Marks)
    requires UdataFrom(objs, rootgc, mainidx)
    ensures BlackWeak(objs, Finalized(m, rootgc[mainidx + 1..], false)) <= BlackWeak(objs, m)
  {
    var us := rootgc[mainidx + 1..];
    assert forall r :: r in us ==> r in objs && objs[r].Udata?;
  }

  lemma WeakStrings(objs: Heap, marked: Marks, cw: bool, gray: seq<Ref>, again: seq<Ref>, weak: seq<Ref>, K: set<Ref>,
    cut: set<Ref>)
    requires MarkInv(objs, marked, cw, gray, again, weak, {}) && StrongBut(objs, K, cut) && CutOk(objs, marked, cut) &&
      NonWhite(marked) <= K
    ensures objs.Keys == marked.Keys && NoDup(weak)
    ensures forall r :: r in weak ==> r in objs && objs[r].Table? && TableStrOk(objs, objs[r], K)
  {
    forall r | r in weak ensures r in objs && objs[r].Table? && TableStrOk(objs, objs[r], K)
    {
      assert r in NonWhite(marked) && StrongIn(objs, objs[r], K);
    }
  }

  lemma StrMarksInside(objs: Heap, m: Marks, m': Marks, cw: bool, K: set<Ref>)
    requires StrMarks(objs, m, m', K) && NonWhite(m) <= K && forall r :: r in m ==> m[r].color != White(!cw)
    ensures NonWhite(m) <= NonWhite(m') <= K && Alive(m', !cw) == NonWhite(m')
  {
  }
}
