/** Allocation, open upvalues and changes of the root set, seen by the invariant. */
module GcAlloc {
  import opened Common
  import opened GcHeap
  import opened GcInv
  import opened GcLists
  import opened GcState
  import opened GcSweep
  import opened GcFinal
  import opened GcMutator

  function FreshMark(cw: bool): Mark { Mark(White(cw), false, false, false) }

  function InsertAt(s: seq<Ref>, k: nat, r: Ref): seq<Ref>
    requires k <= |s|
  {
    s[..k] + [r] + s[k..]
  }

  /** A new object may refer to live objects only; a new thread has no open upvalue. */
  ghost predicate NewOk(g: G, o: Obj) {
    && ObjLive(o, Alive(g.marked, g.cw)) && !o.IsOpen()
    && (o.Thread? ==> o.openupval == [])
  }

  /** luaC_link, or luaS_newudata's linking after the main thread. */
  ghost function Linked(g: G, o: Obj): G
    requires g.mainidx < |g.rootgc|
  {
    var k := if o.Udata? then g.mainidx + 1 else 0;
    g.(objs := g.objs[g.next := o], marked := g.marked[g.next := FreshMark(g.cw)], next := g.next + 1,
       rootgc := InsertAt(g.rootgc, k, g.next), mainidx := if o.Udata? then g.mainidx else g.mainidx + 1,
       sweepgc := if g.sweepgc <= k then g.sweepgc else g.sweepgc + 1)
  }

  /** The bare new object, not yet on any list. */
  ghost function Added(g: G, o: Obj): G {
    g.(objs := g.objs[g.next := o], marked := g.marked[g.next := FreshMark(g.cw)], next := g.next + 1)
  }

  lemma AddedBase(g: G, o: Obj)
    requires Base(g)
    ensures Base(Added(g, o)) && g.next !in g.objs && g.next !in g.marked
  {
  }

  lemma AddedSound(g: G, o: Obj)
    requires Base(g) && Sound(g) && ObjLive(o, Alive(g.marked, g.cw)) && UpLive(g.objs, o, Alive(g.marked, g.cw))
    requires o.IsOpen() ==> o.cell.thread in g.objs
    requires forall u :: u in g.objs && g.objs[u].IsOpen() ==> g.objs[u].cell.thread in g.objs
    ensures Sound(Added(g, o))
  {
    var g' := Added(g, o);
    var A, A' := Alive(g.marked, g.cw), Alive(g'.marked, g.cw);
    assert A' == A + {g.next} && g.next !in g.objs;
    forall x | x in g'.objs && x in A' ensures RefsIn(g'.objs, g'.objs[x], A')
    {
      if x == g.next { LiveMonotone(o, A, A'); }
        else { assert RefsIn(g.objs, g.objs[x], A); LiveMonotone(g.objs[x], A, A'); }
    }
    assert MtIn(g.mt, A');
  }

  lemma UpThreads(g: G)
    requires Lists(g)
    ensures forall u :: u in g.objs && g.objs[u].IsOpen() ==> g.objs[u].cell.thread in g.objs
  {
    forall u | u in g.objs && g.objs[u].IsOpen()
      ensures g.objs[u].cell.thread in g.objs { assert Owner(g.objs, g.rootgc, g.strt, g.tm, u); }
  }

  lemma AddedFin(g: G, o: Obj)
    requires Base(g) && Fin(g)
    requires forall r :: r in g.rootgc ==> r in g.objs
    requires forall r :: r in g.tm ==> r in g.objs
    ensures Fin(Added(g, o))
  {
    hide NewestFirst, BlackOk;
    var us := g.rootgc[g.mainidx + 1..];
    assert forall r :: r in us ==> r in g.rootgc;
    AddedOrder(g.marked, us, g.next, Added(g, o).marked);
  }

  lemma AddedOrder(m: Marks, us: seq<Ref>, next: Ref, m': Marks)
    requires NewestFirst(m, us) && next !in us && m'.Keys == m.Keys + {next} && forall r :: r in m && r != next ==>
      m'[r] == m[r]
    ensures NewestFirst(m', us)
  {
  }

  /** The userdata part of rootgc, with a new userdata at its head or as it was. */
  lemma LinkedOrder(g: G, o: Obj)
    requires g.mainidx < |g.rootgc|
    requires NewestFirst(g.marked, g.rootgc[g.mainidx + 1..]) && forall r :: r in g.rootgc ==> r < g.next
    ensures var g' := Linked(g, o); g'.mainidx < |g'.rootgc| && NewestFirst(g'.marked, g'.rootgc[g'.mainidx + 1..])
  {
    var us := g.rootgc[g.mainidx + 1..];
    var g' := Linked(g, o);
    forall i | 0 <= i < |us| ensures us[i] < g.next { assert us[i] == g.rootgc[g.mainidx + 1 + i] &&
      us[i] in g.rootgc; }
    NewestFirstNew(g.marked, g'.marked, us, g.next);
    if o.Udata? {
      assert g'.rootgc[g'.mainidx + 1..] == [g.next] + us;
    } else {
      assert g'.rootgc[g'.mainidx + 1..] == us;
    }
  }

  lemma NewestFirstNew(m: Marks, m': Marks, us: seq<Ref>, r: Ref)
    requires NewestFirst(m, us) && r in m' && m' == m[r := m'[r]] && forall i :: 0 <= i < |us| ==> us[i] < r
    ensures NewestFirst(m', us) && NewestFirst(m', [r] + us)
  {
    forall i | 0 <= i < |us| ensures Unfinalized(m', us[i]) <==> Unfinalized(m, us[i]) {}
  }

  lemma RootKnown(g: G)
    requires Base(g) && Lists(g)
    ensures forall r :: r in g.rootgc || r in g.tm ==> r in g.objs && r in g.marked && r < g.next
  {
  }

  lemma LinkedFin(g: G, o: Obj)
    requires Base(g) && Lists(g) && Fin(g)
    ensures Fin(Linked(g, o))
  {
    hide Base, Lists, NewestFirst;
    RootKnown(g);
    LinkedOrder(g, o);
    AddedBase(g, o);
  }

  lemma InsertAtMembers(s: seq<Ref>, k: nat, r: Ref)
    requires NoDup(s) && k <= |s| && r !in s
    ensures var t := InsertAt(s, k, r);
      && NoDup(t) && |t| == |s| + 1 && (forall x :: x in t <==> x in s || x == r)
      && t[k] == r && (forall i :: 0 <= i < k ==> t[i] == s[i]) && (forall i :: k < i < |t| ==> t[i] == s[i - 1])
  {
    InsertedMembers(s, k, r);
  }

  lemma LinkedRoot(objs: Heap, rootgc: seq<Ref>, mainidx: nat, mainthread: Ref, tm: seq<Ref>, r: Ref, o: Obj)
    requires RootOk(objs, rootgc, tm) && MainOk(objs, rootgc, mainidx, mainthread) && r !in objs && !o.Str? &&
      !o.IsOpen()
    ensures var k := if o.Udata? then mainidx + 1 else 0;
      && RootOk(objs[r := o], InsertAt(rootgc, k, r), tm)
      && MainOk(objs[r := o], InsertAt(rootgc, k, r), if o.Udata? then mainidx else mainidx + 1, mainthread)
      && (forall x :: x in InsertAt(rootgc, k, r) <==> x in rootgc || x == r)
  {
    hide InsertAt;
    var k := if o.Udata? then mainidx + 1 else 0;
    InsertAtMembers(rootgc, k, r);
    var s := InsertAt(rootgc, k, r);
    var n := if o.Udata? then mainidx else mainidx + 1;
    forall i | 0 <= i < |s| && s[i] in objs[r := o] ensures objs[r := o][s[i]].Udata? <==> i > n
    {
      LinkedKind(objs, rootgc, mainidx, s, r, o, i);
    }
    assert s[n] == mainthread;
    assert mainthread in objs[r := o] && objs[r := o][mainthread].Thread?;
    assert MainOk(objs[r := o], s, n, mainthread);
  }

  /** One element of the list with the new object in it. */
  lemma LinkedKind(objs: Heap, rootgc: seq<Ref>, mainidx: nat, s: seq<Ref>, r: Ref, o: Obj, i: nat)
    requires forall x :: x in rootgc ==> OnRoot(objs, x)
    requires forall i :: 0 <= i < |rootgc| && rootgc[i] in objs ==> (objs[rootgc[i]].Udata? <==> i > mainidx)
    requires r !in objs && mainidx < |rootgc| && |s| == |rootgc| + 1 && i < |s|
    requires var k := if o.Udata? then mainidx + 1 else 0;
      s[i] == if i < k then rootgc[i] else if i == k then r else rootgc[i - 1]
    ensures s[i] in objs[r := o] && (objs[r := o][s[i]].Udata? <==> i > if o.Udata? then mainidx else mainidx + 1)
  {
    var k := if o.Udata? then mainidx + 1 else 0;
    if i != k {
      var j := if i < k then i else i - 1;
      assert s[i] == rootgc[j] && rootgc[j] in rootgc;
    }
  }

  lemma LinkedMembers(g: G, o: Obj)
    requires Base(g) && Lists(g)
    ensures forall x :: x in Linked(g, o).rootgc <==> x in g.rootgc || x == g.next
  {
    hide InsertAt;
    InsertAtMembers(g.rootgc, if o.Udata? then g.mainidx + 1 else 0, g.next);
  }

  lemma LinkedLists(g: G, o: Obj)
    requires Base(g) && Lists(g) && !o.Str? && !o.IsOpen() && (o.Thread? ==> o.openupval == [])
    ensures Lists(Linked(g, o))
  {
    hide Base, ThreadsOk, RootOk, StringsOk, UvheadOk, MainOk, Owner, InsertAt;
    var objs', k := g.objs[g.next := o], if o.Udata? then g.mainidx + 1 else 0;
    AddedBase(g, o);
    MainThere(g);
    LinkedRoot(g.objs, g.rootgc, g.mainidx, g.mainthread, g.tm, g.next, o);
    AddedThreads(g.objs, g.next, o);
    AddedStrings(g.objs, g.strt, g.next, o);
    AddedUvhead(g.objs, g.uvhead, g.next, o);
    LinkedMembers(g, o);
    LinkedOwners(g.objs, g.rootgc, Linked(g, o).rootgc, g.strt, g.tm, g.next, o, objs');
  }

  lemma MainThere(g: G)
    requires Lists(g)
    ensures g.mainidx < |g.rootgc|
  {
  }

  lemma AddedThreads(objs: Heap, r: Ref, o: Obj)
    requires ThreadsOk(objs) && r !in objs && (o.Thread? ==> o.openupval == [])
    ensures ThreadsOk(objs[r := o])
  {
    var objs' := objs[r := o];
    forall t | t in objs' && objs'[t].Thread? ensures ThreadOk(objs', t) { if t != r { assert ThreadOk(objs, t); } }
  }

  lemma AddedStrings(objs: Heap, strt: seq<seq<Ref>>, r: Ref, o: Obj)
    requires StringsOk(objs, strt) && r !in objs
    ensures StringsOk(objs[r := o], strt)
  {
  }

  lemma AddedUvhead(objs: Heap, uvhead: seq<Ref>, r: Ref, o: Obj)
    requires UvheadOk(objs, uvhead) && r !in objs && !o.IsOpen()
    ensures UvheadOk(objs[r := o], uvhead)
  {
  }

  lemma LinkedOwners(objs: Heap, rootgc: seq<Ref>, rootgc': seq<Ref>, strt: seq<seq<Ref>>, tm: seq<Ref>, r: Ref,
    o: Obj, objs': Heap)
    requires r !in objs && !o.Str? && !o.IsOpen() && forall x :: x in objs ==> Owner(objs, rootgc, strt, tm, x)
    requires forall x :: x in rootgc' <==> x in rootgc || x == r
    requires objs' == objs[r := o]
    ensures forall x :: x in objs' ==> Owner(objs', rootgc', strt, tm, x)
  {
    forall x | x in objs' ensures Owner(objs', rootgc', strt, tm, x)
    {
      if x != r { assert Owner(objs, rootgc, strt, tm, x); }
    }
  }

  lemma LinkedCore(g: G, o: Obj)
    requires Core(g) && NewOk(g, o) && !o.Str? && g.mainidx < |g.rootgc|
    ensures Core(Linked(g, o)) && IsCurrent(Linked(g, o), g.next)
  {
    hide Lists, Sound, Fin, InsertAt;
    LinkedLists(g, o);
    LinkedFin(g, o);
    UpThreads(g);
    AddedBase(g, o);
    AddedSound(g, o);
    RootOnly(Added(g, o), Linked(g, o).rootgc, Linked(g, o).mainidx);
    SweepgcSound(Added(g, o).(rootgc := Linked(g, o).rootgc, mainidx := Linked(g, o).mainidx), Linked(g, o).sweepgc);
  }

  lemma SweepgcSound(g: G, n: nat)
    requires Base(g) && Sound(g)
    ensures Base(g.(sweepgc := n)) && Sound(g.(sweepgc := n))
  {
  }

  /** A new white object disturbs no marking. */
  lemma AddedMark(objs: Heap, marked: Marks, cw: bool, gray: seq<Ref>, again: seq<Ref>, weak: seq<Ref>, todo: set<Ref>,
    r: Ref, o: Obj)
    requires MarkInv(objs, marked, cw, gray, again, weak, todo) && r !in objs
    requires RefsIn(objs, o, objs.Keys) && (o.IsOpen() ==> o.cell.thread in objs)
    requires forall u :: u in objs && objs[u].IsOpen() ==> objs[u].cell.thread in objs
    ensures MarkInv(objs[r := o], marked[r := FreshMark(cw)], cw, gray, again, weak, todo)
    ensures NonWhite(marked[r := FreshMark(cw)]) == NonWhite(marked)
  {
    hide Shape, ListsOk, GrayListed, BlackOk, NoneDead, Tri, LiveClosed, NonWhite, RefsIn;
    FreshWhite(objs, marked, cw, r);
    AddedClosed(objs, r, o);
    AddedTri(objs, marked, cw, gray, again, weak, todo, r, o);
    AddedListed(objs, marked, cw, gray, again, weak, r, o);
  }

  lemma FreshWhite(objs: Heap, marked: Marks, cw: bool, r: Ref)
    requires Shape(objs, marked) && r !in objs
    ensures NonWhite(marked[r := FreshMark(cw)]) == NonWhite(marked)
  {
    assert NonWhite(marked[r := FreshMark(cw)]) == NonWhite(marked);
  }

  lemma AddedListed(objs: Heap, marked: Marks, cw: bool, gray: seq<Ref>, again: seq<Ref>, weak: seq<Ref>, r: Ref,
    o: Obj)
    requires Shape(objs, marked) && ListsOk(objs, marked, gray, again, weak) &&
      GrayListed(objs, marked, gray, again, weak)
    requires BlackOk(objs, marked) && NoneDead(marked, cw) && r !in objs
    ensures var objs', m' := objs[r := o], marked[r := FreshMark(cw)];
      && Shape(objs', m') && ListsOk(objs', m', gray, again, weak) && GrayListed(objs', m', gray, again, weak)
      && BlackOk(objs', m') && NoneDead(m', cw)
  {
  }

  lemma AddedClosed(objs: Heap, r: Ref, o: Obj)
    requires LiveClosed(objs, objs.Keys) && r !in objs && RefsIn(objs, o, objs.Keys) &&
      (o.IsOpen() ==> o.cell.thread in objs)
    requires forall u :: u in objs && objs[u].IsOpen() ==> objs[u].cell.thread in objs
    ensures LiveClosed(objs[r := o], objs[r := o].Keys)
  {
    var objs' := objs[r := o];
    forall x | x in objs' ensures RefsIn(objs', objs'[x], objs'.Keys)
    {
      if x == r { LiveMonotone(o, objs.Keys, objs'.Keys); } else {
        assert RefsIn(objs, objs[x], objs.Keys);
        LiveMonotone(objs[x], objs.Keys, objs'.Keys);
      }
    }
  }

  lemma AddedTri(objs: Heap, marked: Marks, cw: bool, gray: seq<Ref>, again: seq<Ref>, weak: seq<Ref>, todo: set<Ref>,
    r: Ref, o: Obj)
    requires MarkInv(objs, marked, cw, gray, again, weak, todo) && r !in objs
    requires forall u :: u in objs && objs[u].IsOpen() ==> objs[u].cell.thread in objs
    requires NonWhite(marked[r := FreshMark(cw)]) == NonWhite(marked)
    ensures Tri(objs[r := o], marked[r := FreshMark(cw)], gray, todo)
  {
    var objs', m' := objs[r := o], marked[r := FreshMark(cw)];
    forall x | x in objs' && x in m' && !m'[x].color.White? && x !in gray && x !in todo
      ensures Covered(objs', objs'[x], m'[x], NonWhite(m'))
    {
      assert x != r && Covered(objs, objs[x], marked[x], NonWhite(marked));
    }
  }

  lemma LinkedInv(g: G, o: Obj)
    requires Inv(g) && NewOk(g, o) && !o.Str? && g.mainidx < |g.rootgc|
    ensures Inv(Linked(g, o))
  {
    LinkedCore(g, o);
    LinkedPhase(g, o);
    hide Core, PhaseOk;
    CoreInv(Linked(g, o));
  }

  lemma LinkedPhase(g: G, o: Obj)
    requires Inv(g) && NewOk(g, o) && !o.Str? && g.mainidx < |g.rootgc|
    ensures PhaseOk(Linked(g, o))
  {
    match g.phase {
      case Pause => LinkedRest(g, o);
      case Finalize => LinkedRest(g, o);
      case Propagate => LinkedPropagate(g, o);
      case SweepString => LinkedStrings(g, o, g.sweepstr);
      case Sweep => LinkedStrings(g, o, |g.strt|); LinkedSwept(g, o);
    }
  }

  lemma LinkedRest(g: G, o: Obj)
    requires RestOk(g) && g.mainidx < |g.rootgc|
    ensures RestOk(Linked(g, o))
  {
  }

  lemma LinkedStrings(g: G, o: Obj, n: nat)
    requires Base(g) && Lists(g) && StringsSwept(g, n) && g.mainidx < |g.rootgc|
    ensures StringsSwept(Linked(g, o), n)
  {
    forall b, r | 0 <= b < n && r in g.strt[b] ensures IsCurrent(Linked(g, o), r) { assert IsCurrent(g, r) &&
      r in g.objs; }
  }

  lemma NewCurrent(g: G, o: Obj)
    requires g.mainidx < |g.rootgc| && (o.Thread? ==> o.openupval == [])
    ensures var g' := Linked(g, o);
      IsCurrent(g', g.next) && g.next in g'.objs && (g'.objs[g.next].Thread? ==> g'.objs[g.next].openupval == [])
  {
  }

  lemma LinkedSwept(g: G, o: Obj)
    requires Base(g) && Lists(g) && RootSwept(g, g.sweepgc) && g.mainidx < |g.rootgc| &&
      (o.Thread? ==> o.openupval == [])
    ensures RootSwept(Linked(g, o), Linked(g, o).sweepgc)
  {
    hide Lists, Base, InsertAt, IsCurrent;
    NewCurrent(g, o);
    RootKnown(g);
    UpsKnown(g);
    RootNoDup(g);
    AddedBase(g, o);
    var g' := Linked(g, o);
    var k := if o.Udata? then g.mainidx + 1 else 0;
    InsertAtMembers(g.rootgc, k, g.next);
    var s := InsertAt(g.rootgc, k, g.next);
    assert g'.rootgc == s;
    forall i | 0 <= i < g'.sweepgc
      ensures IsCurrent(g', g'.rootgc[i])
      ensures g'.rootgc[i] in g'.objs && g'.objs[g'.rootgc[i]].Thread? ==>
        forall u :: u in g'.objs[g'.rootgc[i]].openupval ==> IsCurrent(g', u)
    {
      if i < k { assert s[i] == g.rootgc[i]; SweptBefore(g, g', i); }
      else if i == k { assert s[i] == g.next; }
      else { assert s[i] == g.rootgc[i - 1]; SweptBefore(g, g', i - 1); }
    }
  }

  lemma RootNoDup(g: G)
    requires Lists(g)
    ensures NoDup(g.rootgc)
  {
  }

  lemma UpsKnown(g: G)
    requires Lists(g)
    ensures forall t, u :: t in g.objs && g.objs[t].Thread? && u in g.objs[t].openupval ==> u in g.objs
  {
    forall t, u | t in g.objs && g.objs[t].Thread? && u in g.objs[t].openupval
      ensures u in g.objs { assert ThreadOk(g.objs, t); }
  }

  lemma SweptBefore(g: G, g': G, j: nat)
    requires RootSwept(g, g.sweepgc) && j < g.sweepgc && g.next !in g.objs && g.next !in g.marked
    requires forall t, u :: t in g.objs && g.objs[t].Thread? && u in g.objs[t].openupval ==> u in g.objs
    requires forall r :: r in g.rootgc ==> r in g.objs
    requires g'.cw == g.cw && forall x :: x in g.marked ==> x in g'.marked && g'.marked[x] == g.marked[x]
    requires forall x :: x in g.objs ==> x in g'.objs && g'.objs[x] == g.objs[x]
    ensures var r := g.rootgc[j];
      IsCurrent(g', r) && (g'.objs[r].Thread? ==> forall u :: u in g'.objs[r].openupval ==> IsCurrent(g', u))
  {
    var r := g.rootgc[j];
    assert IsCurrent(g, r) && r in g.rootgc;
    if g.objs[r].Thread? {
      forall u | u in g.objs[r].openupval ensures IsCurrent(g', u) { assert IsCurrent(g, u); }
    }
  }

  lemma AllAlive(g: G)
    requires PropagateOk(g)
    ensures Alive(g.marked, g.cw) == g.objs.Keys
  {
  }

  lemma NewRefs(objs: Heap, o: Obj)
    requires ObjLive(o, objs.Keys) && !o.IsOpen()
    ensures RefsIn(objs, o, objs.Keys)
  {
  }

  lemma LinkedPropagate(g: G, o: Obj)
    requires Inv(g) && g.phase == Propagate && NewOk(g, o) && g.mainidx < |g.rootgc|
    ensures PropagateOk(Linked(g, o))
  {
    hide Lists, Base, Fin, Sound, InsertAt, MarkInv, RefsIn;
    UpThreads(g);
    AddedBase(g, o);
    AllAlive(g);
    NewRefs(g.objs, o);
    AddedMark(g.objs, g.marked, g.cw, g.gray, g.again, g.weak, Todo(g), g.next, o);
  }
}
