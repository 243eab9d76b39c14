/**
 The whole collector state as one value, and the invariant every collector step and every mutator
 action keeps. The class in Gc has these components as its fields.
 */
module GcState {
  import opened Common
  import opened GcHeap
  import opened GcInv
  import opened GcLists
  import opened GcWeak
  import opened GcReach

  datatype Phase = Pause | Propagate | SweepString | Sweep | Finalize

  datatype G = G(
    objs: Heap, marked: Marks, cw: bool, phase: Phase,
    gray: seq<Ref>, again: seq<Ref>, weak: seq<Ref>,
    rootgc: seq<Ref>, mainidx: nat, sweepgc: nat, strt: seq<seq<Ref>>, sweepstr: nat,
    tm: seq<Ref>, uvhead: seq<Ref>, running: Ref, mt: seq<Option<Ref>>, called: seq<Ref>, next: Ref,
    mainthread: Ref, registry: Ref)

  ghost predicate Base(g: G) {
    && Shape(g.objs, g.marked)
    && BlackOk(g.objs, g.marked)
    && (forall r :: r in g.objs ==> r < g.next)
    && (forall r :: r in g.marked && r in g.objs && g.marked[r].fixed ==> g.objs[r].Str? || r == g.mainthread)
    && g.mainthread in g.marked && g.marked[g.mainthread].fixed
  }

  ghost predicate Lists(g: G) {
    && Owned(g.objs, g.rootgc, g.strt, g.tm, g.uvhead)
    && MainOk(g.objs, g.rootgc, g.mainidx, g.mainthread)
    && |g.strt| > 0
  }

  ghost predicate RootsIn(g: G, S: set<Ref>) {
    && g.mainthread in S && g.registry in S && g.running in S
    && MtIn(g.mt, S)
    && (forall r :: r in g.tm ==> r in S)
  }

  /** No live object refers to a dead or freed one, and no root does. */
  ghost predicate Sound(g: G) {
    && LiveClosed(g.objs, Alive(g.marked, g.cw))
    && RootsIn(g, Alive(g.marked, g.cw))
    && g.running in g.objs && g.objs[g.running].Thread?
  }

  /** Finalizers: newest first, each at most once. */
  ghost predicate Fin(g: G) {
    && g.mainidx < |g.rootgc|
    && NewestFirst(g.marked, g.rootgc[g.mainidx + 1..])
    && (forall r :: r in g.tm ==> r in g.marked && g.marked[r].bit3)
    && NoDup(g.called)
    && (forall r :: r in g.called ==> r < g.next && r !in g.tm && (r in g.objs && r in g.marked ==>
      g.objs[r].Udata? && g.marked[r].bit3))
  }

  /** Every userdata that awaits its finalizer is marked, hence black: userdata are never gray. */
  ghost predicate TmBlack(g: G) { SetOf(g.tm) <= NonWhite(g.marked) }

  lemma DarkGrows(g: G, g': G)
    requires g'.tm == g.tm && NonWhite(g.marked) <= NonWhite(g'.marked)
    ensures TmBlack(g) ==> TmBlack(g')
  {
  }

  lemma DarkSet(g: G, tm: seq<Ref>, m: Marks)
    requires g.tm == tm && SetOf(tm) <= NonWhite(m) <= NonWhite(g.marked)
    ensures TmBlack(g)
  {
  }

  lemma DarkBut(g: G, g': G, r: Ref, h: Mark)
    requires g'.tm == g.tm && r in g.marked && g'.marked == g.marked[r := h] && r !in g.tm
    ensures TmBlack(g) ==> TmBlack(g')
  {
  }

  /** Between collections everything has the current white, but for userdata awaiting their finalizer. */
  ghost predicate RestOk(g: G) {
    forall r :: r in g.marked && r !in g.tm ==> g.marked[r].color == White(g.cw)
  }

  /** Then no table is black. */
  lemma RestTables(g: G)
    requires Lists(g) && RestOk(g)
    ensures BlackWeak(g.objs, g.marked) == {}
  {
    forall r | r in g.tm ensures r in g.objs && g.objs[r].Udata? {}
  }

  ghost predicate IsCurrent(g: G, r: Ref) { r in g.marked && g.marked[r].color == White(g.cw) }

  ghost predicate StringsSwept(g: G, n: nat) {
    n <= |g.strt| && forall b, r :: 0 <= b < n && r in g.strt[b] ==> IsCurrent(g, r)
  }

  ghost predicate RootSwept(g: G, n: nat) {
    && n <= |g.rootgc|
    && (forall i :: 0 <= i < n ==> IsCurrent(g, g.rootgc[i]))
    && (forall i, u :: 0 <= i < n && g.rootgc[i] in g.objs && g.objs[g.rootgc[i]].Thread? && u in g.objs[g.rootgc[i]].openupval ==> IsCurrent(g, u))
  }

  ghost predicate PropagateOk(g: G) {
    && MarkInv(g.objs, g.marked, g.cw, g.gray, g.again, g.weak, PropagateTodo(g.uvhead, g.again, g.weak, g.tm))
    && g.mainthread in NonWhite(g.marked) && g.registry in NonWhite(g.marked)
  }

  ghost predicate PhaseOk(g: G) {
    match g.phase
    case Pause => RestOk(g) && g.gray == [] && g.tm == []
    case Propagate => PropagateOk(g)
    case SweepString => StringsSwept(g, g.sweepstr) && g.sweepstr < |g.strt| && g.sweepgc == 0 && g.gray == []
    case Sweep => StringsSwept(g, |g.strt|) && RootSwept(g, g.sweepgc) && g.gray == []
    case Finalize => RestOk(g) && g.gray == []
  }

  ghost predicate Inv(g: G) {
    Base(g) && Lists(g) && Sound(g) && Fin(g) && PhaseOk(g)
  }

  // ---- heaps of the same frame: only the contents of tables differ ----

  ghost predicate SameFrame(objs: Heap, objs': Heap) {
    objs'.Keys == objs.Keys &&
    forall r :: r in objs ==> objs'[r] == objs[r] || (objs[r].Table? && objs'[r].Table?)
  }

  lemma KeptFrame(objs: Heap, objs': Heap)
    requires HeapKept(objs, objs')
    ensures SameFrame(objs, objs')
  {
    forall r | r in objs ensures objs'[r] == objs[r] || (objs[r].Table? &&
      objs'[r].Table?) { assert ObjKept(objs[r], objs'[r]); }
  }

  lemma ClearedFrame(objs: Heap, marked: Marks, weak: seq<Ref>)
    ensures SameFrame(objs, Cleared(objs, marked, weak))
  {
  }

  lemma FrameTrans(objs: Heap, objs1: Heap, objs2: Heap)
    requires SameFrame(objs, objs1) && SameFrame(objs1, objs2)
    ensures SameFrame(objs, objs2)
  {
  }

  lemma FrameLists(g: G, objs': Heap)
    requires Lists(g) && SameFrame(g.objs, objs')
    ensures Lists(g.(objs := objs'))
  {
    FrameThreads(g.objs, objs');
    FrameOwners(g.objs, g.rootgc, g.strt, g.tm, objs');
    hide ThreadsOk, Owner;
  }

  lemma FrameThreads(objs: Heap, objs': Heap)
    requires ThreadsOk(objs) && SameFrame(objs, objs')
    ensures ThreadsOk(objs')
  {
    forall t | t in objs' && objs'[t].Thread? ensures ThreadOk(objs', t) { assert ThreadOk(objs, t); }
  }

  lemma FrameOwners(objs: Heap, rootgc: seq<Ref>, strt: seq<seq<Ref>>, tm: seq<Ref>, objs': Heap)
    requires (forall x :: x in objs ==> Owner(objs, rootgc, strt, tm, x)) && SameFrame(objs, objs')
    ensures forall x :: x in objs' ==> Owner(objs', rootgc, strt, tm, x)
  {
    forall r | r in objs' ensures Owner(objs', rootgc, strt, tm, r) { assert Owner(objs, rootgc, strt, tm, r); }
  }

  /** Moving userdata from rootgc to tmudata keeps every object on exactly one list. */
  lemma SeparateRoot(objs: Heap, rootgc: seq<Ref>, tm: seq<Ref>, n: nat, marked: Marks, all: bool)
    requires RootOk(objs, rootgc, tm) && n <= |rootgc|
    requires forall i :: n <= i < |rootgc| ==> rootgc[i] in objs && objs[rootgc[i]].Udata?
    ensures var us := rootgc[n..];
      && RootOk(objs, rootgc[..n] + Stay(objs, marked, us, all), tm + Moved(objs, marked, us, all))
      && (forall r :: r in rootgc || r in tm ==>
          r in rootgc[..n] + Stay(objs, marked, us, all) || r in tm + Moved(objs, marked, us, all))
  {
    var us := rootgc[n..];
    var stay, moved := Stay(objs, marked, us, all), Moved(objs, marked, us, all);
    NoDupSplit(rootgc, n);
    SeparateConserves(objs, marked, us, all);
    NoDupConcat(rootgc[..n], stay);
    assert forall x :: x in us ==> x in rootgc && x !in tm;
    NoDupConcat(tm, moved);
  }

  lemma SeparateLists(g: G, marked: Marks, all: bool)
    requires Lists(g)
    ensures var us := g.rootgc[g.mainidx + 1..];
      Lists(g.(rootgc := g.rootgc[..g.mainidx + 1] + Stay(g.objs, marked, us, all),
        tm := g.tm + Moved(g.objs, marked, us, all)))
  {
    var us := g.rootgc[g.mainidx + 1..];
    var rootgc' := g.rootgc[..g.mainidx + 1] + Stay(g.objs, marked, us, all);
    var tm' := g.tm + Moved(g.objs, marked, us, all);
    SeparateRoot(g.objs, g.rootgc, g.tm, g.mainidx + 1, marked, all);
    SeparateMain(g.objs, g.rootgc, g.mainidx, g.mainthread, marked, all);
    OwnersMove(g, rootgc', tm');
  }

  lemma SeparateMain(objs: Heap, rootgc: seq<Ref>, mainidx: nat, mainthread: Ref, marked: Marks, all: bool)
    requires MainOk(objs, rootgc, mainidx, mainthread) && forall r :: r in rootgc ==> r in objs
    ensures MainOk(objs, rootgc[..mainidx + 1] + Stay(objs, marked, rootgc[mainidx + 1..], all), mainidx, mainthread)
  {
    var stay := Stay(objs, marked, rootgc[mainidx + 1..], all);
    forall i | 0 <= i < |stay| ensures stay[i] in objs && objs[stay[i]].Udata?
    {
      assert stay[i] in stay;
      var j :| 0 <= j < |rootgc[mainidx + 1..]| && rootgc[mainidx + 1..][j] == stay[i];
      assert rootgc[mainidx + 1 + j] == stay[i];
    }
  }

  lemma OwnersMove(g: G, rootgc': seq<Ref>, tm': seq<Ref>)
    requires Lists(g) && RootOk(g.objs, rootgc', tm')
    requires forall r :: r in g.rootgc || r in g.tm ==> r in rootgc' || r in tm'
    requires MainOk(g.objs, rootgc', g.mainidx, g.mainthread)
    ensures Lists(g.(rootgc := rootgc', tm := tm'))
  {
    forall r | r in g.objs ensures Owner(g.objs, rootgc', g.strt, tm',
      r) { assert Owner(g.objs, g.rootgc, g.strt, g.tm, r); }
  }

  // ---- the state after atomic ----

  lemma {:induction false} StayNewestFirst(objs: Heap, marked: Marks, us: seq<Ref>, all: bool, m: Marks)
    requires NewestFirst(m, us)
    ensures NewestFirst(m, Stay(objs, marked, us, all))
  {
    if us != [] {
      assert NewestFirst(m, us[1..]) by { assert forall i :: 0 <= i < |us[1..]| ==> us[1..][i] == us[i + 1]; }
      StayNewestFirst(objs, marked, us[1..], all, m);
      var rest := Stay(objs, marked, us[1..], all);
      forall k | 0 <= k < |rest| && Unfinalized(m, us[0]) && Unfinalized(m, rest[k]) ensures us[0] > rest[k]
      {
        assert rest[k] in rest;
        var j :| 0 <= j < |us[1..]| && us[1..][j] == rest[k];
        assert us[j + 1] == rest[k];
      }
    }
  }

  /** Bits of userdata after atomic: those luaC_separateudata set, and the older ones. */
  ghost predicate BitsAfter(g: G, m: Marks, mc: Marks)
    requires g.mainidx < |g.rootgc|
  {
    && m.Keys == g.marked.Keys && mc.Keys == m.Keys
    && (forall r :: r in m ==> m[r].fixed == g.marked[r].fixed)
    && (forall r :: r in m && r in g.objs && g.objs[r].Udata? ==>
          mc[r].bit3 == g.marked[r].bit3
          && m[r].bit3 == Finalized(mc, g.rootgc[g.mainidx + 1..], false)[r].bit3)
  }

  lemma AtomicBits(g: G, o1: Heap, m1: Marks, o2: Heap, m2: Marks, m3: Marks, K: set<Ref>)
    requires g.mainidx < |g.rootgc| && Shape(g.objs, g.marked) && SameFrame(g.objs, o1) && SameFrame(g.objs, o2)
    requires Progress(g.objs, g.marked, o1, m1, K)
    requires Progress(o1, Finalized(m1, g.rootgc[g.mainidx + 1..], false), o2, m2, K) && StrMarks(o2, m2, m3, K)
    ensures BitsAfter(g, m3, m1)
  {
    hide HeapKept, NonWhite, SameFrame, MarksKept, Finalized, StrMarks;
    var mf := Finalized(m1, g.rootgc[g.mainidx + 1..], false);
    FinalizedFixed(m1, g.rootgc[g.mainidx + 1..], false);
    HeaderKept(g.objs, g.marked, m1, o2, mf, m2, m3, o1, K);
  }

  lemma FinalizedFixed(m: Marks, us: seq<Ref>, all: bool)
    ensures forall r :: r in m ==> Finalized(m, us, all)[r].fixed == m[r].fixed
  {
  }

  lemma HeaderKept(objs: Heap, m: Marks, m1: Marks, o2: Heap, mf: Marks, m2: Marks, m3: Marks, o1: Heap, K: set<Ref>)
    requires SameFrame(objs, o1) && SameFrame(objs, o2) && mf.Keys == m1.Keys
    requires MarksKept(objs, m, m1) && MarksKept(o1, mf, m2) && StrMarks(o2, m2, m3, K)
    requires forall r :: r in m1 ==> mf[r].fixed == m1[r].fixed
    ensures m3.Keys == m.Keys == m1.Keys
    ensures forall r :: r in m3 ==> m3[r].fixed == m[r].fixed
    ensures forall r :: r in m3 && r in objs && objs[r].Udata? ==> m1[r].bit3 == m[r].bit3 && m3[r].bit3 == mf[r].bit3
  {
    forall r | r in m3 ensures m3[r].fixed == m[r].fixed &&
      (r in objs && objs[r].Udata? ==> m1[r].bit3 == m[r].bit3 && m3[r].bit3 == mf[r].bit3)
    {
      assert r in m1 && r in mf && r in m2;
    }
  }

  ghost function AfterAtomic(g: G, o1: Heap, m1: Marks, o3: Heap, m3: Marks, again': seq<Ref>, weak': seq<Ref>): G
    requires g.mainidx < |g.rootgc|
  {
    var us := g.rootgc[g.mainidx + 1..];
    g.(objs := o3, marked := m3, cw := !g.cw, phase := SweepString, gray := [], again := again', weak := weak',
       rootgc := g.rootgc[..g.mainidx + 1] + Stay(o1, m1, us, false), tm := g.tm + Moved(o1, m1, us, false),
       sweepgc := 0, sweepstr := 0)
  }

  lemma AtomicFin(g: G, o1: Heap, m1: Marks, o3: Heap, m3: Marks, again': seq<Ref>, weak': seq<Ref>)
    requires Base(g) && Lists(g) && Fin(g) && BitsAfter(g, m3, m1) && SameFrame(g.objs, o1) && SameFrame(g.objs, o3)
    ensures Fin(AfterAtomic(g, o1, m1, o3, m3, again', weak'))
  {
    hide Base, Lists, SameFrame, BitsAfter, NewestFirst, Stay, Moved;
    MainInside(g);
    var us := g.rootgc[g.mainidx + 1..];
    var stay, moved := Stay(o1, m1, us, false), Moved(o1, m1, us, false);
    assert (g.rootgc[..g.mainidx + 1] + stay)[g.mainidx + 1..] == stay;
    AtomicOrder(g, o1, m1, m3);
    AtomicMoved(g, o1, m1, m3);
    AtomicCalled(g, o1, m1, o3, m3);
  }

  lemma MainInside(g: G)
    requires Lists(g)
    ensures g.mainidx < |g.rootgc|
  {
  }

  lemma UdataAfterMain(g: G)
    requires Lists(g)
    ensures forall r :: r in g.rootgc[g.mainidx + 1..] ==> r in g.objs && g.objs[r].Udata? && r in g.rootgc
  {
  }

  lemma AtomicOrder(g: G, o1: Heap, m1: Marks, m3: Marks)
    requires Base(g) && Lists(g) && Fin(g) && BitsAfter(g, m3, m1)
    ensures NewestFirst(m3, Stay(o1, m1, g.rootgc[g.mainidx + 1..], false))
  {
    hide Base, Lists, Stay, NewestFirst, Finalized;
    FinUnfold(g);
    UdataAfterMain(g);
    BitsGrow(g, m1, m3);
    NewestFirstFewer(g.marked, m3, g.rootgc[g.mainidx + 1..]);
    StayNewestFirst(o1, m1, g.rootgc[g.mainidx + 1..], false, m3);
  }

  lemma FinUnfold(g: G)
    requires Fin(g)
    ensures g.mainidx < |g.rootgc| && NewestFirst(g.marked, g.rootgc[g.mainidx + 1..])
  {
  }

  lemma BitsGrow(g: G, m1: Marks, m3: Marks)
    requires g.mainidx < |g.rootgc| && BitsAfter(g, m3, m1)
    ensures forall r :: r in g.objs && g.objs[r].Udata? && Unfinalized(m3, r) ==> Unfinalized(g.marked, r)
  {
  }

  lemma NewestFirstFewer(m: Marks, m': Marks, us: seq<Ref>)
    requires NewestFirst(m, us) && forall r :: r in us && Unfinalized(m', r) ==> Unfinalized(m, r)
    ensures NewestFirst(m', us)
  {
  }

  lemma AtomicMoved(g: G, o1: Heap, m1: Marks, m3: Marks)
    requires Base(g) && Lists(g) && Fin(g) && BitsAfter(g, m3, m1)
    ensures forall r :: r in g.tm + Moved(o1, m1, g.rootgc[g.mainidx + 1..], false) ==> r in m3 && m3[r].bit3
  {
    var us := g.rootgc[g.mainidx + 1..];
    UdataAfterMain(g);
    forall r | r in g.tm ensures r in m3 && m3[r].bit3 { assert r in g.objs && g.objs[r].Udata?; }
  }

  lemma AtomicCalled(g: G, o1: Heap, m1: Marks, o3: Heap, m3: Marks)
    requires Base(g) && Lists(g) && Fin(g) && g.mainidx < |g.rootgc| && BitsAfter(g, m3, m1) && SameFrame(g.objs, o3)
    ensures forall r :: r in g.called ==>
      r !in Moved(o1, m1, g.rootgc[g.mainidx + 1..], false) && (r in o3 && r in m3 ==> o3[r].Udata? && m3[r].bit3)
  {
    hide Base, Lists, Fin, NewestFirst, SameFrame, BitsAfter, Moved;
    forall r | r in g.called ensures r !in Moved(o1, m1, g.rootgc[g.mainidx + 1..], false) &&
      (r in o3 && r in m3 ==> o3[r].Udata? && m3[r].bit3)
    {
      CalledOne(g, o1, m1, o3, m3, r);
    }
  }

  lemma CalledOne(g: G, o1: Heap, m1: Marks, o3: Heap, m3: Marks, r: Ref)
    requires Base(g) && Lists(g) && Fin(g) && g.mainidx < |g.rootgc| && BitsAfter(g, m3, m1) &&
      SameFrame(g.objs, o3) && r in g.called
    ensures r !in Moved(o1, m1, g.rootgc[g.mainidx + 1..], false) && (r in o3 && r in m3 ==> o3[r].Udata? && m3[r].bit3)
  {
    hide NewestFirst, Lists;
    UdataAfterMain(g);
  }

  lemma MainStays(g: G)
    requires Lists(g) && PropagateOk(g)
    ensures g.mainidx < |g.rootgc| && g.mainthread in NonWhite(g.marked) && g.registry in NonWhite(g.marked)
  {
  }

  lemma AtomicLive(g: G, o1: Heap, m1: Marks, m2: Marks, o3: Heap, m3: Marks, again': seq<Ref>, weak': seq<Ref>)
    requires Lists(g) && PropagateOk(g) && Sound(g) && SameFrame(g.objs, o3)
    requires NonWhite(g.marked) <= NonWhite(m1) <= NonWhite(m2) <= NonWhite(m3)
    requires g.running in NonWhite(m1) && MtIn(g.mt, NonWhite(m1))
    requires SetOf(g.tm + Moved(o1, m1, g.rootgc[g.mainidx + 1..], false)) <= NonWhite(m2)
    requires Alive(m3, !g.cw) == NonWhite(m3) && LiveClosed(o3, Alive(m3, !g.cw))
    ensures Sound(AfterAtomic(g, o1, m1, o3, m3, again', weak'))
  {
    hide Lists, PropagateOk, NonWhite, Alive, LiveClosed, Moved;
    MainStays(g);
    var S := NonWhite(m3);
    assert g.mainthread in S && g.registry in S && g.running in S by { assert NonWhite(g.marked) <= S; }
    forall i | 0 <= i < |g.mt| ensures OptOk(g.mt[i], S) { assert OptOk(g.mt[i], NonWhite(m1)); }
    var tm' := g.tm + Moved(o1, m1, g.rootgc[g.mainidx + 1..], false);
    forall r | r in tm' ensures r in S { assert r in SetOf(tm'); }
  }

  lemma AtomicLists(g: G, o1: Heap, m1: Marks, o3: Heap, m3: Marks, again': seq<Ref>, weak': seq<Ref>)
    requires Lists(g) && SameFrame(g.objs, o1) && SameFrame(g.objs, o3)
    ensures Lists(AfterAtomic(g, o1, m1, o3, m3, again', weak'))
  {
    hide Owned, SameFrame, Stay, Moved;
    FrameLists(g, o1);
    SeparateLists(g.(objs := o1), m1, false);
    var us := g.rootgc[g.mainidx + 1..];
    var g2 := g.(objs := o1, rootgc := g.rootgc[..g.mainidx + 1] + Stay(o1, m1, us, false),
      tm := g.tm + Moved(o1, m1, us, false));
    FrameBack(g.objs, o1, o3);
    FrameLists(g2, o3);
  }

  lemma FrameBack(objs: Heap, objs1: Heap, objs2: Heap)
    requires SameFrame(objs, objs1) && SameFrame(objs, objs2)
    ensures SameFrame(objs1, objs2)
  {
  }

  lemma AtomicBase(g: G, o1: Heap, m1: Marks, o2: Heap, m2: Marks, o3: Heap, m3: Marks, again': seq<Ref>,
    weak': seq<Ref>, K: set<Ref>)
    requires Base(g) && g.mainidx < |g.rootgc| && SameFrame(g.objs, o2) && SameFrame(g.objs, o3) && BitsAfter(g, m3, m1)
    requires BlackOk(o2, m2) && StrMarks(o2, m2, m3, K)
    ensures Base(AfterAtomic(g, o1, m1, o3, m3, again', weak'))
  {
    hide BlackOk, StrMarks;
    AtomicBlack(g.objs, o2, m2, o3, m3, K);
  }

  lemma AtomicBlack(objs: Heap, o2: Heap, m2: Marks, o3: Heap, m3: Marks, K: set<Ref>)
    requires SameFrame(objs, o2) && SameFrame(objs, o3) && BlackOk(o2, m2) && StrMarks(o2, m2, m3, K)
    ensures BlackOk(o3, m3)
  {
    forall r | r in o3 && r in m3 ensures (m3[r].color.Black? ==> !o3[r].Str? && !o3[r].Thread? && !o3[r].IsOpen()) &&
      (m3[r].color.Gray? ==> !o3[r].Udata?)
    {
      assert r in o2 && r in m2;
    }
  }

  /** Userdata left dead by atomic have had their finalizer, or need none. */
  lemma DeadFinalized(g: G, o1: Heap, m1: Marks, m2: Marks, m3: Marks)
    requires Base(g) && Lists(g) && BitsAfter(g, m3, m1) && SameFrame(g.objs, o1)
    requires NonWhite(m1) <= NonWhite(m2) <= NonWhite(m3)
    requires SetOf(g.tm + Moved(o1, m1, g.rootgc[g.mainidx + 1..], false)) <= NonWhite(m2)
    ensures forall r :: r in g.objs && r in m3 && g.objs[r].Udata? && m3[r].color.White? ==> m3[r].bit3
  {
    forall r | r in g.objs && r in m3 && g.objs[r].Udata? && m3[r].color.White? ensures m3[r].bit3
    {
      OneDeadFinalized(g, o1, m1, m2, m3, r);
    }
  }

  lemma OneDeadFinalized(g: G, o1: Heap, m1: Marks, m2: Marks, m3: Marks, r: Ref)
    requires Base(g) && Lists(g) && BitsAfter(g, m3, m1)
    requires NonWhite(m1) <= NonWhite(m2) <= NonWhite(m3)
    requires SetOf(g.tm + Moved(o1, m1, g.rootgc[g.mainidx + 1..], false)) <= NonWhite(m2)
    requires r in g.objs && r in m3 && g.objs[r].Udata? && m3[r].color.White?
    ensures m3[r].bit3
  {
    var us := g.rootgc[g.mainidx + 1..];
    assert r !in NonWhite(m3) && r !in NonWhite(m2) && r !in NonWhite(m1);
    assert r !in SetOf(g.tm + Moved(o1, m1, us, false));
    UdataOwner(g, r);
    assert Picked(m1, r, false) || m1[r].bit3;
  }

  lemma UdataOwner(g: G, r: Ref)
    requires Lists(g) && r in g.objs && g.objs[r].Udata? && r !in g.tm
    ensures r in g.rootgc[g.mainidx + 1..]
  {
    assert Owner(g.objs, g.rootgc, g.strt, g.tm, r);
    var i :| 0 <= i < |g.rootgc| && g.rootgc[i] == r;
    assert r == g.rootgc[g.mainidx + 1..][i - g.mainidx - 1];
  }

  /** What the steps of atomic established, from the state g before it. */
  ghost predicate AtomicRan(g: G, o1: Heap, m1: Marks, o2: Heap, m2: Marks, o3: Heap, m3: Marks, weak': seq<Ref>,
    K: set<Ref>)
    requires g.mainidx < |g.rootgc|
  {
    var us := g.rootgc[g.mainidx + 1..];
    && Progress(g.objs, g.marked, o1, m1, K)
    && g.running in NonWhite(m1) && MtIn(g.mt, NonWhite(m1))
    && Progress(o1, Finalized(m1, us, false), o2, m2, K)
    && NonWhite(m1) <= NonWhite(m2) <= NonWhite(m3)
    && SetOf(g.tm + Moved(o1, m1, us, false)) <= NonWhite(m2)
    && BlackOk(o2, m2) && StrMarks(o2, m2, m3, K)
    && o3 == Cleared(o2, m2, weak') && Alive(m3, !g.cw) == NonWhite(m3) && LiveClosed(o3, Alive(m3, !g.cw))
  }

  lemma AtomicRanIs(g: G, o1: Heap, m1: Marks, o2: Heap, m2: Marks, o3: Heap, m3: Marks, weak': seq<Ref>, K: set<Ref>)
    requires g.mainidx < |g.rootgc|
    requires Progress(g.objs, g.marked, o1, m1, K) && g.running in NonWhite(m1) && MtIn(g.mt, NonWhite(m1))
    requires Progress(o1, Finalized(m1, g.rootgc[g.mainidx + 1..], false), o2, m2, K)
    requires NonWhite(m1) <= NonWhite(m2) <= NonWhite(m3)
    requires SetOf(g.tm + Moved(o1, m1, g.rootgc[g.mainidx + 1..], false)) <= NonWhite(m2)
    requires BlackOk(o2, m2) && StrMarks(o2, m2, m3, K) && o3 == Cleared(o2, m2, weak')
    requires Alive(m3, !g.cw) == NonWhite(m3) && LiveClosed(o3, Alive(m3, !g.cw))
    ensures AtomicRan(g, o1, m1, o2, m2, o3, m3, weak', K)
  {
  }

  lemma AtomicInv(g: G, o1: Heap, m1: Marks, o2: Heap, m2: Marks, o3: Heap, m3: Marks, again': seq<Ref>,
    weak': seq<Ref>, K: set<Ref>)
    requires Inv(g) && g.phase == Propagate && g.mainidx < |g.rootgc|
    requires AtomicRan(g, o1, m1, o2, m2, o3, m3, weak', K)
    ensures Inv(AfterAtomic(g, o1, m1, o3, m3, again', weak'))
    ensures SameFrame(g.objs, o3)
    ensures forall r :: r in g.objs && r in m3 && g.objs[r].Udata? && m3[r].color.White? ==> m3[r].bit3
  {
    AtomicFrames(g, o1, m1, o2, m2, weak', K);
    AtomicBits(g, o1, m1, o2, m2, m3, K);
    AtomicFin(g, o1, m1, o3, m3, again', weak');
    AtomicLive(g, o1, m1, m2, o3, m3, again', weak');
    AtomicLists(g, o1, m1, o3, m3, again', weak');
    AtomicBase(g, o1, m1, o2, m2, o3, m3, again', weak', K);
    DeadFinalized(g, o1, m1, m2, m3);
    AtomicPhase(AfterAtomic(g, o1, m1, o3, m3, again', weak'));
  }

  lemma AtomicFrames(g: G, o1: Heap, m1: Marks, o2: Heap, m2: Marks, weak': seq<Ref>, K: set<Ref>)
    requires g.mainidx < |g.rootgc| && Progress(g.objs, g.marked, o1, m1, K)
    requires Progress(o1, Finalized(m1, g.rootgc[g.mainidx + 1..], false), o2, m2, K)
    ensures SameFrame(g.objs, o1) && SameFrame(g.objs, o2) && SameFrame(g.objs, Cleared(o2, m2, weak'))
    ensures NonWhite(g.marked) <= NonWhite(m1)
  {
    KeptFrame(g.objs, o1);
    KeptFrame(o1, o2);
    FrameTrans(g.objs, o1, o2);
    ClearedFrame(o2, m2, weak');
    FrameTrans(g.objs, o2, Cleared(o2, m2, weak'));
  }

  lemma AtomicPhase(g: G)
    requires Lists(g) && g.phase == SweepString && g.sweepstr == 0 && g.sweepgc == 0 && g.gray == []
    ensures PhaseOk(g)
  {
  }

  /**
   K bounds what a collection may keep: it holds the roots and everything marked or awaiting a
   finalizer, and is closed under strong references.
   */
  ghost predicate MarkBound(g: G, K: set<Ref>) {
    && StrongClosed(g.objs, K) && NonWhite(g.marked) <= K
    && RootsIn(g, K)
    && PendingIn(g.objs, g.marked, g.rootgc, K)
  }

  // ---- what the marking finds ----

  function MtRefs(mt: seq<Option<Ref>>): set<Ref> { set k | 0 <= k < |mt| && mt[k].Some? :: mt[k].value }

  /** Where a program starts from. */
  ghost function Roots(g: G): set<Ref> { {g.mainthread, g.registry, g.running} + MtRefs(g.mt) }

  /** Where the rest of the marking starts from: the roots, and what is marked. */
  ghost function MarkBase(g: G): set<Ref> { Roots(g) + NonWhite(g.marked) }

  ghost function Finalizable(g: G): set<Ref> {
    set r | r in g.rootgc && r in g.objs && r in g.marked && g.objs[r].Udata? && HasGc(g.objs, g.objs[r].mt) &&
      !g.marked[r].bit3
  }

  ghost function BoundBase(g: G): set<Ref> { MarkBase(g) + SetOf(g.tm) + Finalizable(g) }

  lemma MtRefsIn(mt: seq<Option<Ref>>, S: set<Ref>)
    ensures MtIn(mt, S) <==> MtRefs(mt) <= S
  {
    if MtRefs(mt) <= S {
      forall k | 0 <= k < |mt| ensures OptOk(mt[k], S) { assert mt[k].Some? ==> mt[k].value in MtRefs(mt); }
    }
  }

  lemma MarkBoundIs(g: G, K: set<Ref>)
    ensures MarkBound(g, K) <==> Bounds(g.objs, BoundBase(g), {}, K)
  {
    hide StrongIn;
    MtRefsIn(g.mt, K);
    assert SetOf(g.tm) <= K <==> forall r :: r in g.tm ==> r in K by {
      if SetOf(g.tm) <= K { forall r | r in g.tm ensures r in K { assert r in SetOf(g.tm); } }
    }
  }

  /** The queued userdata that are marked already: marking does not enter them before marktmu. */
  ghost function Darks(g: G): set<Ref> { SetOf(g.tm) * NonWhite(g.marked) }

  /** Before the atomic step: the least set the rest of the marking can be kept to. */
  lemma ReachBound(g: G, K: set<Ref>)
    requires Inv(g) && g.phase == Propagate && MarkBound(g, K)
    ensures var C := Closure(g.objs, MarkBase(g), Darks(g));
      && StrongBut(g.objs, C, Darks(g)) && NonWhite(g.marked) <= C && g.running in C && MtIn(g.mt, C) && C <= K
  {
    hide Inv, MarkBound, StrongIn, LiveClosed, NonWhite, Closure, Darks;
    var C := Closure(g.objs, MarkBase(g), Darks(g));
    RootsKnown(g);
    ClosureLeast(g.objs, MarkBase(g), Darks(g));
    MtRefsIn(g.mt, C);
    assert Bounds(g.objs, MarkBase(g), Darks(g), K) by { MarkBoundIs(g, K); }
  }

  lemma RootsKnown(g: G)
    requires Inv(g) && g.phase == Propagate
    ensures LiveClosed(g.objs, g.objs.Keys) && MarkBase(g) <= g.objs.Keys
  {
    hide Lists, Fin, RefsIn;
    assert Alive(g.marked, g.cw) <= g.objs.Keys;
    MtRefsIn(g.mt, Alive(g.marked, g.cw));
  }

  /**
   What is marked when the userdata are separated: of the objects that are no strings, exactly those that
   are reached from the roots, or from what was marked, by references that do not leave a queued userdata
   that was marked already.
   */
  ghost predicate MarkedAre(g: G, m1: Marks) {
    forall r :: r in g.objs && !g.objs[r].Str? ==> (r in NonWhite(m1) <==> Reached(g.objs, MarkBase(g), Darks(g), r))
  }

  function Strings(objs: Heap): set<Ref> { set r | r in objs && objs[r].Str? }

  /** The marked objects, with all strings, bound what is reached from among them. */
  lemma MarkedBounds(objs: Heap, base: set<Ref>, skip: set<Ref>, o1: Heap, m1: Marks, cw: bool, again: seq<Ref>,
    weak: seq<Ref>)
    requires MarkInv(o1, m1, cw, [], again, weak, skip) && WeakFit(o1, m1, weak) && HeapKept(objs, o1)
    requires forall r :: r in again ==> r in o1 && o1[r].Thread?
    requires base <= NonWhite(m1)
    ensures Bounds(objs, base, skip, NonWhite(m1) + Strings(objs))
  {
    hide MarkInv, WeakFit, HeapKept, StrongIn, NonWhite;
    var S := NonWhite(m1) + Strings(objs);
    KeptDomain(objs, o1);
    forall r | r in objs && r in S && r !in skip ensures StrongIn(objs, objs[r], S)
    {
      KeptStrong(objs, o1, r, S);
      MarkedStrong(objs, o1, m1, cw, again, weak, skip, r);
    }
  }

  lemma MarkedReached(g: G, o1: Heap, m1: Marks, cw: bool, again: seq<Ref>, weak: seq<Ref>)
    requires MarkInv(o1, m1, cw, [], again, weak, Darks(g)) && WeakFit(o1, m1, weak) && HeapKept(g.objs, o1)
    requires forall r :: r in again ==> r in o1 && o1[r].Thread?
    requires MarkBase(g) <= NonWhite(m1) <= Closure(g.objs, MarkBase(g), Darks(g))
    ensures MarkedAre(g, m1)
  {
    hide MarkInv, WeakFit, HeapKept, Bounds, NonWhite, Darks;
    MarkedBounds(g.objs, MarkBase(g), Darks(g), o1, m1, cw, again, weak);
    var S := NonWhite(m1) + Strings(g.objs);
    forall r | r in g.objs && !g.objs[r].Str? && Reached(g.objs, MarkBase(g), Darks(g), r) ensures r in NonWhite(m1)
    {
      assert r in S;
    }
  }

  /** What a collection has to keep: what the roots, the marked objects and the userdata with a finalizer reach. */
  ghost function Needed(g: G): set<Ref> { Closure(g.objs, BoundBase(g), {}) }

  /** After marktmu: whatever is needed is marked, but for strings, which cleartable may still mark. */
  ghost predicate KeepsNeeded(g: G, m: Marks) {
    forall r :: r in Needed(g) && r in g.objs && !g.objs[r].Str? ==> r in NonWhite(m)
  }

  lemma NeededMarked(g: G, o1: Heap, m1: Marks, o2: Heap, m2: Marks, again: seq<Ref>, weak: seq<Ref>)
    requires Base(g) && Lists(g) && g.mainidx < |g.rootgc| && MarkBase(g) <= NonWhite(m1) <= NonWhite(m2)
    requires HeapKept(g.objs, o1) && MarksKept(g.objs, g.marked, m1) && HeapKept(o1, o2)
    requires SetOf(g.tm + Moved(o1, m1, g.rootgc[g.mainidx + 1..], false)) <= NonWhite(m2)
    requires MarkInv(o2, m2, g.cw, [], again, weak, {}) && WeakFit(o2, m2, weak)
    requires forall r :: r in again ==> r in o2 && o2[r].Thread?
    ensures KeepsNeeded(g, m2)
  {
    hide Base, Lists, MarkInv, WeakFit, HeapKept, Bounds, NonWhite, MarkBase, Finalizable, MarksKept, Moved;
    HeapKeptTrans(g.objs, o1, o2);
    FinalizableMarked(g, o1, m1, m2);
    var tm' := g.tm + Moved(o1, m1, g.rootgc[g.mainidx + 1..], false);
    forall r | r in g.tm ensures r in NonWhite(m2) { assert r in SetOf(tm'); }
    MarkedBounds(g.objs, BoundBase(g), {}, o2, m2, g.cw, again, weak);
    var S := NonWhite(m2) + Strings(g.objs);
    forall r | r in Needed(g) && r in g.objs && !g.objs[r].Str? ensures r in NonWhite(m2)
    {
      assert r in S;
    }
  }

  lemma AtomicNeeded(g: G, o1: Heap, m1: Marks, o2: Heap, m2: Marks, again: seq<Ref>, weak: seq<Ref>, K: set<Ref>)
    requires Inv(g) && g.mainidx < |g.rootgc| && MarkBase(g) <= NonWhite(m1) <= NonWhite(m2)
    requires Progress(g.objs, g.marked, o1, m1, K)
    requires Progress(o1, Finalized(m1, g.rootgc[g.mainidx + 1..], false), o2, m2, K)
    requires SetOf(g.tm + Moved(o1, m1, g.rootgc[g.mainidx + 1..], false)) <= NonWhite(m2)
    requires MarkInv(o2, m2, g.cw, [], again, weak, {}) && WeakFit(o2, m2, weak)
    requires forall r :: r in again ==> r in o2 && o2[r].Thread?
    ensures KeepsNeeded(g, m2)
  {
    hide Base, Lists, Sound, Fin, PhaseOk, MarkInv, WeakFit, HeapKept, MarksKept, NonWhite, MarkBase, Moved,
      KeepsNeeded;
    NeededMarked(g, o1, m1, o2, m2, again, weak);
  }

  lemma FinalizableMarked(g: G, o1: Heap, m1: Marks, m2: Marks)
    requires Base(g) && Lists(g) && g.mainidx < |g.rootgc| && NonWhite(m1) <= NonWhite(m2)
    requires HeapKept(g.objs, o1) && MarksKept(g.objs, g.marked, m1)
    requires SetOf(g.tm + Moved(o1, m1, g.rootgc[g.mainidx + 1..], false)) <= NonWhite(m2)
    ensures Finalizable(g) <= NonWhite(m2)
  {
    hide Base, Lists, HeapKept, MarksKept, HasGc;
    var us := g.rootgc[g.mainidx + 1..];
    forall r | r in Finalizable(g) ensures r in NonWhite(m2)
    {
      UserAt(g, us, r);
      GcKept(g.objs, o1, r);
      BitKept(g.objs, g.marked, m1, r);
      SameKeysKept(g.objs, o1);
      if m1[r].color.White? {
        assert Moves(o1, m1, r, false);
        assert r in SetOf(g.tm + Moved(o1, m1, us, false));
      } else {
        assert r in NonWhite(m1);
      }
    }
  }

  lemma BitKept(objs: Heap, m: Marks, m1: Marks, r: Ref)
    requires MarksKept(objs, m, m1) && r in m && r in objs && objs[r].Udata?
    ensures r in m1 && m1[r].bit3 == m[r].bit3
  {
  }

  lemma MarkedStrong(objs: Heap, o1: Heap, m1: Marks, cw: bool, again: seq<Ref>, weak: seq<Ref>, todo: set<Ref>, r: Ref)
    requires MarkInv(o1, m1, cw, [], again, weak, todo) && WeakFit(o1, m1, weak) && HeapKept(objs, o1)
    requires forall r :: r in again ==> r in o1 && o1[r].Thread?
    requires r in o1 && r in NonWhite(m1) + Strings(objs) && r !in todo
    ensures StrongIn(o1, o1[r], NonWhite(m1) + Strings(objs))
  {
    hide HeapKept;
    var S := NonWhite(m1) + Strings(objs);
    StringsKept(objs, o1);
    if r in NonWhite(m1) {
      assert Covered(o1, o1[r], m1[r], NonWhite(m1));
      CoveredMonotone(o1, o1[r], m1[r], NonWhite(m1), S);
      if o1[r].Table? { CoveredStrong(o1, o1[r], m1[r], S) by { assert m1[r].color.Gray? ==> Fits(o1, m1, r); } }
    }
  }

  lemma StringsKept(objs: Heap, o1: Heap)
    requires HeapKept(objs, o1)
    ensures Strings(o1) == Strings(objs)
  {
    forall r | r in objs ensures o1[r].Str? == objs[r].Str? { assert ObjKept(objs[r], o1[r]); }
  }

  lemma CoveredStrong(objs: Heap, o: Obj, m: Mark, S: set<Ref>)
    requires o.Table? && Covered(objs, o, m, S) && Strings(objs) <= S
    requires m.color.Gray? ==> (m.bit3 ==> ModeOf(objs, o.mt).k) && (m.bit4 ==> ModeOf(objs, o.mt).v)
    ensures StrongIn(objs, o, S)
  {
    assert forall v :: StrOk(objs, v, S);
  }

  /** After the marking of the atomic step, kept to the closure: what K then bounds. */
  lemma AtomicMarked(g: G, o1: Heap, m1: Marks, again: seq<Ref>, weak: seq<Ref>, K: set<Ref>)
    requires Inv(g) && MarkBound(g, K)
    requires MarkInv(o1, m1, g.cw, [], again, weak, Darks(g)) && WeakFit(o1, m1, weak)
    requires forall r :: r in again ==> r in o1 && o1[r].Thread?
    requires var C := Closure(g.objs, MarkBase(g), Darks(g)); Progress(g.objs, g.marked, o1, m1, C) && NonWhite(m1) <= C <= K
    requires g.mainthread in NonWhite(g.marked) && g.registry in NonWhite(g.marked)
    requires g.running in NonWhite(m1) && MtIn(g.mt, NonWhite(m1))
    ensures MarkedAre(g, m1) && Progress(g.objs, g.marked, o1, m1, K) && StrongBut(o1, K, {}) && NonWhite(m1) <= K
    ensures MarkBase(g) <= NonWhite(m1) && MarkInv(o1, m1, g.cw, [], again, weak, SetOf(g.tm))
  {
    hide Inv, MarkInv, WeakFit, NonWhite, Closure, MarkedAre, HeapKept, MarksKept, StrongIn, RootsIn, PendingIn;
    MtRefsIn(g.mt, NonWhite(m1));
    MarkedReached(g, o1, m1, g.cw, again, weak);
    KeptStrongClosed(g.objs, o1, K);
    Widen(o1, m1, g.cw, [], again, weak, Darks(g), SetOf(g.tm));
  }

  lemma AtomicStart(g: G, K: set<Ref>)
    requires Inv(g) && g.phase == Propagate && MarkBound(g, K)
    ensures MarkInv(g.objs, g.marked, g.cw, g.gray, g.again, g.weak, PropagateTodo(g.uvhead, g.again, g.weak, g.tm))
    ensures UvheadOk(g.objs, g.uvhead) && StrongBut(g.objs, K, {}) && CutOk(g.objs, g.marked, Darks(g)) &&
      NonWhite(g.marked) <= K
    ensures g.running in g.objs && g.running in K && MtIn(g.mt, g.objs.Keys) && MtIn(g.mt, K)
    ensures g.mainthread in NonWhite(g.marked) && g.registry in NonWhite(g.marked)
  {
    assert Alive(g.marked, g.cw) <= g.objs.Keys;
    forall i | 0 <= i < |g.mt| ensures OptOk(g.mt[i], g.objs.Keys) &&
      OptOk(g.mt[i], K) { assert OptOk(g.mt[i], Alive(g.marked, g.cw)); }
  }

  lemma AtomicBound(g: G, o1: Heap, m1: Marks, K: set<Ref>)
    requires Inv(g) && MarkBound(g, K) && Progress(g.objs, g.marked, o1, m1, K)
    ensures RootOk(o1, g.rootgc, g.tm) && UdataFrom(o1, g.rootgc, g.mainidx) && SetOf(g.tm) <= K &&
      PendingIn(o1, m1, g.rootgc, K)
  {
    KeptFrame(g.objs, o1);
    FrameLists(g, o1);
    PendingKept(g.objs, g.marked, o1, m1, g.rootgc, K);
  }

  lemma PendingKept(objs: Heap, m: Marks, o1: Heap, m1: Marks, rootgc: seq<Ref>, K: set<Ref>)
    requires PendingIn(objs, m, rootgc, K) && Progress(objs, m, o1, m1, K) && SameFrame(objs, o1)
    ensures PendingIn(o1, m1, rootgc, K)
  {
    KeptGc(objs, o1);
    forall r | r in rootgc && r in o1 && r in m1 && o1[r].Udata? && HasGc(o1, o1[r].mt) && !m1[r].bit3 ensures r in K
    {
      assert objs[r] == o1[r] && m1[r].bit3 == m[r].bit3;
    }
  }

  lemma KeptGc(objs: Heap, objs': Heap)
    requires HeapKept(objs, objs')
    ensures forall mt :: HasGc(objs', mt) == HasGc(objs, mt)
  {
    forall mt: Option<Ref> ensures HasGc(objs', mt) == HasGc(objs, mt)
    {
      if mt.Some? && mt.value in objs { assert ObjKept(objs[mt.value], objs'[mt.value]); }
    }
  }

  /** Which tables the atomic step clears. */
  lemma AtomicWeaks(g: G, o1: Heap, m1: Marks, o2: Heap, m2: Marks, again: seq<Ref>, weak: seq<Ref>, K: set<Ref>)
    requires g.mainidx < |g.rootgc| && Progress(g.objs, g.marked, o1, m1, K)
    requires Progress(o1, Finalized(m1, g.rootgc[g.mainidx + 1..], false), o2, m2, K)
    requires MarkInv(o2, m2, g.cw, [], again, weak, {}) && WeakFit(o2, m2, weak)
    requires forall r :: r in again ==> r in o2 && o2[r].Thread?
    requires BlackWeak(o2, m2) <= BlackWeak(g.objs, g.marked)
    ensures HeapKept(g.objs, o2) && g.objs.Keys == m2.Keys &&
      WeakList(g.objs, BlackWeak(g.objs, g.marked), NonWhite(m2), weak)
  {
    hide HeapKept, MarksKept, WeakFit, WeakList, BlackWeak, NonWhite, Finalized, Tri, ListsOk, GrayListed, LiveClosed;
    HeapKeptTrans(g.objs, o1, o2);
    KeptDomain(g.objs, o2);
    WeakListed(g.objs, BlackWeak(g.objs, g.marked), g.cw, o2, m2, again, weak);
  }

  lemma BlackKnown(objs: Heap, marked: Marks, cw: bool, gray: seq<Ref>, again: seq<Ref>, weak: seq<Ref>, todo: set<Ref>)
    requires MarkInv(objs, marked, cw, gray, again, weak, todo)
    ensures BlackOk(objs, marked)
  {
  }

  lemma AtomicKept(g: G, o1: Heap, m1: Marks, o2: Heap, m2: Marks, o3: Heap, m3: Marks, weak': seq<Ref>, K: set<Ref>)
    requires g.mainidx < |g.rootgc| && AtomicRan(g, o1, m1, o2, m2, o3, m3, weak', K)
    requires SameFrame(g.objs, o3)
    requires forall r :: r in g.objs && r in m3 && g.objs[r].Udata? && m3[r].color.White? ==> m3[r].bit3
    ensures HeapKept(g.objs, o2) && o3 == Cleared(o2, m2, weak')
    ensures forall r :: r in o3 && r in m3 && o3[r].Udata? && IsDead(m3[r], !g.cw) ==> m3[r].bit3
  {
    HeapKeptTrans(g.objs, o1, o2);
  }

  lemma AtomicAll(g: G, o1: Heap, m1: Marks, o2: Heap, m2: Marks, o3: Heap, m3: Marks, again': seq<Ref>,
    weak': seq<Ref>, K: set<Ref>)
    requires Inv(g) && g.phase == Propagate && g.mainidx < |g.rootgc|
    requires AtomicRan(g, o1, m1, o2, m2, o3, m3, weak', K)
    ensures var us := g.rootgc[g.mainidx + 1..];
      Inv(G(o3, m3, !g.cw, SweepString, [], again', weak',
            g.rootgc[..g.mainidx + 1] + Stay(o1, m1, us, false), g.mainidx, 0, g.strt, 0,
              g.tm + Moved(o1, m1, us, false),
            g.uvhead, g.running, g.mt, g.called, g.next, g.mainthread, g.registry))
    ensures HeapKept(g.objs, o2) && o3 == Cleared(o2, m2, weak') && SameFrame(g.objs, o3)
    ensures forall r :: r in o3 && r in m3 && o3[r].Udata? && IsDead(m3[r], !g.cw) ==> m3[r].bit3
  {
    hide Inv, AtomicRan, HeapKept, SameFrame, Stay, Moved, Cleared;
    AtomicInv(g, o1, m1, o2, m2, o3, m3, again', weak', K);
    AtomicKept(g, o1, m1, o2, m2, o3, m3, weak', K);
  }

  /** Userdata keep their metatables' verdict while marking goes on. */
  lemma GcKept(objs: Heap, objs': Heap, r: Ref)
    requires HeapKept(objs, objs') && r in objs && objs[r].Udata?
    ensures objs'[r] == objs[r] && HasGc(objs', objs'[r].mt) == HasGc(objs, objs[r].mt)
  {
    assert ObjKept(objs[r], objs'[r]);
    if objs[r].mt.Some? && objs[r].mt.value in objs { assert ObjKept(objs[objs[r].mt.value], objs'[objs[r].mt.value]); }
  }

  /**
   What the atomic step queues: of the userdata with a finalizer that had not been finalized, exactly those not
   reached from the roots or the marked objects, newest first; nothing is lost from, or duplicated in, rootgc and
   tmudata. References of userdata queued and marked before do not count: marking has not entered these.
   */
  ghost predicate Queued(g: G, m3: Marks, rootgc': seq<Ref>, tm': seq<Ref>) {
    && |g.tm| <= |tm'| && tm'[..|g.tm|] == g.tm && Descending(tm'[|g.tm|..])
    && multiset(rootgc') + multiset(tm') == multiset(g.rootgc) + multiset(g.tm)
    && forall r :: r in g.rootgc ==> QueuedAt(g, m3, tm', r)
  }

  ghost predicate QueuedAt(g: G, m3: Marks, tm': seq<Ref>, r: Ref) {
    r in g.objs && r in g.marked && r in m3 && g.objs[r].Udata? && !g.marked[r].bit3 && g.objs[r].mt.Some? &&
      g.objs[r].mt.value in g.objs && g.objs[g.objs[r].mt.value].Table? && g.objs[g.objs[r].mt.value].gc ==>
      && (r in tm' <==> !Reached(g.objs, MarkBase(g), Darks(g), r))
      && (m3[r].bit3 <==> r in tm')
  }

  lemma AtomicQueued(g: G, o1: Heap, m1: Marks, o2: Heap, m2: Marks, o3: Heap, m3: Marks, weak': seq<Ref>, K: set<Ref>)
    requires Inv(g) && g.mainidx < |g.rootgc| && AtomicRan(g, o1, m1, o2, m2, o3, m3, weak', K) && MarkedAre(g, m1)
    ensures var us := g.rootgc[g.mainidx + 1..];
      Queued(g, m3, g.rootgc[..g.mainidx + 1] + Stay(o1, m1, us, false), g.tm + Moved(o1, m1, us, false))
  {
    hide Base, Lists, Sound, PhaseOk, Progress, HeapKept, NewestFirst, Stay, Moved, StrMarks, BitsAfter, LiveClosed,
      Alive, NonWhite, BlackOk, MtIn, Descending, Fin, Shape, SameFrame, MarksKept, Finalized, QueuedAt, MarkedAre;
    var us := g.rootgc[g.mainidx + 1..];
    var stay, moved := Stay(o1, m1, us, false), Moved(o1, m1, us, false);
    var tm' := g.tm + moved;
    BaseShape(g);
    AtomicFrames(g, o1, m1, o2, m2, weak', K);
    AtomicBits(g, o1, m1, o2, m2, m3, K);
    ProgressMarks(g.objs, g.marked, o1, m1, K);
    ProgressHeap(g.objs, g.marked, o1, m1, K);
    FinUnfold(g);
    FewerLeft(g, o1, m1, us);
    NewestFirstFewer(g.marked, m1, us);
    MovedNewestFirst(o1, m1, us, false);
    assert tm'[|g.tm|..] == moved;
    SeparateConserves(o1, m1, us, false);
    SplitBag(g.rootgc, g.mainidx + 1, g.tm, stay, moved);
    forall r | r in g.rootgc ensures QueuedAt(g, m3, tm', r) { QueuedOne(g, o1, m1, m3, us, r); }
  }

  /** With no finalizer pending from an earlier cycle, all references count. */
  lemma QueuedExactly(g: G, m3: Marks, rootgc': seq<Ref>, tm': seq<Ref>, r: Ref)
    requires Queued(g, m3, rootgc', tm') && g.tm == [] && r in g.rootgc && r in g.objs && r in g.marked && r in m3
    requires g.objs[r].Udata? && HasGc(g.objs, g.objs[r].mt) && !g.marked[r].bit3
    ensures r in tm' <==> !Reached(g.objs, MarkBase(g), {}, r)
  {
    hide Reached;
    assert Darks(g) == {};
    assert QueuedAt(g, m3, tm', r);
  }

  lemma BaseShape(g: G)
    requires Base(g)
    ensures Shape(g.objs, g.marked)
  {
  }

  lemma ProgressHeap(objs: Heap, m: Marks, objs': Heap, m': Marks, K: set<Ref>)
    requires Progress(objs, m, objs', m', K)
    ensures HeapKept(objs, objs')
  {
  }

  lemma SplitBag(s: seq<Ref>, n: nat, tm: seq<Ref>, stay: seq<Ref>, moved: seq<Ref>)
    requires n <= |s| && multiset(stay) + multiset(moved) == multiset(s[n..])
    ensures multiset(s[..n] + stay) + multiset(tm + moved) == multiset(s) + multiset(tm)
  {
    assert s == s[..n] + s[n..];
  }

  lemma FewerLeft(g: G, o1: Heap, m1: Marks, us: seq<Ref>)
    requires Base(g) && Lists(g) && g.mainidx < |g.rootgc| && us == g.rootgc[g.mainidx + 1..] &&
      MarksKept(g.objs, g.marked, m1)
    ensures forall r :: r in us && Unfinalized(m1, r) ==> Unfinalized(g.marked, r)
  {
    forall r | r in us && Unfinalized(m1, r) ensures Unfinalized(g.marked, r) { UserAt(g, us, r); }
  }

  lemma UserAt(g: G, us: seq<Ref>, r: Ref)
    requires Base(g) && Lists(g) && g.mainidx < |g.rootgc| && us == g.rootgc[g.mainidx + 1..] && r in g.rootgc
    ensures r in g.objs && r in g.marked && (g.objs[r].Udata? <==> r in us) && r !in g.tm
  {
    var i :| 0 <= i < |g.rootgc| && g.rootgc[i] == r;
    if i > g.mainidx { assert us[i - g.mainidx - 1] == r; }
  }

  lemma QueuedOne(g: G, o1: Heap, m1: Marks, m3: Marks, us: seq<Ref>, r: Ref)
    requires Base(g) && Lists(g) && g.mainidx < |g.rootgc| && us == g.rootgc[g.mainidx + 1..] && r in g.rootgc
    requires MarksKept(g.objs, g.marked, m1) && HeapKept(g.objs, o1) && BitsAfter(g, m3, m1) && MarkedAre(g, m1)
    ensures QueuedAt(g, m3, g.tm + Moved(o1, m1, us, false), r)
  {
    hide Base, Lists, HasGc, HeapKept, MarksKept, BitsAfter, Reached, MarkBase, MarkedAre, NonWhite, Darks;
    UserAt(g, us, r);
    if g.objs[r].Udata? {
      GcIs(g.objs, g.objs[r].mt);
      GcKept(g.objs, o1, r);
      assert r in o1 by { SameKeysKept(g.objs, o1); }
      UserBits(g, m1, m3, us, r);
      MarkedAt(g, m1, r);
    }
  }

  lemma GcIs(objs: Heap, mt: Option<Ref>)
    ensures HasGc(objs, mt) <==> mt.Some? && mt.value in objs && objs[mt.value].Table? && objs[mt.value].gc
  {
  }

  lemma UserBits(g: G, m1: Marks, m3: Marks, us: seq<Ref>, r: Ref)
    requires g.mainidx < |g.rootgc| && us == g.rootgc[g.mainidx + 1..] && r in us && r in g.objs && g.objs[r].Udata? &&
      r in g.marked && MarksKept(g.objs, g.marked, m1) && BitsAfter(g, m3, m1)
    ensures r in m1 && r in m3 && m1[r].bit3 == g.marked[r].bit3 && m3[r].bit3 == (m1[r].bit3 || Picked(m1, r, false))
  {
  }

  lemma MarkedAt(g: G, m1: Marks, r: Ref)
    requires MarkedAre(g, m1) && r in g.objs && g.objs[r].Udata? && r in m1
    ensures Reached(g.objs, MarkBase(g), Darks(g), r) <==> !m1[r].color.White?
  {
    hide Reached, MarkBase, Darks;
  }

  lemma SameKeysKept(objs: Heap, objs': Heap)
    requires HeapKept(objs, objs')
    ensures objs'.Keys == objs.Keys
  {
  }

  // ---- marking steps ----

  /** A marking step, or the start of a collection, keeps the invariant. */
  lemma MarkingInv(g: G, objs': Heap, m': Marks, gray': seq<Ref>, again': seq<Ref>, weak': seq<Ref>, K: set<Ref>)
    requires Inv(g) && !g.phase.SweepString? && !g.phase.Sweep?
    requires Progress(g.objs, g.marked, objs', m', K)
    requires MarkInv(objs', m', g.cw, gray', again', weak', PropagateTodo(g.uvhead, again', weak', g.tm))
    requires g.mainthread in NonWhite(m') && g.registry in NonWhite(m')
    ensures Inv(g.(objs := objs', marked := m', gray := gray', again := again', weak := weak', phase := Propagate))
  {
    var g' := g.(objs := objs', marked := m', gray := gray', again := again', weak := weak', phase := Propagate);
    KeptFrame(g.objs, objs');
    FrameLists(g, objs');
    assert Lists(g');
    MarkingLive(g, objs', m', gray', again', weak', K);
    MarkingFin(g, objs', m', gray', again', weak', K);
    MarkingBase(g, objs', m', gray', again', weak', K);
  }

  lemma MarkingLive(g: G, objs': Heap, m': Marks, gray': seq<Ref>, again': seq<Ref>, weak': seq<Ref>, K: set<Ref>)
    requires Base(g) && Sound(g) && SameFrame(g.objs, objs')
    requires MarkInv(objs', m', g.cw, gray', again', weak', PropagateTodo(g.uvhead, again', weak', g.tm))
    ensures Sound(g.(objs := objs', marked := m', gray := gray', again := again', weak := weak', phase := Propagate))
  {
    assert Alive(m', g.cw) == objs'.Keys;
    assert Alive(g.marked, g.cw) <= g.objs.Keys;
    forall i | 0 <= i < |g.mt| ensures OptOk(g.mt[i], objs'.Keys) { assert OptOk(g.mt[i], Alive(g.marked, g.cw)); }
  }

  lemma MarkingFin(g: G, objs': Heap, m': Marks, gray': seq<Ref>, again': seq<Ref>, weak': seq<Ref>, K: set<Ref>)
    requires Base(g) && Lists(g) && Fin(g) && SameFrame(g.objs, objs') && Progress(g.objs, g.marked, objs', m', K)
    ensures Fin(g.(objs := objs', marked := m', gray := gray', again := again', weak := weak', phase := Propagate))
  {
    hide HeapKept, NonWhite, NewestFirst, Lists, Base, SameFrame;
    UdataAfterMain(g);
    ListedKnown(g);
    ProgressMarks(g.objs, g.marked, objs', m', K);
    NewestFirstFewer(g.marked, m', g.rootgc[g.mainidx + 1..]);
    SameFrameUdata(g.objs, objs');
  }

  lemma ListedKnown(g: G)
    requires Base(g) && Lists(g)
    ensures g.marked.Keys == g.objs.Keys && forall r ::
      r in g.rootgc || r in g.tm ==> r in g.objs && r in g.marked && r < g.next
    ensures forall r :: r in g.tm ==> g.objs[r].Udata?
  {
  }

  lemma ProgressMarks(objs: Heap, m: Marks, objs': Heap, m': Marks, K: set<Ref>)
    requires Progress(objs, m, objs', m', K)
    ensures MarksKept(objs, m, m')
  {
  }

  lemma SameFrameUdata(objs: Heap, objs': Heap)
    requires SameFrame(objs, objs')
    ensures objs'.Keys == objs.Keys && forall r :: r in objs ==> (objs'[r].Udata? <==> objs[r].Udata?)
  {
  }

  lemma MarkingBase(g: G, objs': Heap, m': Marks, gray': seq<Ref>, again': seq<Ref>, weak': seq<Ref>, K: set<Ref>)
    requires Base(g) && SameFrame(g.objs, objs') && Progress(g.objs, g.marked, objs', m', K)
    requires MarkInv(objs', m', g.cw, gray', again', weak', PropagateTodo(g.uvhead, again', weak', g.tm))
    ensures Base(g.(objs := objs', marked := m', gray := gray', again := again', weak := weak', phase := Propagate))
  {
  }

  /** With all lists empty and everything white but tmudata, a collection may start. */
  lemma RestStart(g: G)
    requires Inv(g) && (g.phase.Pause? || g.phase.Finalize?)
    ensures MarkInv(g.objs, g.marked, g.cw, [], [], [], PropagateTodo(g.uvhead, [], [], g.tm))
    ensures g.mainthread in g.objs && g.registry in g.objs && g.running in g.objs && MtIn(g.mt, g.objs.Keys)
    ensures g.objs[g.mainthread].Thread? && Ok(g.objs[g.mainthread].gt, g.objs.Keys)
  {
    hide Lists, Fin, RefsIn, Alive;
    var todo := PropagateTodo(g.uvhead, [], [], g.tm);
    RestAlive(g);
    RestMain(g);
    RestTm(g);
    forall r | r in g.objs && !g.marked[r].color.White? ensures r in todo &&
      g.marked[r].color.Black? { assert r in g.tm; }
  }

  lemma RestAlive(g: G)
    requires Base(g) && Sound(g) && RestOk(g)
    ensures NoneDead(g.marked, g.cw) && Alive(g.marked, g.cw) == g.objs.Keys
  {
    forall r | r in g.marked ensures !IsDead(g.marked[r], g.cw)
    {
      if r in g.tm { assert r in Alive(g.marked, g.cw); }
    }
  }

  lemma RestMain(g: G)
    requires Lists(g) && LiveClosed(g.objs, g.objs.Keys)
    ensures g.mainthread in g.objs && g.objs[g.mainthread].Thread? && Ok(g.objs[g.mainthread].gt, g.objs.Keys)
  {
    assert RefsIn(g.objs, g.objs[g.mainthread], g.objs.Keys);
  }

  lemma RestTm(g: G)
    requires Lists(g)
    ensures forall r :: r in g.tm ==> r in g.objs && g.objs[r].Udata?
  {
  }

  lemma AllStrong(objs: Heap)
    requires LiveClosed(objs, objs.Keys)
    ensures StrongClosed(objs, objs.Keys) && StrongBut(objs, objs.Keys, {})
  {
    forall r | r in objs ensures StrongIn(objs, objs[r], objs.Keys)
    {
      assert RefsIn(objs, objs[r], objs.Keys);
      if objs[r].Table? {
        forall i | 0 <= i < |objs[r].node| && !objs[r].node[i].val.Nil?
          ensures NodeCovered(objs[r].node[i], false, false, objs.Keys)
        { assert NodeLive(objs[r].node[i], objs.Keys); }
      }
    }
  }

  lemma RootsBound(g: G, K: set<Ref>)
    requires Inv(g) && MarkBound(g, K)
    ensures g.mainthread in K && g.registry in K && g.running in K && MtIn(g.mt, K) && StrongBut(g.objs, K, {}) &&
      NonWhite(g.marked) <= K
    ensures g.mainthread in g.objs && g.objs[g.mainthread].Thread? && Ok(g.objs[g.mainthread].gt, K)
  {
    assert StrongIn(g.objs, g.objs[g.mainthread], K);
  }

  lemma RootMarked(g: G, m': Marks, gray': seq<Ref>, K: set<Ref>)
    requires Grows(g.marked, m', K) && MarkBound(g, K)
    ensures Progress(g.objs, g.marked, g.objs, m', K)
    ensures MarkBound(g.(marked := m', gray := gray', again := [], weak := [], phase := Propagate), K)
  {
    ProgressGrows(g.objs, g.marked, m', K);
    forall r | r in g.rootgc && r in g.objs && r in m' && g.objs[r].Udata? && HasGc(g.objs, g.objs[r].mt) &&
      !m'[r].bit3 ensures r in K
    {
      assert g.marked[r].bit3 == m'[r].bit3;
    }
  }

  ghost function Started(g: G, m': Marks, gray': seq<Ref>): G {
    g.(marked := m', gray := gray', again := [], weak := [], phase := Propagate)
  }

  lemma StartedInv(g: G, m': Marks, gray': seq<Ref>, K: set<Ref>)
    requires Inv(g) && (g.phase.Pause? || g.phase.Finalize?) && MarkBound(g, K) && Grows(g.marked, m', K)
    requires MarkInv(g.objs, m', g.cw, gray', [], [], PropagateTodo(g.uvhead, [], [], g.tm))
    requires g.mainthread in NonWhite(m') && g.registry in NonWhite(m')
    ensures Inv(Started(g, m', gray')) && MarkBound(Started(g, m', gray'), K)
  {
    hide Inv, MarkBound, Grows, MarkInv, PropagateTodo, NonWhite, Progress;
    RootMarked(g, m', gray', K);
    MarkingInv(g, g.objs, m', gray', [], [], K);
    assert g.(objs := g.objs, marked := m', gray := gray', again := [], weak := [], phase := Propagate) == Started(g,
      m', gray');
  }

  lemma PropagateTodoGrows(g: G, objs': Heap, m': Marks, gray': seq<Ref>, again': seq<Ref>, weak': seq<Ref>,
    K: set<Ref>)
    requires Inv(g) && g.phase == Propagate && MarkBound(g, K)
    requires Progress(g.objs, g.marked, objs', m', K) && StrongBut(objs', K, {})
    requires MarkInv(objs', m', g.cw, gray', again', weak', PropagateTodo(g.uvhead, g.again, g.weak, g.tm))
    requires SetOf(g.again) <= SetOf(again') && SetOf(g.weak) <= SetOf(weak')
    ensures MarkInv(objs', m', g.cw, gray', again', weak', PropagateTodo(g.uvhead, again', weak', g.tm))
    ensures g.mainthread in NonWhite(m') && g.registry in NonWhite(m') && HeapKept(g.objs, objs')
    ensures MarkBound(g.(objs := objs', marked := m', gray := gray', again := again', weak := weak'), K)
    ensures NonWhite(g.marked) <= NonWhite(m')
  {
    Widen(objs', m', g.cw, gray', again', weak', PropagateTodo(g.uvhead, g.again, g.weak, g.tm),
      PropagateTodo(g.uvhead, again', weak', g.tm));
    KeptFrame(g.objs, objs');
    PendingKept(g.objs, g.marked, objs', m', g.rootgc, K);
  }
}
