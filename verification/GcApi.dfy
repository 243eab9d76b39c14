/**
 Three places where the collector and its surroundings do not quite fit: lua_setupvalue, the assertion on the
 phase in the barriers, and full collections that begin between two finalizers.
 */
module GcApi {
  import opened Common
  import opened GcHeap
  import opened GcInv
  import opened GcLists
  import opened GcReach
  import opened GcState
  import opened GcSweep
  import opened GcMutator
  import opened GcAlloc
  import opened GcOps
  import opened GcRun
  import opened Gc

  // ---- lua_setupvalue ----

  ghost predicate IsWhite(g: G, v: Value) { v.Gc? && v.ref in g.marked && g.marked[v.ref].color.White? }

  ghost predicate IsBlack(g: G, r: Ref) { r in g.marked && g.marked[r].color.Black? }

  /** The call: a closure the program holds, a closed upvalue of it, and the new value. */
  ghost predicate ApiCall(g: G, c: Ref, i: nat, v: Value) {
    && c in g.objs && c in Alive(g.marked, g.cw) && g.objs[c].LClosure? && i < |g.objs[c].upvals|
    && g.objs[c].upvals[i] in g.objs && g.objs[g.objs[c].upvals[i]].UpVal? && g.objs[g.objs[c].upvals[i]].cell.Closed?
    && Ok(v, Alive(g.marked, g.cw))
  }

  /**
   The condition under which the barrier of lua_setupvalue is enough. It looks at the colour of the
   closure, though the store is into the upvalue, which other closures may share.
   */
  ghost predicate ApiSafe(g: G, c: Ref, i: nat, v: Value)
    requires ApiCall(g, c, i, v)
  {
    g.phase == Propagate ==> IsBlack(g, c) || !IsBlack(g, g.objs[c].upvals[i]) || !IsWhite(g, v)
  }

  /** lua_setupvalue keeps the invariant exactly when that condition holds before the call. */
  method SetUpvalueApi(L: GlobalState, c: Ref, i: nat, v: Value)
    requires L.Valid() && ApiCall(L.Snap(), c, i, v)
    modifies L
    ensures ApiCall(old(L.Snap()), c, i, v) && (L.Valid() <==> ApiSafe(old(L.Snap()), c, i, v))
    ensures var u := old(L.objs)[c].upvals[i]; L.objs == old(L.objs)[u := UpVal(Closed(v))]
  {
    hide Inv, Alive, MarkInv, StrongBut, Grows, NonWhite, Whites;
    ghost var g := L.Snap();
    var u := L.objs[c].upvals[i];
    ApiFacts(g, c, i, v);
    if v.Gc? && L.marked[v.ref].color.White? && L.marked[c].color.Black? {
      ApiBarrier(L, c, u, v);
    } else {
      if ApiSafe(g, c, i, v) { ApiQuiet(g, c, i, v); } else { ApiUnsafe(g, u, v); }
      L.objs := L.objs[u := UpVal(Closed(v))];
    }
  }

  /** The store, when the barrier on the closure has work to do. */
  method ApiBarrier(L: GlobalState, c: Ref, u: Ref, v: Value)
    requires L.Valid() && c in L.marked && L.marked[c].color.Black? && u in L.objs && u in L.marked &&
      L.objs[u].UpVal? && L.objs[u].cell.Closed?
    requires u in L.Live() && v.Gc? && v.ref in L.Live() && v.ref in L.marked && L.marked[v.ref].color.White? &&
      !IsDead(L.marked[u], L.currentwhite)
    requires c in L.objs && c != u && !L.objs[c].Str?
    modifies L
    ensures L.Valid() && L.objs == old(L.objs)[u := UpVal(Closed(v))]
  {
    hide Inv, Alive, Adds, MarkInv, StrongBut, Grows, NonWhite, Whites;
    ghost var g := L.Snap();
    var o' := UpVal(Closed(v));
    UpvalAdds(L.objs[u], v);
    if L.gcstate != Propagate {
      ApiKept(g, c, u, v);
      L.objs := L.objs[u := o'];
      L.marked := L.marked[c := L.marked[c].(color := White(L.currentwhite))];
    } else if L.marked[u].color.Black? {
      L.BarrierForward(u, o', Nil, v);
    } else {
      QuietEdit(g, u, o', Nil, v);
      L.objs := L.objs[u := o'];
      ghost var g1 := L.Snap();
      ApiMarking(g1, v);
      L.ReallyMarkObject(v.ref, Todo(g1), L.objs.Keys);
      ApiMarked(g1, L.marked, L.gray, L.objs.Keys);
    }
  }

  lemma ApiFacts(g: G, c: Ref, i: nat, v: Value)
    requires Inv(g) && ApiCall(g, c, i, v)
    ensures var u := g.objs[c].upvals[i];
      && c in g.marked && u in g.marked && u in Alive(g.marked, g.cw) && !IsDead(g.marked[u], g.cw) &&
        !IsDead(g.marked[c], g.cw) && c != u
    ensures v.Gc? ==> v.ref in g.objs && v.ref in g.marked && v.ref in Alive(g.marked, g.cw)
  {
    hide Inv;
    UpvalOf(g, c, i);
    AliveKnown(g, g.objs[c].upvals[i]);
    AliveKnown(g, c);
    if v.Gc? { AliveKnown(g, v.ref); }
  }

  lemma UpvalAdds(o: Obj, v: Value)
    requires o.UpVal? && o.cell.Closed?
    ensures Adds(o, UpVal(Closed(v)), Nil, v) && forall objs: Heap :: LevelsIn(objs, UpVal(Closed(v)))
  {
  }

  lemma ApiQuiet(g: G, c: Ref, i: nat, v: Value)
    requires Inv(g) && ApiCall(g, c, i, v) && ApiSafe(g, c, i, v) && !(IsBlack(g, c) && IsWhite(g, v))
    ensures Inv(Stored(g, g.objs[c].upvals[i], UpVal(Closed(v))))
  {
    hide Inv, Alive, Adds;
    var u := g.objs[c].upvals[i];
    ApiFacts(g, c, i, v);
    UpvalAdds(g.objs[u], v);
    if g.phase == Propagate {
      QuietEdit(g, u, UpVal(Closed(v)), Nil, v);
    } else {
      AddsMay(g, u, UpVal(Closed(v)), Nil, v);
      StorePhase(g, u, UpVal(Closed(v)));
    }
  }

  /** A black upvalue with a white value: the marking will not look at it again. */
  lemma ApiUnsafe(g: G, u: Ref, v: Value)
    requires Inv(g) && g.phase == Propagate && u in g.objs && g.objs[u].UpVal? && g.objs[u].cell.Closed? &&
      IsBlack(g, u) && IsWhite(g, v)
    ensures !Inv(Stored(g, u, UpVal(Closed(v))))
  {
    hide Inv;
    var g' := Stored(g, u, UpVal(Closed(v)));
    if Inv(g') {
      ApiCovered(g', u, v);
      assert false;
    }
  }

  lemma ApiCovered(g: G, u: Ref, v: Value)
    requires Inv(g) && g.phase == Propagate && u in g.objs && g.objs[u] == UpVal(Closed(v)) && IsBlack(g, u)
    ensures v.Gc? ==> v.ref in NonWhite(g.marked)
  {
    hide Inv, NonWhite;
    BlackCovered(g, u) by { UpNotPending(g, u); }
    assert Ok(v, NonWhite(g.marked));
  }

  lemma UpNotPending(g: G, u: Ref)
    requires Inv(g) && u in g.objs && g.objs[u].UpVal?
    ensures u !in g.tm
  {
  }

  lemma ApiKept(g: G, c: Ref, u: Ref, v: Value)
    requires Inv(g) && g.phase != Propagate && c in g.marked && g.marked[c].color.Black? && u in g.objs &&
      u in g.marked && !IsDead(g.marked[u], g.cw)
    requires g.objs[u].UpVal? && g.objs[u].cell.Closed? && Ok(v, Alive(g.marked, g.cw)) && c in g.objs && c != u
    ensures Inv(Kept(Stored(g, u, UpVal(Closed(v))), c))
  {
    hide Inv, Alive, Adds;
    UpvalAdds(g.objs[u], v);
    AddsMay(g, u, UpVal(Closed(v)), Nil, v);
    StorePhase(g, u, UpVal(Closed(v)));
    KeepInv(Stored(g, u, UpVal(Closed(v))), c);
  }

  lemma ApiMarking(g: G, v: Value)
    requires Inv(g) && g.phase == Propagate && v.Gc? && v.ref in g.marked
    ensures MarkInv(g.objs, g.marked, g.cw, g.gray, g.again, g.weak, Todo(g)) && StrongBut(g.objs, g.objs.Keys, {}) &&
      v.ref in g.objs
  {
    hide Base, Lists, Sound, Fin, StrongBut;
    KeysClosed(g.objs, g.marked, g.cw, g.gray, g.again, g.weak, Todo(g));
    AllStrong(g.objs);
  }

  lemma ApiMarked(g: G, m': Marks, gray': seq<Ref>, K: set<Ref>)
    requires Inv(g) && g.phase == Propagate && Grows(g.marked, m', K) &&
      MarkInv(g.objs, m', g.cw, gray', g.again, g.weak, Todo(g))
    ensures Inv(g.(marked := m', gray := gray'))
  {
    hide Base, Lists, Sound, Fin, MarkInv, Grows;
    ForwardDone(g, g, m', gray', K);
  }

  /**
   A call that goes wrong. The closures 5 and 6 share the closed upvalue 4 (3 is their function). Marking
   has gone through the registry 1, the table of globals 2, and what that holds: closure 6, hence 3 and 4.
   The main thread 0 is still gray, so closure 5 and the table 7 on its stack are white.
   */
  ghost function Sharing(n: nat): G {
    var t := Table(None, Mode(false, false), false, [], []);
    var w, b := FreshMark(false), Mark(Black, false, false, false);
    G(map[0 := Thread(Gc(2), [Gc(5), Gc(7)], []), 1 := t, 2 := t.(node := [Node(Live(Plain(0)), Gc(6))]),
      3 := Proto(None, [], [], []), 4 := UpVal(Closed(Nil)), 5 := LClosure(2, 3, [4]), 6 := LClosure(2, 3, [4]),
        7 := t],
      map[0 := Mark(Gray, false, false, true), 1 := b, 2 := b, 3 := b, 4 := b, 5 := w, 6 := b, 7 := w],
      false, Propagate, [0], [], [], [7, 6, 5, 4, 3, 1, 2, 0], 7, 0, seq(n, i => []), 0, [], [], 0, seq(9, i => None),
        [], 8, 0, 1)
  }

  /** The white closure shares the upvalue with a black one that the program reaches through its globals. */
  lemma ApiFails(n: nat)
    requires n > 0
    ensures Inv(Sharing(n)) && ApiCall(Sharing(n), 5, 0, Gc(7)) && !ApiSafe(Sharing(n), 5, 0, Gc(7))
    ensures var g := Sharing(n);
      && g.objs[5].LClosure? && g.objs[6].LClosure? && g.objs[5].upvals == g.objs[6].upvals == [4] && IsBlack(g, 6)
      && IsRoot(g, Gc(0)) && Walk(g.objs, Gc(0), [Env, ValOf(0)]) == Gc(6)
  {
    hide Lists, Sound, Base, Fin, PropagateOk;
    SharingLists(n);
    SharingSound(n);
    SharingBase(n);
    SharingMarks(n);
    SharingWalk(n);
  }

  lemma SharingWalk(n: nat)
    ensures Walk(Sharing(n).objs, Gc(0), [Env, ValOf(0)]) == Gc(6)
  {
    var h, path := Sharing(n).objs, [Env, ValOf(0)];
    assert path[1..] == [ValOf(0)] && path[1..][1..] == [];
    assert Walk(h, Gc(6), path[1..][1..]) == Gc(6);
    assert Walk(h, Gc(2), path[1..]) == Gc(6);
  }

  lemma SharingBase(n: nat)
    ensures Base(Sharing(n)) && Fin(Sharing(n))
  {
    assert Sharing(n).rootgc[8..] == [];
  }

  lemma SharingLists(n: nat)
    requires n > 0
    ensures Lists(Sharing(n))
  {
    hide RootOk, MainOk, ThreadsOk, StringsOk, UvheadOk, Owner;
    var g := Sharing(n);
    SharingRoot(n);
    SharingRest(n);
    forall r | r in g.objs ensures Owner(g.objs, g.rootgc, g.strt, g.tm, r) { SharingOwner(n, r); }
  }

  lemma SharingOwner(n: nat, r: Ref)
    requires r in Sharing(n).objs
    ensures var g := Sharing(n); Owner(g.objs, g.rootgc, g.strt, g.tm, r)
  {
    assert r in Sharing(n).rootgc;
  }

  lemma SharingRest(n: nat)
    ensures var g := Sharing(n); ThreadsOk(g.objs) && StringsOk(g.objs, g.strt) && UvheadOk(g.objs, g.uvhead)
  {
  }

  lemma SharingRoot(n: nat)
    ensures var g := Sharing(n); RootOk(g.objs, g.rootgc, g.tm) && MainOk(g.objs, g.rootgc, g.mainidx, g.mainthread)
  {
    hide RootOk, MainOk;
    SharingOnRoot(n);
    SharingMain(n);
  }

  lemma SharingOnRoot(n: nat)
    ensures var g := Sharing(n); RootOk(g.objs, g.rootgc, g.tm)
  {
    hide OnRoot;
    SharingDistinct();
    forall r | r in Sharing(n).rootgc ensures OnRoot(Sharing(n).objs, r) { SharingKinds(n, r); }
  }

  lemma SharingKinds(n: nat, r: Ref)
    requires r in Sharing(n).rootgc
    ensures OnRoot(Sharing(n).objs, r)
  {
    assert r in {0, 1, 2, 3, 4, 5, 6, 7};
  }

  lemma SharingDistinct()
    ensures NoDup([7, 6, 5, 4, 3, 1, 2, 0])
  {
    var s := [7, 6, 5, 4, 3, 1, 2, 0];
    assert s[0] == 7 && s[1] == 6 && s[2] == 5 && s[3] == 4 && s[4] == 3 && s[5] == 1 && s[6] == 2;
  }

  lemma SharingMain(n: nat)
    ensures var g := Sharing(n); MainOk(g.objs, g.rootgc, g.mainidx, g.mainthread)
  {
    var s := Sharing(n).rootgc;
    assert s[0] == 7 && s[1] == 6 && s[2] == 5 && s[3] == 4 && s[4] == 3 && s[5] == 1 && s[6] == 2 && s[7] == 0;
  }

  lemma SharingAlive(n: nat)
    ensures Alive(Sharing(n).marked, false) == Sharing(n).objs.Keys == {0, 1, 2, 3, 4, 5, 6, 7}
  {
  }

  lemma SharingRefs(n: nat, r: Ref)
    requires r in Sharing(n).objs
    ensures RefsIn(Sharing(n).objs, Sharing(n).objs[r], {0, 1, 2, 3, 4, 5, 6, 7})
  {
  }

  lemma SharingSound(n: nat)
    ensures Sound(Sharing(n)) && LiveClosed(Sharing(n).objs, Sharing(n).objs.Keys)
  {
    hide Alive, RefsIn;
    var g := Sharing(n);
    SharingAlive(n);
    forall r | r in g.objs ensures RefsIn(g.objs, g.objs[r], g.objs.Keys) { SharingRefs(n, r); }
  }

  lemma SharingMarks(n: nat)
    ensures PropagateOk(Sharing(n))
  {
    hide LiveClosed, Covered, RefsIn, Alive, ListsOk, GrayListed, BlackOk, NoneDead;
    var g := Sharing(n);
    SharingSound(n);
    SharingListed(n);
    assert g.gray[0] == 0;
    forall r | r in g.objs && !g.marked[r].color.White? && r !in g.gray
      ensures Covered(g.objs, g.objs[r], g.marked[r], NonWhite(g.marked)) { SharingCovered(n, r); }
  }

  lemma SharingListed(n: nat)
    ensures var g := Sharing(n);
      && ListsOk(g.objs, g.marked, g.gray, g.again, g.weak) && GrayListed(g.objs, g.marked, g.gray, g.again, g.weak)
      && BlackOk(g.objs, g.marked) && NoneDead(g.marked, g.cw) && g.objs.Keys == g.marked.Keys
  {
    hide ListsOk, GrayListed, BlackOk, NoneDead;
    SharingGray(n);
    SharingColors(n);
  }

  lemma SharingColors(n: nat)
    ensures var g := Sharing(n); BlackOk(g.objs, g.marked) && NoneDead(g.marked, g.cw) && g.objs.Keys == g.marked.Keys
  {
  }

  lemma SharingGray(n: nat)
    ensures var g := Sharing(n); ListsOk(g.objs, g.marked, g.gray, g.again, g.weak) && GrayListed(g.objs, g.marked, g.gray, g.again, g.weak)
  {
    assert Sharing(n).gray[0] == 0;
  }

  lemma SharingCovered(n: nat, r: Ref)
    requires r in Sharing(n).objs && r in {1, 2, 3, 4, 6}
    ensures var g := Sharing(n); Covered(g.objs, g.objs[r], g.marked[r], NonWhite(g.marked))
  {
    assert NonWhite(Sharing(n).marked) == {0, 1, 2, 3, 4, 6};
  }

  // ---- the assertion on the phase ----

  /** What luaC_barrierf and luaC_barrierback assert of the phase when they are called. */
  predicate PhaseAsserted(phase: Phase) { phase != Finalize && phase != Pause }

  /** A barrier is called for black objects only; on r, it would find the assertion broken. */
  ghost predicate AssertFails(g: G, r: Ref) { IsBlack(g, r) && !PhaseAsserted(g.phase) }

  /**
   Where the assertion can fail: on userdata whose finalizer is still to be called, between the sweep and the
   end of the cycle. It does fail on every one of them, as long as the program has stored no white object
   into one since the marking ended.
   */
  lemma BarrierPhase(g: G, r: Ref)
    requires Inv(g)
    ensures AssertFails(g, r) ==> g.phase == Finalize && r in g.tm
    ensures TmBlack(g) ==> (AssertFails(g, r) <==> g.phase == Finalize && r in g.tm)
  {
    hide Base, Lists, Sound, Fin;
    if g.phase == Finalize && r in g.tm && TmBlack(g) {
      assert r in SetOf(g.tm);
      PendingBlack(g, r);
    }
    assert !PhaseAsserted(g.phase) ==> RestOk(g);
  }

  lemma PendingBlack(g: G, r: Ref)
    requires Inv(g) && r in g.tm && r in NonWhite(g.marked)
    ensures IsBlack(g, r)
  {
  }

  /**
   A finalizer is to be called for userdata 4 (metatable 3), a key of the weak table 5 (its own metatable) on
   the stack of the main thread 0; 1 is the registry and 2 the table of globals.
   */
  ghost function Pending(n: nat): G {
    var t := Table(None, Mode(false, false), false, [], []);
    var w := FreshMark(false);
    G(map[0 := Thread(Gc(2), [Gc(5)], []), 1 := t, 2 := t, 3 := t.(gc := true), 4 := Udata(Some(3), 1),
          5 := Table(Some(5), Mode(true, false), false, [], [Node(Live(Gc(4)), Plain(1))])],
      map[0 := Mark(White(false), false, false, true), 1 := w, 2 := w, 3 := w, 4 := Mark(Black, true, false, false),
        5 := w.(bit3 := true)],
      false, Finalize, [], [], [], [5, 3, 1, 2, 0], 4, 0, seq(n, i => []), 0, [4], [], 0, seq(9, i => None), [], 6, 0,
        1)
  }

  /**
   The case exists: no chain of strong references leads to the userdata, so a collection queues it, and yet
   the program finds it by next in the weak table. Changing its metatable then calls the barrier.
   */
  lemma BarrierPhaseFails(n: nat)
    requires n > 0
    ensures Inv(Pending(n)) && TmBlack(Pending(n)) && AssertFails(Pending(n), 4)
    ensures IsRoot(Pending(n), Gc(5)) && Walk(Pending(n).objs, Gc(5), [KeyOf(0)]) == Gc(4)
    ensures var g := Pending(n); ModeOf(g.objs, g.objs[5].mt).k && !Reached(g.objs, Roots(g), {}, 4)
  {
    hide Lists, Sound, Base, Fin, Reached;
    PendingLists(n);
    PendingSound(n);
    PendingBase(n);
    PendingWalk(n);
    PendingWeak(n);
    assert RestOk(Pending(n));
  }

  lemma PendingWeak(n: nat)
    ensures var g := Pending(n); !Reached(g.objs, Roots(g), {}, 4)
  {
    var g, S := Pending(n), {0, 1, 2, 3, 5};
    assert MtRefs(g.mt) == {};
    forall r | r in g.objs && r in S ensures StrongIn(g.objs, g.objs[r], S) {}
    assert Bounds(g.objs, Roots(g), {}, S);
  }

  lemma PendingBase(n: nat)
    ensures Base(Pending(n)) && Fin(Pending(n))
  {
    assert Pending(n).rootgc[5..] == [];
  }

  lemma PendingWalk(n: nat)
    ensures IsRoot(Pending(n), Gc(5)) && Walk(Pending(n).objs, Gc(5), [KeyOf(0)]) == Gc(4)
  {
    var g, path := Pending(n), [KeyOf(0)];
    assert SlotValue(g.objs, g.running, 0) == Gc(5);
    assert path[1..] == [];
    assert Walk(g.objs, Gc(4), path[1..]) == Gc(4);
  }

  lemma PendingLists(n: nat)
    requires n > 0
    ensures Lists(Pending(n))
  {
    var g := Pending(n);
    assert g.objs.Keys == {0, 1, 2, 3, 4, 5};
    assert g.rootgc[0] == 5 && g.rootgc[1] == 3 && g.rootgc[2] == 1 && g.rootgc[3] == 2 && g.rootgc[4] == 0;
    assert g.tm[0] == 4;
    PendingRoot(n);
    hide RootOk, MainOk;
    forall r | r in g.objs ensures Owner(g.objs, g.rootgc, g.strt, g.tm, r) { assert r in g.rootgc || r in g.tm; }
  }

  lemma PendingRoot(n: nat)
    ensures var g := Pending(n); RootOk(g.objs, g.rootgc, g.tm) && MainOk(g.objs, g.rootgc, g.mainidx, g.mainthread)
  {
    var g := Pending(n);
    assert g.rootgc[0] == 5 && g.rootgc[1] == 3 && g.rootgc[2] == 1 && g.rootgc[3] == 2 && g.rootgc[4] == 0;
  }

  lemma PendingSound(n: nat)
    ensures Sound(Pending(n))
  {
    var g := Pending(n);
    var A := Alive(g.marked, g.cw);
    assert A == {0, 1, 2, 3, 4, 5};
    forall r | r in g.objs ensures RefsIn(g.objs, g.objs[r], A) {}
  }

  // ---- full collections begun between two finalizers ----

  /**
   The end of marking in a collection that luaC_fullgc began while finalizers were still to be called. Userdata 4
   is queued and black since the collection before, and on the stack of the main thread 0, which is to be looked
   into once more; its environment 5 holds userdata 6. Both have the metatable 3; 1 is the registry and 2 the
   table of globals.
   */
  ghost function Between(n: nat): G {
    var t := Table(None, Mode(false, false), false, [], []);
    var w, b := FreshMark(false), Mark(Black, false, false, false);
    G(map[0 := Thread(Gc(2), [Gc(4)], []), 1 := t, 2 := t, 3 := t.(gc := true), 4 := Udata(Some(3), 5),
        5 := t.(node := [Node(Live(Plain(0)), Gc(6))]), 6 := Udata(Some(3), 1)],
      map[0 := Mark(Gray, false, false, true), 1 := b, 2 := b, 3 := w, 4 := b.(bit3 := true), 5 := w, 6 := w],
      false, Propagate, [], [0], [], [5, 3, 1, 2, 0, 6], 4, 0, seq(n, i => []), 0, [4], [], 0, seq(9, i => None), [],
        7, 0, 1)
  }

  /**
   A userdata that the program reaches by strong references is queued for its finalizer, because the only way
   to it is through a userdata that was queued before. By QueuedAt this is the only way that can happen, and by
   QueuedExactly it does not happen when nothing was queued before.
   */
  lemma ReachedQueued(n: nat, m3: Marks, rootgc': seq<Ref>, tm': seq<Ref>)
    requires n > 0 && Queued(Between(n), m3, rootgc', tm') && 6 in m3
    ensures Inv(Between(n)) && Between(n).phase == Propagate && Between(n).gray == []
    ensures Reached(Between(n).objs, Roots(Between(n)), {}, 6) && 6 in tm'
  {
    hide Inv, Queued, Reached, Roots, MarkBase, Darks;
    BetweenInv(n);
    BetweenReached(n);
    BetweenCut(n);
    BetweenQueued(n, m3, rootgc', tm');
  }

  /** The collector in that state, run on. */
  method FinalizeReached(L: GlobalState, n: nat)
    requires n > 0 && L.Valid() && L.Snap() == Between(n)
    modifies L
    ensures L.Valid() && L.gcstate == SweepString && 6 in L.tmudata
    ensures Reached(old(L.objs), Roots(old(L.Snap())), {}, 6)
  {
    hide Inv, Queued, Reached, MarkBound, AtomicRan, FloorKept, MarkedAre, SameFrame, Roots, Uncut;
    ghost var g := L.Snap();
    UniverseBound(g);
    MainIdx(g);
    assert 6 in g.objs;
    ghost var o1, m1, o2, m2 := L.Atomic(L.objs.Keys);
    FrameKeys(g.objs, L.objs);
    MainIdx(L.Snap());
    ReachedQueued(n, L.marked, L.rootgc, L.tmudata);
  }

  lemma BetweenQueued(n: nat, m3: Marks, rootgc': seq<Ref>, tm': seq<Ref>)
    requires Queued(Between(n), m3, rootgc', tm') && 6 in m3
    requires !Reached(Between(n).objs, MarkBase(Between(n)), Darks(Between(n)), 6)
    ensures 6 in tm'
  {
    hide Reached, MarkBase, Darks;
    var g := Between(n);
    assert g.rootgc[5] == 6;
    assert QueuedAt(g, m3, tm', 6);
  }

  lemma BetweenReached(n: nat)
    ensures Reached(Between(n).objs, Roots(Between(n)), {}, 6)
  {
    var g := Between(n);
    forall S: set<Ref> | Bounds(g.objs, Roots(g), {}, S) ensures 6 in S
    {
      assert StrongIn(g.objs, g.objs[0], S);
      assert Ok(g.objs[0].stack[0], S);
      assert StrongIn(g.objs, g.objs[4], S);
      assert StrongIn(g.objs, g.objs[5], S);
      assert NodeCovered(g.objs[5].node[0], false, false, S);
    }
  }

  lemma BetweenCut(n: nat)
    ensures var g := Between(n); !Reached(g.objs, MarkBase(g), Darks(g), 6)
  {
    var g, S := Between(n), {0, 1, 2, 4};
    assert MtRefs(g.mt) == {};
    assert NonWhite(g.marked) == {0, 1, 2, 4};
    assert g.tm[0] == 4;
    assert Darks(g) == {4};
    forall r | r in g.objs && r in S && r != 4 ensures StrongIn(g.objs, g.objs[r], S) {}
    assert Bounds(g.objs, MarkBase(g), Darks(g), S);
  }

  lemma BetweenInv(n: nat)
    requires n > 0
    ensures Inv(Between(n)) && Between(n).phase == Propagate && Between(n).gray == []
  {
    hide Lists, Sound, Base, Fin, PropagateOk;
    BetweenLists(n);
    BetweenSound(n);
    BetweenBase(n);
    BetweenMarks(n);
  }

  lemma BetweenBase(n: nat)
    ensures Base(Between(n)) && Fin(Between(n))
  {
    assert Between(n).rootgc[5..] == [6];
  }

  lemma BetweenLists(n: nat)
    requires n > 0
    ensures Lists(Between(n))
  {
    var g := Between(n);
    BetweenRoot(n);
    BetweenRest(n);
    hide RootOk, MainOk, ThreadsOk, StringsOk, UvheadOk;
    forall r | r in g.objs ensures Owner(g.objs, g.rootgc, g.strt, g.tm, r) {
      assert g.rootgc[0] == 5 && g.rootgc[1] == 3 && g.rootgc[2] == 1 && g.rootgc[3] == 2 && g.rootgc[4] == 0 &&
        g.rootgc[5] == 6;
      assert g.tm[0] == 4;
      assert r in g.rootgc || r in g.tm;
    }
  }

  lemma BetweenRest(n: nat)
    ensures var g := Between(n); ThreadsOk(g.objs) && StringsOk(g.objs, g.strt) && UvheadOk(g.objs, g.uvhead)
  {
  }

  lemma BetweenRoot(n: nat)
    ensures var g := Between(n); RootOk(g.objs, g.rootgc, g.tm) && MainOk(g.objs, g.rootgc, g.mainidx, g.mainthread)
  {
    hide OnRoot;
    var s := Between(n).rootgc;
    assert s[0] == 5 && s[1] == 3 && s[2] == 1 && s[3] == 2 && s[4] == 0 && s[5] == 6;
    forall r | r in s ensures OnRoot(Between(n).objs, r) { BetweenKinds(n, r); }
  }

  lemma BetweenKinds(n: nat, r: Ref)
    requires r in Between(n).rootgc
    ensures OnRoot(Between(n).objs, r)
  {
    assert r in {0, 1, 2, 3, 5, 6};
  }

  lemma BetweenAlive(n: nat)
    ensures Alive(Between(n).marked, false) == Between(n).objs.Keys == {0, 1, 2, 3, 4, 5, 6}
  {
  }

  lemma BetweenRefs(n: nat, r: Ref)
    requires r in Between(n).objs
    ensures RefsIn(Between(n).objs, Between(n).objs[r], {0, 1, 2, 3, 4, 5, 6})
  {
  }

  lemma BetweenSound(n: nat)
    ensures Sound(Between(n)) && LiveClosed(Between(n).objs, Between(n).objs.Keys)
  {
    hide Alive, RefsIn;
    var g := Between(n);
    BetweenAlive(n);
    forall r | r in g.objs ensures RefsIn(g.objs, g.objs[r], g.objs.Keys) { BetweenRefs(n, r); }
  }

  lemma BetweenMarks(n: nat)
    ensures PropagateOk(Between(n))
  {
    hide LiveClosed, Covered, RefsIn, Alive, ListsOk, GrayListed, BlackOk, NoneDead;
    var g := Between(n);
    BetweenSound(n);
    BetweenListed(n);
    assert g.again[0] == 0 && g.tm[0] == 4;
    forall r | r in g.objs && !g.marked[r].color.White? && r !in g.again && r !in g.tm
      ensures Covered(g.objs, g.objs[r], g.marked[r], NonWhite(g.marked)) { BetweenCovered(n, r); }
  }

  lemma BetweenListed(n: nat)
    ensures var g := Between(n);
      && ListsOk(g.objs, g.marked, g.gray, g.again, g.weak) && GrayListed(g.objs, g.marked, g.gray, g.again, g.weak)
      && BlackOk(g.objs, g.marked) && NoneDead(g.marked, g.cw) && g.objs.Keys == g.marked.Keys
  {
    assert Between(n).again[0] == 0;
  }

  lemma BetweenCovered(n: nat, r: Ref)
    requires r in Between(n).objs && r in {1, 2}
    ensures var g := Between(n); Covered(g.objs, g.objs[r], g.marked[r], NonWhite(g.marked))
  {
  }
}
