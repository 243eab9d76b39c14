/** Open upvalues created, resurrected and closed by the program; strings interned; roots exchanged. */
module GcUpval {
  import opened Common
  import opened GcHeap
  import opened GcInv
  import opened GcLists
  import opened GcState
  import opened GcSweep
  import opened GcMutator
  import opened GcAlloc

  // ---- a new open upvalue ----

  /** The list of open upvalues of t has room for `level` at position k. */
  ghost predicate Gap(objs: Heap, t: Ref, k: nat, level: nat) {
    && t in objs && objs[t].Thread? && k <= |objs[t].openupval| && level < |objs[t].stack|
    && (forall i :: 0 <= i < |objs[t].openupval| ==>
      objs[t].openupval[i] in objs && objs[objs[t].openupval[i]].IsOpen())
    && (forall i :: 0 <= i < k ==> objs[objs[t].openupval[i]].cell.level > level)
    && (forall i :: k <= i < |objs[t].openupval| ==> objs[objs[t].openupval[i]].cell.level < level)
  }

  ghost function UpAdded(g: G, t: Ref, k: nat, level: nat): G
    requires t in g.objs && g.objs[t].Thread? && k <= |g.objs[t].openupval|
  {
    Added(g.(objs := SetOpen(g.objs, t, InsertAt(g.objs[t].openupval, k, g.next)), uvhead := [g.next] + g.uvhead),
          UpVal(Open(t, level)))
  }

  lemma UpAddedLists(g: G, t: Ref, k: nat, level: nat)
    requires Base(g) && Lists(g) && Gap(g.objs, t, k, level)
    ensures Lists(UpAdded(g, t, k, level))
  {
    hide ThreadsOk, RootOk, StringsOk, UvheadOk, MainOk, Owner, InsertAt, Gap;
    AddedBase(g, UpVal(Open(t, level)));
    UpAddedThreads(g.objs, t, k, level, g.next);
    GapUps(g, t, k, level);
    InsertAtMembers(g.objs[t].openupval, k, g.next);
    var ups := InsertAt(g.objs[t].openupval, k, g.next);
    UpAddedRest(g.objs, g.rootgc, g.mainidx, g.mainthread, g.strt, g.tm, g.uvhead, t, ups, g.next, level);
    UpAddedOwners(g.objs, g.rootgc, g.strt, g.tm, t, ups, g.next, level);
  }

  lemma GapUps(g: G, t: Ref, k: nat, level: nat)
    requires Base(g) && Lists(g) && Gap(g.objs, t, k, level)
    ensures t in g.objs && g.objs[t].Thread? && k <= |g.objs[t].openupval|
    ensures NoDup(g.objs[t].openupval) && g.next !in g.objs[t].openupval && level < |g.objs[t].stack|
  {
    assert ThreadOk(g.objs, t);
    UpsDistinct(g.objs, t);
    forall i | 0 <= i < |g.objs[t].openupval| ensures g.objs[t].openupval[i] != g.next {}
  }

  lemma UpAddedThreads(objs: Heap, t: Ref, k: nat, level: nat, u: Ref)
    requires ThreadsOk(objs) && Gap(objs, t, k, level) && u !in objs
    ensures ThreadsOk(SetOpen(objs, t, InsertAt(objs[t].openupval, k, u))[u := UpVal(Open(t, level))])
  {
    var objs' := SetOpen(objs, t, InsertAt(objs[t].openupval, k, u))[u := UpVal(Open(t, level))];
    forall x | x in objs' && objs'[x].Thread? ensures ThreadOk(objs', x)
    {
      assert ThreadOk(objs, x);
      if x == t { UpAddedThread(objs, t, k, level, u); } else { UnlistedThread(objs, objs', x); }
    }
  }

  lemma UnlistedThread(objs: Heap, objs': Heap, x: Ref)
    requires x in objs && objs[x].Thread? && ThreadOk(objs, x) && x in objs' && objs'[x] == objs[x]
    requires forall y :: y in objs && objs[y].IsOpen() ==> y in objs' && objs'[y] == objs[y]
    ensures ThreadOk(objs', x)
  {
  }

  lemma UpAddedThread(objs: Heap, t: Ref, k: nat, level: nat, u: Ref)
    requires Gap(objs, t, k, level) && ThreadOk(objs, t) && u !in objs
    ensures var objs' := SetOpen(objs, t, InsertAt(objs[t].openupval, k,
      u))[u := UpVal(Open(t, level))]; ThreadOk(objs', t)
  {
    var ups := objs[t].openupval;
    var ups' := InsertAt(ups, k, u);
    var objs' := SetOpen(objs, t, ups')[u := UpVal(Open(t, level))];
    forall i | 0 <= i < |ups'|
      ensures ups'[i] in objs' && objs'[ups'[i]].IsOpen() && objs'[ups'[i]].cell.thread == t &&
        objs'[ups'[i]].cell.level < |objs[t].stack|
      ensures i < k ==> objs'[ups'[i]].cell.level > level && objs'[ups'[i]] == objs[ups[i]]
      ensures i == k ==> objs'[ups'[i]].cell.level == level
      ensures i > k ==> objs'[ups'[i]].cell.level < level && objs'[ups'[i]] == objs[ups[i - 1]]
    {
      if i < k { assert ups'[i] == ups[i]; } else if i > k { assert ups'[i] == ups[i - 1]; }
    }
  }

  lemma UpAddedRest(objs: Heap, rootgc: seq<Ref>, mainidx: nat, mainthread: Ref, strt: seq<seq<Ref>>, tm: seq<Ref>,
    uvhead: seq<Ref>,
                    t: Ref, ups: seq<Ref>, u: Ref, level: nat)
    requires RootOk(objs, rootgc, tm) && StringsOk(objs, strt) && UvheadOk(objs, uvhead) &&
      MainOk(objs, rootgc, mainidx, mainthread)
    requires t in objs && objs[t].Thread? && u !in objs
    ensures var objs' := SetOpen(objs, t, ups)[u := UpVal(Open(t, level))];
      && RootOk(objs', rootgc, tm) && StringsOk(objs', strt) && UvheadOk(objs', [u] + uvhead)
      && MainOk(objs', rootgc, mainidx, mainthread)
  {
    var objs' := SetOpen(objs, t, ups)[u := UpVal(Open(t, level))];
    assert forall x :: x in objs && x != t ==> x in objs' && objs'[x] == objs[x];
    NoDupCons(u, uvhead);
    assert forall i :: 0 <= i < |rootgc| ==> rootgc[i] in rootgc;
  }

  lemma UpAddedOwners(objs: Heap, rootgc: seq<Ref>, strt: seq<seq<Ref>>, tm: seq<Ref>, t: Ref, ups: seq<Ref>, u: Ref,
    level: nat)
    requires forall x :: x in objs ==> Owner(objs, rootgc, strt, tm, x)
    requires t in objs && objs[t].Thread? && u !in objs && forall x :: x in ups <==> x in objs[t].openupval || x == u
    ensures var objs' := SetOpen(objs, t, ups)[u := UpVal(Open(t, level))]; forall x :: x in objs' ==>
      Owner(objs', rootgc, strt, tm, x)
  {
    var objs' := SetOpen(objs, t, ups)[u := UpVal(Open(t, level))];
    forall x | x in objs' ensures Owner(objs', rootgc, strt, tm, x)
    {
      if x != u { assert Owner(objs, rootgc, strt, tm, x); }
    }
  }

  lemma UpAddedInv(g: G, t: Ref, k: nat, level: nat)
    requires Inv(g) && Gap(g.objs, t, k, level) && t in g.marked && !IsDead(g.marked[t], g.cw)
    ensures Inv(UpAdded(g, t, k, level))
    ensures IsCurrent(UpAdded(g, t, k, level), g.next) && g.next !in g.objs
  {
    hide Inv, Base, Lists, Sound, Fin, PhaseOk, InsertAt, Gap;
    InvParts(g);
    GapUps(g, t, k, level);
    var ups := InsertAt(g.objs[t].openupval, k, g.next);
    var g1 := g.(objs := SetOpen(g.objs, t, ups), uvhead := [g.next] + g.uvhead);
    var o := UpVal(Open(t, level));
    UpAddedLists(g, t, k, level);
    SetOpenSound(g, t, ups, [g.next] + g.uvhead);
    AddedBase(g1, o);
    UpSlotLive(g, g1, t, level);
    AddedSound(g1, o);
    RootKnown(g);
    AddedFin(g1, o);
    UpAddedPhase(g, t, k, level);
    CoreInv(UpAdded(g, t, k, level));
  }

  lemma UpSlotLive(g: G, g1: G, t: Ref, level: nat)
    requires Lists(g) && Sound(g) && t in g.objs && g.objs[t].Thread? && level < |g.objs[t].stack| && t in g.marked &&
      !IsDead(g.marked[t], g.cw)
    requires g1.marked == g.marked && g1.cw == g.cw && exists ups :: g1.objs == SetOpen(g.objs, t, ups)
    ensures UpLive(g1.objs, UpVal(Open(t, level)), Alive(g.marked, g.cw))
    ensures forall u :: u in g1.objs && g1.objs[u].IsOpen() ==> g1.objs[u].cell.thread in g1.objs
  {
    UpThreads(g);
    assert t in Alive(g.marked, g.cw) && RefsIn(g.objs, g.objs[t], Alive(g.marked, g.cw));
  }

  lemma UpAddedPhase(g: G, t: Ref, k: nat, level: nat)
    requires Core(g) && PhaseOk(g) && Gap(g.objs, t, k, level) && t in g.marked && !IsDead(g.marked[t], g.cw)
    requires t in g.objs && g.objs[t].Thread? && k <= |g.objs[t].openupval|
    ensures PhaseOk(UpAdded(g, t, k, level)) && IsCurrent(UpAdded(g, t, k, level), g.next)
  {
    hide InsertAt, Gap, Base, Lists, Sound, Fin, StringsSwept, RootSwept, PropagateOk, RestOk;
    UpAddedRestOk(g, t, k, level);
    match g.phase {
      case Pause =>
      case Finalize =>
      case Propagate => UpAddedMark(g, t, k, level);
      case SweepString => UpAddedStrings(g, t, k, level, g.sweepstr);
      case Sweep => UpAddedStrings(g, t, k, level, |g.strt|); UpAddedRoot(g, t, k, level);
    }
  }

  lemma UpAddedRestOk(g: G, t: Ref, k: nat, level: nat)
    requires t in g.objs && g.objs[t].Thread? && k <= |g.objs[t].openupval|
    ensures RestOk(g) ==> RestOk(UpAdded(g, t, k, level))
  {
  }

  lemma UpAddedStrings(g: G, t: Ref, k: nat, level: nat, n: nat)
    requires Base(g) && Lists(g) && StringsSwept(g, n) && t in g.objs && g.objs[t].Thread? && k <= |g.objs[t].openupval|
    ensures StringsSwept(UpAdded(g, t, k, level), n)
  {
    forall b, r | 0 <= b < n && r in g.strt[b] ensures IsCurrent(UpAdded(g, t, k, level),
      r) { assert IsCurrent(g, r) && r in g.objs; }
  }

  lemma UpAddedRoot(g: G, t: Ref, k: nat, level: nat)
    requires Base(g) && Lists(g) && RootSwept(g, g.sweepgc) && Gap(g.objs, t, k, level)
    ensures RootSwept(UpAdded(g, t, k, level), g.sweepgc)
  {
    hide Lists, Base, InsertAt, Gap;
    RootKnown(g);
    GapUps(g, t, k, level);
    InsertAtMembers(g.objs[t].openupval, k, g.next);
    AddedBase(g, UpVal(Open(t, level)));
    UpsKnown(g);
    var g' := UpAdded(g, t, k, level);
    forall i | 0 <= i < g.sweepgc
      ensures IsCurrent(g', g'.rootgc[i])
      ensures g'.rootgc[i] in g'.objs && g'.objs[g'.rootgc[i]].Thread? ==>
        forall u :: u in g'.objs[g'.rootgc[i]].openupval ==> IsCurrent(g', u)
    {
      UpAddedAt(g, g', t, i);
    }
  }

  lemma UpAddedAt(g: G, g': G, t: Ref, i: nat)
    requires RootSwept(g, g.sweepgc) && i < g.sweepgc && g.next !in g.objs && g.next !in g.marked
    requires forall r :: r in g.rootgc ==> r in g.objs
    requires forall t, u :: t in g.objs && g.objs[t].Thread? && u in g.objs[t].openupval ==> u in g.objs
    requires g'.cw == g.cw && forall x :: x in g.marked ==> x in g'.marked && g'.marked[x] == g.marked[x]
    requires forall x :: x in g.objs ==> x in g'.objs && (x != t ==> g'.objs[x] == g.objs[x])
    requires t in g.objs && g.objs[t].Thread? && g'.objs[t].Thread? && IsCurrent(g', g.next)
    requires forall x :: x in g'.objs[t].openupval ==> x in g.objs[t].openupval || x == g.next
    ensures var r := g.rootgc[i];
      IsCurrent(g', r) && (g'.objs[r].Thread? ==> forall u :: u in g'.objs[r].openupval ==> IsCurrent(g', u))
  {
    var r := g.rootgc[i];
    assert IsCurrent(g, r) && r in g.rootgc;
    if g.objs[r].Thread? {
      forall u | u in g'.objs[r].openupval ensures IsCurrent(g', u) { if u != g.next { assert IsCurrent(g, u); } }
    }
  }

  /** A thread with another list of open upvalues, seen by the marking. */
  lemma SetOpenMark(objs: Heap, marked: Marks, cw: bool, gray: seq<Ref>, again: seq<Ref>, weak: seq<Ref>,
    todo: set<Ref>, t: Ref, ups: seq<Ref>)
    requires MarkInv(objs, marked, cw, gray, again, weak, todo) && t in objs && objs[t].Thread?
    ensures MarkInv(SetOpen(objs, t, ups), marked, cw, gray, again, weak, todo)
  {
    hide Tri, LiveClosed;
    var objs' := SetOpen(objs, t, ups);
    assert objs'.Keys == objs.Keys;
    SetOpenRefs(objs, marked, gray, todo, t, ups);
  }

  lemma SetOpenRefs(objs: Heap, marked: Marks, gray: seq<Ref>, todo: set<Ref>, t: Ref, ups: seq<Ref>)
    requires t in objs && objs[t].Thread? && LiveClosed(objs, objs.Keys) && Tri(objs, marked, gray, todo)
    ensures var objs' := SetOpen(objs, t, ups); LiveClosed(objs', objs.Keys) && Tri(objs', marked, gray, todo)
  {
    var objs' := SetOpen(objs, t, ups);
    forall x | x in objs' ensures RefsIn(objs', objs'[x], objs.Keys) { assert RefsIn(objs, objs[x], objs.Keys); }
    forall x | x in objs' && x in marked && !marked[x].color.White? && x !in gray && x !in todo
      ensures Covered(objs', objs'[x], marked[x], NonWhite(marked))
    {
      assert Covered(objs, objs[x], marked[x], NonWhite(marked));
    }
  }

  lemma UpAddedMark(g: G, t: Ref, k: nat, level: nat)
    requires Core(g) && g.phase == Propagate && PropagateOk(g) && Gap(g.objs, t, k, level)
    requires t in g.objs && g.objs[t].Thread? && k <= |g.objs[t].openupval|
    ensures PropagateOk(UpAdded(g, t, k, level))
  {
    hide InsertAt, MarkInv, Base, Lists, Sound, NonWhite;
    var ups := InsertAt(g.objs[t].openupval, k, g.next);
    var objs1 := SetOpen(g.objs, t, ups);
    var o := UpVal(Open(t, level));
    SetOpenMark(g.objs, g.marked, g.cw, g.gray, g.again, g.weak, Todo(g), t, ups);
    SetOpenThreads(g, t, ups);
    AddedBase(g, o);
    UpRefs(g, t, ups, level);
    AddedMark(objs1, g.marked, g.cw, g.gray, g.again, g.weak, Todo(g), g.next, o);
    var g' := UpAdded(g, t, k, level);
    assert Todo(g) <= Todo(g') by { TodoUvhead(g, g'); }
    Widen(g'.objs, g'.marked, g.cw, g.gray, g.again, g.weak, Todo(g), Todo(g'));
  }

  lemma TodoUvhead(g: G, g': G)
    requires SetOf(g.uvhead) <= SetOf(g'.uvhead) && g'.again == g.again && g'.weak == g.weak && g'.tm == g.tm
    ensures Todo(g) <= Todo(g')
  {
  }

  lemma SetOpenThreads(g: G, t: Ref, ups: seq<Ref>)
    requires Lists(g) && t in g.objs && g.objs[t].Thread?
    ensures var objs' := SetOpen(g.objs, t, ups); forall u :: u in objs' && objs'[u].IsOpen() ==>
      objs'[u].cell.thread in objs'
  {
    UpThreads(g);
  }

  lemma UpRefs(g: G, t: Ref, ups: seq<Ref>, level: nat)
    requires PropagateOk(g) && t in g.objs && g.objs[t].Thread?
    ensures var objs' := SetOpen(g.objs, t, ups); RefsIn(objs', UpVal(Open(t, level)), objs'.Keys)
  {
    assert RefsIn(g.objs, g.objs[t], g.objs.Keys);
    assert SetOpen(g.objs, t, ups).Keys == g.objs.Keys;
  }

  // ---- a dead string or upvalue found again: changewhite ----

  lemma ResurrectInv(g: G, r: Ref)
    requires Inv(g) && r in g.objs && r in g.marked && IsDead(g.marked[r], g.cw)
    requires g.objs[r].Str? || (g.objs[r].IsOpen() && UpLive(g.objs, g.objs[r], Alive(g.marked, g.cw)))
    ensures Inv(Kept(g, r))
  {
    hide Inv, Base, Lists, Sound, Fin, PhaseOk, UpLive;
    InvParts(g);
    DeadPhase(g, r);
    KeepBase(g, r);
    KeepLists(g, Kept(g, r).marked);
    KeepFin(g, r);
    ResurrectSound(g, r);
    KeptPhase(g, r);
    CoreInv(Kept(g, r));
  }

  lemma DeadPhase(g: G, r: Ref)
    requires Inv(g) && r in g.marked && IsDead(g.marked[r], g.cw)
    ensures g.phase != Propagate
  {
  }

  lemma ResurrectSound(g: G, r: Ref)
    requires Base(g) && Sound(g) && r in g.objs && r in g.marked
    requires g.objs[r].Str? || (g.objs[r].IsOpen() && UpLive(g.objs, g.objs[r], Alive(g.marked, g.cw)))
    ensures Sound(Kept(g, r))
  {
    var g' := Kept(g, r);
    var A, A' := Alive(g.marked, g.cw), Alive(g'.marked, g.cw);
    assert A <= A' <= A + {r};
    forall x | x in g.objs && x in A' ensures RefsIn(g.objs, g.objs[x], A')
    {
      if x in A { assert RefsIn(g.objs, g.objs[x], A); LiveMonotone(g.objs[x], A, A'); }
    }
    assert MtIn(g.mt, A');
  }

  lemma KeptPhase(g: G, r: Ref)
    requires PhaseOk(g) && g.phase != Propagate && r in g.marked
    ensures PhaseOk(Kept(g, r))
  {
    var g' := Kept(g, r);
    assert forall x :: IsCurrent(g, x) ==> IsCurrent(g', x);
    if g.phase == SweepString { CurrentStrings(g, g', g.sweepstr); }
    if g.phase == Sweep { MoreCurrent(g, g', |g.strt|, g.sweepgc); }
  }

  // ---- a new string ----

  ghost function StrAdded(g: G, b: nat): G
    requires b < |g.strt|
  {
    Added(g.(strt := g.strt[b := [g.next] + g.strt[b]]), Str(b))
  }

  lemma StrAddedInv(g: G, b: nat)
    requires Inv(g) && b < |g.strt|
    ensures Inv(StrAdded(g, b)) && IsCurrent(StrAdded(g, b), g.next) && g.next !in g.objs
  {
    hide Inv, Base, Lists, Sound, Fin, PhaseOk;
    InvParts(g);
    var g1 := g.(strt := g.strt[b := [g.next] + g.strt[b]]);
    AddedBase(g, Str(b));
    StrtOnly(g, g1.strt);
    UpThreads(g);
    AddedBase(g1, Str(b));
    AddedSound(g1, Str(b));
    RootKnown(g);
    AddedFin(g1, Str(b));
    StrAddedLists(g, b);
    StrAddedPhase(g, b);
    CoreInv(StrAdded(g, b));
  }

  lemma StrAddedLists(g: G, b: nat)
    requires Base(g) && Lists(g) && b < |g.strt|
    ensures Lists(StrAdded(g, b))
  {
    hide ThreadsOk, RootOk, StringsOk, UvheadOk, MainOk, Owner;
    AddedBase(g, Str(b));
    AddedThreads(g.objs, g.next, Str(b));
    AddedUvhead(g.objs, g.uvhead, g.next, Str(b));
    StrAddedRest(g.objs, g.rootgc, g.mainidx, g.mainthread, g.strt, g.tm, g.next, b);
    StrAddedOwners(g.objs, g.rootgc, g.strt, g.tm, g.next, b, g.objs[g.next := Str(b)]);
  }

  lemma StrAddedRest(objs: Heap, rootgc: seq<Ref>, mainidx: nat, mainthread: Ref, strt: seq<seq<Ref>>, tm: seq<Ref>,
    r: Ref, b: nat)
    requires RootOk(objs, rootgc, tm) && StringsOk(objs, strt) && MainOk(objs, rootgc, mainidx, mainthread) &&
      r !in objs && b < |strt|
    ensures var objs' := objs[r := Str(b)];
      RootOk(objs', rootgc, tm) && StringsOk(objs', strt[b := [r] + strt[b]]) &&
        MainOk(objs', rootgc, mainidx, mainthread)
  {
    NoDupCons(r, strt[b]);
    assert forall i :: 0 <= i < |rootgc| ==> rootgc[i] in rootgc;
  }

  lemma StrAddedOwners(objs: Heap, rootgc: seq<Ref>, strt: seq<seq<Ref>>, tm: seq<Ref>, r: Ref, b: nat, objs': Heap)
    requires (forall x :: x in objs ==> Owner(objs, rootgc, strt, tm, x)) && r !in objs && b < |strt| &&
      objs' == objs[r := Str(b)]
    ensures forall x :: x in objs' ==> Owner(objs', rootgc, strt[b := [r] + strt[b]], tm, x)
  {
    forall x | x in objs' ensures Owner(objs', rootgc, strt[b := [r] + strt[b]], tm, x)
    {
      if x != r { assert Owner(objs, rootgc, strt, tm, x); }
    }
  }

  lemma StrAddedPhase(g: G, b: nat)
    requires Base(g) && Lists(g) && PhaseOk(g) && b < |g.strt|
    ensures PhaseOk(StrAdded(g, b))
  {
    hide Base, Lists, StringsSwept, RootSwept, PropagateOk, RestOk;
    AddedBase(g, Str(b));
    StrAddedRestOk(g, b);
    match g.phase {
      case Pause =>
      case Finalize =>
      case Propagate => StrAddedMark(g, b);
      case SweepString => StrAddedStrings(g, b, g.sweepstr);
      case Sweep => StrAddedStrings(g, b, |g.strt|); StrAddedRoot(g, b);
    }
  }

  lemma StrAddedRestOk(g: G, b: nat)
    requires b < |g.strt|
    ensures RestOk(g) ==> RestOk(StrAdded(g, b))
  {
  }

  lemma StrAddedStrings(g: G, b: nat, n: nat)
    requires Base(g) && Lists(g) && StringsSwept(g, n) && b < |g.strt|
    ensures StringsSwept(StrAdded(g, b), n)
  {
    var g' := StrAdded(g, b);
    forall c, r | 0 <= c < n && r in g'.strt[c] ensures IsCurrent(g', r) { if r != g.next { assert IsCurrent(g, r); } }
  }

  lemma StrAddedRoot(g: G, b: nat)
    requires Base(g) && Lists(g) && RootSwept(g, g.sweepgc) && b < |g.strt|
    ensures RootSwept(StrAdded(g, b), g.sweepgc)
  {
    hide Lists, Base;
    RootKnown(g);
    AddedBase(g, Str(b));
    UpsKnown(g);
    var g' := StrAdded(g, b);
    forall i | 0 <= i < g.sweepgc
      ensures IsCurrent(g', g'.rootgc[i])
      ensures g'.rootgc[i] in g'.objs && g'.objs[g'.rootgc[i]].Thread? ==>
        forall u :: u in g'.objs[g'.rootgc[i]].openupval ==> IsCurrent(g', u)
    {
      SweptBefore(g, g', i);
    }
  }

  lemma StrAddedMark(g: G, b: nat)
    requires Base(g) && Lists(g) && PropagateOk(g) && b < |g.strt|
    ensures PropagateOk(StrAdded(g, b))
  {
    hide MarkInv, Base, Lists, NonWhite;
    UpThreads(g);
    AddedBase(g, Str(b));
    AddedMark(g.objs, g.marked, g.cw, g.gray, g.again, g.weak, Todo(g), g.next, Str(b));
  }

  // ---- luaF_close on the first open upvalue ----

  /** It is dead: it is freed. */
  lemma CloseDeadInv(g: G, t: Ref)
    requires Inv(g) && t in g.objs && g.objs[t].Thread? && g.objs[t].openupval != []
    requires var u := g.objs[t].openupval[0]; u in g.marked && IsDead(g.marked[u], g.cw)
    ensures Inv(UpGone(g, t, 0))
  {
    hide Inv, Base, Lists, Sound, Fin, PhaseOk, IsDead;
    InvParts(g);
    var u := g.objs[t].openupval[0];
    DeadPhase(g, u);
    DropUp(g, t, 0);
    UpGonePhase(g, t);
    CoreInv(UpGone(g, t, 0));
  }

  lemma UpGonePhase(g: G, t: Ref)
    requires PhaseOk(g) && g.phase != Propagate && t in g.objs && g.objs[t].Thread? && g.objs[t].openupval != []
    requires Core(g)
    requires var u := g.objs[t].openupval[0]; u in g.marked && IsDead(g.marked[u], g.cw)
    ensures PhaseOk(UpGone(g, t, 0))
  {
    hide Core, Without;
    var g' := UpGone(g, t, 0);
    CutMembers(g.objs[t].openupval, 0) by { ThreadNoDup(g, t); }
    assert forall x :: IsCurrent(g, x) ==> IsCurrent(g', x);
    if g.phase == Sweep {
      forall i, v | 0 <= i < g.sweepgc && g'.rootgc[i] in g'.objs && g'.objs[g'.rootgc[i]].Thread? &&
        v in g'.objs[g'.rootgc[i]].openupval
        ensures IsCurrent(g', v)
      {
        assert v in g.objs[g.rootgc[i]].openupval && IsCurrent(g, v);
      }
    }
  }

  lemma ThreadNoDup(g: G, t: Ref)
    requires Core(g) && t in g.objs && g.objs[t].Thread?
    ensures NoDup(g.objs[t].openupval)
  {
    assert ThreadOk(g.objs, t);
    UpsDistinct(g.objs, t);
  }

  /** Outside the marking phase: it has been made white, as luaC_linkupval does with a gray one. */
  lemma CloseInv(g: G, t: Ref)
    requires Inv(g) && g.phase != Propagate && t in g.objs && g.objs[t].Thread? && g.objs[t].openupval != []
    requires var u := g.objs[t].openupval[0]; u in g.objs && g.objs[u].IsOpen() && IsCurrent(g, u)
    ensures Inv(UpClosed(g, t))
  {
    hide Inv, Base, Lists, Sound, Fin, PhaseOk;
    InvParts(g);
    CloseUp(g, t);
    FirstUp(g, t);
    ClosedPhase(g, t);
    CoreInv(UpClosed(g, t));
  }

  lemma ClosedPhase(g: G, t: Ref)
    requires PhaseOk(g) && g.phase != Propagate && t in g.objs && g.objs[t].Thread? && g.objs[t].openupval != []
    requires var u := g.objs[t].openupval[0]; u in g.objs && u != t && g.objs[u].UpVal? && IsCurrent(g, u)
    ensures PhaseOk(UpClosed(g, t))
  {
    hide RootSwept, Without;
    var u := g.objs[t].openupval[0];
    var g' := UpClosed(g, t);
    if g.phase == Sweep {
      ClosedRootSwept(g, g', t, u);
    } else {
      assert forall x :: IsCurrent(g, x) ==> IsCurrent(g', x);
    }
  }

  // in the marking phase

  /** The closed upvalue with colour c. */
  ghost function ClosedAs(g: G, t: Ref, c: Color): G
    requires t in g.objs && g.objs[t].Thread? && g.objs[t].openupval != []
    requires g.objs[t].openupval[0] in g.objs && g.objs[g.objs[t].openupval[0]].UpVal? &&
      g.objs[t].openupval[0] in g.marked
  {
    var u := g.objs[t].openupval[0];
    UpClosed(g, t).(marked := g.marked[u := g.marked[u].(color := c)])
  }

  lemma CloseMark(g: G, t: Ref)
    requires Inv(g) && g.phase == Propagate && t in g.objs && g.objs[t].Thread? && g.objs[t].openupval != []
    requires var u := g.objs[t].openupval[0]; u in g.objs && g.objs[u].IsOpen() && u in g.marked
    ensures var u := g.objs[t].openupval[0];
      var c := if g.marked[u].color.White? then g.marked[u].color else Black;
      var g1 := ClosedAs(g, t, c);
      && Core(g1) && MarkInv(g1.objs, g1.marked, g1.cw, g1.gray, g1.again, g1.weak, Todo(g1) + {u})
      && g1.mainthread in NonWhite(g1.marked) && g1.registry in NonWhite(g1.marked) && g1.phase == Propagate
  {
    hide Inv, Base, Lists, Sound, Fin, PropagateOk, MarkInv, NonWhite, Without;
    var u := g.objs[t].openupval[0];
    var c := if g.marked[u].color.White? then g.marked[u].color else Black;
    var g1 := ClosedAs(g, t, c);
    MarkingParts(g);
    NotBlack(g, u);
    FirstUp(g, t);
    CloseUp(g, t);
    Recolored(UpClosed(g, t), u, c);
    SameNonWhite(g.marked, u, c);
    ClosedMark(g.objs, g1.objs, g.marked, g.cw, g.gray, g.again, g.weak, Todo(g), t, u, c) by { UpRefsOk(g, t, u); }
    TodoClosed(g, g1, u);
    Widen(g1.objs, g1.marked, g1.cw, g1.gray, g1.again, g1.weak, Todo(g), Todo(g1) + {u});
  }

  lemma UpRefsOk(g: G, t: Ref, u: Ref)
    requires PropagateOk(g) && u in g.objs
    ensures RefsIn(g.objs, g.objs[u], g.objs.Keys) && MarkInv(g.objs, g.marked, g.cw, g.gray, g.again, g.weak, Todo(g))
  {
  }

  lemma TodoClosed(g: G, g1: G, u: Ref)
    requires g1.uvhead == Without(g.uvhead, u) && g1.again == g.again && g1.weak == g.weak && g1.tm == g.tm
    ensures Todo(g) <= Todo(g1) + {u}
  {
  }

  lemma NotBlack(g: G, u: Ref)
    requires PropagateOk(g) && u in g.objs && u in g.marked && g.objs[u].IsOpen()
    ensures !g.marked[u].color.Black? && !IsDead(g.marked[u], g.cw)
    ensures g.mainthread in NonWhite(g.marked) && g.registry in NonWhite(g.marked)
  {
  }

  lemma SameNonWhite(m: Marks, u: Ref, c: Color)
    requires u in m && (m[u].color.White? <==> c.White?)
    ensures NonWhite(m[u := m[u].(color := c)]) == NonWhite(m)
  {
    assert NonWhite(m[u := m[u].(color := c)]) == NonWhite(m);
  }

  lemma Recolored(g: G, u: Ref, c: Color)
    requires Core(g) && u in g.objs && u in g.marked && g.objs[u].UpVal? && g.objs[u].cell.Closed? &&
      !IsDead(g.marked[u], g.cw)
    requires c == g.marked[u].color || c.Black?
    ensures Core(g.(marked := g.marked[u := g.marked[u].(color := c)]))
  {
    hide Base, Lists, Sound, Fin;
    var g' := g.(marked := g.marked[u := g.marked[u].(color := c)]);
    KeepLists(g, g'.marked);
    RecoloredSound(g, u, c);
    RecoloredBase(g, u, c);
    RecoloredFin(g, u, c);
  }

  lemma RecoloredSound(g: G, u: Ref, c: Color)
    requires Sound(g) && u in g.marked && !IsDead(g.marked[u], g.cw) && (c == g.marked[u].color || c.Black?)
    ensures Sound(g.(marked := g.marked[u := g.marked[u].(color := c)]))
  {
    assert Alive(g.marked[u := g.marked[u].(color := c)], g.cw) == Alive(g.marked, g.cw);
  }

  lemma RecoloredBase(g: G, u: Ref, c: Color)
    requires Base(g) && u in g.objs && u in g.marked && g.objs[u].UpVal? && g.objs[u].cell.Closed? &&
      (c == g.marked[u].color || c.Black?)
    ensures Base(g.(marked := g.marked[u := g.marked[u].(color := c)]))
  {
  }

  lemma RecoloredFin(g: G, u: Ref, c: Color)
    requires Fin(g) && u in g.marked
    ensures Fin(g.(marked := g.marked[u := g.marked[u].(color := c)]))
  {
    hide NewestFirst;
    NewestFirstFewer(g.marked, g.marked[u := g.marked[u].(color := c)], g.rootgc[g.mainidx + 1..]);
  }

  /** Closing an upvalue, seen by the marking: a gray one turned black must be looked at. */
  lemma ClosedMark(objs: Heap, objs': Heap, marked: Marks, cw: bool, gray: seq<Ref>, again: seq<Ref>, weak: seq<Ref>,
    todo: set<Ref>,
                   t: Ref, u: Ref, c: Color)
    requires MarkInv(objs, marked, cw, gray, again, weak, todo) && u in todo
    requires t in objs && objs[t].Thread? && objs[t].openupval != [] && u in objs && u in marked && objs[u].IsOpen() &&
      u != t
    requires objs' == SetOpen(objs, t, objs[t].openupval[1..])[u := UpVal(Closed(UpValue(objs, objs[u].cell)))]
    requires c == if marked[u].color.White? then marked[u].color else Black
    requires RefsIn(objs, objs[u], objs.Keys) && NonWhite(marked[u := marked[u].(color := c)]) == NonWhite(marked)
    ensures MarkInv(objs', marked[u := marked[u].(color := c)], cw, gray, again, weak, todo)
  {
    hide Tri, LiveClosed, NonWhite, ListsOk, GrayListed, BlackOk, NoneDead, Shape;
    ClosedListed(objs, objs', marked, cw, gray, again, weak, t, u, c);
    ClosedRefs(objs, objs', marked, gray, todo, t, u, c);
  }

  lemma ClosedListed(objs: Heap, objs': Heap, marked: Marks, cw: bool, gray: seq<Ref>, again: seq<Ref>, weak: seq<Ref>,
    t: Ref, u: Ref, c: Color)
    requires Shape(objs, marked) && ListsOk(objs, marked, gray, again, weak) &&
      GrayListed(objs, marked, gray, again, weak)
    requires BlackOk(objs, marked) && NoneDead(marked, cw)
    requires t in objs && objs[t].Thread? && u in objs && u in marked && objs[u].IsOpen() && u != t
    requires objs'.Keys == objs.Keys && objs'[t].Thread? && objs'[u].UpVal? && objs'[u].cell.Closed?
    requires forall x :: x in objs && x != t && x != u ==> objs'[x] == objs[x]
    requires c == if marked[u].color.White? then marked[u].color else Black
    ensures var m' := marked[u := marked[u].(color := c)];
      && Shape(objs', m') && ListsOk(objs', m', gray, again, weak) && GrayListed(objs', m', gray, again, weak)
      && BlackOk(objs', m') && NoneDead(m', cw)
  {
    hide ListsOk;
    ClosedGray(objs, objs', marked, gray, again, weak, t, u, c);
  }

  lemma ClosedGray(objs: Heap, objs': Heap, marked: Marks, gray: seq<Ref>, again: seq<Ref>, weak: seq<Ref>, t: Ref,
    u: Ref, c: Color)
    requires ListsOk(objs, marked, gray, again, weak) && objs.Keys == marked.Keys
    requires t in objs && objs[t].Thread? && u in objs && objs[u].IsOpen() && u != t
    requires objs'.Keys == objs.Keys && objs'[t].Thread? && objs'[u].UpVal? && objs'[u].cell.Closed?
    requires forall x :: x in objs && x != t && x != u ==> objs'[x] == objs[x]
    ensures ListsOk(objs', marked[u := marked[u].(color := c)], gray, again, weak)
  {
    assert u !in gray && u !in again && u !in weak;
  }

  lemma ClosedRefs(objs: Heap, objs': Heap, marked: Marks, gray: seq<Ref>, todo: set<Ref>, t: Ref, u: Ref, c: Color)
    requires LiveClosed(objs, objs.Keys) && Tri(objs, marked, gray, todo) && u in todo
    requires t in objs && objs[t].Thread? && objs[t].openupval != [] && u in objs && u in marked && objs[u].IsOpen() &&
      u != t
    requires objs' == SetOpen(objs, t, objs[t].openupval[1..])[u := UpVal(Closed(UpValue(objs, objs[u].cell)))]
    requires NonWhite(marked[u := marked[u].(color := c)]) == NonWhite(marked)
    requires c.White? <==> marked[u].color.White?
    ensures LiveClosed(objs', objs'.Keys) && Tri(objs', marked[u := marked[u].(color := c)], gray, todo)
  {
    assert objs'.Keys == objs.Keys;
    forall x | x in objs' ensures RefsIn(objs', objs'[x], objs.Keys) { assert RefsIn(objs, objs[x], objs.Keys); }
    var m' := marked[u := marked[u].(color := c)];
    forall x | x in objs' && x in m' && !m'[x].color.White? && x !in gray && x !in todo
      ensures Covered(objs', objs'[x], m'[x], NonWhite(m'))
    {
      assert Covered(objs, objs[x], marked[x], NonWhite(marked));
    }
  }

  /** The closed upvalue, once its value has been marked. */
  lemma CloseDone(g1: G, u: Ref, m': Marks, gray': seq<Ref>, K: set<Ref>)
    requires Core(g1) && g1.phase == Propagate && Grows(g1.marked, m', K)
    requires g1.mainthread in NonWhite(g1.marked) && g1.registry in NonWhite(g1.marked)
    requires MarkInv(g1.objs, m', g1.cw, gray', g1.again, g1.weak, Todo(g1))
    ensures Inv(g1.(marked := m', gray := gray'))
  {
    hide Core, MarkInv, Grows, NonWhite;
    MarksCore(g1, m', gray', K);
    GrowsMore(g1.marked, m', K);
    CoreInv(g1.(marked := m', gray := gray'));
  }

  // ---- roots ----

  /** What the lists, the colours and the phase say does not depend on the running thread or the basic metatables. */
  lemma RootsOnlyLists(g: G, t: Ref, mt': seq<Option<Ref>>)
    requires Base(g) && Lists(g) && Fin(g)
    ensures var g' := g.(running := t, mt := mt'); Base(g') && Lists(g') && Fin(g')
  {
  }

  lemma RootsOnlyPhase(g: G, t: Ref, mt': seq<Option<Ref>>)
    requires PhaseOk(g)
    ensures PhaseOk(g.(running := t, mt := mt'))
  {
    assert forall x :: IsCurrent(g, x) <==> IsCurrent(g.(running := t, mt := mt'), x);
  }

  lemma RootsOnlySound(g: G, t: Ref, mt': seq<Option<Ref>>)
    requires Sound(g) && t in g.objs && g.objs[t].Thread? && t in Alive(g.marked, g.cw) &&
      MtIn(mt', Alive(g.marked, g.cw))
    ensures Sound(g.(running := t, mt := mt'))
  {
  }

  lemma RootsInv(g: G, t: Ref, mt': seq<Option<Ref>>)
    requires Inv(g) && t in g.objs && g.objs[t].Thread? && t in Alive(g.marked, g.cw) &&
      MtIn(mt', Alive(g.marked, g.cw))
    ensures Inv(g.(running := t, mt := mt'))
  {
    hide Inv, Base, Lists, Sound, Fin, PhaseOk, Alive;
    InvParts(g);
    RootsOnlyLists(g, t, mt');
    RootsOnlyPhase(g, t, mt');
    RootsOnlySound(g, t, mt');
    CoreInv(g.(running := t, mt := mt'));
  }

  // ---- searching the list of open upvalues ----

  lemma RunningUps(g: G)
    requires Inv(g)
    ensures g.running in g.objs && g.objs[g.running].Thread? && g.running in g.marked &&
      !IsDead(g.marked[g.running], g.cw)
    ensures var ups := g.objs[g.running].openupval;
      && (forall i :: 0 <= i < |ups| ==> ups[i] in g.objs && ups[i] in g.marked && g.objs[ups[i]].IsOpen() && g.objs[ups[i]].cell.thread == g.running)
      && (forall i, j :: 0 <= i < j < |ups| ==> g.objs[ups[i]].cell.level > g.objs[ups[j]].cell.level)
  {
    assert ThreadOk(g.objs, g.running);
  }

  /** Where the search stops is the place for a new upvalue, or the one looked for. */
  lemma GapHere(g: G, k: nat, level: nat)
    requires Inv(g) && g.running in g.objs && g.objs[g.running].Thread? && level < |g.objs[g.running].stack|
    requires var ups := g.objs[g.running].openupval;
      && k <= |ups| && (forall i :: 0 <= i < |ups| ==> ups[i] in g.objs && g.objs[ups[i]].IsOpen())
      && (forall i :: 0 <= i < k ==> g.objs[ups[i]].cell.level > level)
      && (k < |ups| ==> g.objs[ups[k]].cell.level < level)
    ensures Gap(g.objs, g.running, k, level)
  {
    RunningUps(g);
  }

  lemma FoundUp(g: G, k: nat)
    requires Inv(g) && g.running in g.objs && g.objs[g.running].Thread? && k < |g.objs[g.running].openupval|
    ensures var u := g.objs[g.running].openupval[k];
      u in g.objs && u in g.marked && g.objs[u].IsOpen() && UpLive(g.objs, g.objs[u], Alive(g.marked, g.cw))
  {
    RunningUps(g);
    assert RefsIn(g.objs, g.objs[g.running], Alive(g.marked, g.cw));
  }

  lemma AddedAlive(marked: Marks, cw: bool, r: Ref)
    requires r !in marked
    ensures Alive(marked, cw) <= Alive(marked[r := FreshMark(cw)], cw) && r in Alive(marked[r := FreshMark(cw)], cw)
  {
  }

  lemma ResurrectAlive(g: G, r: Ref)
    requires r in g.marked
    ensures Alive(g.marked, g.cw) <= Alive(Kept(g, r).marked, g.cw) && r in Alive(Kept(g, r).marked, g.cw)
  {
  }

  // ---- what closing keeps ----

  /** luaF_close after n rounds: the first n upvalues are off the list, each from its level up. */
  ghost predicate ClosedTo(h0: Heap, h: Heap, t: Ref, n: nat, level: nat) {
    && t in h0 && h0[t].Thread? && t in h && n <= |h0[t].openupval| && h[t] == h0[t].(openupval := h0[t].openupval[n..])
    && (forall i :: n <= i < |h0[t].openupval| ==> StillOpen(h0, h, h0[t].openupval[i]))
    && (forall i :: 0 <= i < n ==> ClosedAbove(h0, h, t, h0[t].openupval[i], level))
    && (forall x :: x in h0 && x != t && x !in h0[t].openupval ==> x in h && h[x] == h0[x])
  }

  ghost predicate StillOpen(h0: Heap, h: Heap, u: Ref) { u in h0 && u in h && h[u] == h0[u] }

  /** An upvalue at or above the level, closed on the value of its slot if it has not been freed. */
  ghost predicate ClosedAbove(h0: Heap, h: Heap, t: Ref, u: Ref, level: nat) {
    u in h0 && h0[u].IsOpen() && h0[u].cell.level >= level &&
      (u in h ==> h[u] == UpVal(Closed(UpValue(h0, h0[u].cell))))
  }

  lemma CloseBegins(g: G, level: nat)
    requires Inv(g)
    ensures ClosedTo(g.objs, g.objs, g.running, 0, level)
  {
    RunningUps(g);
  }

  lemma ClosedMore(g: G, h: Heap, h': Heap, n: nat, level: nat)
    requires Inv(g) && ClosedTo(g.objs, h, g.running, n, level) && n < |g.objs[g.running].openupval| &&
      TopClosed(h, h', g.running)
    requires var u := g.objs[g.running].openupval[n]; u in h && h[u].IsOpen() && h[u].cell.level >= level
    ensures ClosedTo(g.objs, h', g.running, n + 1, level)
  {
    hide Inv;
    RunningUps(g);
    UpsApart(g);
    var t, ups := g.running, g.objs[g.running].openupval;
    assert h[t].openupval[0] == ups[n];
    assert StillOpen(g.objs, h, ups[n]);
    forall i | n + 1 <= i < |ups| ensures StillOpen(g.objs, h', ups[i]) { assert StillOpen(g.objs, h, ups[i]); }
    forall i | 0 <= i < n + 1 ensures ClosedAbove(g.objs, h', t, ups[i],
      level) { if i < n { assert ClosedAbove(g.objs, h, t, ups[i], level); } }
  }

  lemma ClosedFacts(h0: Heap, h: Heap, t: Ref, n: nat, level: nat)
    requires ClosedTo(h0, h, t, n, level)
    ensures t in h0 && h0[t].Thread? && t in h && h[t].Thread? && n <= |h0[t].openupval| &&
      h[t].openupval == h0[t].openupval[n..] && h[t].stack == h0[t].stack
  {
  }

  lemma UpsApart(g: G)
    requires Inv(g)
    ensures g.running in g.objs && g.objs[g.running].Thread? && g.running !in g.objs[g.running].openupval
    ensures forall i, j :: 0 <= i < j < |g.objs[g.running].openupval| ==>
      g.objs[g.running].openupval[i] != g.objs[g.running].openupval[j]
  {
    RunningUps(g);
  }

  lemma TopUp(g: G)
    requires Inv(g) && g.running in g.objs && g.objs[g.running].Thread? && g.objs[g.running].openupval != []
    ensures var u := g.objs[g.running].openupval[0];
      && u in g.objs && u in g.marked && g.objs[u].IsOpen() && g.objs[u].cell.thread == g.running && u != g.running &&
        g.running in g.marked
      && (!IsDead(g.marked[u], g.cw) && g.phase != Propagate && !g.marked[u].color.Gray? ==> IsCurrent(g, u))
      && Core(g) && !g.marked[u].fixed
  {
    FirstUp(g, g.running);
    UpNotFixed(g, g.objs[g.running].openupval[0]);
  }
}
