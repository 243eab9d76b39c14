/** What a store, a barrier or an allocation does to the invariant, in whatever phase the collector is. */
module GcMutator {
  import opened Common
  import opened GcHeap
  import opened GcInv
  import opened GcLists
  import opened GcState
  import opened GcSweep

  // ---- stores ----

  /** An object may be overwritten by another of its kind; its place on the lists does not change. */
  predicate SameShape(o: Obj, o': Obj) {
    match o
    case Str(_) => false
    case Udata(_, _) => o'.Udata?
    case UpVal(c) => c.Closed? && o'.UpVal? && o'.cell.Closed?
    case CClosure(_, _) => o'.CClosure?
    case LClosure(_, _, _) => o'.LClosure?
    case Table(_, _, _, _, _) => o'.Table?
    case Thread(_, _, ups) => o'.Thread? && o'.openupval == ups
    case Proto(_, _, _, _) => o'.Proto?
  }

  /** ... and a stack only shrinks to above its open upvalues. */
  predicate LevelsIn(objs: Heap, o: Obj) {
    o.Thread? ==> forall i :: 0 <= i < |o.openupval| ==>
      (o.openupval[i] in objs && objs[o.openupval[i]].IsOpen() ==> objs[o.openupval[i]].cell.level < |o.stack|)
  }

  ghost predicate MayStore(g: G, r: Ref, o': Obj) {
    && r in g.objs && r in g.marked && !IsDead(g.marked[r], g.cw)
    && SameShape(g.objs[r], o') && LevelsIn(g.objs, o') && ObjLive(o', Alive(g.marked, g.cw))
  }

  ghost function Stored(g: G, r: Ref, o': Obj): G {
    g.(objs := g.objs[r := o'])
  }

  lemma StoreCore(g: G, r: Ref, o': Obj)
    requires Core(g) && MayStore(g, r, o')
    ensures Core(Stored(g, r, o'))
  {
    StoreLists(g, r, o');
    StoreSound(g, r, o');
    hide Lists, Sound;
  }

  lemma StoreLists(g: G, r: Ref, o': Obj)
    requires Lists(g) && r in g.objs && SameShape(g.objs[r], o') && LevelsIn(g.objs, o')
    ensures Lists(Stored(g, r, o'))
  {
    hide ThreadOk, Owner, LevelsIn;
    var g' := Stored(g, r, o');
    forall t | t in g'.objs && g'.objs[t].Thread? ensures ThreadOk(g'.objs, t) { StoreThread(g, r, o', t); }
    forall x | x in g'.objs ensures Owner(g'.objs, g'.rootgc, g'.strt, g'.tm, x) { StoreOwner(g, r, o', x); }
  }

  lemma StoreOwner(g: G, r: Ref, o': Obj, x: Ref)
    requires x in g.objs && Owner(g.objs, g.rootgc, g.strt, g.tm, x) && r in g.objs && SameShape(g.objs[r], o')
    ensures Owner(g.objs[r := o'], g.rootgc, g.strt, g.tm, x)
  {
  }

  lemma StoreThread(g: G, r: Ref, o': Obj, t: Ref)
    requires Lists(g) && r in g.objs && SameShape(g.objs[r], o') && LevelsIn(g.objs, o') && t in g.objs &&
      g.objs[r := o'][t].Thread?
    ensures ThreadOk(g.objs[r := o'], t)
  {
    assert ThreadOk(g.objs, t);
    var ups := g.objs[t].openupval;
    forall i | 0 <= i < |ups| ensures ups[i] != r {}
  }

  lemma StoreSound(g: G, r: Ref, o': Obj)
    requires Base(g) && Sound(g) && Lists(g) && MayStore(g, r, o')
    ensures Base(Stored(g, r, o')) && Sound(Stored(g, r, o'))
  {
    var g' := Stored(g, r, o');
    var A := Alive(g.marked, g.cw);
    forall x | x in g'.objs && x in A ensures RefsIn(g'.objs, g'.objs[x], A)
    {
      assert RefsIn(g.objs, g.objs[x], A);
      if x != r && g.objs[x].IsOpen() { OpenSlot(g, r, o', x); }
    }
  }

  /** The slot an open upvalue names is still there after the store. */
  lemma OpenSlot(g: G, r: Ref, o': Obj, x: Ref)
    requires Lists(g) && Sound(g) && MayStore(g, r, o') && x in g.objs && x != r && g.objs[x].IsOpen() &&
      x in Alive(g.marked, g.cw)
    ensures UpLive(g.objs[r := o'], g.objs[x], Alive(g.marked, g.cw))
  {
    assert RefsIn(g.objs, g.objs[x], Alive(g.marked, g.cw));
  }

  /** Outside the marking phase a store needs no barrier. */
  lemma StorePhase(g: G, r: Ref, o': Obj)
    requires Inv(g) && g.phase != Propagate && MayStore(g, r, o')
    ensures Inv(Stored(g, r, o'))
  {
    hide Inv, Core, MayStore;
    InvParts(g);
    StorePlace(g, r, o');
    StoreCore(g, r, o');
    StorePhaseOk(g, r, o');
    CoreInv(Stored(g, r, o'));
  }

  lemma InvParts(g: G)
    requires Inv(g)
    ensures Core(g) && PhaseOk(g)
  {
  }

  lemma StorePhaseOk(g: G, r: Ref, o': Obj)
    requires PhaseOk(g) && g.phase != Propagate && r in g.objs && SameShape(g.objs[r], o')
    ensures PhaseOk(Stored(g, r, o'))
  {
    var g' := Stored(g, r, o');
    assert forall x :: IsCurrent(g, x) <==> IsCurrent(g', x);
  }

  /** In the marking phase the object is left to be looked at again, unless nobody relies on it. */
  lemma StoreMark(g: G, r: Ref, o': Obj, todo: set<Ref>)
    requires MarkInv(g.objs, g.marked, g.cw, g.gray, g.again, g.weak, todo) && MayStore(g, r, o') && Lists(g)
    requires SetOf(g.uvhead) + SetOf(g.again) <= todo
    ensures MarkInv(g.objs[r := o'], g.marked, g.cw, g.gray, g.again, g.weak, todo + {r})
    ensures g.marked[r].color.White? || r in g.gray || r in todo ==>
      MarkInv(g.objs[r := o'], g.marked, g.cw, g.gray, g.again, g.weak, todo)
  {
    hide Tri, LiveClosed, Lists, ListsOk, GrayListed, BlackOk, NoneDead, Shape, LevelsIn, ObjLive;
    StoreClosed(g, r, o', todo);
    StoreTri(g, r, o', todo);
    StoreListed(g, r, o');
  }

  lemma StoreListed(g: G, r: Ref, o': Obj)
    requires Shape(g.objs, g.marked) && ListsOk(g.objs, g.marked, g.gray, g.again, g.weak)
    requires GrayListed(g.objs, g.marked, g.gray, g.again, g.weak) && BlackOk(g.objs, g.marked)
    requires r in g.objs && SameShape(g.objs[r], o')
    ensures var objs' := g.objs[r := o'];
      && Shape(objs', g.marked) && ListsOk(objs', g.marked, g.gray, g.again, g.weak)
      && GrayListed(objs', g.marked, g.gray, g.again, g.weak) && BlackOk(objs', g.marked)
  {
    assert g.objs[r := o'].Keys == g.objs.Keys;
  }

  lemma StoreClosed(g: G, r: Ref, o': Obj, todo: set<Ref>)
    requires MarkInv(g.objs, g.marked, g.cw, g.gray, g.again, g.weak, todo) && MayStore(g, r, o') && Lists(g)
    ensures LiveClosed(g.objs[r := o'], g.objs[r := o'].Keys)
  {
    hide ListsOk, GrayListed, BlackOk, Tri;
    var objs' := g.objs[r := o'];
    assert Alive(g.marked, g.cw) == g.objs.Keys;
    assert objs'.Keys == g.objs.Keys;
    forall x | x in objs' ensures RefsIn(objs', objs'[x], objs'.Keys)
    {
      assert RefsIn(g.objs, g.objs[x], g.objs.Keys);
    }
  }

  lemma StoreTri(g: G, r: Ref, o': Obj, todo: set<Ref>)
    requires MarkInv(g.objs, g.marked, g.cw, g.gray, g.again, g.weak, todo) && MayStore(g, r, o') && Lists(g)
    requires SetOf(g.uvhead) + SetOf(g.again) <= todo
    ensures Tri(g.objs[r := o'], g.marked, g.gray, todo + {r})
    ensures g.marked[r].color.White? || r in g.gray || r in todo ==> Tri(g.objs[r := o'], g.marked, g.gray, todo)
  {
    var objs' := g.objs[r := o'];
    forall x | x in objs' && x in g.marked && !g.marked[x].color.White? && x !in g.gray && x !in todo && x != r
      ensures Covered(objs', objs'[x], g.marked[x], NonWhite(g.marked))
    {
      assert Covered(g.objs, g.objs[x], g.marked[x], NonWhite(g.marked));
      assert !g.objs[x].IsOpen();
    }
  }

  /**
   o' refers to nothing that o does not, but k and v; when k is given it is a key, in place already
   if o is a covered table.
   */
  ghost predicate Adds(o: Obj, o': Obj, k: Value, v: Value) {
    && SameShape(o, o')
    && (forall S :: ObjLive(o, S) ==> ObjLive(o', S + RefOf(k) + RefOf(v)))
    && (if o.Table? then forall S :: TableCovered(o, false, false, S) ==> TableCovered(o', false, false, S + RefOf(v))
        else k == Nil)
  }

  lemma AddsMay(g: G, r: Ref, o': Obj, k: Value, v: Value)
    requires Inv(g) && r in g.objs && r in g.marked && !IsDead(g.marked[r], g.cw) && Adds(g.objs[r], o', k, v) &&
      LevelsIn(g.objs, o')
    requires Ok(k, Alive(g.marked, g.cw)) && Ok(v, Alive(g.marked, g.cw))
    ensures MayStore(g, r, o')
  {
    hide Alive;
    var A := Alive(g.marked, g.cw);
    assert r in A by { InAlive(g, r); }
    assert RefsIn(g.objs, g.objs[r], A);
    assert A + RefOf(k) + RefOf(v) == A;
  }

  lemma InAlive(g: G, r: Ref)
    requires r in g.marked && !IsDead(g.marked[r], g.cw)
    ensures r in Alive(g.marked, g.cw)
  {
  }

  /** A black object off the lists is covered, so after the store it is covered but for v. */
  lemma AddsCovered(g: G, r: Ref, o': Obj, k: Value, v: Value)
    requires Inv(g) && g.phase == Propagate && r in g.objs && r in g.marked && g.marked[r].color.Black? && r !in g.tm
    requires Adds(g.objs[r], o', k, v)
    ensures CoveredBut(g, o', v)
  {
    hide Inv, NonWhite, Covered, ObjLive, TableCovered;
    BlackCovered(g, r);
    CoveredStill(g.objs, g.objs[r], o', g.marked[r], k, v, NonWhite(g.marked));
  }

  lemma CoveredStill(objs: Heap, o: Obj, o': Obj, m: Mark, k: Value, v: Value, S: set<Ref>)
    requires Covered(objs, o, m, S) && m.color.Black? && Adds(o, o', k, v)
    ensures if o'.Table? then TableCovered(o', false, false, S + RefOf(v)) else ObjLive(o', S + RefOf(v))
  {
    hide ObjLive, TableCovered, RefOf;
    if !o.Table? {
      NilRef();
      assert ObjLive(o, S);
      assert S + RefOf(Nil) + RefOf(v) == S + RefOf(v);
    }
  }

  lemma NilRef()
    ensures RefOf(Nil) == {}
  {
  }

  lemma BlackClosed(g: G, r: Ref)
    requires Base(g) && Lists(g) && r in g.objs && r in g.marked && g.marked[r].color.Black?
    ensures r !in g.uvhead
  {
  }

  lemma BlackCovered(g: G, r: Ref)
    requires Inv(g) && g.phase == Propagate && r in g.objs && r in g.marked && g.marked[r].color.Black? && r !in g.tm
    ensures Covered(g.objs, g.objs[r], g.marked[r], NonWhite(g.marked))
  {
    hide Covered, Sound, Fin, Base, Lists, ListsOk, GrayListed, BlackOk, Shape, NoneDead, LiveClosed;
    BlackUnlisted(g.objs, g.marked, g.cw, g.gray, g.again, g.weak, Todo(g), r);
    BlackClosed(g, r);
    assert r !in Todo(g);
  }

  // ---- barriers ----

  /** makewhite outside the marking phase. */
  lemma KeepInv(g: G, r: Ref)
    requires Inv(g) && g.phase != Propagate && r in g.objs && r in g.marked && !IsDead(g.marked[r], g.cw)
    ensures Inv(Kept(g, r))
  {
    var g' := Kept(g, r);
    KeepOne(g, r);
    hide Core, Base, Lists, Sound, Fin;
    if g.phase == SweepString { CurrentStrings(g, g', g.sweepstr); }
    if g.phase == Sweep { MoreCurrent(g, g', |g.strt|, g.sweepgc); }
    CoreInv(g');
  }

  lemma CurrentStrings(g: G, g': G, n: nat)
    requires StringsSwept(g, n) && g'.strt == g.strt && forall x :: IsCurrent(g, x) ==> IsCurrent(g', x)
    ensures StringsSwept(g', n)
  {
  }

  /** black2gray on a table, put on the grayagain list. */
  ghost function Regrayed(g: G, t: Ref): G
    requires t in g.marked
  {
    g.(marked := g.marked[t := g.marked[t].(color := Gray)], again := [t] + g.again)
  }

  /** luaC_barrierback outside the marking phase: harmless, for the table has not been swept. */
  lemma RegrayInv(g: G, t: Ref)
    requires Inv(g) && g.phase != Propagate && t in g.objs && g.objs[t].Table? && t in g.marked &&
      g.marked[t].color.Black?
    ensures Inv(Regrayed(g, t))
  {
    var g' := Regrayed(g, t);
    RegrayCore(g, t);
    hide Core, Base, Fin, Sound, Owned, MainOk, StringsSwept, RootSwept;
    if g.phase == Pause || g.phase == Finalize { RestBlack(g, t); }
    RegraySwept(g, t);
    assert PhaseOk(g');
    CoreInv(g');
  }

  lemma RestBlack(g: G, t: Ref)
    requires Lists(g) && RestOk(g) && t in g.objs && g.objs[t].Table? && t in g.marked
    ensures g.marked[t].color.White?
  {
  }

  lemma RegraySwept(g: G, t: Ref)
    requires t in g.marked && g.marked[t].color.Black?
    ensures forall n :: (StringsSwept(g, n) ==> StringsSwept(Regrayed(g, t), n)) && (RootSwept(g, n) ==>
      RootSwept(Regrayed(g, t), n))
  {
    assert forall x :: IsCurrent(g, x) ==> IsCurrent(Regrayed(g, t), x);
  }

  lemma RegrayCore(g: G, t: Ref)
    requires Core(g) && t in g.objs && g.objs[t].Table? && t in g.marked && g.marked[t].color.Black?
    ensures Core(Regrayed(g, t))
  {
    hide Base, Lists, Sound, Fin;
    RegrayAlive(g, t);
    RegraySound(g, t);
    RegrayBase(g, t);
    RegrayFin(g, t);
  }

  lemma RegrayAlive(g: G, t: Ref)
    requires t in g.marked && g.marked[t].color.Black?
    ensures Alive(Regrayed(g, t).marked, g.cw) == Alive(g.marked, g.cw)
  {
    assert Alive(Regrayed(g, t).marked, g.cw) == Alive(g.marked, g.cw);
  }

  lemma RegraySound(g: G, t: Ref)
    requires Sound(g) && t in g.marked && Alive(Regrayed(g, t).marked, g.cw) == Alive(g.marked, g.cw)
    ensures Sound(Regrayed(g, t)) && (Lists(g) ==> Lists(Regrayed(g, t)))
  {
  }

  lemma RegrayBase(g: G, t: Ref)
    requires Base(g) && t in g.objs && g.objs[t].Table? && t in g.marked
    ensures Base(Regrayed(g, t))
  {
  }

  lemma RegrayFin(g: G, t: Ref)
    requires Fin(g) && t in g.marked
    ensures Fin(Regrayed(g, t))
  {
    hide NewestFirst;
    NewestFirstFewer(g.marked, Regrayed(g, t).marked, g.rootgc[g.mainidx + 1..]);
  }

  function RefOf(v: Value): set<Ref> { if v.Gc? then {v.ref} else {} }

  /** Everything a black object refers to is marked already, except perhaps v: what a store of v must leave. */
  predicate CoveredBut(g: G, o': Obj, v: Value) {
    if o'.Table? then TableCovered(o', false, false, NonWhite(g.marked) + RefOf(v))
      else ObjLive(o', NonWhite(g.marked) + RefOf(v))
  }

  ghost function Todo(g: G): set<Ref> { PropagateTodo(g.uvhead, g.again, g.weak, g.tm) }

  /** The store, when nothing is left to do for the barrier. */
  lemma StoreQuiet(g: G, r: Ref, o': Obj, v: Value)
    requires Inv(g) && g.phase == Propagate && MayStore(g, r, o')
    requires g.marked[r].color.Black? && r !in g.tm ==> CoveredBut(g, o', v) && (v.Gc? ==> v.ref in NonWhite(g.marked))
    ensures Inv(Stored(g, r, o'))
  {
    hide Inv, Core, MarkInv, MayStore, CoveredBut, Lists, PropagateOk, NonWhite, Todo, Covered;
    var todo := Todo(g);
    MarkingParts(g);
    TodoParts(g);
    StorePlace(g, r, o');
    StoreMark(g, r, o', todo);
    StoreCore(g, r, o');
    if g.marked[r].color.Black? && r !in g.tm {
      QuietCovered(g, r, o', v);
      Shrink(g.objs[r := o'], g.marked, g.cw, g.gray, g.again, g.weak, todo, r);
    } else {
      TodoHas(g, r, o');
    }
    StoreInv(g, r, o');
  }

  lemma MarkingParts(g: G)
    requires Inv(g) && g.phase == Propagate
    ensures Core(g) && PropagateOk(g)
  {
  }

  lemma StorePlace(g: G, r: Ref, o': Obj)
    requires MayStore(g, r, o')
    ensures r in g.objs && r in g.marked && r in g.objs[r := o'] && SameShape(g.objs[r], o')
  {
  }

  lemma QuietCovered(g: G, r: Ref, o': Obj, v: Value)
    requires CoveredBut(g, o', v) && (v.Gc? ==> v.ref in NonWhite(g.marked))
    requires MayStore(g, r, o') && g.marked[r].color.Black? && PropagateOk(g)
    ensures Covered(g.objs[r := o'], o', g.marked[r], NonWhite(g.marked))
  {
    hide NonWhite;
    assert NonWhite(g.marked) + RefOf(v) == NonWhite(g.marked);
    NotOpen(g, r, o');
  }

  lemma NotOpen(g: G, r: Ref, o': Obj)
    requires MayStore(g, r, o')
    ensures !o'.IsOpen() && !g.objs[r].IsOpen()
  {
  }

  lemma TodoParts(g: G)
    requires Inv(g) && g.phase == Propagate
    ensures MarkInv(g.objs, g.marked, g.cw, g.gray, g.again, g.weak, Todo(g)) && Lists(g)
    ensures SetOf(g.uvhead) + SetOf(g.again) <= Todo(g)
  {
  }

  /** A white or gray object that may be stored into is either white or awaits another look. */
  lemma TodoHas(g: G, r: Ref, o': Obj)
    requires Inv(g) && g.phase == Propagate && MayStore(g, r, o')
    requires !g.marked[r].color.Black? || r in g.tm
    ensures g.marked[r].color.White? || r in g.gray || r in Todo(g)
  {
  }

  lemma StoreInv(g: G, r: Ref, o': Obj)
    requires Core(Stored(g, r, o')) && PropagateOk(g) && g.phase == Propagate
    requires MarkInv(g.objs[r := o'], g.marked, g.cw, g.gray, g.again, g.weak, Todo(g))
    ensures Inv(Stored(g, r, o'))
  {
    hide MarkInv, Base, Lists, Sound, Fin;
  }

  /** The store into a black table, and luaC_barrierback. */
  lemma StoreBack(g: G, t: Ref, o': Obj)
    requires Inv(g) && g.phase == Propagate && MayStore(g, t, o') && o'.Table? && g.marked[t].color.Black?
    ensures Inv(Regrayed(Stored(g, t, o'), t))
  {
    var todo := Todo(g);
    StoreMark(g, t, o', todo) by { TodoParts(g); }
    StoreCore(g, t, o');
    RegrayCore(Stored(g, t, o'), t);
    BlackUnlisted(g.objs[t := o'], g.marked, g.cw, g.gray, g.again, g.weak, todo + {t}, t);
    RegrayMark(g.objs[t := o'], g.marked, g.cw, g.gray, g.again, g.weak, todo, t);
    BackDone(g, t, o');
  }

  lemma BackDone(g: G, t: Ref, o': Obj)
    requires t in g.marked && g.marked[t].color.Black? && PropagateOk(g) && g.phase == Propagate
    requires Core(Regrayed(Stored(g, t, o'), t))
    requires var m' := g.marked[t := g.marked[t].(color := Gray)];
      NonWhite(m') == NonWhite(g.marked) && MarkInv(g.objs[t := o'], m', g.cw, g.gray, [t] + g.again, g.weak,
        Todo(g) + {t})
    ensures Inv(Regrayed(Stored(g, t, o'), t))
  {
    hide Core, MarkInv, NonWhite;
    var g' := Regrayed(Stored(g, t, o'), t);
    assert Todo(g) + {t} <= Todo(g');
    Widen(g'.objs, g'.marked, g.cw, g.gray, g'.again, g.weak, Todo(g) + {t}, Todo(g'));
    CoreInv(g');
  }

  lemma RegrayMark(objs: Heap, marked: Marks, cw: bool, gray: seq<Ref>, again: seq<Ref>, weak: seq<Ref>,
    todo: set<Ref>, t: Ref)
    requires MarkInv(objs, marked, cw, gray, again, weak, todo + {t})
    requires t in objs && objs[t].Table? && t in marked && marked[t].color.Black? && t !in gray && t !in again &&
      t !in weak
    ensures var m' := marked[t := marked[t].(color := Gray)];
      MarkInv(objs, m', cw, gray, [t] + again, weak, todo + {t}) && NonWhite(m') == NonWhite(marked)
  {
    var m' := marked[t := marked[t].(color := Gray)];
    NoDupCons(t, again);
    assert NonWhite(m') == NonWhite(marked);
  }

  /** The store into a black object, after luaC_barrierf has marked the value. */
  lemma StoreForward(g: G, r: Ref, o': Obj, v: Value, m': Marks, gray': seq<Ref>, K: set<Ref>)
    requires Inv(g) && g.phase == Propagate && MayStore(g, r, o') && !o'.Table? && g.marked[r].color.Black?
    requires r in g.tm || CoveredBut(g, o', v)
    requires MarkInv(g.objs[r := o'], m', g.cw, gray', g.again, g.weak, Todo(g) + {r})
    requires Grows(g.marked, m', K) && RefOf(v) <= NonWhite(m')
    ensures Inv(Stored(g, r, o').(marked := m', gray := gray'))
  {
    hide Inv, Core, MarkInv, MayStore, CoveredBut, Lists, PropagateOk, NonWhite, Grows, RefOf;
    var g1 := Stored(g, r, o');
    MarkingParts(g);
    StorePlace(g, r, o');
    StoreCore(g, r, o');
    if r in g.tm {
      assert Todo(g) + {r} == Todo(g);
    } else {
      ForwardCovered(g, r, o', v, m', K);
      ShrinkPlain(g1.objs, m', g.cw, gray', g.again, g.weak, Todo(g), r);
    }
    ForwardDone(g, g1, m', gray', K);
  }

  lemma ForwardCovered(g: G, r: Ref, o': Obj, v: Value, m': Marks, K: set<Ref>)
    requires MayStore(g, r, o') && !o'.Table? && !g.marked[r].color.White? && CoveredBut(g, o', v)
    requires Grows(g.marked, m', K) && RefOf(v) <= NonWhite(m')
    ensures r in m' && m'[r] == g.marked[r] && RefsIn(g.objs[r := o'], o', NonWhite(m'))
  {
    hide NonWhite;
    GrowsKeeps(g.marked, m', K, r);
    GrowsMore(g.marked, m', K);
    LiveMonotone(o', NonWhite(g.marked) + RefOf(v), NonWhite(m'));
    NotOpen(g, r, o');
  }

  lemma ForwardDone(g: G, g1: G, m': Marks, gray': seq<Ref>, K: set<Ref>)
    requires Core(g1) && PropagateOk(g) && g1 == g.(objs := g1.objs) && g.phase == Propagate
    requires Grows(g.marked, m', K) && MarkInv(g1.objs, m', g.cw, gray', g.again, g.weak, Todo(g))
    ensures Inv(g1.(marked := m', gray := gray'))
  {
    var g' := g1.(marked := m', gray := gray');
    MarksCore(g1, m', gray', K);
    GrowsMore(g.marked, m', K);
    hide Core, MarkInv, Grows;
    CoreInv(g');
  }

  /** Marking alone keeps the phase-independent part. */
  lemma MarksCore(g: G, m': Marks, gray': seq<Ref>, K: set<Ref>)
    requires Core(g) && Grows(g.marked, m', K) && MarkInv(g.objs, m', g.cw, gray', g.again, g.weak, Todo(g))
    ensures Core(g.(marked := m', gray := gray'))
  {
    MarksSound(g, m', gray', K);
    MarksFin(g, m', gray', K);
    hide Sound, Fin, Grows;
  }

  lemma MarksSound(g: G, m': Marks, gray': seq<Ref>, K: set<Ref>)
    requires Core(g) && Grows(g.marked, m', K) && MarkInv(g.objs, m', g.cw, gray', g.again, g.weak, Todo(g))
    ensures Base(g.(marked := m', gray := gray')) && Sound(g.(marked := m', gray := gray'))
  {
    assert Alive(m', g.cw) == g.objs.Keys;
    assert Alive(g.marked, g.cw) <= g.objs.Keys;
    forall i | 0 <= i < |g.mt| ensures OptOk(g.mt[i], g.objs.Keys) { assert OptOk(g.mt[i], Alive(g.marked, g.cw)); }
  }

  lemma MarksFin(g: G, m': Marks, gray': seq<Ref>, K: set<Ref>)
    requires Fin(g) && Grows(g.marked, m', K)
    ensures Fin(g.(marked := m', gray := gray'))
  {
    assert forall x :: Unfinalized(m', x) <==> Unfinalized(g.marked, x);
  }
}
