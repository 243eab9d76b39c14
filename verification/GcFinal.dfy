/** Calling one finalizer: the userdata goes back to rootgc, white again, and onto the stack of the running thread. */
module GcFinal {
  import opened Common
  import opened GcHeap
  import opened GcInv
  import opened GcLists
  import opened GcState
  import opened GcSweep

  function Push(objs: Heap, t: Ref, v: Value): Heap
    requires t in objs && objs[t].Thread?
  {
    objs[t := objs[t].(stack := objs[t].stack + [v])]
  }

  /** GCTM has a userdata to finalize, and a stack to do it on. */
  ghost predicate FinalizeReady(g: G) {
    && g.tm != [] && g.tm[0] in g.objs && g.objs[g.tm[0]].Udata? && g.tm[0] in g.marked && g.mainidx < |g.rootgc|
    && g.running in g.objs && g.objs[g.running].Thread?
  }

  /** ... whose metatable has a finalizer. */
  ghost predicate Finalizes(g: G) { FinalizeReady(g) && HasGc(g.objs, g.objs[g.tm[0]].mt) }

  /** GCTM on the first element of tmudata. */
  ghost function Finalize1(g: G): G
    requires FinalizeReady(g)
  {
    var o := g.tm[0];
    var g1 := g.(tm := g.tm[1..], rootgc := g.rootgc[..g.mainidx + 1] + [o] + g.rootgc[g.mainidx + 1..],
                 marked := g.marked[o := g.marked[o].(color := White(g.cw))]);
    g1.(called := if HasGc(g.objs, g.objs[o].mt) then g.called + [o] else g.called,
        objs := if HasGc(g.objs, g.objs[o].mt) then Push(g.objs, g.running, Gc(o)) else g.objs)
  }

  /** The same without the call of the finalizer. */
  ghost function ReturnedWhite(g: G): G
    requires g.tm != [] && g.tm[0] in g.marked && g.mainidx < |g.rootgc|
  {
    var o := g.tm[0];
    g.(tm := g.tm[1..], rootgc := g.rootgc[..g.mainidx + 1] + [o] + g.rootgc[g.mainidx + 1..],
       marked := g.marked[o := g.marked[o].(color := White(g.cw))])
  }

  lemma FinalizeIs(g: G)
    requires g.tm != [] && g.tm[0] in g.objs && g.objs[g.tm[0]].Udata? && g.tm[0] in g.marked && g.mainidx < |g.rootgc|
    requires g.running in g.objs && g.objs[g.running].Thread?
    ensures var has, o := HasGc(g.objs, g.objs[g.tm[0]].mt), g.tm[0];
      Finalize1(g) == ReturnedWhite(g).(called := if has then g.called + [o] else g.called, objs := if has
        then Push(g.objs, g.running, Gc(o)) else g.objs)
  {
  }

  lemma TmFirst(g: G)
    requires Core(g) && g.tm != []
    ensures g.tm[0] in g.objs && g.objs[g.tm[0]].Udata? && g.tm[0] in g.marked && g.mainidx < |g.rootgc|
    ensures g.running in g.objs && g.objs[g.running].Thread? && g.tm[0] !in g.rootgc && g.tm[0] !in g.tm[1..] &&
      g.tm[0] !in g.called
    ensures !IsDead(g.marked[g.tm[0]], g.cw) && g.marked[g.tm[0]].bit3
  {
    assert g.tm[0] in g.tm;
    NoDupTail(g.tm);
    assert g.tm[0] in Alive(g.marked, g.cw);
  }

  /** The userdata moves from tmudata to just after the main thread. */
  ghost function Returned(g: G): G
    requires g.tm != [] && g.mainidx < |g.rootgc|
  {
    g.(tm := g.tm[1..], rootgc := g.rootgc[..g.mainidx + 1] + [g.tm[0]] + g.rootgc[g.mainidx + 1..])
  }

  lemma InsertedMembers(s: seq<Ref>, n: nat, r: Ref)
    requires NoDup(s) && n <= |s| && r !in s
    ensures var t := s[..n] + [r] + s[n..];
      && NoDup(t) && (forall x :: x in t <==> x in s || x == r)
      && (forall i :: 0 <= i < |t| ==> t[i] == if i < n then s[i] else if i == n then r else s[i - 1])
  {
    var t := s[..n] + [r] + s[n..];
    forall x | x in s ensures x in t
    {
      var i :| 0 <= i < |s| && s[i] == x;
      assert t[if i < n then i else i + 1] == x;
    }
  }

  lemma RootParts(g: G)
    requires Lists(g)
    ensures NoDup(g.rootgc) && NoDup(g.tm) && g.mainidx < |g.rootgc|
  {
  }

  lemma ReturnedLists(g: G)
    requires Lists(g) && g.tm != [] && g.tm[0] in g.objs && g.objs[g.tm[0]].Udata? && g.tm[0] !in g.rootgc &&
      g.tm[0] !in g.tm[1..]
    ensures Lists(Returned(g))
  {
    hide ThreadsOk, StringsOk, UvheadOk, Owner, RootOk, MainOk;
    var o := g.tm[0];
    assert g.tm == [o] + g.tm[1..];
    RootParts(g);
    ReturnedRoot(g.objs, g.rootgc, g.mainidx, g.mainthread, g.tm);
    var rootgc' := g.rootgc[..g.mainidx + 1] + [o] + g.rootgc[g.mainidx + 1..];
    InsertedMembers(g.rootgc, g.mainidx + 1, o);
    OwnersMove(g, rootgc', g.tm[1..]);
  }

  lemma ReturnedRoot(objs: Heap, rootgc: seq<Ref>, mainidx: nat, mainthread: Ref, tm: seq<Ref>)
    requires RootOk(objs, rootgc, tm) && MainOk(objs, rootgc, mainidx, mainthread) && tm != []
    requires tm[0] in objs && objs[tm[0]].Udata? && tm[0] !in rootgc && tm[0] !in tm[1..]
    ensures var s := rootgc[..mainidx + 1] + [tm[0]] + rootgc[mainidx + 1..];
      RootOk(objs, s, tm[1..]) && MainOk(objs, s, mainidx, mainthread)
  {
    InsertedMembers(rootgc, mainidx + 1, tm[0]);
    NoDupTail(tm);
    var s := rootgc[..mainidx + 1] + [tm[0]] + rootgc[mainidx + 1..];
    assert RootOk(objs, s, tm[1..]);
  }

  lemma ReturnedFin(g: G)
    requires Fin(g) && g.tm != [] && g.tm[0] in g.marked && g.marked[g.tm[0]].bit3 && g.tm[0] !in g.tm[1..] &&
      g.tm[0] !in g.called
    ensures Fin(Returned(g))
  {
    var us := g.rootgc[g.mainidx + 1..];
    var g' := Returned(g);
    assert g'.rootgc[g.mainidx + 1..] == [g.tm[0]] + us;
  }

  lemma ReturnedSound(g: G)
    requires Base(g) && Sound(g) && g.tm != [] && g.mainidx < |g.rootgc|
    ensures Base(Returned(g)) && Sound(Returned(g))
  {
  }

  /** Pushing a live value on the running thread. */
  lemma PushSound(g: G, t: Ref, v: Value)
    requires Base(g) && Sound(g) && Lists(g) && t in g.objs && g.objs[t].Thread? && Ok(v, Alive(g.marked, g.cw))
    ensures var g' := g.(objs := Push(g.objs, t, v)); Base(g') && Sound(g')
  {
    hide RefsIn, Alive, Lists, BlackOk;
    PushBlack(g, t, v);
    var g' := g.(objs := Push(g.objs, t, v));
    var A := Alive(g.marked, g.cw);
    forall x | x in g'.objs && x in A ensures RefsIn(g'.objs, g'.objs[x], A)
    {
      assert RefsIn(g.objs, g.objs[x], A);
      PushRefs(g, t, v, x, A);
    }
  }

  lemma PushBlack(g: G, t: Ref, v: Value)
    requires BlackOk(g.objs, g.marked) && t in g.objs && g.objs[t].Thread?
    ensures BlackOk(Push(g.objs, t, v), g.marked)
  {
  }

  lemma PushRefs(g: G, t: Ref, v: Value, x: Ref, A: set<Ref>)
    requires Lists(g) && t in g.objs && g.objs[t].Thread? && x in g.objs && RefsIn(g.objs, g.objs[x], A) && Ok(v, A)
    ensures RefsIn(Push(g.objs, t, v), Push(g.objs, t, v)[x], A)
  {
    if g.objs[x].IsOpen() { assert Owner(g.objs, g.rootgc, g.strt, g.tm, x) &&
      ThreadOk(g.objs, g.objs[x].cell.thread); }
  }

  lemma PushLists(g: G, t: Ref, v: Value)
    requires Lists(g) && t in g.objs && g.objs[t].Thread?
    ensures Lists(g.(objs := Push(g.objs, t, v)))
  {
    hide ThreadOk, Owner;
    var objs' := Push(g.objs, t, v);
    forall x | x in objs' && objs'[x].Thread? ensures ThreadOk(objs', x) { PushThread(g.objs, t, v, x); }
    forall x | x in objs' ensures Owner(objs', g.rootgc, g.strt, g.tm, x) { PushOwner(g, t, v, x); }
  }

  lemma PushThread(objs: Heap, t: Ref, v: Value, x: Ref)
    requires t in objs && objs[t].Thread? && x in objs && objs[x].Thread? && ThreadOk(objs, x)
    ensures ThreadOk(Push(objs, t, v), x)
  {
  }

  lemma PushOwner(g: G, t: Ref, v: Value, x: Ref)
    requires t in g.objs && g.objs[t].Thread? && x in g.objs && Owner(g.objs, g.rootgc, g.strt, g.tm, x)
    ensures Owner(Push(g.objs, t, v), g.rootgc, g.strt, g.tm, x)
  {
  }

  lemma PushFin(g: G, t: Ref, v: Value)
    requires Fin(g) && t in g.objs && g.objs[t].Thread?
    ensures Fin(g.(objs := Push(g.objs, t, v)))
  {
  }

  lemma FinalizeInv(g: G)
    requires Inv(g) && g.phase == Finalize && g.tm != []
    requires g.tm[0] in g.objs && g.objs[g.tm[0]].Udata? && g.tm[0] in g.marked && g.mainidx < |g.rootgc|
    requires g.running in g.objs && g.objs[g.running].Thread?
    ensures Inv(Finalize1(g))
  {
    hide Base, Lists, Sound, Fin, RestOk, HasGc;
    TmFirst(g);
    var o := g.tm[0];
    ReturnedLists(g);
    ReturnedFin(g);
    ReturnedSound(g);
    var g1 := Returned(g);
    KeepOne(g1, o);
    var g2 := Kept(g1, o);
    ReturnedRest(g);
    if HasGc(g.objs, g.objs[o].mt) {
      FinalizeCalled(g2, o);
      var g3 := g2.(called := g.called + [o]);
      AliveNow(g3, o);
      PushSound(g3, g.running, Gc(o));
      PushLists(g3, g.running, Gc(o));
      PushFin(g3, g.running, Gc(o));
      PushRest(g3, g.running, Gc(o));
    }
  }

  lemma ReturnedRest(g: G)
    requires RestOk(g) && g.tm != [] && g.tm[0] in g.marked && g.mainidx < |g.rootgc|
    ensures RestOk(Kept(Returned(g), g.tm[0]))
  {
  }

  lemma FinalizeCalled(g: G, o: Ref)
    requires Base(g) && Lists(g) && Sound(g) && Fin(g) && RestOk(g) && o in g.objs && g.objs[o].Udata? &&
      o in g.marked && g.marked[o].bit3 && o !in g.tm && o !in g.called
    ensures var g' := g.(called := g.called + [o]); Base(g') && Lists(g') && Sound(g') && Fin(g') && RestOk(g')
  {
  }

  lemma AliveNow(g: G, o: Ref)
    requires o in g.marked && g.marked[o].color == White(g.cw)
    ensures Ok(Gc(o), Alive(g.marked, g.cw))
  {
  }

  lemma PushRest(g: G, t: Ref, v: Value)
    requires RestOk(g) && t in g.objs && g.objs[t].Thread?
    ensures RestOk(g.(objs := Push(g.objs, t, v)))
  {
  }

  lemma FinalizeDark(g: G)
    requires Inv(g) && FinalizeReady(g)
    ensures TmBlack(g) ==> TmBlack(Finalize1(g))
  {
    TmFirst(g);
    forall r | r in Finalize1(g).tm && TmBlack(g)
      ensures r in NonWhite(Finalize1(g).marked) { assert r in SetOf(g.tm); }
  }

  lemma FinalizeFacts(g: G)
    requires Inv(g) && g.phase == Finalize && g.tm != []
    ensures g.tm[0] in g.objs && g.objs[g.tm[0]].Udata? && g.tm[0] in g.marked && g.mainidx < |g.rootgc|
    ensures g.running in g.objs && g.objs[g.running].Thread? && g.tm[0] !in g.called
    ensures NothingLiveFreed(g, Finalize1(g)) && Finalize1(g).objs.Keys == g.objs.Keys
  {
    TmFirst(g);
  }
}
