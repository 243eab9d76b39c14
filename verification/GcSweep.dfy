/** Steps that repaint, unlink or free one object: the sweep, and closing an upvalue. */
module GcSweep {
  import opened Common
  import opened GcHeap
  import opened GcInv
  import opened GcLists
  import opened GcState

  /** Everything but the phase-dependent part of the invariant. */
  ghost predicate Core(g: G) { Base(g) && Lists(g) && Sound(g) && Fin(g) }

  function Without(s: seq<Ref>, r: Ref): (t: seq<Ref>)
    ensures forall x :: x in t <==> x in s && x != r
    ensures NoDup(s) ==> NoDup(t)
  {
    if s == [] then []
    else
      assert s == [s[0]] + s[1..];
      assert NoDup(s) ==> NoDup(s[1..]) && s[0] !in s[1..];
      if s[0] == r then Without(s[1..], r) else [s[0]] + Without(s[1..], r)
  }

  function CutAt(s: seq<Ref>, i: nat): seq<Ref>
    requires i < |s|
  {
    s[..i] + s[i + 1..]
  }

  lemma CutMembers(s: seq<Ref>, i: nat)
    requires NoDup(s) && i < |s|
    ensures NoDup(CutAt(s, i)) && s[i] !in CutAt(s, i)
    ensures forall x :: x in CutAt(s, i) <==> x in s && x != s[i]
    ensures forall j :: 0 <= j < |s| - 1 ==> CutAt(s, i)[j] == if j < i then s[j] else s[j + 1]
  {
    var t := CutAt(s, i);
    forall x | x in s && x != s[i] ensures x in t
    {
      var j :| 0 <= j < |s| && s[j] == x;
      assert t[if j < i then j else j - 1] == x;
    }
  }

  /** makewhite on an object that may live on. */
  lemma KeepOne(g: G, r: Ref)
    requires Core(g) && r in g.objs && r in g.marked && (!IsDead(g.marked[r], g.cw) || g.marked[r].fixed)
    requires g.phase != Propagate
    ensures var g' := g.(marked := g.marked[r := g.marked[r].(color := White(g.cw))]);
      Core(g') && IsCurrent(g', r) && (forall x :: IsCurrent(g, x) ==> IsCurrent(g', x))
  {
    hide Base, Lists, Sound, Fin;
    KeepBase(g, r);
    KeepSound(g, r);
    KeepFin(g, r);
    var g' := g.(marked := g.marked[r := g.marked[r].(color := White(g.cw))]);
    assert Lists(g') by { KeepLists(g, g'.marked); }
  }

  lemma KeepBase(g: G, r: Ref)
    requires Base(g) && r in g.objs && r in g.marked
    ensures Base(g.(marked := g.marked[r := g.marked[r].(color := White(g.cw))]))
  {
  }

  lemma KeepLists(g: G, m: Marks)
    requires Lists(g)
    ensures Lists(g.(marked := m))
  {
  }

  lemma KeepFin(g: G, r: Ref)
    requires Fin(g) && r in g.marked
    ensures Fin(g.(marked := g.marked[r := g.marked[r].(color := White(g.cw))]))
  {
  }

  lemma KeepSound(g: G, r: Ref)
    requires Base(g) && Sound(g) && r in g.objs && r in g.marked && (!IsDead(g.marked[r], g.cw) || g.marked[r].fixed)
    ensures Sound(g.(marked := g.marked[r := g.marked[r].(color := White(g.cw))]))
  {
    var g' := g.(marked := g.marked[r := g.marked[r].(color := White(g.cw))]);
    var A, A' := Alive(g.marked, g.cw), Alive(g'.marked, g.cw);
    assert A <= A' <= A + {r};
    forall x | x in g.objs && x in A' ensures RefsIn(g.objs, g.objs[x], A')
    {
      if x in A { LiveMonotone(g.objs[x], A, A'); }
    }
    assert MtIn(g.mt, A');
  }

  // ---- freeing ----

  ghost function Removed(g: G, r: Ref): G {
    g.(objs := g.objs - {r}, marked := g.marked - {r})
  }

  /** Freeing an object that is dead and, if a thread, has no open upvalue, leaves every live reference valid. */
  lemma RemoveLive(g: G, r: Ref)
    requires Base(g) && Sound(g) && r in g.objs && IsDead(g.marked[r], g.cw)
    requires g.objs[r].Thread? ==> forall u :: u in g.objs && g.objs[u].IsOpen() ==> g.objs[u].cell.thread != r
    ensures Sound(Removed(g, r))
  {
    var g' := Removed(g, r);
    var A := Alive(g.marked, g.cw);
    assert Alive(g'.marked, g.cw) == A && r !in A;
    forall x | x in g'.objs && x in A ensures RefsIn(g'.objs, g'.objs[x], A)
    {
      assert RefsIn(g.objs, g.objs[x], A);
    }
  }

  lemma RemoveBase(g: G, r: Ref)
    requires Base(g) && r in g.objs && !g.marked[r].fixed
    ensures Base(Removed(g, r))
  {
  }

  lemma RemoveFin(g: G, r: Ref)
    requires Base(g) && Fin(g) && r in g.objs && r !in g.tm
    ensures Fin(Removed(g, r))
  {
    hide Base;
    assert forall x :: Unfinalized(g.marked - {r}, x) ==> Unfinalized(g.marked, x);
  }

  /** A string leaves its bucket and is freed. */
  ghost function StringGone(g: G, b: nat, i: nat): G
    requires b < |g.strt| && i < |g.strt[b]|
  {
    Removed(g.(strt := g.strt[b := CutAt(g.strt[b], i)]), g.strt[b][i])
  }

  lemma DropString(g: G, b: nat, i: nat)
    requires Core(g) && b < |g.strt| && i < |g.strt[b]|
    requires var r := g.strt[b][i]; r in g.marked && IsDead(g.marked[r], g.cw) && !g.marked[r].fixed
    ensures g.strt[b][i] in g.objs && Core(StringGone(g, b, i))
  {
    hide Base, Lists, Sound, Fin;
    var g1 := g.(strt := g.strt[b := CutAt(g.strt[b], i)]);
    var r := g.strt[b][i];
    DropStringLists(g, b, i);
    StrtOnly(g, g1.strt);
    RemoveLive(g1, r);
    RemoveBase(g1, r);
    RemoveFin(g1, r);
  }

  lemma StrtOnly(g: G, strt: seq<seq<Ref>>)
    requires Base(g) && Sound(g) && Fin(g)
    ensures var g' := g.(strt := strt); Base(g') && Sound(g') && Fin(g')
  {
  }

  lemma DropStringLists(g: G, b: nat, i: nat)
    requires Lists(g) && b < |g.strt| && i < |g.strt[b]|
    ensures Lists(StringGone(g, b, i))
    ensures var r := g.strt[b][i]; r in g.objs && g.objs[r] == Str(b) && r !in g.tm
  {
    var r := g.strt[b][i];
    assert r in g.strt[b] && g.objs[r] == Str(b);
    CutMembers(g.strt[b], i);
    hide CutAt;
    DropStringRest(g.objs, g.rootgc, g.mainidx, g.mainthread, g.strt, g.tm, g.uvhead, b, r, CutAt(g.strt[b], i));
    DropStringOwners(g.objs, g.rootgc, g.strt, g.tm, b, r, CutAt(g.strt[b], i));
  }

  lemma DropStringRest(objs: Heap, rootgc: seq<Ref>, mainidx: nat, mainthread: Ref, strt: seq<seq<Ref>>, tm: seq<Ref>,
    uvhead: seq<Ref>,
                       b: nat, r: Ref, cut: seq<Ref>)
    requires ThreadsOk(objs) && RootOk(objs, rootgc, tm) && StringsOk(objs, strt) && UvheadOk(objs, uvhead) &&
      MainOk(objs, rootgc, mainidx, mainthread)
    requires b < |strt| && r in objs && objs[r] == Str(b) && NoDup(cut) && forall x ::
      x in cut <==> x in strt[b] && x != r
    ensures var objs' := objs - {r};
      && ThreadsOk(objs') && RootOk(objs', rootgc, tm) && StringsOk(objs', strt[b := cut]) && UvheadOk(objs', uvhead)
      && MainOk(objs', rootgc, mainidx, mainthread)
  {
    var objs' := objs - {r};
    forall t | t in objs' && objs'[t].Thread? ensures ThreadOk(objs', t) { assert ThreadOk(objs, t); }
  }

  lemma DropStringOwners(objs: Heap, rootgc: seq<Ref>, strt: seq<seq<Ref>>, tm: seq<Ref>, b: nat, r: Ref, cut: seq<Ref>)
    requires forall x :: x in objs ==> Owner(objs, rootgc, strt, tm, x)
    requires b < |strt| && r in objs && objs[r] == Str(b) && forall x :: x in cut <==> x in strt[b] && x != r
    ensures var objs' := objs - {r}; forall x :: x in objs' ==> Owner(objs', rootgc, strt[b := cut], tm, x)
  {
    var objs' := objs - {r};
    forall x | x in objs' ensures Owner(objs', rootgc, strt[b := cut], tm,
      x) { assert Owner(objs, rootgc, strt, tm, x); }
  }

  // ---- open upvalues ----

  /** The same heap with another list of open upvalues in thread t. */
  function SetOpen(objs: Heap, t: Ref, ups: seq<Ref>): Heap
    requires t in objs && objs[t].Thread?
  {
    objs[t := objs[t].(openupval := ups)]
  }

  lemma SetOpenSound(g: G, t: Ref, ups: seq<Ref>, uvhead: seq<Ref>)
    requires Base(g) && Sound(g) && Fin(g) && t in g.objs && g.objs[t].Thread?
    ensures var g' := g.(objs := SetOpen(g.objs, t, ups), uvhead := uvhead); Base(g') && Sound(g') && Fin(g')
  {
    var g' := g.(objs := SetOpen(g.objs, t, ups), uvhead := uvhead);
    var A := Alive(g.marked, g.cw);
    forall x | x in g'.objs && x in A ensures RefsIn(g'.objs, g'.objs[x], A) { assert RefsIn(g.objs, g.objs[x], A); }
  }

  ghost function UpGone(g: G, t: Ref, i: nat): G
    requires t in g.objs && g.objs[t].Thread? && i < |g.objs[t].openupval|
  {
    var ups := g.objs[t].openupval;
    Removed(g.(objs := SetOpen(g.objs, t, CutAt(ups, i)), uvhead := Without(g.uvhead, ups[i])), ups[i])
  }

  /** luaF_freeupval of a dead open upvalue, unlinked from its thread. */
  lemma DropUp(g: G, t: Ref, i: nat)
    requires Core(g) && t in g.objs && g.objs[t].Thread? && i < |g.objs[t].openupval|
    requires var u := g.objs[t].openupval[i]; u in g.marked && IsDead(g.marked[u], g.cw)
    ensures g.objs[t].openupval[i] in g.objs && Core(UpGone(g, t, i))
  {
    hide Base, Lists, Sound, Fin;
    var ups := g.objs[t].openupval;
    var g1 := g.(objs := SetOpen(g.objs, t, CutAt(ups, i)), uvhead := Without(g.uvhead, ups[i]));
    DropUpLists(g, t, i);
    UpNotFixed(g, ups[i]);
    SetOpenSound(g, t, CutAt(ups, i), Without(g.uvhead, ups[i]));
    RemoveLive(g1, ups[i]);
    RemoveBase(g1, ups[i]);
    RemoveFin(g1, ups[i]);
  }

  lemma UpNotFixed(g: G, u: Ref)
    requires Base(g) && Lists(g) && u in g.objs && u in g.marked && g.objs[u].IsOpen()
    ensures !g.marked[u].fixed
  {
  }

  lemma UpsDistinct(objs: Heap, t: Ref)
    requires t in objs && objs[t].Thread? && ThreadOk(objs, t)
    ensures NoDup(objs[t].openupval)
  {
  }

  lemma DropUpLists(g: G, t: Ref, i: nat)
    requires Lists(g) && t in g.objs && g.objs[t].Thread? && i < |g.objs[t].openupval|
    ensures Lists(UpGone(g, t, i))
    ensures var u := g.objs[t].openupval[i]; u in g.objs && g.objs[u].IsOpen() && g.objs[u].cell.thread == t && u !in g.tm && u != t
  {
    hide CutAt, ThreadsOk, RootOk, StringsOk, UvheadOk, MainOk, Owner, Without;
    var ups := g.objs[t].openupval;
    var u := ups[i];
    UpFacts(g, t, i);
    DropUpThreads(g, t, i);
    var cut := CutAt(ups, i);
    CutMembers(ups, i);
    DropUpRest(g.objs, g.rootgc, g.mainidx, g.mainthread, g.strt, g.tm, g.uvhead, t, u, cut);
    DropUpOwners(g.objs, g.rootgc, g.strt, g.tm, t, u, cut);
  }

  lemma UpFacts(g: G, t: Ref, i: nat)
    requires Lists(g) && t in g.objs && g.objs[t].Thread? && i < |g.objs[t].openupval|
    ensures NoDup(g.objs[t].openupval)
    ensures var u := g.objs[t].openupval[i]; u in g.objs && g.objs[u].IsOpen() && g.objs[u].cell.thread == t && u !in g.tm && u != t && u !in g.rootgc
  {
    assert ThreadOk(g.objs, t);
    UpsDistinct(g.objs, t);
  }

  lemma DropUpRest(objs: Heap, rootgc: seq<Ref>, mainidx: nat, mainthread: Ref, strt: seq<seq<Ref>>, tm: seq<Ref>,
    uvhead: seq<Ref>,
                   t: Ref, u: Ref, cut: seq<Ref>)
    requires RootOk(objs, rootgc, tm) && StringsOk(objs, strt) && UvheadOk(objs, uvhead) &&
      MainOk(objs, rootgc, mainidx, mainthread)
    requires t in objs && objs[t].Thread? && u in objs && objs[u].IsOpen()
    ensures var objs' := SetOpen(objs, t, cut) - {u};
      && RootOk(objs', rootgc, tm) && StringsOk(objs', strt) && UvheadOk(objs', Without(uvhead, u))
      && MainOk(objs', rootgc, mainidx, mainthread)
  {
    var objs' := SetOpen(objs, t, cut) - {u};
    assert forall x :: x in objs && x != t && x != u ==> x in objs' && objs'[x] == objs[x];
    assert mainthread != u;
  }

  lemma DropUpOwners(objs: Heap, rootgc: seq<Ref>, strt: seq<seq<Ref>>, tm: seq<Ref>, t: Ref, u: Ref, cut: seq<Ref>)
    requires forall x :: x in objs ==> Owner(objs, rootgc, strt, tm, x)
    requires t in objs && objs[t].Thread? && u in objs && objs[u].IsOpen() && forall x :: x in cut <==>
      x in objs[t].openupval && x != u
    ensures var objs' := SetOpen(objs, t, cut) - {u}; forall x :: x in objs' ==> Owner(objs', rootgc, strt, tm, x)
  {
    var objs' := SetOpen(objs, t, cut) - {u};
    forall x | x in objs' ensures Owner(objs', rootgc, strt, tm, x) { assert Owner(objs, rootgc, strt, tm, x); }
  }

  lemma DropUpThreads(g: G, t: Ref, i: nat)
    requires Lists(g) && t in g.objs && g.objs[t].Thread? && i < |g.objs[t].openupval|
    ensures ThreadsOk(UpGone(g, t, i).objs)
  {
    var u := g.objs[t].openupval[i];
    var objs' := UpGone(g, t, i).objs;
    assert ThreadOk(g.objs, t);
    forall x | x in objs' && objs'[x].Thread? ensures ThreadOk(objs', x)
    {
      assert ThreadOk(g.objs, x);
      if x == t { DropUpThread(g.objs, t, i); } else { OtherThread(g.objs, objs', x, u); }
    }
  }

  /** Removing an upvalue of another thread does not touch this one. */
  lemma OtherThread(objs: Heap, objs': Heap, x: Ref, u: Ref)
    requires x in objs && objs[x].Thread? && ThreadOk(objs, x) && u in objs && objs[u].IsOpen() &&
      objs[u].cell.thread != x
    requires x in objs' && objs'[x] == objs[x] && forall y ::
      y in objs && y != u && objs[y].IsOpen() ==> y in objs' && objs'[y] == objs[y]
    ensures ThreadOk(objs', x)
  {
    var ups := objs[x].openupval;
    forall k | 0 <= k < |ups| ensures ups[k] != u && objs'[ups[k]] == objs[ups[k]] {}
  }

  lemma DropUpThread(objs: Heap, t: Ref, i: nat)
    requires t in objs && objs[t].Thread? && ThreadOk(objs, t) && i < |objs[t].openupval|
    ensures var u := objs[t].openupval[i];
      var objs' := SetOpen(objs, t, CutAt(objs[t].openupval, i)) - {u};
      t in objs' && objs'[t].Thread? && ThreadOk(objs', t)
  {
    var ups := objs[t].openupval;
    var u := ups[i];
    UpsDistinct(objs, t);
    CutMembers(ups, i);
    var cut := CutAt(ups, i);
    hide CutAt;
    var objs' := SetOpen(objs, t, cut) - {u};
    forall k | 0 <= k < |cut| ensures cut[k] != u && cut[k] in objs' && objs'[cut[k]] == objs[cut[k]] &&
      objs[cut[k]].IsOpen()
    {
      assert cut[k] in cut;
    }
  }

  // ---- closing an upvalue ----

  /** t is a thread with an open upvalue. */
  predicate UpReady(objs: Heap, t: Ref) {
    && t in objs && objs[t].Thread? && objs[t].openupval != []
    && objs[t].openupval[0] in objs && objs[objs[t].openupval[0]].UpVal? && objs[t].openupval[0] != t
  }

  /** From h to h' only the first open upvalue of t changed: it is closed on its value, or gone, and off t's list. */
  ghost predicate TopClosed(h: Heap, h': Heap, t: Ref) {
    && UpReady(h, t) && t in h' && h'.Keys <= h.Keys
    && var u := h[t].openupval[0];
    && h'[t] == h[t].(openupval := h[t].openupval[1..])
    && (u in h' ==> h'[u] == UpVal(Closed(UpValue(h, h[u].cell))))
    && forall x :: x in h && x != t && x != u ==> x in h' && h'[x] == h[x]
  }

  lemma UpClosedTop(g: G, t: Ref)
    requires UpReady(g.objs, t)
    ensures TopClosed(g.objs, UpClosed(g, t).objs, t)
  {
  }

  ghost function UpClosed(g: G, t: Ref): G
    requires UpReady(g.objs, t)
  {
    var ups := g.objs[t].openupval;
    var u := ups[0];
    g.(objs := SetOpen(g.objs, t, ups[1..])[u := UpVal(Closed(UpValue(g.objs, g.objs[u].cell)))],
       uvhead := Without(g.uvhead, u), rootgc := [u] + g.rootgc, mainidx := g.mainidx + 1,
       sweepgc := if g.sweepgc == 0 then 0 else g.sweepgc + 1)
  }

  lemma FirstUp(g: G, t: Ref)
    requires Lists(g) && t in g.objs && g.objs[t].Thread? && g.objs[t].openupval != []
    ensures var u := g.objs[t].openupval[0];
      && u in g.objs && g.objs[u].IsOpen() && g.objs[u].cell.thread == t && u !in g.rootgc && u !in g.tm && u != t
      && u in g.uvhead
  {
    assert ThreadOk(g.objs, t);
  }

  lemma CloseUp(g: G, t: Ref)
    requires Core(g) && t in g.objs && g.objs[t].Thread? && g.objs[t].openupval != []
    requires var u := g.objs[t].openupval[0]; u in g.objs && g.objs[u].IsOpen() && u in g.marked && !IsDead(g.marked[u], g.cw)
    ensures Core(UpClosed(g, t))
  {
    hide Base, Lists, Sound, Fin;
    FirstUp(g, t);
    CloseLists(g, t);
    CloseSound(g, t);
    CloseBaseFin(g, t);
  }

  lemma CloseBaseFin(g: G, t: Ref)
    requires Base(g) && Fin(g) && t in g.objs && g.objs[t].Thread? && g.objs[t].openupval != []
    requires var u := g.objs[t].openupval[0]; u in g.objs && g.objs[u].IsOpen() && u !in g.tm
    ensures Base(UpClosed(g, t)) && Fin(UpClosed(g, t))
  {
    var u := g.objs[t].openupval[0];
    assert ([u] + g.rootgc)[g.mainidx + 2..] == g.rootgc[g.mainidx + 1..];
  }

  lemma CloseSound(g: G, t: Ref)
    requires Base(g) && Sound(g) && t in g.objs && g.objs[t].Thread? && g.objs[t].openupval != []
    requires var u := g.objs[t].openupval[0]; u in g.objs && u != t && g.objs[u].IsOpen() && u in g.marked && !IsDead(g.marked[u], g.cw)
    ensures Sound(UpClosed(g, t))
  {
    var u := g.objs[t].openupval[0];
    var g' := UpClosed(g, t);
    var A := Alive(g.marked, g.cw);
    assert RefsIn(g.objs, g.objs[u], A);
    forall x | x in g'.objs && x in A ensures RefsIn(g'.objs, g'.objs[x], A) { assert RefsIn(g.objs, g.objs[x], A); }
  }

  lemma CloseThreads(objs: Heap, t: Ref, c: Cell)
    requires ThreadsOk(objs) && t in objs && objs[t].Thread? && objs[t].openupval != []
    requires objs[t].openupval[0] in objs && objs[objs[t].openupval[0]].IsOpen()
    ensures ThreadsOk(SetOpen(objs, t, objs[t].openupval[1..])[objs[t].openupval[0] := UpVal(c)])
  {
    var ups := objs[t].openupval;
    var u := ups[0];
    var objs' := SetOpen(objs, t, ups[1..])[u := UpVal(c)];
    assert ThreadOk(objs, t);
    UpsDistinct(objs, t);
    forall x | x in objs' && objs'[x].Thread? ensures ThreadOk(objs', x)
    {
      assert ThreadOk(objs, x);
      if x == t { ClosedTail(objs, objs', t, u); } else { OtherThread(objs, objs', x, u); }
    }
  }

  lemma ClosedTail(objs: Heap, objs': Heap, t: Ref, u: Ref)
    requires t in objs && objs[t].Thread? && ThreadOk(objs, t) && objs[t].openupval != [] && u == objs[t].openupval[0]
    requires t in objs' && objs'[t] == objs[t].(openupval := objs[t].openupval[1..])
    requires forall y :: y in objs && y != u && objs[y].IsOpen() ==> y in objs' && objs'[y] == objs[y]
    ensures ThreadOk(objs', t)
  {
    var ups := objs[t].openupval;
    UpsDistinct(objs, t);
    forall k | 0 <= k < |ups| - 1 ensures ups[1..][k] == ups[k + 1] && ups[k + 1] != u {}
  }

  lemma CloseLists(g: G, t: Ref)
    requires Lists(g) && t in g.objs && g.objs[t].Thread? && g.objs[t].openupval != []
    requires var u := g.objs[t].openupval[0];
      u in g.objs && g.objs[u].IsOpen() && g.objs[u].cell.thread == t && u !in g.rootgc && u !in g.tm && u != t &&
        u in g.uvhead
    ensures Lists(UpClosed(g, t))
  {
    hide ThreadsOk, RootOk, MainOk, UvheadOk, Owner;
    var u := g.objs[t].openupval[0];
    var g' := UpClosed(g, t);
    CloseThreads(g.objs, t, g'.objs[u].cell);
    CloseOwners(g, t);
    CloseRoot(g.objs, g'.objs, g.rootgc, g.mainidx, g.mainthread, g.tm, t, u);
    CloseUvhead(g.objs, g'.objs, g.uvhead, t, u);
    assert StringsOk(g'.objs, g'.strt);
  }

  lemma CloseUvhead(objs: Heap, objs': Heap, uvhead: seq<Ref>, t: Ref, u: Ref)
    requires UvheadOk(objs, uvhead) && t in objs && objs[t].Thread? && u in objs && u != t
    requires objs'.Keys == objs.Keys && objs'[u].UpVal? && objs'[u].cell.Closed? && objs'[t].Thread?
    requires forall x :: x in objs && x != t && x != u ==> objs'[x] == objs[x]
    ensures UvheadOk(objs', Without(uvhead, u))
  {
  }

  lemma CloseRoot(objs: Heap, objs': Heap, rootgc: seq<Ref>, mainidx: nat, mainthread: Ref, tm: seq<Ref>, t: Ref,
    u: Ref)
    requires RootOk(objs, rootgc, tm) && MainOk(objs, rootgc, mainidx, mainthread)
    requires t in objs && objs[t].Thread? && u in objs && u != t && u !in rootgc && u !in tm
    requires objs'.Keys == objs.Keys && objs'[u].UpVal? && objs'[u].cell.Closed? && objs'[t].Thread?
    requires forall x :: x in objs && x != t && x != u ==> objs'[x] == objs[x]
    ensures RootOk(objs', [u] + rootgc, tm) && MainOk(objs', [u] + rootgc, mainidx + 1, mainthread)
  {
    NoDupCons(u, rootgc);
    var s := [u] + rootgc;
    forall i | 0 <= i < |s| && s[i] in objs' ensures objs'[s[i]].Udata? <==> i > mainidx + 1
    {
      if i > 0 { assert s[i] == rootgc[i - 1] && rootgc[i - 1] in rootgc; }
    }
    assert s[mainidx + 1] == mainthread;
  }

  lemma CloseOwners(g: G, t: Ref)
    requires Lists(g) && t in g.objs && g.objs[t].Thread? && g.objs[t].openupval != []
    requires var u := g.objs[t].openupval[0]; u in g.objs && g.objs[u].IsOpen() && u != t
    ensures var g' := UpClosed(g, t); forall x :: x in g'.objs ==> Owner(g'.objs, g'.rootgc, g'.strt, g'.tm, x)
  {
    var ups := g.objs[t].openupval;
    var g' := UpClosed(g, t);
    assert ups == [ups[0]] + ups[1..];
    forall x | x in g'.objs ensures Owner(g'.objs, g'.rootgc, g'.strt, g'.tm,
      x) { assert Owner(g.objs, g.rootgc, g.strt, g.tm, x); }
  }

  // ---- freeing an object of rootgc ----

  ghost function RootGone(g: G, p: nat): G
    requires p < |g.rootgc| && 0 < g.mainidx + 1
  {
    Removed(g.(rootgc := CutAt(g.rootgc, p), mainidx := if p < g.mainidx then g.mainidx - 1 else g.mainidx),
      g.rootgc[p])
  }

  lemma DropRoot(g: G, p: nat)
    requires Core(g) && p < |g.rootgc|
    requires g.rootgc[p] in g.objs && g.rootgc[p] in g.marked
    requires IsDead(g.marked[g.rootgc[p]], g.cw) && !g.marked[g.rootgc[p]].fixed
    requires g.objs[g.rootgc[p]].Thread? ==> g.objs[g.rootgc[p]].openupval == []
    ensures Core(RootGone(g, p))
  {
    hide Base, Lists, Sound, Fin;
    var r := g.rootgc[p];
    var g1 := g.(rootgc := CutAt(g.rootgc, p), mainidx := if p < g.mainidx then g.mainidx - 1 else g.mainidx);
    RootMember(g, p);
    NoUps(g, r);
    CutRootLists(g, p);
    CutRootFin(g, p);
    RootOnly(g, g1.rootgc, g1.mainidx);
    RemoveLive(g1, r);
    RemoveBase(g1, r);
    RemoveFin(g1, r);
  }

  lemma RootMember(g: G, p: nat)
    requires Base(g) && Lists(g) && p < |g.rootgc| && g.rootgc[p] in g.marked && !g.marked[g.rootgc[p]].fixed
    ensures p != g.mainidx && g.rootgc[p] !in g.tm && g.rootgc[p] in g.objs && OnRoot(g.objs, g.rootgc[p])
  {
    assert g.rootgc[p] in g.rootgc;
  }

  lemma NoUps(g: G, r: Ref)
    requires Lists(g) && r in g.objs && (g.objs[r].Thread? ==> g.objs[r].openupval == [])
    ensures g.objs[r].Thread? ==> forall u :: u in g.objs && g.objs[u].IsOpen() ==> g.objs[u].cell.thread != r
  {
    forall u | u in g.objs && g.objs[u].IsOpen() ensures g.objs[r].Thread? ==> g.objs[u].cell.thread != r
    {
      assert Owner(g.objs, g.rootgc, g.strt, g.tm, u);
    }
  }

  lemma RootOnly(g: G, rootgc': seq<Ref>, mainidx': nat)
    requires Base(g) && Sound(g)
    ensures var g' := g.(rootgc := rootgc', mainidx := mainidx'); Base(g') && Sound(g')
  {
  }

  lemma CutRootFin(g: G, p: nat)
    requires Fin(g) && p < |g.rootgc| && p != g.mainidx
    ensures Fin(g.(rootgc := CutAt(g.rootgc, p), mainidx := if p < g.mainidx then g.mainidx - 1 else g.mainidx))
  {
    var us := g.rootgc[g.mainidx + 1..];
    if p < g.mainidx {
      assert CutAt(g.rootgc, p)[g.mainidx..] == us;
    } else {
      assert CutAt(g.rootgc, p)[g.mainidx + 1..] == CutAt(us, p - g.mainidx - 1);
      NewestFirstCut(g.marked, us, p - g.mainidx - 1);
    }
  }

  lemma NewestFirstCut(m: Marks, us: seq<Ref>, i: nat)
    requires NewestFirst(m, us) && i < |us|
    ensures NewestFirst(m, CutAt(us, i))
  {
  }

  lemma CutRootLists(g: G, p: nat)
    requires Lists(g) && p < |g.rootgc| && p != g.mainidx && g.rootgc[p] in g.objs && OnRoot(g.objs, g.rootgc[p])
    requires g.objs[g.rootgc[p]].Thread? ==> forall u :: u in g.objs && g.objs[u].IsOpen() ==>
      g.objs[u].cell.thread != g.rootgc[p]
    ensures Lists(RootGone(g, p))
  {
    hide ThreadsOk, StringsOk, UvheadOk, Owner, RootOk, MainOk, CutAt;
    var r := g.rootgc[p];
    CutThreads(g.objs, r);
    CutRoot(g.objs, g.rootgc, g.tm, p);
    CutStrings(g.objs, g.strt, g.uvhead, r);
    CutOwners(g, p);
    CutMain(g.objs, g.rootgc, g.mainidx, g.mainthread, p);
  }

  lemma CutThreads(objs: Heap, r: Ref)
    requires ThreadsOk(objs) && OnRoot(objs, r)
    ensures ThreadsOk(objs - {r})
  {
    forall t | t in objs && t != r && objs[t].Thread? ensures ThreadOk(objs - {r}, t) { assert ThreadOk(objs, t); }
  }

  lemma CutRoot(objs: Heap, rootgc: seq<Ref>, tm: seq<Ref>, p: nat)
    requires RootOk(objs, rootgc, tm) && p < |rootgc|
    ensures RootOk(objs - {rootgc[p]}, CutAt(rootgc, p), tm) && NoDup(rootgc)
  {
    CutMembers(rootgc, p);
  }

  lemma CutStrings(objs: Heap, strt: seq<seq<Ref>>, uvhead: seq<Ref>, r: Ref)
    requires StringsOk(objs, strt) && UvheadOk(objs, uvhead) && OnRoot(objs, r)
    ensures StringsOk(objs - {r}, strt) && UvheadOk(objs - {r}, uvhead)
  {
  }

  lemma CutOwners(g: G, p: nat)
    requires Lists(g) && p < |g.rootgc| && g.rootgc[p] in g.objs && OnRoot(g.objs, g.rootgc[p])
    requires g.objs[g.rootgc[p]].Thread? ==> forall u :: u in g.objs && g.objs[u].IsOpen() ==>
      g.objs[u].cell.thread != g.rootgc[p]
    ensures var g' := RootGone(g, p); forall x :: x in g'.objs ==> Owner(g'.objs, g'.rootgc, g'.strt, g'.tm, x)
  {
    hide CutAt, ThreadsOk, StringsOk, UvheadOk, MainOk, RootOk;
    var g' := RootGone(g, p);
    CutRoot(g.objs, g.rootgc, g.tm, p);
    CutMembers(g.rootgc, p);
    forall x | x in g'.objs ensures Owner(g'.objs, g'.rootgc, g'.strt, g'.tm,
      x) { assert Owner(g.objs, g.rootgc, g.strt, g.tm, x); }
  }

  lemma CutMain(objs: Heap, rootgc: seq<Ref>, mainidx: nat, mainthread: Ref, p: nat)
    requires MainOk(objs, rootgc, mainidx, mainthread) && NoDup(rootgc) && p < |rootgc| && p != mainidx
    ensures MainOk(objs - {rootgc[p]}, CutAt(rootgc, p), if p < mainidx then mainidx - 1 else mainidx, mainthread)
  {
    CutMembers(rootgc, p);
    assert mainthread != rootgc[p];
    var s := CutAt(rootgc, p);
    hide CutAt;
    var n := if p < mainidx then mainidx - 1 else mainidx;
    forall i | 0 <= i < |s| && s[i] in objs - {rootgc[p]} ensures objs[s[i]].Udata? <==> i > n
    {
      assert s[i] == rootgc[if i < p then i else i + 1];
    }
  }

  // ---- what the sweep does to whole states ----

  /** Nothing the program can see of an object changed. */
  ghost predicate Survives(objs: Heap, objs': Heap, r: Ref) {
    r in objs && r in objs' &&
    match objs[r]
    case UpVal(c) => objs'[r].UpVal? && UpValue(objs', objs'[r].cell) == UpValue(objs, c)
    case Thread(gt, stack, _) => objs'[r].Thread? && objs'[r].gt == gt && objs'[r].stack == stack
    case _ => objs'[r] == objs[r]
  }

  /** All of the header but its colour. */
  predicate SameBits(h: Mark, h': Mark) { h'.fixed == h.fixed && h'.bit3 == h.bit3 && h'.bit4 == h.bit4 }

  /** The headers: only dead ones that are not fixed went, none of these was repainted, and nothing turned dead. */
  ghost predicate SweptMarks(m: Marks, m': Marks, cw: bool) {
    && m'.Keys <= m.Keys
    && (forall r :: r in m && r !in m' ==> IsDead(m[r], cw) && !m[r].fixed)
    && (forall r :: r in m' ==> SameBits(m[r], m'[r]) && (IsDead(m'[r], cw) ==> m'[r] == m[r]))
    && (forall r :: r in m' && IsDead(m[r], cw) && !m[r].fixed ==> m'[r] == m[r])
  }

  /** Only dead objects that are not fixed were freed, and nothing live changed or turned dead. */
  ghost predicate Swept(g: G, g': G) {
    && g'.objs.Keys == g'.marked.Keys && g.objs.Keys == g.marked.Keys && SweptMarks(g.marked, g'.marked, g.cw)
    && (forall r :: r in g.objs && !IsDead(g.marked[r], g.cw) ==> Survives(g.objs, g'.objs, r))
    && g' == g.(objs := g'.objs, marked := g'.marked, rootgc := g'.rootgc, mainidx := g'.mainidx, sweepgc := g'.sweepgc,
                strt := g'.strt, uvhead := g'.uvhead)
    && |g'.strt| == |g.strt|
    && (TmBlack(g) ==> TmBlack(g'))
  }

  lemma MarksSame(m: Marks, cw: bool)
    ensures SweptMarks(m, m, cw)
  {
  }

  lemma MarksGone(m: Marks, r: Ref, cw: bool)
    requires r in m && IsDead(m[r], cw) && !m[r].fixed
    ensures SweptMarks(m, m - {r}, cw)
  {
  }

  lemma TmGone(g: G, g': G, r: Ref)
    requires r in g.marked && g.marked[r].color.White? && g'.tm == g.tm && g'.marked == g.marked - {r}
    ensures TmBlack(g) ==> TmBlack(g')
  {
    assert NonWhite(g'.marked) == NonWhite(g.marked);
  }

  lemma TmSame(g: G, g': G)
    requires g'.tm == g.tm && g'.marked == g.marked
    ensures TmBlack(g) <==> TmBlack(g')
  {
  }

  lemma SweptSame(g: G)
    requires Shape(g.objs, g.marked)
    ensures Swept(g, g)
  {
  }

  lemma SweptTrans(g: G, g1: G, g2: G)
    requires Swept(g, g1) && Swept(g1, g2)
    ensures Swept(g, g2)
  {
    forall r | r in g.objs && !IsDead(g.marked[r], g.cw) ensures Survives(g.objs, g2.objs, r) &&
      !IsDead(g2.marked[r], g.cw)
    {
      assert Survives(g.objs, g1.objs, r) && !IsDead(g1.marked[r], g.cw);
      assert Survives(g1.objs, g2.objs, r);
    }
  }

  /** makewhite on r. */
  ghost function Kept(g: G, r: Ref): G
    requires r in g.marked
  {
    g.(marked := g.marked[r := g.marked[r].(color := White(g.cw))])
  }

  lemma KeptSwept(g: G, r: Ref)
    requires Shape(g.objs, g.marked) && r in g.marked && (!IsDead(g.marked[r], g.cw) || g.marked[r].fixed) && r !in g.tm
    ensures Swept(g, Kept(g, r))
  {
  }

  lemma StringGoneSwept(g: G, b: nat, i: nat)
    requires Core(g) && b < |g.strt| && i < |g.strt[b]|
    requires var r := g.strt[b][i]; r in g.objs && r in g.marked && IsDead(g.marked[r], g.cw) && !g.marked[r].fixed
    ensures Swept(g, StringGone(g, b, i))
  {
    hide TmBlack, CutAt, SweptMarks;
    var r := g.strt[b][i];
    var g' := StringGone(g, b, i);
    MarksGone(g.marked, r, g.cw);
    TmGone(g, g', r);
    forall x | x in g.objs && !IsDead(g.marked[x], g.cw) ensures Survives(g.objs, g'.objs, x)
    {
      SlotsWithout(g, r, x);
    }
  }

  /** Removing an object that is no thread does not change any upvalue's value. */
  lemma SlotsWithout(g: G, r: Ref, x: Ref)
    requires Lists(g) && r in g.objs && x in g.objs && x != r
    requires g.objs[r].Str?
    ensures Survives(g.objs, g.objs - {r}, x)
  {
    if g.objs[x].IsOpen() { assert Owner(g.objs, g.rootgc, g.strt, g.tm, x); }
  }

  /** One string of a bucket: kept and repainted, or freed. */
  ghost function StringStep(g: G, b: nat, i: nat): G
    requires b < |g.strt| && i < |g.strt[b]| && g.strt[b][i] in g.marked
  {
    var r := g.strt[b][i];
    if IsDead(g.marked[r], g.cw) && !g.marked[r].fixed then StringGone(g, b, i) else Kept(g, r)
  }

  ghost predicate BucketUpTo(g: G, b: nat, i: nat) {
    && Core(g) && g.phase == SweepString && StringsSwept(g, b) && b < |g.strt| && i <= |g.strt[b]|
    && forall q :: 0 <= q < i ==> IsCurrent(g, g.strt[b][q])
  }

  lemma BucketMember(g: G, b: nat, i: nat)
    requires BucketUpTo(g, b, i) && i < |g.strt[b]|
    ensures g.strt[b][i] in g.objs && g.strt[b][i] in g.marked && g.objs[g.strt[b][i]] == Str(b)
  {
    assert g.strt[b][i] in g.strt[b];
  }

  lemma BucketStep(g: G, b: nat, i: nat)
    requires BucketUpTo(g, b, i) && i < |g.strt[b]| && g.strt[b][i] in g.marked
    ensures var r := g.strt[b][i];
      var g' := StringStep(g, b, i);
      && Swept(g, g')
      && BucketUpTo(g', b, if IsDead(g.marked[r], g.cw) && !g.marked[r].fixed then i else i + 1)
  {
    BucketMember(g, b, i);
    var r := g.strt[b][i];
    if IsDead(g.marked[r], g.cw) && !g.marked[r].fixed {
      DropString(g, b, i);
      StringGoneSwept(g, b, i);
      BucketDrop(g, b, i);
    } else {
      KeepOne(g, r);
      KeptSwept(g, r);
      BucketKeep(g, b, i);
    }
  }

  lemma BucketKeep(g: G, b: nat, i: nat)
    requires BucketUpTo(g, b, i) && i < |g.strt[b]| && g.strt[b][i] in g.marked && Core(Kept(g, g.strt[b][i]))
    ensures BucketUpTo(Kept(g, g.strt[b][i]), b, i + 1)
  {
    hide Core;
    var g' := Kept(g, g.strt[b][i]);
    forall c, x | 0 <= c < b && x in g'.strt[c] ensures IsCurrent(g', x) { assert IsCurrent(g, x); }
    forall q | 0 <= q < i + 1 ensures IsCurrent(g', g'.strt[b][q]) { if q < i { assert IsCurrent(g, g.strt[b][q]); } }
  }

  lemma BucketDrop(g: G, b: nat, i: nat)
    requires BucketUpTo(g, b, i) && i < |g.strt[b]| && g.strt[b][i] in g.marked && Core(StringGone(g, b, i))
    requires IsDead(g.marked[g.strt[b][i]], g.cw)
    ensures BucketUpTo(StringGone(g, b, i), b, i)
  {
    hide Core;
    var r := g.strt[b][i];
    var g' := StringGone(g, b, i);
    forall c, x | 0 <= c < b && x in g'.strt[c] ensures IsCurrent(g', x) { assert IsCurrent(g, x) && x != r; }
    forall q | 0 <= q < i ensures IsCurrent(g', g'.strt[b][q]) { assert IsCurrent(g, g.strt[b][q]); }
  }

  // ---- sweeping rootgc ----

  ghost predicate RootUpTo(g: G, p: nat) {
    && Core(g) && g.phase == Sweep && StringsSwept(g, |g.strt|) && RootSwept(g, g.sweepgc) &&
      g.sweepgc <= p < |g.rootgc|
  }

  /** The first i open upvalues of the thread at p have been swept. */
  ghost predicate UpsUpTo(g: G, p: nat, i: nat) {
    && RootUpTo(g, p) && g.rootgc[p] in g.objs && g.objs[g.rootgc[p]].Thread?
    && i <= |g.objs[g.rootgc[p]].openupval|
    && forall q :: 0 <= q < i ==> IsCurrent(g, g.objs[g.rootgc[p]].openupval[q])
  }

  lemma UpAt(g: G, p: nat, i: nat)
    requires UpsUpTo(g, p, i) && i < |g.objs[g.rootgc[p]].openupval|
    ensures var t := g.rootgc[p];
      var u := g.objs[t].openupval[i];
      && t in g.marked && u in g.objs && u in g.marked && g.objs[u].IsOpen() && g.objs[u].cell.thread == t && u != t &&
        u !in g.tm
      && !g.marked[u].fixed && u !in g.rootgc
  {
    assert ThreadOk(g.objs, g.rootgc[p]);
    UpNotFixed(g, g.objs[g.rootgc[p]].openupval[i]);
  }

  ghost function UpStep(g: G, t: Ref, i: nat): G
    requires t in g.objs && g.objs[t].Thread? && i < |g.objs[t].openupval| && g.objs[t].openupval[i] in g.marked
  {
    var u := g.objs[t].openupval[i];
    if IsDead(g.marked[u], g.cw) then UpGone(g, t, i) else Kept(g, u)
  }

  lemma UpsStep(g: G, p: nat, i: nat)
    requires UpsUpTo(g, p, i) && i < |g.objs[g.rootgc[p]].openupval| && g.objs[g.rootgc[p]].openupval[i] in g.marked
    ensures var t := g.rootgc[p];
      var u := g.objs[t].openupval[i];
      var g' := UpStep(g, t, i);
      Swept(g, g') && UpsUpTo(g', p, if IsDead(g.marked[u], g.cw) then i else i + 1)
  {
    hide Core, Lists, RootSwept, StringsSwept, Swept, IsCurrent;
    UpAt(g, p, i);
    var t := g.rootgc[p];
    var u := g.objs[t].openupval[i];
    if IsDead(g.marked[u], g.cw) {
      DropUp(g, t, i);
      UpGoneSwept(g, t, i);
      UpsDrop(g, p, i);
    } else {
      KeepOne(g, u);
      KeptSwept(g, u) by { CoreShape(g); }
      UpsKeep(g, p, i);
    }
  }

  lemma CoreShape(g: G)
    requires Core(g)
    ensures Shape(g.objs, g.marked)
  {
  }

  lemma UpGoneSwept(g: G, t: Ref, i: nat)
    requires Core(g) && t in g.objs && g.objs[t].Thread? && i < |g.objs[t].openupval|
    requires var u := g.objs[t].openupval[i]; u in g.objs && u in g.marked && IsDead(g.marked[u], g.cw) && !g.marked[u].fixed && u != t && g.objs[u].IsOpen()
    ensures Swept(g, UpGone(g, t, i))
  {
    hide Lists, Sound, Fin, CutAt, TmBlack, Without, SweptMarks;
    var u := g.objs[t].openupval[i];
    var g' := UpGone(g, t, i);
    MarksGone(g.marked, u, g.cw);
    TmGone(g, g', u);
    forall x | x in g.objs && !IsDead(g.marked[x], g.cw) ensures Survives(g.objs, g'.objs, x)
    {
      assert x != u;
    }
  }

  lemma UpsKeep(g: G, p: nat, i: nat)
    requires UpsUpTo(g, p, i) && i < |g.objs[g.rootgc[p]].openupval|
    requires var u := g.objs[g.rootgc[p]].openupval[i]; u in g.marked && Core(Kept(g, u))
    ensures UpsUpTo(Kept(g, g.objs[g.rootgc[p]].openupval[i]), p, i + 1)
  {
    hide Core;
    var u := g.objs[g.rootgc[p]].openupval[i];
    var g' := Kept(g, u);
    MoreCurrent(g, g', |g.strt|, g.sweepgc);
    forall q | 0 <= q < i + 1 ensures IsCurrent(g', g'.objs[g'.rootgc[p]].openupval[q])
    {
      if q < i { assert IsCurrent(g, g.objs[g.rootgc[p]].openupval[q]); }
    }
  }

  /** What has been swept stays swept when only more objects become current. */
  lemma MoreCurrent(g: G, g': G, n: nat, m: nat)
    requires StringsSwept(g, n) && RootSwept(g, m) && g'.objs == g.objs && g'.strt == g.strt && g'.rootgc == g.rootgc
    requires forall x :: IsCurrent(g, x) ==> IsCurrent(g', x)
    ensures StringsSwept(g', n) && RootSwept(g', m)
  {
  }

  lemma UpsDrop(g: G, p: nat, i: nat)
    requires UpsUpTo(g, p, i) && i < |g.objs[g.rootgc[p]].openupval|
    requires var t := g.rootgc[p];
      var u := g.objs[t].openupval[i];
      && u in g.objs && u in g.marked && IsDead(g.marked[u], g.cw) && g.objs[u].IsOpen() &&
        g.objs[u].cell.thread == t && u !in g.rootgc && u != t
      && Core(UpGone(g, t, i))
    ensures UpsUpTo(UpGone(g, g.rootgc[p], i), p, i)
  {
    hide Core, RootSwept, StringsSwept, Base, Sound, Fin, Without;
    var t := g.rootgc[p];
    var u := g.objs[t].openupval[i];
    var g' := UpGone(g, t, i);
    RootDistinct(g);
    UpsDropSwept(g, p, t, u, g');
    forall q | 0 <= q < i ensures IsCurrent(g',
      g'.objs[t].openupval[q]) { assert IsCurrent(g, g.objs[t].openupval[q]); }
  }

  lemma RootDistinct(g: G)
    requires Core(g)
    ensures NoDup(g.rootgc)
  {
  }

  lemma UpsDropSwept(g: G, p: nat, t: Ref, u: Ref, g': G)
    requires StringsSwept(g, |g.strt|) && RootSwept(g, g.sweepgc) && g.sweepgc <= p < |g.rootgc| && g.rootgc[p] == t &&
      NoDup(g.rootgc)
    requires g'.marked == g.marked - {u} && g'.cw == g.cw && g'.strt == g.strt && g'.rootgc == g.rootgc &&
      g'.sweepgc == g.sweepgc
    requires g'.objs.Keys == g.objs.Keys - {u} && forall x :: x in g'.objs && x != t ==> g'.objs[x] == g.objs[x]
    requires u in g.marked && IsDead(g.marked[u], g.cw)
    ensures StringsSwept(g', |g'.strt|) && RootSwept(g', g'.sweepgc)
  {
    assert forall x :: IsCurrent(g, x) ==> IsCurrent(g', x);
    forall k, v | 0 <= k < g.sweepgc && g'.rootgc[k] in g'.objs && g'.objs[g'.rootgc[k]].Thread? &&
      v in g'.objs[g'.rootgc[k]].openupval
      ensures IsCurrent(g', v)
    {
      assert g.rootgc[k] != t;
      assert IsCurrent(g, v);
    }
  }

  /** Ready to free the thread at p: whatever open upvalues it has left have survived the sweep. */
  ghost predicate DeadAt(g: G, p: nat) {
    && RootUpTo(g, p) && g.rootgc[p] in g.objs && g.rootgc[p] in g.marked
    && IsDead(g.marked[g.rootgc[p]], g.cw) && !g.marked[g.rootgc[p]].fixed
    && (g.objs[g.rootgc[p]].Thread? ==> forall u :: u in g.objs[g.rootgc[p]].openupval ==> IsCurrent(g, u))
  }

  lemma DeadUp(g: G, p: nat)
    requires DeadAt(g, p) && g.objs[g.rootgc[p]].Thread? && g.objs[g.rootgc[p]].openupval != []
    ensures var t := g.rootgc[p];
      var u := g.objs[t].openupval[0];
      && u in g.objs && u in g.marked && g.objs[u].IsOpen() && g.objs[u].cell.thread == t && u != t &&
        u !in g.rootgc && u !in g.tm && !IsDead(g.marked[u], g.cw)
      && IsCurrent(g, u)
  {
    FirstUp(g, g.rootgc[p]);
    assert g.objs[g.rootgc[p]].openupval[0] in g.objs[g.rootgc[p]].openupval;
  }

  lemma DeadClose(g: G, p: nat)
    requires DeadAt(g, p) && g.objs[g.rootgc[p]].Thread? && g.objs[g.rootgc[p]].openupval != []
    requires g.objs[g.rootgc[p]].openupval[0] in g.objs && g.objs[g.objs[g.rootgc[p]].openupval[0]].UpVal?
    ensures DeadAt(UpClosed(g, g.rootgc[p]), p + 1) && Swept(g, UpClosed(g, g.rootgc[p]))
    ensures UpClosed(g, g.rootgc[p]).rootgc[p + 1] == g.rootgc[p]
  {
    hide Core, Lists, RootSwept, StringsSwept, Swept, IsCurrent;
    DeadUp(g, p);
    CloseUp(g, g.rootgc[p]);
    ClosedSwept(g, p);
    ClosedStill(g, p);
  }

  lemma ClosedSwept(g: G, p: nat)
    requires Core(g) && p < |g.rootgc| && g.rootgc[p] in g.objs && g.objs[g.rootgc[p]].Thread? &&
      g.objs[g.rootgc[p]].openupval != []
    requires var t := g.rootgc[p];
      var u := g.objs[t].openupval[0]; u in g.objs && g.objs[u].IsOpen() && u != t
    ensures Swept(g, UpClosed(g, g.rootgc[p]))
  {
    hide Lists, Sound, Fin, TmBlack, SweptMarks;
    MarksSame(g.marked, g.cw);
    TmSame(g, UpClosed(g, g.rootgc[p]));
  }

  lemma ClosedStill(g: G, p: nat)
    requires DeadAt(g, p) && g.objs[g.rootgc[p]].Thread? && g.objs[g.rootgc[p]].openupval != []
    requires var t := g.rootgc[p];
      var u := g.objs[t].openupval[0]; u in g.objs && g.objs[u].UpVal? && u != t && IsCurrent(g, u)
    requires Core(UpClosed(g, g.rootgc[p]))
    ensures DeadAt(UpClosed(g, g.rootgc[p]), p + 1) && UpClosed(g, g.rootgc[p]).rootgc[p + 1] == g.rootgc[p]
  {
    hide Core, RootSwept, StringsSwept, Base, Lists, Sound, Fin;
    var t := g.rootgc[p];
    var u := g.objs[t].openupval[0];
    var g' := UpClosed(g, t);
    assert g'.rootgc[p + 1] == g.rootgc[p];
    assert g.objs[t].openupval == [u] + g.objs[t].openupval[1..];
    SweptPos(g);
    forall v | v in g'.objs[t].openupval ensures IsCurrent(g', v) { assert v in g.objs[t].openupval &&
      IsCurrent(g, v); }
    ClosedRootSwept(g, g', t, u);
  }

  lemma SweptPos(g: G)
    requires RootSwept(g, g.sweepgc)
    ensures g.sweepgc <= |g.rootgc|
  {
  }

  lemma ClosedRootSwept(g: G, g': G, t: Ref, u: Ref)
    requires StringsSwept(g, |g.strt|) && RootSwept(g, g.sweepgc) && IsCurrent(g, u)
    requires t in g.objs && g.objs[t].Thread? && g.objs[t].openupval != [] && u in g.objs && u != t && g.objs[u].UpVal?
    requires g'.marked == g.marked && g'.cw == g.cw && g'.strt == g.strt && g'.rootgc == [u] + g.rootgc
    requires g'.sweepgc == if g.sweepgc == 0 then 0 else g.sweepgc + 1
    requires g'.objs.Keys == g.objs.Keys && g'.objs[t].Thread? && g'.objs[t].openupval == g.objs[t].openupval[1..] &&
      g'.objs[u].UpVal?
    requires forall x :: x in g.objs && x != t && x != u ==> g'.objs[x] == g.objs[x]
    ensures StringsSwept(g', |g'.strt|) && RootSwept(g', g'.sweepgc)
  {
    assert forall x :: IsCurrent(g, x) <==> IsCurrent(g', x);
    assert g.objs[t].openupval == [g.objs[t].openupval[0]] + g.objs[t].openupval[1..];
    forall i | 0 <= i < g'.sweepgc ensures IsCurrent(g', g'.rootgc[i])
    {
      if i > 0 { assert g'.rootgc[i] == g.rootgc[i - 1] && IsCurrent(g, g.rootgc[i - 1]); }
    }
    forall i, v | 0 <= i < g'.sweepgc && g'.rootgc[i] in g'.objs && g'.objs[g'.rootgc[i]].Thread? &&
      v in g'.objs[g'.rootgc[i]].openupval
      ensures IsCurrent(g', v)
    {
      assert i > 0 && g'.rootgc[i] == g.rootgc[i - 1];
      assert v in g.objs[g.rootgc[i - 1]].openupval && IsCurrent(g, v);
    }
  }

  lemma DeadFree(g: G, p: nat)
    requires DeadAt(g, p) && (g.objs[g.rootgc[p]].Thread? ==> g.objs[g.rootgc[p]].openupval == [])
    ensures var g' := RootGone(g, p);
      Core(g') && Swept(g, g') && StringsSwept(g', |g'.strt|) && RootSwept(g', g'.sweepgc) && g'.phase == Sweep &&
        g'.sweepgc <= |g'.rootgc|
    ensures g.mainidx != p && (g.gray == [] ==> SweepOk(RootGone(g, p)))
  {
    RootMember(g, p);
    DropRoot(g, p);
    RootGoneSwept(g, p);
    RootGoneStill(g, p);
  }

  lemma RootGoneSwept(g: G, p: nat)
    requires Core(g) && p < |g.rootgc| && g.rootgc[p] in g.objs && g.rootgc[p] in g.marked
    requires IsDead(g.marked[g.rootgc[p]], g.cw) && !g.marked[g.rootgc[p]].fixed
    requires g.objs[g.rootgc[p]].Thread? ==> g.objs[g.rootgc[p]].openupval == []
    ensures Swept(g, RootGone(g, p))
  {
    hide Lists, Sound, Fin, Survives, CutAt;
    var r := g.rootgc[p];
    var g' := RootGone(g, p);
    NoUps(g, r);
    forall x | x in g.objs && !IsDead(g.marked[x], g.cw) ensures Survives(g.objs, g'.objs, x)
    {
      assert x != r;
      OtherSurvives(g.objs, r, x);
    }
  }

  lemma OtherSurvives(objs: Heap, r: Ref, x: Ref)
    requires x in objs && x != r && r in objs
    requires objs[r].Thread? ==> forall u :: u in objs && objs[u].IsOpen() ==> objs[u].cell.thread != r
    ensures Survives(objs, objs - {r}, x)
  {
  }

  lemma RootGoneStill(g: G, p: nat)
    requires RootUpTo(g, p) && g.rootgc[p] in g.objs && g.rootgc[p] in g.marked && IsDead(g.marked[g.rootgc[p]], g.cw)
    ensures var g' := RootGone(g, p); StringsSwept(g', |g'.strt|) && RootSwept(g', g'.sweepgc)
  {
    hide Lists, Sound, Fin, Base;
    var r := g.rootgc[p];
    var g' := RootGone(g, p);
    assert forall x :: IsCurrent(g, x) ==> IsCurrent(g', x);
    assert forall i :: 0 <= i < g.sweepgc ==> g'.rootgc[i] == g.rootgc[i];
    forall i, v | 0 <= i < g'.sweepgc && g'.rootgc[i] in g'.objs && g'.objs[g'.rootgc[i]].Thread? &&
      v in g'.objs[g'.rootgc[i]].openupval
      ensures IsCurrent(g', v)
    {
      assert g'.rootgc[i] == g.rootgc[i];
      assert IsCurrent(g, v);
    }
  }

  /** The object at sweepgc lives on: it is repainted and the sweep moves past it. */
  lemma RootKeep(g: G)
    requires g.sweepgc < |g.rootgc| && RootUpTo(g, g.sweepgc) && g.rootgc[g.sweepgc] in g.objs &&
      g.rootgc[g.sweepgc] in g.marked
    requires !IsDead(g.marked[g.rootgc[g.sweepgc]], g.cw) || g.marked[g.rootgc[g.sweepgc]].fixed
    requires g.objs[g.rootgc[g.sweepgc]].Thread? ==> forall u :: u in g.objs[g.rootgc[g.sweepgc]].openupval ==>
      IsCurrent(g, u)
    ensures var g' := Kept(g, g.rootgc[g.sweepgc]).(sweepgc := g.sweepgc + 1);
      Core(g') && Swept(g, g') && StringsSwept(g', |g'.strt|) && RootSwept(g', g'.sweepgc)
  {
    hide Base, Lists, Sound, Fin, RootSwept, StringsSwept, Swept, IsCurrent;
    var r := g.rootgc[g.sweepgc];
    KeepOne(g, r);
    RootOff(g, g.sweepgc);
    KeptSwept(g, r) by { CoreShape(g); }
    SweepgcOnly(Kept(g, r), g.sweepgc + 1);
    SweptMove(g, Kept(g, r), g.sweepgc + 1);
    MoreCurrent(g, Kept(g, r).(sweepgc := g.sweepgc + 1), |g.strt|, g.sweepgc) by { StillCurrent(g, r); }
    RootSweptNext(g, r);
  }

  lemma RootOff(g: G, p: nat)
    requires Core(g) && p < |g.rootgc|
    ensures g.rootgc[p] !in g.tm
  {
    assert g.rootgc[p] in g.rootgc;
  }

  lemma StillCurrent(g: G, r: Ref)
    requires r in g.marked
    ensures forall x :: IsCurrent(g, x) ==> IsCurrent(Kept(g, r).(sweepgc := g.sweepgc + 1), x)
  {
  }

  lemma SweepgcOnly(g: G, n: nat)
    requires Core(g)
    ensures Core(g.(sweepgc := n))
  {
  }

  lemma SweptMove(g: G, g': G, n: nat)
    requires Swept(g, g')
    ensures Swept(g, g'.(sweepgc := n))
  {
    forall r | r in g.objs && !IsDead(g.marked[r], g.cw) ensures Survives(g.objs, g'.objs, r) {}
  }

  lemma RootSweptNext(g: G, r: Ref)
    requires g.sweepgc < |g.rootgc| && r == g.rootgc[g.sweepgc] && r in g.objs && r in g.marked
    requires RootSwept(Kept(g, r).(sweepgc := g.sweepgc + 1), g.sweepgc)
    requires g.objs[r].Thread? ==> forall u :: u in g.objs[r].openupval ==> IsCurrent(g, u)
    ensures RootSwept(Kept(g, r).(sweepgc := g.sweepgc + 1), g.sweepgc + 1)
  {
  }

  // ---- the end of the sweep ----

  lemma SweepDone(g: G)
    requires Core(g) && StringsSwept(g, |g.strt|) && RootSwept(g, |g.rootgc|)
    ensures RestOk(g)
  {
    forall r | r in g.marked && r !in g.tm ensures g.marked[r].color == White(g.cw)
    {
      assert r in g.objs && Owner(g.objs, g.rootgc, g.strt, g.tm, r);
      OwnerCurrent(g, r);
    }
  }

  lemma OwnerCurrent(g: G, r: Ref)
    requires Core(g) && StringsSwept(g, |g.strt|) && RootSwept(g, |g.rootgc|) && r in g.objs && r !in g.tm
    ensures IsCurrent(g, r)
  {
    assert Owner(g.objs, g.rootgc, g.strt, g.tm, r);
    match g.objs[r]
    case Str(b) =>
    case UpVal(Open(t, _)) =>
      assert Owner(g.objs, g.rootgc, g.strt, g.tm, t);
      var i :| 0 <= i < |g.rootgc| && g.rootgc[i] == t;
    case _ =>
      var i :| 0 <= i < |g.rootgc| && g.rootgc[i] == r;
  }

  // ---- entering and leaving the loops ----

  lemma BucketStart(g: G)
    requires Inv(g) && g.phase == SweepString
    ensures g.sweepstr < |g.strt| && g.sweepgc == 0 && g.gray == [] && BucketUpTo(g, g.sweepstr, 0) && Swept(g, g)
  {
    SweptSame(g);
  }

  lemma BucketEnd(g: G, g2: G, b: nat, phase: Phase)
    requires b < |g2.strt| && BucketUpTo(g2, b, |g2.strt[b]|) && Swept(g, g2) && g.sweepgc == 0 && g.gray == []
    requires phase == if b + 1 >= |g2.strt| then Sweep else SweepString
    requires g2.sweepgc == g.sweepgc
    ensures Inv(g2.(sweepstr := b + 1, phase := phase))
    ensures Swept(g.(sweepstr := b + 1, phase := phase), g2.(sweepstr := b + 1, phase := phase))
  {
    hide Core, Swept, IsCurrent, Base, Lists, Sound, Fin, StringsSwept;
    var g' := g2.(sweepstr := b + 1, phase := phase);
    PhaseOnly(g2, b + 1, phase);
    SweptPhase(g, g2, b + 1, phase);
    SweptSize(g, g2);
    BucketSwept(g2, g', b);
    CoreInv(g');
  }

  lemma SweptSize(g: G, g': G)
    requires Swept(g, g')
    ensures g'.gray == g.gray && |g'.strt| == |g.strt|
  {
  }

  lemma BucketSwept(g: G, g': G, b: nat)
    requires b < |g.strt| && StringsSwept(g, b) && forall q :: 0 <= q < |g.strt[b]| ==> IsCurrent(g, g.strt[b][q])
    requires g'.strt == g.strt && g'.marked == g.marked && g'.cw == g.cw
    ensures StringsSwept(g', b + 1)
  {
    forall c, r | 0 <= c < b + 1 && r in g'.strt[c] ensures IsCurrent(g', r)
    {
      if c < b { assert IsCurrent(g, r); } else {
        var q :| 0 <= q < |g.strt[b]| && g.strt[b][q] == r;
        assert IsCurrent(g, g.strt[b][q]);
      }
    }
  }

  lemma CoreInv(g: G)
    requires Core(g) && PhaseOk(g)
    ensures Inv(g)
  {
  }

  lemma PhaseOnly(g: G, n: nat, phase: Phase)
    requires Core(g)
    ensures Core(g.(sweepstr := n, phase := phase))
  {
  }

  lemma SweptPhase(g: G, g2: G, n: nat, phase: Phase)
    requires Swept(g, g2)
    ensures Swept(g.(sweepstr := n, phase := phase), g2.(sweepstr := n, phase := phase))
  {
    forall r | r in g.objs && !IsDead(g.marked[r], g.cw) ensures Survives(g.objs, g2.objs, r) {}
  }

  lemma SweptStart(g: G, p: nat)
    requires RootUpTo(g, p)
    ensures Swept(g, g)
  {
    SweptSame(g);
  }

  /** All open upvalues of the thread at p have been swept. */
  ghost predicate AllUps(g: G, p: nat) {
    && RootUpTo(g, p) && g.rootgc[p] in g.objs && g.objs[g.rootgc[p]].Thread?
    && UpsUpTo(g, p, |g.objs[g.rootgc[p]].openupval|)
  }

  lemma RootStart(g: G)
    requires Inv(g) && g.phase == Sweep && g.sweepgc < |g.rootgc|
    ensures RootUpTo(g, g.sweepgc) && g.rootgc[g.sweepgc] in g.objs && g.rootgc[g.sweepgc] in g.marked && Swept(g, g)
    ensures g.objs[g.rootgc[g.sweepgc]].Thread? ==> UpsUpTo(g, g.sweepgc, 0)
  {
    SweptSame(g);
    assert g.rootgc[g.sweepgc] in g.rootgc;
  }

  /** Where a thread stood after its open upvalues were swept: the same place, the same thread. */
  lemma UpsDone(g: G, p: nat)
    requires AllUps(g, p)
    ensures RootUpTo(g, p) && g.rootgc[p] in g.objs && g.rootgc[p] in g.marked && g.objs[g.rootgc[p]].Thread?
    ensures forall u :: u in g.objs[g.rootgc[p]].openupval ==> IsCurrent(g, u)
  {
  }

  ghost predicate SweepOk(g: G) {
    Core(g) && g.phase == Sweep && StringsSwept(g, |g.strt|) && RootSwept(g, g.sweepgc) && g.gray == []
  }

  lemma SweepOkInv(g: G)
    ensures SweepOk(g) ==> Inv(g)
    ensures Inv(g) && g.phase == Sweep ==> SweepOk(g)
  {
  }

  lemma DeadStart(g: G, p: nat)
    requires DeadAt(g, p)
    ensures p < |g.rootgc| && Swept(g, g) && g.rootgc[p] in g.objs && g.rootgc[p] in g.marked
  {
    SweptSame(g);
  }

  lemma SweepOkSame(g: G)
    requires SweepOk(g)
    ensures Swept(g, g)
  {
    SweptSame(g);
  }

  lemma SweptFewer(g: G, g': G, r: Ref)
    requires Swept(g, g') && r in g.objs && r !in g'.objs
    ensures g'.objs.Keys < g.objs.Keys
  {
  }

  lemma SweptKeys(g: G, g': G)
    requires Swept(g, g')
    ensures g'.objs.Keys <= g.objs.Keys
  {
  }

  /** The fixed objects: they survive whatever their colour. */
  function Fixed(marked: Marks): set<Ref> {
    set r | r in marked && marked[r].fixed
  }

  /** K bounds what the collection under way keeps; after the sweep, what there is. */
  ghost predicate StepBound(g: G, K: set<Ref>) {
    match g.phase
    case Pause => MarkBound(g, K)
    case Propagate => MarkBound(g, K)
    case SweepString => Alive(g.marked, g.cw) <= K + Fixed(g.marked)
    case Sweep => Alive(g.marked, g.cw) <= K + Fixed(g.marked)
    case Finalize => g.objs.Keys <= K + Fixed(g.marked)
  }

  /** Safety of one step: what was freed was dead (and so, by the invariant, unreachable). */
  ghost predicate NothingLiveFreed(g: G, g': G) {
    && g.objs.Keys == g.marked.Keys
    && (forall r :: r in g.objs && !IsDead(g.marked[r], g.cw) ==> r in g'.objs)
  }

  lemma SweptBound(g: G, g': G, K: set<Ref>)
    requires Swept(g, g') || Swept(g.(sweepstr := g'.sweepstr, phase := g'.phase), g')
    requires Alive(g.marked, g.cw) <= K + Fixed(g.marked)
    ensures Alive(g'.marked, g'.cw) <= K + Fixed(g'.marked) && NothingLiveFreed(g, g')
  {
    forall r | r in g.objs && !IsDead(g.marked[r], g.cw) ensures r in g'.objs
    {
      if Swept(g, g') { assert Survives(g.objs, g'.objs, r); } else { assert Survives(g.objs, g'.objs, r); }
    }
    forall r | r in g'.marked && !IsDead(g'.marked[r], g'.cw) ensures r in K + Fixed(g'.marked)
    {
      assert r in g'.objs && r in g.marked;
      if IsDead(g.marked[r], g.cw) { assert g.marked[r].fixed; } else { assert r in Alive(g.marked, g.cw); }
    }
  }

  lemma SweepPos(g: G)
    requires SweepOk(g)
    ensures g.sweepgc <= |g.rootgc|
  {
  }

  lemma SweepEnds(g: G, K: set<Ref>)
    requires SweepOk(g) && g.sweepgc >= |g.rootgc| && Alive(g.marked, g.cw) <= K + Fixed(g.marked)
    ensures Inv(g.(phase := Finalize)) && g.objs.Keys <= K + Fixed(g.marked)
  {
    SweepDone(g);
    var g' := g.(phase := Finalize);
    assert Core(g') by { FinalizePhase(g); }
    forall r | r in g.objs ensures r in Alive(g.marked, g.cw) {}
  }

  lemma FinalizePhase(g: G)
    requires Core(g)
    ensures Core(g.(phase := Finalize))
  {
  }

  lemma ToPause(g: G)
    requires Inv(g) && g.phase == Finalize && g.tm == []
    ensures Inv(g.(phase := Pause))
  {
  }

  lemma MainIdx(g: G)
    requires Inv(g)
    ensures g.mainidx < |g.rootgc| && g.objs.Keys == g.marked.Keys
  {
  }

  lemma KeptKeysOf(objs: Heap, objs': Heap)
    requires HeapKept(objs, objs')
    ensures objs'.Keys == objs.Keys
  {
  }

  lemma FrameKeys(objs: Heap, objs': Heap)
    requires SameFrame(objs, objs')
    ensures objs'.Keys == objs.Keys
  {
  }
}
