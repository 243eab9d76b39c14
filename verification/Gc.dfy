/** The collector of lgc.c. */
module Gc {
  import opened Common
  import opened GcHeap
  import opened GcInv
  import opened GcLists
  import opened GcWeak
  import opened GcReach
  import opened GcState
  import opened GcSweep
  import opened GcFinal
  import opened GcMutator
  import opened GcAlloc
  import opened GcUpval
  import opened GcOps
  import opened GcRun

  class GlobalState {
    var objs: Heap
    var marked: Marks
    var currentwhite: bool
    var gray: seq<Ref>
    var grayagain: seq<Ref>
    var weak: seq<Ref>
    var rootgc: seq<Ref>
    var mainidx: nat                    // where g->mainthread stands in rootgc
    var tmudata: seq<Ref>               // first element first; the source keeps a circular list
    var uvhead: seq<Ref>
    var running: Ref
    var mt: seq<Option<Ref>>
    var gcstate: Phase
    var sweepgc: nat                    // position of the sweep in rootgc
    var strt: seq<seq<Ref>>
    var sweepstrgc: nat
    var called: seq<Ref>                // userdata whose finalizer was called, in order
    var nextref: Ref
    ghost var cut: set<Ref>             // the userdata that marking does not enter; only atomic has any
    const mainthread: Ref
    const registry: Ref

    ghost function Snap(): G
      reads this
    {
      G(objs, marked, currentwhite, gcstate, gray, grayagain, weak, rootgc, mainidx, sweepgc, strt, sweepstrgc,
        tmudata, uvhead, running, mt, called, nextref, mainthread, registry)
    }

    ghost predicate Valid()
      reads this
    {
      Inv(Snap()) && Uncut(cut)
    }

    /** Every userdata that awaits its finalizer is black. */
    ghost predicate Dark()
      reads this
    {
      TmBlack(Snap())
    }

    ghost predicate MInv(todo: set<Ref>)
      reads this
    {
      MarkInv(objs, marked, currentwhite, gray, grayagain, weak, todo) && CutOk(objs, marked, cut)
    }

    /** What is left to traverse; every marking step keeps it or lowers it. */
    ghost function Work(): nat
      reads this
    {
      |gray| + |Whites(marked)|
    }

    /** markobject */
    method MarkObject(r: Ref, ghost todo: set<Ref>, ghost K: set<Ref>)
      requires MInv(todo) && r in objs
      requires StrongBut(objs, K, cut) && r in K
      modifies this`marked, this`gray
      ensures MInv(todo) && Work() <= old(Work())
      ensures BlackWeak(objs, marked) <= BlackWeak(objs, old(marked))
      ensures Grows(old(marked), marked, K) && r in NonWhite(marked)
      decreases Whites(marked), 1
    {
      if marked[r].color.White? {
        ReallyMarkObject(r, todo, K);
      }
    }

    /** markvalue */
    method MarkValue(v: Value, ghost todo: set<Ref>, ghost K: set<Ref>)
      requires MInv(todo) && Ok(v, objs.Keys)
      requires StrongBut(objs, K, cut) && Ok(v, K)
      modifies this`marked, this`gray
      ensures MInv(todo) && Work() <= old(Work())
      ensures BlackWeak(objs, marked) <= BlackWeak(objs, old(marked))
      ensures Grows(old(marked), marked, K) && Ok(v, NonWhite(marked))
      decreases Whites(marked), 2
    {
      if v.Gc? && marked[v.ref].color.White? {
        ReallyMarkObject(v.ref, todo, K);
      }
    }

    method ReallyMarkObject(r: Ref, ghost todo: set<Ref>, ghost K: set<Ref>)
      requires MInv(todo) && r in objs && marked[r].color.White?
      requires StrongBut(objs, K, cut) && r in K
      modifies this`marked, this`gray
      ensures MInv(todo) && Work() <= old(Work())
      ensures BlackWeak(objs, marked) <= BlackWeak(objs, old(marked))
      ensures Grows(old(marked), marked, K) && r in NonWhite(marked)
      decreases Whites(marked), 0
    {
      hide Tri, GrayListed, ListsOk, BlackOk, NoneDead, LiveClosed, StrongBut, Grows, NonWhite, Whites,
        BlackWeak;
      ghost var m0 := marked;
      var c := if objs[r].Udata? || (objs[r].UpVal? && objs[r].cell.Closed?) then Black else Gray;
      ColorOne(objs, marked, currentwhite, gray, grayagain, weak, todo, r, c, objs[r].Traversable(), K);
      BlackHeader(objs, marked, r, marked[r].(color := c));
      marked := marked[r := marked[r].(color := c)];
      if objs[r].Traversable() {
        gray := [r] + gray;
      } else {
        ghost var m1 := marked;
        MarkOwnRefs(r, todo, K);
        GrowsTrans(m0, m1, marked, K);
      }
    }

    /** The part of reallymarkobject that marks at once what a userdata or an upvalue refers to. */
    method MarkOwnRefs(r: Ref, ghost todo: set<Ref>, ghost K: set<Ref>)
      requires MInv(todo + {r}) && r in objs && !marked[r].color.White?
      requires objs[r].Str? || objs[r].Udata? || objs[r].UpVal?
      requires StrongBut(objs, K, cut) && r in K && r !in cut
      modifies this`marked, this`gray
      ensures MInv(todo) && Work() <= old(Work())
      ensures BlackWeak(objs, marked) <= BlackWeak(objs, old(marked))
      ensures Grows(old(marked), marked, K) && r in NonWhite(marked)
      decreases Whites(marked), 3
    {
      hide MarkInv, Grows, StrongBut, NonWhite, Whites, UpValue, RefsIn, BlackWeak;
      var o := objs[r];
      ghost var m0 := marked;
      OwnRefs(objs, marked, currentwhite, gray, grayagain, weak, todo + {r}, r, K, cut);
      GrowsSame(marked, K);
      match o {
        case Str(_) =>
          assert RefsIn(objs, o, NonWhite(marked)) by { StrCovered(objs, o, NonWhite(marked)); }
        case Udata(mt, env) =>
          if mt.Some? { MarkObject(mt.value, todo + {r}, K); }
          ghost var m1 := marked;
          GrowsWhites(m0, m1, K);
          MarkObject(env, todo + {r}, K);
          GrowsTrans(m0, m1, marked, K);
          UdataCovered(objs, o, NonWhite(m1), NonWhite(marked));
        case UpVal(cell) =>
          MarkValue(UpValue(objs, cell), todo + {r}, K);
          UpValCovered(objs, o, NonWhite(marked));
      }
      GrowsKeeps(m0, marked, K, r);
      ShrinkPlain(objs, marked, currentwhite, gray, grayagain, weak, todo, r);
    }

    /** Marks every value of a vector (constants, upvalues, stack slots, array part). */
    method MarkValues(vs: seq<Value>, ghost todo: set<Ref>, ghost K: set<Ref>)
      requires MInv(todo) && AllOk(vs, objs.Keys)
      requires StrongBut(objs, K, cut) && AllOk(vs, K)
      modifies this`marked, this`gray
      ensures MInv(todo) && Work() <= old(Work())
      ensures BlackWeak(objs, marked) <= BlackWeak(objs, old(marked))
      ensures Grows(old(marked), marked, K) && AllOk(vs, NonWhite(marked))
    {
      hide MInv, MarkInv, Work, LiveClosed, StrongBut, Grows, NonWhite, BlackWeak;
      ghost var m0 := marked;
      GrowsSame(marked, K);
      var i := |vs|;
      while i > 0
        invariant 0 <= i <= |vs|
        invariant BlackWeak(objs, marked) <= BlackWeak(objs, m0)
        invariant MInv(todo) && Work() <= old(Work())
        invariant Grows(m0, marked, K) && AllOk(vs[i..], NonWhite(marked))
      {
        i := i - 1;
        ghost var m1 := marked;
        MarkValue(vs[i], todo, K);
        GrowsTrans(m0, m1, marked, K);
        AllOkMore(vs, i, NonWhite(m1), NonWhite(marked));
      }
      assert vs[0..] == vs;
    }

    method MarkRefs(rs: seq<Ref>, ghost todo: set<Ref>, ghost K: set<Ref>)
      requires MInv(todo) && RefsOk(rs, objs.Keys)
      requires StrongBut(objs, K, cut) && RefsOk(rs, K)
      modifies this`marked, this`gray
      ensures MInv(todo) && Work() <= old(Work())
      ensures BlackWeak(objs, marked) <= BlackWeak(objs, old(marked))
      ensures Grows(old(marked), marked, K) && RefsOk(rs, NonWhite(marked))
    {
      hide MInv, MarkInv, Work, LiveClosed, StrongBut, Grows, NonWhite, BlackWeak;
      ghost var m0 := marked;
      GrowsSame(marked, K);
      var i := 0;
      while i < |rs|
        invariant 0 <= i <= |rs|
        invariant BlackWeak(objs, marked) <= BlackWeak(objs, m0)
        invariant MInv(todo) && Work() <= old(Work())
        invariant Grows(m0, marked, K) && RefsOk(rs[..i], NonWhite(marked))
      {
        ghost var m1 := marked;
        MarkObject(rs[i], todo, K);
        GrowsTrans(m0, m1, marked, K);
        i := i + 1;
      }
      assert rs[..|rs|] == rs;
    }
  
    /** traversetable: marks the strong halves and retags the keys of empty entries. */
    method TraverseTable(r: Ref, ghost todo: set<Ref>, ghost K: set<Ref>) returns (mode: Mode)
      requires MInv(todo + {r}) && r in objs && objs[r].Table?
      requires StrongBut(objs, K, cut) && r in K
      modifies this`marked, this`gray, this`objs
      ensures mode == ModeOf(old(objs), old(objs)[r].mt)
      ensures objs == old(objs)[r := old(objs)[r].(node := DropEmpty(old(objs)[r].node, mode))]
      ensures objs[r].Table? && |objs[r].node| == |old(objs)[r].node| && forall i :: 0 <= i < |objs[r].node| ==>
        var n := old(objs)[r].node[i];
        objs[r].node[i] ==
          if !(mode.k && mode.v) && n.val.Nil? && n.key.Live? && n.key.v.Gc? then Node(Dead(n.key.v.ref), Nil) else n
      ensures MInv(todo + {r}) && Work() <= old(Work()) && StrongBut(objs, K, cut)
      ensures BlackWeak(objs, marked) <= BlackWeak(old(objs), old(marked))
      ensures Grows(old(marked), marked, K)
      ensures TableCovered(objs[r], mode.k, mode.v, NonWhite(marked))
    {
      hide MarkInv, CutOk, StrongBut, Grows, NonWhite, Whites, TableCovered, NodeCovered, AllOk, ModeOf, DropEmpty,
        NodeLive,
        StrongIn, RefsIn, LiveClosed, OptOk, BlackWeak;
      var o := objs[r];
      TableParts(objs, marked, currentwhite, gray, grayagain, weak, todo + {r}, r, K, cut);
      TableStrong(objs, o, K);
      ghost var m0 := marked;
      if o.mt.Some? { MarkObject(o.mt.value, todo + {r}, K); } else { GrowsSame(marked, K); }
      mode := ModeOf(objs, o.mt);
      ghost var m1 := marked;
      if !mode.v { MarkValues(o.arr, todo + {r}, K); } else { GrowsSame(marked, K); }
      ghost var m2 := marked;
      GrowsTrans(m0, m1, m2, K);
      if !(mode.k && mode.v) { MarkNodes(o.node, mode, todo + {r}, K); } else { GrowsSame(marked, K); }
      GrowsTrans(m0, m2, marked, K);
      RetagEmpty(r, mode, todo + {r}, K);
      DropEmptyAt(o.node, mode);
      TableCoveredBy(o, mode, NonWhite(m1), NonWhite(m2), NonWhite(marked));
    }

    /** The removeentry calls of traversetable, gathered. */
    method RetagEmpty(r: Ref, mode: Mode, ghost todo: set<Ref>, ghost K: set<Ref>)
      requires MInv(todo) && r in objs && objs[r].Table? && StrongBut(objs, K, cut)
      modifies this`objs
      ensures objs == old(objs)[r := old(objs)[r].(node := DropEmpty(old(objs)[r].node, mode))]
      ensures BlackWeak(objs, marked) <= BlackWeak(old(objs), old(marked))
      ensures MInv(todo) && StrongBut(objs, K, cut) && Work() == old(Work())
    {
      hide MarkInv, StrongBut, BlackWeak, DropEmpty, Whites;
      BlackDrop(objs, marked, r, mode);
      DropEmptyKeeps(objs, marked, currentwhite, gray, grayagain, weak, todo, r, mode, K, cut);
      objs := objs[r := objs[r].(node := DropEmpty(objs[r].node, mode))];
    }

    /** The node loop of traversetable; `DropEmpty` is what it leaves in the node vector. */
    method MarkNodes(node: seq<Node>, mode: Mode, ghost todo: set<Ref>, ghost K: set<Ref>)
      requires MInv(todo) && !(mode.k && mode.v)
      requires forall i :: 0 <= i < |node| ==> NodeLive(node[i], objs.Keys)
      requires forall i :: 0 <= i < |node| && !node[i].val.Nil? ==> NodeCovered(node[i], mode.k, mode.v, K)
      requires StrongBut(objs, K, cut)
      modifies this`marked, this`gray
      ensures MInv(todo) && Work() <= old(Work())
      ensures BlackWeak(objs, marked) <= BlackWeak(objs, old(marked))
      ensures Grows(old(marked), marked, K)
      ensures forall i :: 0 <= i < |node| ==> NodeCovered(DropEmpty(node, mode)[i], mode.k, mode.v, NonWhite(marked))
    {
      hide MInv, MarkInv, Work, LiveClosed, StrongBut, Grows, NonWhite, BlackWeak;
      ghost var m0 := marked;
      GrowsSame(marked, K);
      var i := |node|;
      while i > 0
        invariant 0 <= i <= |node|
        invariant BlackWeak(objs, marked) <= BlackWeak(objs, m0)
        invariant MInv(todo) && Work() <= old(Work())
        invariant Grows(m0, marked, K)
        invariant forall j :: i <= j < |node| ==> NodeCovered(DropEmpty(node, mode)[j], mode.k, mode.v,
          NonWhite(marked))
      {
        i := i - 1;
        var n := node[i];
        if !n.val.Nil? {
          assert NodeLive(n, objs.Keys) && NodeCovered(n, mode.k, mode.v, K);
          ghost var m1 := marked;
          if !mode.k && n.key.Live? { MarkValue(n.key.v, todo, K); } else { GrowsSame(marked, K); }
          ghost var m2 := marked;
          if !mode.v { MarkValue(n.val, todo, K); } else { GrowsSame(marked, K); }
          GrowsTrans(m1, m2, marked, K);
          GrowsTrans(m0, m1, marked, K);
        }
      }
    }

    method TraverseClosure(r: Ref, ghost todo: set<Ref>, ghost K: set<Ref>)
      requires MInv(todo + {r}) && r in objs && (objs[r].CClosure? || objs[r].LClosure?)
      requires StrongBut(objs, K, cut) && r in K
      modifies this`marked, this`gray
      ensures MInv(todo + {r}) && Work() <= old(Work())
      ensures BlackWeak(objs, marked) <= BlackWeak(objs, old(marked))
      ensures Grows(old(marked), marked, K)
      ensures RefsIn(objs, objs[r], NonWhite(marked))
    {
      var o := objs[r];
      assert RefsIn(objs, o, objs.Keys) && RefsIn(objs, o, K);
      assert o.env in objs && o.env in K;
      assert o.CClosure? ==> AllOk(o.upvalue, objs.Keys) && AllOk(o.upvalue, K);
      assert o.LClosure? ==> o.p in objs && o.p in K && RefsOk(o.upvals, objs.Keys) && RefsOk(o.upvals, K);
      hide *;
      ghost var m0 := marked;
      MarkObject(o.env, todo + {r}, K);
      ghost var m1 := marked;
      match o {
        case CClosure(_, upvalue) =>
          MarkValues(upvalue, todo + {r}, K);
        case LClosure(_, p, upvals) =>
          MarkObject(p, todo + {r}, K);
          ghost var m2 := marked;
          MarkRefs(upvals, todo + {r}, K);
          GrowsTrans(m1, m2, marked, K);
      }
      GrowsTrans(m0, m1, marked, K);
      ClosureCovered(objs, o, NonWhite(m1), NonWhite(marked));
    }

    method TraverseProto(r: Ref, ghost todo: set<Ref>, ghost K: set<Ref>)
      requires MInv(todo + {r}) && r in objs && objs[r].Proto?
      requires StrongBut(objs, K, cut) && r in K
      modifies this`marked, this`gray
      ensures MInv(todo + {r}) && Work() <= old(Work())
      ensures BlackWeak(objs, marked) <= BlackWeak(objs, old(marked))
      ensures Grows(old(marked), marked, K)
      ensures RefsIn(objs, objs[r], NonWhite(marked))
    {
      var o := objs[r];
      assert RefsIn(objs, o, objs.Keys) && RefsIn(objs, o, K);
      assert o.source.Some? ==> o.source.value in objs && o.source.value in K;
      assert AllOk(o.k, objs.Keys) && AllOk(o.k, K);
      assert RefsOk(o.names, objs.Keys) && RefsOk(o.names, K) && RefsOk(o.protos, objs.Keys) && RefsOk(o.protos, K);
      hide *;
      ghost var m0 := marked;
      // stringmark does to a string what markobject does
      if o.source.Some? { MarkObject(o.source.value, todo + {r}, K); } else { GrowsSame(marked, K); }
      ghost var m1 := marked;
      MarkValues(o.k, todo + {r}, K);
      ghost var m2 := marked;
      GrowsTrans(m0, m1, m2, K);
      MarkRefs(o.names, todo + {r}, K);
      ghost var m3 := marked;
      GrowsTrans(m0, m2, m3, K);
      MarkRefs(o.protos, todo + {r}, K);
      GrowsTrans(m0, m3, marked, K);
      ProtoCovered(objs, o, NonWhite(m1), NonWhite(m2), NonWhite(m3), NonWhite(marked));
    }

    method TraverseStack(r: Ref, ghost todo: set<Ref>, ghost K: set<Ref>)
      requires MInv(todo + {r}) && r in objs && objs[r].Thread?
      requires StrongBut(objs, K, cut) && r in K
      modifies this`marked, this`gray
      ensures MInv(todo + {r}) && Work() <= old(Work())
      ensures BlackWeak(objs, marked) <= BlackWeak(objs, old(marked))
      ensures Grows(old(marked), marked, K)
      ensures RefsIn(objs, objs[r], NonWhite(marked))
    {
      var o := objs[r];
      assert RefsIn(objs, o, objs.Keys) && RefsIn(objs, o, K);
      assert Ok(o.gt, objs.Keys) && Ok(o.gt, K) && AllOk(o.stack, objs.Keys) && AllOk(o.stack, K);
      hide *;
      ghost var m0 := marked;
      MarkValue(o.gt, todo + {r}, K);
      ghost var m1 := marked;
      MarkValues(o.stack, todo + {r}, K);
      GrowsTrans(m0, m1, marked, K);
      ThreadCovered(objs, o, NonWhite(m1), NonWhite(marked));
    }
  
    /** propagatemark: traverses the first gray object. */
    method PropagateMark(ghost todo: set<Ref>, ghost K: set<Ref>)
      requires MInv(todo) && |gray| > 0
      requires StrongBut(objs, K, cut) && NonWhite(marked) <= K
      modifies this`marked, this`gray, this`grayagain, this`weak, this`objs
      ensures MInv(todo) && Work() < old(Work()) && StrongBut(objs, K, cut)
      ensures Progress(old(objs), old(marked), objs, marked, K)
      ensures forall x :: x in grayagain ==> x in old(grayagain) || (x in objs && objs[x].Thread?)
      ensures SetOf(old(grayagain)) <= SetOf(grayagain) && SetOf(old(weak)) <= SetOf(weak)
      ensures BlackWeak(objs, marked) <= BlackWeak(old(objs), old(marked))
      ensures WeakFit(old(objs), old(marked), old(weak)) ==> WeakFit(objs, marked, weak)
    {
      hide MarkInv, StrongBut, Progress, NonWhite, Whites, WeakFit, BlackWeak;
      var r := gray[0];
      PopGray(objs, marked, currentwhite, gray, grayagain, weak, todo);
      if objs[r].Thread? {
        PropagateThread(r, todo, K);
      } else {
        PropagateOther(r, todo, K);
      }
    }

    method PropagateThread(r: Ref, ghost todo: set<Ref>, ghost K: set<Ref>)
      requires |gray| > 0 && r == gray[0] && r in objs && r in marked && marked[r].color.Gray? && objs[r].Thread?
      requires MarkInv(objs, marked, currentwhite, gray[1..], [r] + grayagain, weak, todo + {r}) &&
        CutOk(objs, marked, cut)
      requires StrongBut(objs, K, cut) && r in K
      modifies this`marked, this`gray, this`grayagain
      ensures MInv(todo) && Work() < old(Work()) && StrongBut(objs, K, cut)
      ensures Progress(objs, old(marked), objs, marked, K)
      ensures grayagain == [r] + old(grayagain)
      ensures BlackWeak(objs, marked) <= BlackWeak(old(objs), old(marked))
      ensures WeakFit(old(objs), old(marked), old(weak)) ==> WeakFit(objs, marked, weak)
    {
      hide MarkInv, StrongBut, Progress, NonWhite, Whites, RefsIn, Grows, WeakFit, BlackWeak;
      ghost var m0 := marked;
      gray := gray[1..];
      grayagain := [r] + grayagain;
      TraverseStack(r, todo, K);
      FitGrows(objs, m0, marked, weak, K);
      GrowsKeeps(m0, marked, K, r);
      ShrinkPlain(objs, marked, currentwhite, gray, grayagain, weak, todo, r);
      ProgressGrows(objs, m0, marked, K);
    }

    method PropagateOther(r: Ref, ghost todo: set<Ref>, ghost K: set<Ref>)
      requires |gray| > 0 && r == gray[0] && r in objs && r in marked && marked[r].color.Gray?
      requires objs[r].Traversable() && !objs[r].Thread?
      requires MarkInv(objs, marked[r := marked[r].(color := Black)], currentwhite, gray[1..], grayagain, weak,
        todo + {r})
      requires CutOk(objs, marked, cut)
      requires Whites(marked[r := marked[r].(color := Black)]) == Whites(marked)
      requires StrongBut(objs, K, cut) && r in K
      modifies this`marked, this`gray, this`weak, this`objs
      ensures MInv(todo) && Work() < old(Work()) && StrongBut(objs, K, cut)
      ensures Progress(old(objs), old(marked), objs, marked, K)
      ensures weak == old(weak) || weak == [r] + old(weak)
      ensures BlackWeak(objs, marked) <= BlackWeak(old(objs), old(marked))
      ensures WeakFit(old(objs), old(marked), old(weak)) ==> WeakFit(objs, marked, weak)
    {
      hide MarkInv, StrongBut, Progress, NonWhite, Whites, RefsIn, Grows, WeakFit, BlackWeak;
      ghost var o0, m0 := objs, marked;
      BlackOff(objs, marked, currentwhite, gray[1..], grayagain, weak, todo + {r}, r);
      FitBlack(objs, marked, weak, r);
      BlackStart(objs, marked, r);
      ProgressHeader(objs, marked, r, marked[r].(color := Black), K);
      marked := marked[r := marked[r].(color := Black)];
      gray := gray[1..];
      ghost var o1, m1 := objs, marked;
      PropagateBlack(r, todo, K);
      ProgressTrans(o0, m0, o1, m1, objs, marked, K);
    }

    method PropagateBlack(r: Ref, ghost todo: set<Ref>, ghost K: set<Ref>)
      requires MInv(todo + {r}) && r in objs && r in marked && marked[r].color.Black?
      requires objs[r].Traversable() && !objs[r].Thread?
      requires StrongBut(objs, K, cut) && r in K
      modifies this`marked, this`gray, this`weak, this`objs
      ensures MInv(todo) && Work() <= old(Work()) && StrongBut(objs, K, cut)
      ensures Progress(old(objs), old(marked), objs, marked, K)
      ensures weak == old(weak) || weak == [r] + old(weak)
      ensures BlackWeak(objs, marked) <= BlackWeak(old(objs), old(marked)) - {r}
      ensures WeakFit(old(objs), old(marked), old(weak)) ==> WeakFit(objs, marked, weak)
    {
      hide MarkInv, CutOk, StrongBut, Progress, NonWhite, Whites, RefsIn, Grows, Work, WeakFit, BlackWeak;
      if objs[r].Table? {
        PropagateTable(r, todo, K);
      } else {
        ghost var m0 := marked;
        if objs[r].Proto? { TraverseProto(r, todo, K); } else { TraverseClosure(r, todo, K); }
        FitGrows(objs, m0, marked, weak, K);
        BlackOut(objs, marked, r);
        GrowsKeeps(m0, marked, K, r);
        ShrinkPlain(objs, marked, currentwhite, gray, grayagain, weak, todo, r);
        ProgressGrows(objs, m0, marked, K);
      }
    }

    method PropagateTable(r: Ref, ghost todo: set<Ref>, ghost K: set<Ref>)
      requires MInv(todo + {r}) && r in objs && r in marked && marked[r].color.Black?
      requires objs[r].Table?
      requires StrongBut(objs, K, cut) && r in K
      modifies this`marked, this`gray, this`weak, this`objs
      ensures MInv(todo) && Work() <= old(Work()) && StrongBut(objs, K, cut)
      ensures Progress(old(objs), old(marked), objs, marked, K)
      ensures weak == old(weak) || weak == [r] + old(weak)
      ensures BlackWeak(objs, marked) <= BlackWeak(old(objs), old(marked)) - {r}
      ensures WeakFit(old(objs), old(marked), old(weak)) ==> WeakFit(objs, marked, weak)
    {
      ghost var o0, m0 := objs, marked;
      hide MarkInv, StrongBut, Progress, NonWhite, Whites, Grows, TableCovered, WeakFit, BlackWeak;
      var mode := TraverseTable(r, todo, K);
      GrowsKeeps(m0, marked, K, r);
      FitGrows(o0, m0, marked, weak, K);
      FitDrop(o0, marked, weak, r, mode);
      DropMode(o0, r, mode, o0[r].mt);
      BlackUnlisted(objs, marked, currentwhite, gray, grayagain, weak, todo + {r}, r);
      ProgressGrows(o0, m0, marked, K);
      ProgressDrop(o0, marked, r, mode, K);
      ghost var m1 := marked;
      ProgressTrans(o0, m0, o0, m1, objs, m1, K);
      if mode.k || mode.v {
        PushWeak(objs, marked, currentwhite, gray, grayagain, weak, todo, r, mode);
        BlackHeader(objs, marked, r, marked[r].(color := Gray, bit3 := mode.k, bit4 := mode.v));
        ProgressHeader(objs, marked, r, marked[r].(color := Gray, bit3 := mode.k, bit4 := mode.v), K);
        marked := marked[r := marked[r].(color := Gray, bit3 := mode.k, bit4 := mode.v)];
        FitPush(objs, m1, weak, r, mode);
        weak := [r] + weak;
        ProgressTrans(o0, m0, objs, m1, objs, marked, K);
      } else {
        BlackOut(objs, marked, r);
        ShrinkTable(objs, marked, currentwhite, gray, grayagain, weak, todo, r);
      }
    }

    /** propagateall */
    method PropagateAll(ghost todo: set<Ref>, ghost K: set<Ref>)
      requires MInv(todo) && StrongBut(objs, K, cut) && NonWhite(marked) <= K
      modifies this`marked, this`gray, this`grayagain, this`weak, this`objs
      ensures MInv(todo) && gray == [] && StrongBut(objs, K, cut)
      ensures Progress(old(objs), old(marked), objs, marked, K)
      ensures forall x :: x in grayagain ==> x in old(grayagain) || (x in objs && objs[x].Thread?)
      ensures SetOf(old(grayagain)) <= SetOf(grayagain) && SetOf(old(weak)) <= SetOf(weak)
      ensures BlackWeak(objs, marked) <= BlackWeak(old(objs), old(marked))
      ensures WeakFit(old(objs), old(marked), old(weak)) ==> WeakFit(objs, marked, weak)
    {
      ghost var o0, m0 := objs, marked;
      ProgressSame(objs, marked, K);
      hide MarkInv, StrongBut, NonWhite, Whites, HeapKept, MarksKept, WeakFit, BlackWeak;
      while |gray| > 0
        invariant MInv(todo) && StrongBut(objs, K, cut)
        invariant Progress(o0, m0, objs, marked, K)
        invariant forall x :: x in grayagain ==> x in old(grayagain) || (x in objs && objs[x].Thread?)
        invariant SetOf(old(grayagain)) <= SetOf(grayagain) && SetOf(old(weak)) <= SetOf(weak)
        invariant BlackWeak(objs, marked) <= BlackWeak(o0, m0)
        invariant WeakFit(old(objs), old(marked), old(weak)) ==> WeakFit(objs, marked, weak)
        decreases Work()
      {
        ghost var o1, m1 := objs, marked;
        PropagateMark(todo, K);
        KeptThreads(o1, objs);
        ProgressTrans(o0, m0, o1, m1, objs, marked, K);
      }
    }
  
    /** remarkupvals: the value of every gray upvalue, for threads that may be dead. */
    method RemarkUpvals(ghost todo: set<Ref>, ghost K: set<Ref>)
      requires MInv(todo) && UvheadOk(objs, uvhead)
      requires StrongBut(objs, K, cut) && NonWhite(marked) <= K
      modifies this`marked, this`gray
      ensures MInv(todo - SetOf(uvhead))
      ensures BlackWeak(objs, marked) <= BlackWeak(objs, old(marked))
      ensures Grows(old(marked), marked, K)
    {
      ghost var m0 := marked;
      GrowsSame(marked, K);
      assert todo - SetOf(uvhead[..0]) == todo;
      assert uvhead[..|uvhead|] == uvhead;
      hide *;
      var i := 0;
      while i < |uvhead|
        invariant 0 <= i <= |uvhead|
        invariant BlackWeak(objs, marked) <= BlackWeak(objs, m0)
        invariant MInv(todo - SetOf(uvhead[..i]))
        invariant Grows(m0, marked, K) && NonWhite(marked) <= K
      {
        RemarkUpval(i, todo, m0, K);
        i := i + 1;
      }
    }

    method RemarkUpval(i: nat, ghost todo: set<Ref>, ghost m0: Marks, ghost K: set<Ref>)
      requires UvheadOk(objs, uvhead) && i < |uvhead| && MInv(todo - SetOf(uvhead[..i]))
      requires StrongBut(objs, K, cut) && NonWhite(marked) <= K && Grows(m0, marked, K)
      modifies this`marked, this`gray
      ensures MInv(todo - SetOf(uvhead[..i + 1]))
      ensures BlackWeak(objs, marked) <= BlackWeak(objs, old(marked))
      ensures Grows(m0, marked, K) && NonWhite(marked) <= K
    {
      hide MarkInv, StrongBut, NonWhite, Whites, Grows, UvheadOk, UpValue, SetOf, CutOk, BlackWeak;
      UpvalReady(objs, marked, currentwhite, gray, grayagain, weak, todo, uvhead, i, K, cut);
      var uv := uvhead[i];
      ghost var rest := todo - SetOf(uvhead[..i + 1]);
      if marked[uv].color.Gray? {
        ghost var m1 := marked;
        MarkValue(UpValue(objs, objs[uv].cell), rest + {uv}, K);
        GrowsKeeps(m1, marked, K, uv);
        GrowsInside(m1, marked, K);
        GrowsTrans(m0, m1, marked, K);
        UpValCovered(objs, objs[uv], NonWhite(marked));
      }
      ShrinkPlain(objs, marked, currentwhite, gray, grayagain, weak, rest, uv);
    }

    /** markmt */
    method MarkMt(ghost todo: set<Ref>, ghost K: set<Ref>)
      requires MInv(todo) && StrongBut(objs, K, cut)
      requires MtIn(mt, objs.Keys) && MtIn(mt, K)
      modifies this`marked, this`gray
      ensures MInv(todo) && Grows(old(marked), marked, K)
      ensures BlackWeak(objs, marked) <= BlackWeak(objs, old(marked))
      ensures MtIn(mt, NonWhite(marked))
    {
      ghost var m0 := marked;
      GrowsSame(marked, K);
      hide MarkInv, StrongBut, NonWhite, Whites, Grows, BlackWeak;
      var i := 0;
      while i < |mt|
        invariant 0 <= i <= |mt|
        invariant BlackWeak(objs, marked) <= BlackWeak(objs, m0)
        invariant MInv(todo) && Grows(m0, marked, K)
        invariant forall j :: 0 <= j < i ==> OptOk(mt[j], NonWhite(marked))
      {
        ghost var m1 := marked;
        if mt[i].Some? {
          MarkObject(mt[i].value, todo, K);
          GrowsTrans(m0, m1, marked, K);
        }
        i := i + 1;
      }
    }

    /** luaC_separateudata: the list computation is `Stay` and `Moved`, the bits are `Finalized`. */
    method SeparateUdata(all: bool)
      requires mainidx < |rootgc| && NoDup(rootgc)
      requires forall i :: mainidx < i < |rootgc| ==> rootgc[i] in marked
      modifies this`rootgc, this`tmudata, this`marked
      ensures var us := old(rootgc)[mainidx + 1..];
        && rootgc == old(rootgc)[..mainidx + 1] + Stay(objs, old(marked), us, all)
        && tmudata == old(tmudata) + Moved(objs, old(marked), us, all)
        && marked == Finalized(old(marked), us, all)
    {
      ghost var m0, us, pre := marked, rootgc[mainidx + 1..], rootgc[..mainidx + 1];
      var p := mainidx + 1;
      ghost var k := 0;
      SeparateNone(objs, m0, pre, us, all);
      assert NoDup(us) && rootgc == pre + us;
      hide *;
      while p < |rootgc|
        invariant k <= |us| && NoDup(us) && p == mainidx + 1 + |Stay(objs, m0, us[..k], all)|
        invariant rootgc == pre + Stay(objs, m0, us[..k], all) + us[k..]
        invariant tmudata == old(tmudata) + Moved(objs, m0, us[..k], all)
        invariant marked == Finalized(m0, us[..k], all)
        decreases |us| - k
      {
        p := SeparateStep(p, m0, pre, us, k, all, old(tmudata));
        k := k + 1;
      }
      Splice(pre, Stay(objs, m0, us[..k], all), us, k);
    }

    method SeparateStep(p: nat, ghost m0: Marks, ghost pre: seq<Ref>, ghost us: seq<Ref>, ghost k: nat, all: bool,
      ghost tm: seq<Ref>)
      returns (p': nat)
      requires k < |us| && NoDup(us) && p == |pre| + |Stay(objs, m0, us[..k], all)|
      requires rootgc == pre + Stay(objs, m0, us[..k], all) + us[k..]
      requires tmudata == tm + Moved(objs, m0, us[..k], all)
      requires marked == Finalized(m0, us[..k], all)
      modifies this`rootgc, this`tmudata, this`marked
      ensures p' == |pre| + |Stay(objs, m0, us[..k + 1], all)|
      ensures rootgc == pre + Stay(objs, m0, us[..k + 1], all) + us[k + 1..]
      ensures tmudata == tm + Moved(objs, m0, us[..k + 1], all)
      ensures marked == Finalized(m0, us[..k + 1], all)
    {
      hide *;
      Splice(pre, Stay(objs, m0, us[..k], all), us, k);
      SeparateOne(objs, m0, us, k, all);
      var curr := rootgc[p];
      if curr !in marked || !(marked[curr].color.White? || all) || marked[curr].bit3 {
        p' := p + 1;  // weak on both sides: nothing is marked through it
      } else if !(curr in objs && objs[curr].Udata? && HasGc(objs, objs[curr].mt)) {
        marked := marked[curr := marked[curr].(bit3 := true)];
        p' := p + 1;
      } else {
        p' := p;
        marked := marked[curr := marked[curr].(bit3 := true)];
        rootgc := rootgc[..p] + rootgc[p + 1..];
        tmudata := tmudata + [curr];
      }
    }

    /** marktmu: every userdata waiting for its finalizer is made white, then marked. */
    method MarkTmu(ghost K: set<Ref>)
      requires MInv(SetOf(tmudata)) && forall r :: r in tmudata ==> r in objs && objs[r].Udata?
      requires cut == {} && StrongBut(objs, K, cut) && SetOf(tmudata) <= K
      modifies this`marked, this`gray
      ensures BlackWeak(objs, marked) <= BlackWeak(objs, old(marked))
      ensures MInv({}) && Grows(old(marked), marked, K) && SetOf(tmudata) <= NonWhite(marked)
    {
      ghost var m0 := marked;
      GrowsSame(marked, K);
      assert tmudata[0..] == tmudata && SetOf(tmudata[..0]) == {} && SetOf(tmudata[|tmudata|..]) == {};
      hide *;
      var i := 0;
      while i < |tmudata|
        invariant 0 <= i <= |tmudata|
        invariant BlackWeak(objs, marked) <= BlackWeak(objs, m0)
        invariant MInv(SetOf(tmudata[i..])) && Grows(m0, marked, K) && SetOf(tmudata[..i]) <= NonWhite(marked)
      {
        MarkOneTmu(i, m0, K);
        i := i + 1;
      }
      assert tmudata[..i] == tmudata;
    }

    method MarkOneTmu(i: nat, ghost m0: Marks, ghost K: set<Ref>)
      requires i < |tmudata| && MInv(SetOf(tmudata[i..])) && tmudata[i] in objs && objs[tmudata[i]].Udata?
      requires cut == {} && StrongBut(objs, K, cut) && SetOf(tmudata) <= K
      requires Grows(m0, marked, K) && SetOf(tmudata[..i]) <= NonWhite(marked)
      modifies this`marked, this`gray
      ensures MInv(SetOf(tmudata[i + 1..]))
      ensures BlackWeak(objs, marked) <= BlackWeak(objs, old(marked))
      ensures Grows(m0, marked, K) && SetOf(tmudata[..i + 1]) <= NonWhite(marked)
    {
      hide MarkInv, StrongBut, Grows, NonWhite, SetOf, BlackWeak;
      TmuReady(objs, m0, marked, currentwhite, gray, grayagain, weak, tmudata, i, K);
      var u := tmudata[i];
      BlackHeader(objs, marked, u, marked[u].(color := Black));
      marked := marked[u := marked[u].(color := Black)];  // makewhite, then the colouring of reallymarkobject
      ghost var m1 := marked;
      MarkOwnRefs(u, SetOf(tmudata[i + 1..]), K);
      TmuDone(m0, m1, marked, tmudata, i, K);
    }

    /** iscleared: also marks a string it is asked about. */
    method ValueCleared(v: Value, iskey: bool, ghost K: set<Ref>) returns (b: bool)
      requires objs.Keys == marked.Keys && StrOk(objs, v, K)
      modifies this`marked
      ensures b == IsCleared(objs, old(marked), v, iskey)
      ensures StrMarks(objs, old(marked), marked, K)
      ensures StrOk(objs, v, NonWhite(marked))
    {
      if !v.Gc? || v.ref !in objs { return false; }
      if objs[v.ref].Str? {
        if marked[v.ref].color.White? { marked := marked[v.ref := marked[v.ref].(color := Gray)]; }
        return false;
      }
      return marked[v.ref].color.White? || (objs[v.ref].Udata? && !iskey && marked[v.ref].bit3);
    }

    method ClearValues(vs: seq<Value>, ghost K: set<Ref>) returns (ws: seq<Value>)
      requires objs.Keys == marked.Keys && forall i :: 0 <= i < |vs| ==> StrOk(objs, vs[i], K)
      modifies this`marked
      ensures |ws| == |vs| && forall i :: 0 <= i < |vs| ==> ws[i] == ClearValue(objs, old(marked), vs[i])
      ensures StrMarks(objs, old(marked), marked, K)
      ensures forall i :: 0 <= i < |ws| ==> StrOk(objs, ws[i], NonWhite(marked))
    {
      ghost var m0 := marked;
      ws := vs;
      var i := |vs|;
      while i > 0
        invariant 0 <= i <= |vs| == |ws|
        invariant forall j :: 0 <= j < i ==> ws[j] == vs[j]
        invariant forall j :: i <= j < |vs| ==> ws[j] == ClearValue(objs, m0, vs[j])
        invariant StrMarks(objs, m0, marked, K)
        invariant forall j :: i <= j < |ws| ==> StrOk(objs, ws[j], NonWhite(marked))
      {
        i := i - 1;
        ghost var m1 := marked;
        IsClearedStable(objs, objs, m0, marked, K);
        var c := ValueCleared(vs[i], false, K);
        StrMarksTrans(objs, m0, m1, marked, K);
        if c { ws := ws[i := Nil]; }
      }
    }

    method ClearNodes(ns: seq<Node>, ghost K: set<Ref>) returns (ms: seq<Node>)
      requires objs.Keys == marked.Keys && forall i :: 0 <= i < |ns| && !ns[i].val.Nil? ==> NodeStrOk(objs, ns[i], K)
      modifies this`marked
      ensures |ms| == |ns| && forall i :: 0 <= i < |ns| ==> ms[i] == ClearNode(objs, old(marked), ns[i])
      ensures StrMarks(objs, old(marked), marked, K)
      ensures forall i :: 0 <= i < |ms| ==> NodeStrMarked(objs, ms[i], NonWhite(marked))
    {
      ghost var m0 := marked;
      ms := ns;
      var i := |ns|;
      while i > 0
        invariant 0 <= i <= |ns| == |ms|
        invariant forall j :: 0 <= j < i ==> ms[j] == ns[j]
        invariant forall j :: i <= j < |ns| ==> ms[j] == ClearNode(objs, m0, ns[j])
        invariant StrMarks(objs, m0, marked, K)
        invariant forall j :: i <= j < |ms| ==> NodeStrMarked(objs, ms[j], NonWhite(marked))
      {
        i := i - 1;
        ghost var m1 := marked;
        IsClearedStable(objs, objs, m0, marked, K);
        var n := ClearOneNode(ns[i], K);
        StrMarksTrans(objs, m0, m1, marked, K);
        ms := ms[i := n];
      }
    }

    method ClearOneNode(n: Node, ghost K: set<Ref>) returns (n': Node)
      requires objs.Keys == marked.Keys && (!n.val.Nil? ==> NodeStrOk(objs, n, K))
      modifies this`marked
      ensures n' == ClearNode(objs, old(marked), n)
      ensures StrMarks(objs, old(marked), marked, K)
      ensures NodeStrMarked(objs, n', NonWhite(marked))
    {
      ghost var m0 := marked;
      n' := n;
      if !n.val.Nil? {
        var c := false;
        if n.key.Live? { c := ValueCleared(n.key.v, true, K); }
        ghost var m1 := marked;
        if !c {
          IsClearedStable(objs, objs, m0, marked, K);
          c := ValueCleared(n.val, false, K);
          StrMarksTrans(objs, m0, m1, marked, K);
        }
        if c { n' := RemoveEntry(n.(val := Nil)); }
      }
    }

    /** cleartable over the whole weak list. */
    method ClearWeakTables(ghost K: set<Ref>)
      requires objs.Keys == marked.Keys && NoDup(weak) && forall r :: r in weak ==> r in objs && objs[r].Table?
      requires forall r :: r in weak ==> TableStrOk(objs, objs[r], K)
      modifies this`marked, this`objs
      ensures objs == Cleared(old(objs), old(marked), weak)
      ensures StrMarks(old(objs), old(marked), marked, K)
      ensures forall r :: r in weak ==> TableStrMarked(old(objs), objs[r], old(marked)[r].bit4, NonWhite(marked))
    {
      ghost var o0, m0 := objs, marked;
      ClearedNone(o0, m0, weak, K);
      hide *;
      var i := 0;
      while i < |weak|
        invariant 0 <= i <= |weak|
        invariant ClearedUpTo(o0, m0, weak, i, objs, marked, K)
      {
        ClearOne(i, o0, m0, K);
        i := i + 1;
      }
      ClearedAll(o0, m0, weak, objs, marked, K);
    }

    method ClearOne(i: nat, ghost o0: Heap, ghost m0: Marks, ghost K: set<Ref>)
      requires o0.Keys == m0.Keys && NoDup(weak) && i < |weak|
      requires forall r :: r in weak ==> r in o0 && o0[r].Table? && TableStrOk(o0, o0[r], K)
      requires ClearedUpTo(o0, m0, weak, i, objs, marked, K)
      modifies this`marked, this`objs
      ensures ClearedUpTo(o0, m0, weak, i + 1, objs, marked, K)
    {
      ghost var o1, m1 := objs, marked;
      var r := weak[i];
      ClearReady(o0, m0, weak, i, objs, marked, K);
      hide ClearedUpTo, StrMarks, TableStrOk, IsCleared, NonWhite, NodeStrMarked, StrOk;
      var o := objs[r];
      var arr := o.arr;
      if marked[r].bit4 { arr := ClearValues(o.arr, K); } else { StrMarksSame(objs, marked, K); }
      ghost var m2 := marked;
      IsClearedStable(objs, objs, m1, m2, K);
      var node := ClearNodes(o.node, K);
      StrMarksTrans(objs, m1, m2, marked, K);
      objs := objs[r := o.(arr := arr, node := node)];
      ClearDone(o0, m0, weak, i, o1, m1, m2, marked, arr, node, K);
    }

    /** The first half of atomic: everything the roots and the write barriers asked for is traversed. */
    method AtomicMark(ghost K: set<Ref>)
      requires MInv(MarkTodo(uvhead, grayagain, weak, cut)) && gray == [] && UvheadOk(objs, uvhead)
      requires StrongBut(objs, K, cut) && NonWhite(marked) <= K
      requires running in objs && running in K && MtIn(mt, objs.Keys) && MtIn(mt, K)
      modifies this`marked, this`gray, this`grayagain, this`weak, this`objs
      ensures MInv(cut) && gray == [] && StrongBut(objs, K, cut)
      ensures Progress(old(objs), old(marked), objs, marked, K) && NonWhite(marked) <= K
      ensures running in NonWhite(marked) && MtIn(mt, NonWhite(marked))
      ensures forall r :: r in grayagain ==> r in objs && objs[r].Thread?
      ensures WeakFit(objs, marked, weak)
      ensures BlackWeak(objs, marked) <= BlackWeak(old(objs), old(marked))
    {
      ghost var o0, m0 := objs, marked;
      ProgressSame(objs, marked, K);
      hide MarkInv, Progress, StrongBut, NonWhite, Whites, SetOf, MarkTodo, MtIn, Grows, UvheadOk, WeakFit, BlackWeak;
      AtomicUpvals(o0, m0, K);
      KeptKeys(o0, m0, objs, marked, K);
      AtomicWeak(o0, m0, K);
      AtomicAgain(o0, m0, K);
    }

    /** The first part of atomic: the values of open upvalues of threads that may be dead, then the gray list. */
    method AtomicUpvals(ghost o0: Heap, ghost m0: Marks, ghost K: set<Ref>)
      requires MInv(MarkTodo(uvhead, grayagain, weak, cut)) && gray == [] && UvheadOk(objs, uvhead)
      requires StrongBut(objs, K, cut) && NonWhite(m0) <= K && NonWhite(marked) <= K &&
        Progress(o0, m0, objs, marked, K)
      modifies this`marked, this`gray, this`grayagain, this`weak, this`objs
      ensures MarkInv(objs, marked, currentwhite, weak, grayagain, [], cut + SetOf(grayagain)) && gray == []
      ensures CutOk(objs, marked, cut)
      ensures StrongBut(objs, K, cut) && NonWhite(marked) <= K && Progress(o0, m0, objs, marked, K)
      ensures BlackWeak(objs, marked) <= BlackWeak(old(objs), old(marked))
    {
      hide MarkInv, Progress, StrongBut, NonWhite, Whites, SetOf, MarkTodo, MtIn, Grows, UvheadOk, WeakFit, BlackWeak;
      ghost var o1, m1 := objs, marked;
      RemarkUpvals(MarkTodo(uvhead, grayagain, weak, cut), K);
      AtomicTodo1(objs, marked, currentwhite, gray, uvhead, grayagain, weak, cut);
      ProgressGrowsTrans(o0, m0, objs, m1, marked, K);
      ghost var again1, weak1 := grayagain, weak;
      PropagateFrom(SetOf(grayagain) + SetOf(weak) + cut, o0, m0, K);
      AtomicTodo2(objs, marked, currentwhite, again1, weak1, grayagain, weak, cut);
    }

    /** remark weak tables, the running thread and the basic metatables */
    method AtomicWeak(ghost o0: Heap, ghost m0: Marks, ghost K: set<Ref>)
      requires MarkInv(objs, marked, currentwhite, weak, grayagain, [], cut + SetOf(grayagain)) && gray == []
      requires CutOk(objs, marked, cut)
      requires StrongBut(objs, K, cut) && NonWhite(m0) <= K && NonWhite(marked) <= K &&
        Progress(o0, m0, objs, marked, K)
      requires running in objs && running in K && MtIn(mt, objs.Keys) && MtIn(mt, K)
      modifies this`marked, this`gray, this`grayagain, this`weak, this`objs
      ensures MarkInv(objs, marked, currentwhite, grayagain, [], weak, cut) && gray == []
      ensures CutOk(objs, marked, cut)
      ensures StrongBut(objs, K, cut) && NonWhite(marked) <= K && Progress(o0, m0, objs, marked, K)
      ensures running in NonWhite(marked) && MtIn(mt, NonWhite(marked))
      ensures WeakFit(objs, marked, weak)
      ensures BlackWeak(objs, marked) <= BlackWeak(old(objs), old(marked))
    {
      hide MarkInv, Progress, StrongBut, NonWhite, Whites, SetOf, MarkTodo, MtIn, Grows, UvheadOk, WeakFit, BlackWeak;
      ghost var m1, again1 := marked, grayagain;
      gray := weak;
      weak := [];
      MarkObject(running, cut + SetOf(grayagain), K);
      ghost var m2 := marked;
      MarkMt(cut + SetOf(grayagain), K);
      GrowsTrans(m1, m2, marked, K);
      ProgressGrowsTrans(o0, m0, objs, m1, marked, K);
      ghost var m3 := marked;
      FitNone(objs, marked);
      PropagateFrom(cut + SetOf(grayagain), o0, m0, K);
      RootsStay(mt, running, m2, m3, marked, K);
      AtomicTodo3(objs, marked, currentwhite, again1, grayagain, weak, cut);
    }

    /** What the barriers sent back to gray, once more. */
    method AtomicAgain(ghost o0: Heap, ghost m0: Marks, ghost K: set<Ref>)
      requires MarkInv(objs, marked, currentwhite, grayagain, [], weak, cut) && gray == []
      requires CutOk(objs, marked, cut)
      requires StrongBut(objs, K, cut) && NonWhite(m0) <= K && NonWhite(marked) <= K &&
        Progress(o0, m0, objs, marked, K)
      requires running in NonWhite(marked) && MtIn(mt, NonWhite(marked))
      requires WeakFit(objs, marked, weak)
      modifies this`marked, this`gray, this`grayagain, this`weak, this`objs
      ensures MInv(cut) && gray == [] && StrongBut(objs, K, cut)
      ensures NonWhite(marked) <= K && Progress(o0, m0, objs, marked, K)
      ensures running in NonWhite(marked) && MtIn(mt, NonWhite(marked))
      ensures forall r :: r in grayagain ==> r in objs && objs[r].Thread?
      ensures WeakFit(objs, marked, weak)
      ensures BlackWeak(objs, marked) <= BlackWeak(old(objs), old(marked))
    {
      hide MarkInv, Progress, StrongBut, NonWhite, Whites, SetOf, MarkTodo, MtIn, Grows, UvheadOk, WeakFit, BlackWeak;
      ghost var m1 := marked;
      gray := grayagain;
      grayagain := [];
      PropagateFrom(cut, o0, m0, K);
      GrowsSame(m1, K);
      RootsStay(mt, running, m1, m1, marked, K);
    }

    /** propagateall, within a longer marking phase that started from o0 and m0. */
    method PropagateFrom(ghost todo: set<Ref>, ghost o0: Heap, ghost m0: Marks, ghost K: set<Ref>)
      requires MInv(todo) && StrongBut(objs, K, cut) && NonWhite(m0) <= K && Progress(o0, m0, objs, marked, K)
      modifies this`marked, this`gray, this`grayagain, this`weak, this`objs
      ensures MInv(todo) && gray == [] && StrongBut(objs, K, cut)
      ensures Progress(o0, m0, objs, marked, K) && NonWhite(old(marked)) <= NonWhite(marked) <= K
      ensures forall x :: x in grayagain ==> x in old(grayagain) || (x in objs && objs[x].Thread?)
      ensures SetOf(old(grayagain)) <= SetOf(grayagain) && SetOf(old(weak)) <= SetOf(weak)
      ensures BlackWeak(objs, marked) <= BlackWeak(old(objs), old(marked))
      ensures WeakFit(old(objs), old(marked), old(weak)) ==> WeakFit(objs, marked, weak)
    {
      ghost var o1, m1 := objs, marked;
      hide MarkInv, Progress, StrongBut, NonWhite, Whites, SetOf, PropagateTodo, MtIn, Grows, UvheadOk, WeakFit,
        BlackWeak;
      ProgressInside(o0, m0, objs, marked, K);
      PropagateAll(todo, K);
      ProgressTrans(o0, m0, o1, m1, objs, marked, K);
      ProgressInside(o0, m0, objs, marked, K);
    }

    /** The second half of atomic: dead userdata with a finalizer are set apart and kept alive with all they refer to. */
    method AtomicFinalizers(ghost K: set<Ref>)
      requires MInv(SetOf(tmudata)) && gray == [] && RootOk(objs, rootgc, tmudata) &&
        UdataFrom(objs, rootgc, mainidx) && mainidx < |rootgc|
      requires cut == {} && StrongBut(objs, K, cut) && NonWhite(marked) <= K && SetOf(tmudata) <= K &&
        PendingIn(objs, marked, rootgc, K)
      requires forall r :: r in grayagain ==> r in objs && objs[r].Thread?
      modifies this`marked, this`gray, this`grayagain, this`weak, this`objs, this`rootgc, this`tmudata
      ensures MInv({}) && gray == [] && StrongBut(objs, K, cut)
      ensures forall r :: r in grayagain ==> r in objs && objs[r].Thread?
      ensures var us := old(rootgc)[mainidx + 1..];
        && rootgc == old(rootgc)[..mainidx + 1] + Stay(old(objs), old(marked), us, false)
        && tmudata == old(tmudata) + Moved(old(objs), old(marked), us, false)
        && Progress(old(objs), Finalized(old(marked), us, false), objs, marked, K)
      ensures SetOf(tmudata) <= NonWhite(marked) <= K && NonWhite(old(marked)) <= NonWhite(marked)
      ensures BlackWeak(objs, marked) <= BlackWeak(old(objs), old(marked))
      ensures old(WeakFit(objs, marked, weak)) ==> WeakFit(objs, marked, weak)
    {
      hide MarkInv, Progress, StrongBut, NonWhite, Whites, SetOf, Grows, Stay, Moved, Finalized, RootOk, UdataFrom,
        PendingIn, WeakFit, BlackWeak;
      ghost var o0 := objs;
      ghost var m1 := Finalized(marked, rootgc[mainidx + 1..], false);
      SeparateAndMark(K);
      PropagateFrom({}, o0, m1, K);
      ThreadsStay(o0, m1, objs, marked, K);
    }

    /** luaC_separateudata, then marktmu. */
    method SeparateAndMark(ghost K: set<Ref>)
      requires MInv(SetOf(tmudata)) && RootOk(objs, rootgc, tmudata) && UdataFrom(objs, rootgc, mainidx) &&
        mainidx < |rootgc|
      requires cut == {} && StrongBut(objs, K, cut) && NonWhite(marked) <= K && SetOf(tmudata) <= K &&
        PendingIn(objs, marked, rootgc, K)
      modifies this`marked, this`gray, this`rootgc, this`tmudata
      ensures MInv({})
      ensures var us := old(rootgc)[mainidx + 1..];
        && rootgc == old(rootgc)[..mainidx + 1] + Stay(objs, old(marked), us, false)
        && tmudata == old(tmudata) + Moved(objs, old(marked), us, false)
        && Progress(objs, Finalized(old(marked), us, false), objs, marked, K)
        && NonWhite(Finalized(old(marked), us, false)) <= K
      ensures SetOf(tmudata) <= NonWhite(marked) && NonWhite(old(marked)) <= NonWhite(marked)
      ensures BlackWeak(objs, marked) <= BlackWeak(objs, old(marked))
      ensures WeakFit(objs, old(marked), weak) ==> WeakFit(objs, marked, weak)
    {
      hide MarkInv, Progress, StrongBut, NonWhite, Whites, SetOf, Grows, Stay, Moved, Finalized, RootOk, UdataFrom,
        PendingIn, WeakFit, BlackWeak;
      ghost var m0, rootgc0 := marked, rootgc;
      SeparateSound(objs, marked, currentwhite, gray, grayagain, weak, rootgc, mainidx, tmudata, K);
      SeparateUdata(false);
      ghost var m1 := marked;
      BlackFinalized(objs, rootgc0, mainidx, m0);
      FitFinalized(objs, rootgc0, mainidx, m0, weak);
      MarkTmu(K);
      FitGrows(objs, m1, marked, weak, K);
      ProgressGrows(objs, m1, marked, K);
      GrowsMore(m1, marked, K);
    }

    /** The end of atomic: weak tables are cleared, then the two whites change roles. */
    method AtomicClear(ghost K: set<Ref>)
      requires MInv({}) && gray == [] && StrongBut(objs, K, cut) && NonWhite(marked) <= K
      requires forall r :: r in grayagain ==> r in objs && objs[r].Thread?
      modifies this`marked, this`objs, this`currentwhite
      ensures objs == Cleared(old(objs), old(marked), weak) && StrMarks(old(objs), old(marked), marked, K)
      ensures currentwhite == !old(currentwhite) && Alive(marked, currentwhite) == NonWhite(marked) <= K
      ensures LiveClosed(objs, Alive(marked, currentwhite)) && NonWhite(old(marked)) <= NonWhite(marked)
    {
      ghost var o0, m0 := objs, marked;
      WeakStrings(objs, marked, currentwhite, gray, grayagain, weak, K, cut);
      hide MarkInv, StrongBut, Alive, NonWhite, StrMarks, Cleared, TableStrMarked, TableStrOk, LiveClosed;
      ClearWeakTables(K);
      AtomicCloses(o0, m0, marked, currentwhite, grayagain, weak, K);
      StrMarksInside(o0, m0, marked, currentwhite, K);
      currentwhite := !currentwhite;
    }

    /**
     atomic. The ghost results are the heap and headers when the userdata are separated (o1, m1) and
     when the weak tables are cleared (o2, m2).
     */
    method Atomic(ghost K: set<Ref>) returns (ghost o1: Heap, ghost m1: Marks, ghost o2: Heap, ghost m2: Marks)
      requires Valid() && gcstate == Propagate && gray == [] && mainidx < |rootgc|
      requires MarkBound(Snap(), K)
      modifies this`marked, this`gray, this`grayagain, this`weak, this`objs, this`rootgc, this`tmudata,
        this`currentwhite
      modifies this`cut, this`gcstate, this`sweepgc, this`sweepstrgc
      ensures Valid() && gcstate == SweepString && currentwhite == !old(currentwhite)
      ensures HeapKept(old(objs), o2) && objs == Cleared(o2, m2, weak) && SameFrame(old(objs), objs)
      ensures Alive(marked, currentwhite) == NonWhite(marked) <= K
      ensures var us := old(rootgc)[mainidx + 1..];
        && rootgc == old(rootgc)[..mainidx + 1] + Stay(o1, m1, us, false)
        && tmudata == old(tmudata) + Moved(o1, m1, us, false)
      ensures AtomicRan(old(Snap()), o1, m1, o2, m2, objs, marked, weak, K)
      ensures Queued(old(Snap()), marked, rootgc, tmudata) && MarkedAre(old(Snap()), m1)
      ensures forall r :: r in objs && r in marked && objs[r].Udata? && IsDead(marked[r], currentwhite) ==>
        marked[r].bit3
      ensures EntriesLeft(old(objs), old(BlackWeak(objs, marked)), objs, marked, Alive(marked, currentwhite), weak)
      ensures Dark()
      ensures FloorKept(old(Snap()), Snap())
    {
      hide MarkInv, Progress, StrongBut, NonWhite, Whites, SetOf, Grows, Stay, Moved, Finalized, RootOk, UdataFrom,
        PendingIn,
        Inv, MtIn, MarkBound, Cleared, StrMarks, Alive, LiveClosed, BlackOk, HeapKept, SameFrame, AtomicRan, Queued,
          MarkedAre, KeepsNeeded, FloorKept, TmBlack, EntriesLeft, BlackWeak;
      ghost var g := Snap();
      o1, m1, o2, m2 := AtomicBody(g, K);
      ghost var g1 := Snap();
      AtomicAll(g, o1, m1, o2, m2, objs, marked, grayagain, weak, K);
      AtomicQueued(g, o1, m1, o2, m2, objs, marked, weak, K);
      sweepstrgc := 0;
      sweepgc := 0;
      gcstate := SweepString;
      FloorAtomic(g, Snap(), m2);
      DarkGrows(g1, Snap());
    }

    method AtomicBody(ghost g: G, ghost K: set<Ref>) returns (ghost o1: Heap, ghost m1: Marks, ghost o2: Heap,
      ghost m2: Marks)
      requires cut == {} && g == Snap() && Inv(g) && gcstate == Propagate && gray == [] && mainidx < |rootgc| &&
        MarkBound(g, K)
      modifies this`marked, this`gray, this`grayagain, this`weak, this`objs, this`rootgc, this`tmudata,
        this`currentwhite, this`cut
      ensures AtomicRan(g, o1, m1, o2, m2, objs, marked, weak, K)
      ensures currentwhite == !g.cw && gray == [] && cut == {}
      ensures rootgc == g.rootgc[..g.mainidx + 1] + Stay(o1, m1, g.rootgc[g.mainidx + 1..], false)
      ensures tmudata == g.tm + Moved(o1, m1, g.rootgc[g.mainidx + 1..], false)
      ensures MarkedAre(g, m1) && KeepsNeeded(g, m2)
      ensures Alive(marked, currentwhite) == NonWhite(marked) <= K
      ensures EntriesLeft(g.objs, BlackWeak(g.objs, g.marked), objs, marked, NonWhite(marked), weak)
      ensures Dark() && NonWhite(m2) <= NonWhite(marked)
    {
      hide MarkInv, Progress, StrongBut, NonWhite, Whites, SetOf, Grows, Stay, Moved, Finalized, RootOk, UdataFrom,
        PendingIn, Inv, MtIn, MarkBound, Cleared, StrMarks, Alive, LiveClosed, BlackOk, UvheadOk, PropagateTodo,
          MarkTodo,
        WeakFit, CutOk, Closure, MarkBase, MarkedAre, KeepsNeeded, TmBlack, AtomicRan, BlackWeak, WeakList, EntriesLeft;
      AtomicRoots(g, K);
      o1, m1 := objs, marked;
      AtomicFinalizers(K);
      o2, m2 := objs, marked;
      BlackKnown(objs, marked, currentwhite, gray, grayagain, weak, {});
      AtomicNeeded(g, o1, m1, o2, m2, grayagain, weak, K);
      AtomicWeaks(g, o1, m1, o2, m2, grayagain, weak, K);
      AtomicClear(K);
      EntriesAfter(g.objs, BlackWeak(g.objs, g.marked), o2, m2, objs, marked, weak, K);
      DarkSet(Snap(), tmudata, m2);
      AtomicRanIs(g, o1, m1, o2, m2, objs, marked, weak, K);
    }

    /** The marking of atomic, kept to what the roots and the marked objects reach. */
    method AtomicRoots(ghost g: G, ghost K: set<Ref>)
      requires cut == {} && g == Snap() && Inv(g) && gcstate == Propagate && gray == [] && mainidx < |rootgc| &&
        MarkBound(g, K)
      modifies this`marked, this`gray, this`grayagain, this`weak, this`objs, this`cut
      ensures MInv(SetOf(tmudata)) && gray == [] && cut == {} && StrongBut(objs, K, cut) && NonWhite(marked) <= K
      ensures RootOk(objs, rootgc, tmudata) && UdataFrom(objs, rootgc, mainidx) && SetOf(tmudata) <= K &&
        PendingIn(objs, marked, rootgc, K)
      ensures forall r :: r in grayagain ==> r in objs && objs[r].Thread?
      ensures MarkedAre(g, marked) && MarkBase(g) <= NonWhite(marked) && Progress(g.objs, g.marked, objs, marked, K)
      ensures running in NonWhite(marked) && MtIn(mt, NonWhite(marked))
      ensures WeakFit(objs, marked, weak) && BlackWeak(objs, marked) <= BlackWeak(g.objs, g.marked)
    {
      hide MarkInv, Progress, StrongBut, NonWhite, Whites, SetOf, Grows, RootOk, UdataFrom, PendingIn, Inv, MtIn,
        MarkBound, Alive, LiveClosed, BlackOk, UvheadOk, PropagateTodo, MarkTodo, WeakFit, CutOk, Closure, MarkBase,
        MarkedAre, BlackWeak;
      AtomicStart(g, K);
      ReachBound(g, K);
      TodoMarked(objs, marked, currentwhite, gray, grayagain, weak, uvhead, tmudata, Darks(g));
      cut := Darks(g);
      AtomicMark(Closure(objs, MarkBase(g), cut));
      cut := {};
      NoCut(objs, marked);
      AtomicMarked(g, objs, marked, grayagain, weak, K);
      AtomicBound(g, objs, marked, K);
    }

    /** markroot: starts a collection. */
    method MarkRoot(ghost K: set<Ref>)
      requires Valid() && (gcstate == Pause || gcstate == Finalize) && MarkBound(Snap(), K)
      modifies this`marked, this`gray, this`grayagain, this`weak, this`gcstate
      ensures Valid() && gcstate == Propagate && MarkBound(Snap(), K)
      ensures old(Dark()) ==> Dark()
      ensures mainthread in NonWhite(marked) && registry in NonWhite(marked) && MtIn(mt, NonWhite(marked))
      ensures mainthread in objs && objs[mainthread].Thread? && Ok(objs[mainthread].gt, NonWhite(marked))
      ensures BlackWeak(objs, marked) == {}
      ensures Needed(old(Snap())) <= Needed(Snap())
    {
      hide MarkInv, StrongBut, NonWhite, Whites, Grows, Inv, MarkBound, PropagateTodo, Needed, Progress, MtIn,
        BlackWeak;
      ghost var g := Snap();
      RestNone(g);
      BeginMark(g, K);
      ProgressGrows(objs, g.marked, marked, K);
      FinishMark(g, K);
      NeededGrows(g, Snap(), K);
    }

    method FinishMark(ghost g: G, ghost K: set<Ref>)
      requires cut == {} && Inv(g) && (g.phase.Pause? || g.phase.Finalize?) && MarkBound(g, K) &&
        Grows(g.marked, marked, K)
      requires Snap() == g.(marked := marked, gray := gray, again := [], weak := [])
      requires MInv(PropagateTodo(uvhead, [], [], tmudata)) && mainthread in NonWhite(marked) &&
        registry in NonWhite(marked)
      modifies this`gcstate
      ensures Valid() && gcstate == Propagate && MarkBound(Snap(), K)
    {
      hide MarkInv, StrongBut, NonWhite, Whites, Grows, Inv, MtIn, MarkBound, PropagateTodo;
      StartedInv(g, marked, gray, K);
      gcstate := Propagate;
      assert Snap() == Started(g, marked, gray);
    }

    /** Before a collection, or when one is given up. */
    method ClearLists()
      modifies this`gray, this`grayagain, this`weak
      ensures gray == [] && grayagain == [] && weak == []
    {
      gray := [];
      grayagain := [];
      weak := [];
    }

    method BeginMark(ghost g: G, ghost K: set<Ref>)
      requires cut == {} && g == Snap() && Inv(g) && (g.phase.Pause? || g.phase.Finalize?) && MarkBound(g, K)
      modifies this`marked, this`gray, this`grayagain, this`weak
      ensures Snap() == g.(marked := marked, gray := gray, again := [], weak := []) && Grows(g.marked, marked, K)
      ensures MInv(PropagateTodo(uvhead, [], [], tmudata)) && mainthread in NonWhite(marked) &&
        registry in NonWhite(marked)
      ensures mainthread in objs && objs[mainthread].Thread? && MtIn(mt, NonWhite(marked)) &&
        Ok(objs[mainthread].gt, NonWhite(marked))
      ensures BlackWeak(objs, marked) <= BlackWeak(g.objs, g.marked)
      ensures TmBlack(g) ==> Dark()
    {
      hide MarkInv, StrongBut, NonWhite, Whites, Grows, Inv, MtIn, MarkBound, PropagateTodo, TmBlack, CutOk, BlackWeak;
      RestStart(g);
      RootsBound(g, K);
      ClearLists();
      NoCut(objs, marked);
      MarkRoots(PropagateTodo(uvhead, [], [], tmudata), K);
      GrowsMore(g.marked, marked, K);
      DarkGrows(g, Snap());
    }

    method MarkRoots(ghost todo: set<Ref>, ghost K: set<Ref>)
      requires MInv(todo) && StrongBut(objs, K, cut)
      requires mainthread in objs && registry in objs && MtIn(mt, objs.Keys) && objs[mainthread].Thread? &&
        Ok(objs[mainthread].gt, objs.Keys)
      requires mainthread in K && registry in K && MtIn(mt, K) && Ok(objs[mainthread].gt, K)
      modifies this`marked, this`gray
      ensures MInv(todo) && Grows(old(marked), marked, K)
      ensures BlackWeak(objs, marked) <= BlackWeak(objs, old(marked))
      ensures mainthread in NonWhite(marked) && registry in NonWhite(marked) && MtIn(mt, NonWhite(marked)) &&
        Ok(objs[mainthread].gt, NonWhite(marked))
    {
      hide MarkInv, StrongBut, NonWhite, Whites, Grows, MtIn, BlackWeak;
      ghost var m0 := marked;
      MarkObject(mainthread, todo, K);
      ghost var m1 := marked;
      MarkValue(objs[mainthread].gt, todo, K);
      ghost var m2 := marked;
      GrowsTrans(m0, m1, m2, K);
      MarkObject(registry, todo, K);
      ghost var m3 := marked;
      GrowsTrans(m1, m2, m3, K);
      GrowsTrans(m0, m1, m3, K);
      MarkMt(todo, K);
      GrowsMore(m3, marked, K);
      GrowsTrans(m0, m3, marked, K);
    }

    /** The GCSpropagate step with gray objects left. */
    method PropagateStep(ghost K: set<Ref>)
      requires Valid() && gcstate == Propagate && gray != [] && MarkBound(Snap(), K)
      modifies this`marked, this`gray, this`grayagain, this`weak, this`objs
      ensures Valid() && MarkBound(Snap(), K) && HeapKept(old(objs), objs) && Work() < old(Work())
      ensures old(Dark()) ==> Dark()
      ensures BlackWeak(objs, marked) <= old(BlackWeak(objs, marked))
      ensures FloorKept(old(Snap()), Snap())
    {
      hide MarkInv, StrongBut, NonWhite, Whites, Grows, Inv, MtIn, MarkBound, PropagateTodo, Progress, HeapKept,
        SetOf, TmBlack, FloorKept, CutOk, BlackWeak;
      ghost var g := Snap();
      AtomicStart(g, K);
      NoCut(objs, marked);
      PropagateMark(PropagateTodo(uvhead, grayagain, weak, tmudata), K);
      MarkingStep(g, Snap(), K);
    }

    // ---- sweeping ----

    /** One string of sweeplist over a bucket. */
    method SweepString1(b: nat, i: nat) returns (i': nat)
      requires BucketUpTo(Snap(), b, i) && i < |strt[b]|
      modifies this`marked, this`objs, this`strt
      ensures |strt| == old(|strt|) && Swept(old(Snap()), Snap()) && BucketUpTo(Snap(), b, i') &&
        |strt[b]| - i' < old(|strt[b]|) - i
    {
      hide Core, StringsSwept, Swept, IsCurrent;
      ghost var g := Snap();
      BucketMember(g, b, i);
      BucketStep(g, b, i);
      var r := strt[b][i];
      if marked[r].color != White(!currentwhite) || marked[r].fixed {
        marked := marked[r := marked[r].(color := White(currentwhite))];
        i' := i + 1;
      } else {
        strt := strt[b := strt[b][..i] + strt[b][i + 1..]];
        objs := objs - {r};
        marked := marked - {r};
        i' := i;
      }
    }

    /** The GCSsweepstring step: one bucket of the string table. */
    method SweepStringStep()
      requires Valid() && gcstate == SweepString
      modifies this`marked, this`objs, this`strt, this`sweepstrgc, this`gcstate
      ensures Valid() && Swept(old(Snap()).(sweepstr := sweepstrgc, phase := gcstate), Snap())
      ensures |strt| == old(|strt|) && sweepstrgc == old(sweepstrgc) + 1 && gcstate == if sweepstrgc >= |strt|
        then Sweep else SweepString
    {
      hide Core, Inv, StringsSwept, Swept, IsCurrent;
      ghost var g := Snap();
      BucketStart(g);
      var b := sweepstrgc;
      var i: nat := 0;
      while i < |strt[b]|
        invariant |strt| == old(|strt|) && BucketUpTo(Snap(), b, i) && Swept(g, Snap())
        decreases |strt[b]| - i
      {
        ghost var g1 := Snap();
        i := SweepString1(b, i);
        SweptTrans(g, g1, Snap());
      }
      ghost var g2 := Snap();
      sweepstrgc := b + 1;
      if sweepstrgc >= |strt| {
        gcstate := Sweep;
      }
      BucketEnd(g, g2, b, gcstate);
    }

    /** One open upvalue of sweepwholelist over a thread's list. */
    method SweepUp1(p: nat, i: nat) returns (i': nat)
      requires UpsUpTo(Snap(), p, i) && i < |objs[rootgc[p]].openupval|
      modifies this`marked, this`objs, this`uvhead
      ensures Swept(old(Snap()), Snap()) && UpsUpTo(Snap(), p, i')
      ensures |objs[rootgc[p]].openupval| - i' < |old(objs)[rootgc[p]].openupval| - i
    {
      hide Core, Lists, StringsSwept, RootSwept, Swept, IsCurrent;
      ghost var g := Snap();
      UpAt(g, p, i);
      UpsStep(g, p, i);
      var t := rootgc[p];
      var u := objs[t].openupval[i];
      if marked[u].color != White(!currentwhite) {
        marked := marked[u := marked[u].(color := White(currentwhite))];
        i' := i + 1;
      } else {
        // luaF_freeupval: unlink from the `open' ring, free
        objs := SetOpen(objs, t, CutAt(objs[t].openupval, i)) - {u};
        uvhead := Without(uvhead, u);
        marked := marked - {u};
        i' := i;
      }
    }

    method SweepUps(p: nat)
      requires UpsUpTo(Snap(), p, 0)
      modifies this`marked, this`objs, this`uvhead
      ensures Swept(old(Snap()), Snap()) && AllUps(Snap(), p)
    {
      hide Core, Lists, RootSwept, StringsSwept, Swept, IsCurrent;
      ghost var g := Snap();
      SweptStart(g, p);
      var i: nat := 0;
      while i < |objs[rootgc[p]].openupval|
        invariant UpsUpTo(Snap(), p, i) && Swept(g, Snap())
        decreases |objs[rootgc[p]].openupval| - i
      {
        ghost var g1 := Snap();
        i := SweepUp1(p, i);
        SweptTrans(g, g1, Snap());
      }
    }

    /** The first open upvalue of the dead thread at p gets its own value; the thread is then one place further on. */
    method CloseFirst(p: nat)
      requires DeadAt(Snap(), p) && objs[rootgc[p]].Thread? && objs[rootgc[p]].openupval != []
      modifies this`objs, this`uvhead, this`rootgc, this`mainidx, this`sweepgc
      ensures p + 1 < |rootgc| && DeadAt(Snap(), p + 1) && Swept(old(Snap()), Snap()) && rootgc[p + 1] == old(rootgc)[p]
      ensures rootgc[p + 1] in objs && objs[rootgc[p + 1]].Thread?
      ensures |objs[rootgc[p + 1]].openupval| < old(|objs[rootgc[p]].openupval|)
    {
      hide Core, Lists, StringsSwept, RootSwept, Swept, IsCurrent, DeadAt, Without, UpValue;
      ghost var g1 := Snap();
      DeadStart(g1, p);
      DeadUp(g1, p);
      DeadClose(g1, p);
      var t := rootgc[p];
      MoveUp(t);  // the upvalue was repainted by the sweep already
    }

    /** The loop of luaF_close in luaE_freethread: upvalues that outlive the thread get their own value. */
    method CloseAll(p: nat) returns (p': nat)
      requires DeadAt(Snap(), p) && objs[rootgc[p]].Thread?
      modifies this`objs, this`uvhead, this`rootgc, this`mainidx, this`sweepgc
      ensures p' < |rootgc| && DeadAt(Snap(), p') && Swept(old(Snap()), Snap()) && rootgc[p'] == old(rootgc)[p]
      ensures rootgc[p'] in objs && objs[rootgc[p']].Thread? && objs[rootgc[p']].openupval == []
    {
      hide Core, Lists, StringsSwept, RootSwept, Swept, IsCurrent, DeadAt;
      ghost var g := Snap();
      DeadStart(g, p);
      p' := p;
      while objs[rootgc[p']].openupval != []
        invariant p' < |rootgc| && DeadAt(Snap(), p') && Swept(g, Snap()) && rootgc[p'] == g.rootgc[p]
        invariant rootgc[p'] in objs && objs[rootgc[p']].Thread?
        decreases |objs[rootgc[p']].openupval|
      {
        ghost var g1 := Snap();
        CloseFirst(p');
        p' := p' + 1;
        SweptTrans(g, g1, Snap());
      }
    }

    /** The object the sweep stands on survives, white. */
    method KeepRoot()
      requires sweepgc < |rootgc| && RootUpTo(Snap(), sweepgc) && rootgc[sweepgc] in objs && rootgc[sweepgc] in marked
      requires !IsDead(marked[rootgc[sweepgc]], currentwhite) || marked[rootgc[sweepgc]].fixed
      requires objs[rootgc[sweepgc]].Thread? ==> forall u :: u in objs[rootgc[sweepgc]].openupval ==>
        IsCurrent(Snap(), u)
      requires gcstate == Sweep && gray == []
      modifies this`marked, this`sweepgc
      ensures SweepOk(Snap()) && Swept(old(Snap()), Snap()) && sweepgc == old(sweepgc) + 1
    {
      hide Core, Lists, StringsSwept, RootSwept, Swept, IsCurrent, RootUpTo;
      RootKeep(Snap());
      marked := marked[rootgc[sweepgc] := marked[rootgc[sweepgc]].(color := White(currentwhite))];
      sweepgc := sweepgc + 1;
    }

    /** Unlinking and freeing the dead object the sweep stands on. */
    method FreeRoot()
      requires sweepgc < |rootgc| && DeadAt(Snap(), sweepgc) && gray == []
      modifies this`objs, this`marked, this`uvhead, this`rootgc, this`mainidx, this`sweepgc
      ensures SweepOk(Snap()) && Swept(old(Snap()), Snap()) && old(rootgc)[old(sweepgc)] !in objs
    {
      hide Core, Lists, StringsSwept, RootSwept, Swept, IsCurrent, DeadAt, SweepOk;
      ghost var g := Snap();
      DeadStart(g, sweepgc);
      var p := sweepgc;
      if objs[rootgc[p]].Thread? {
        p := CloseAll(p);
      }
      ghost var g1 := Snap();
      FreeAt(p);
      SweptTrans(g, g1, Snap());
    }

    /** freeobj, with the object unlinked. */
    method FreeAt(p: nat)
      requires DeadAt(Snap(), p) && p < |rootgc| && gray == []
      requires rootgc[p] in objs && (objs[rootgc[p]].Thread? ==> objs[rootgc[p]].openupval == [])
      modifies this`objs, this`marked, this`rootgc, this`mainidx
      ensures SweepOk(Snap()) && Swept(old(Snap()), Snap()) && old(rootgc)[p] !in objs
    {
      hide Core, Lists, StringsSwept, RootSwept, Swept, IsCurrent, DeadAt, SweepOk;
      ghost var g1 := Snap();
      DeadFree(g1, p);
      Unlink(p);
      assert Snap() == RootGone(g1, p);
    }

    method Unlink(p: nat)
      requires p < |rootgc|
      modifies this`objs, this`marked, this`rootgc, this`mainidx
      ensures p < old(|rootgc|) && rootgc == CutAt(old(rootgc), p) && mainidx == if p < old(mainidx)
        then old(mainidx) - 1 else old(mainidx)
      ensures objs == old(objs) - {old(rootgc)[p]} && marked == old(marked) - {old(rootgc)[p]}
    {
      hide CutAt;
      var r := rootgc[p];
      rootgc := CutAt(rootgc, p);
      mainidx := if p < mainidx then mainidx - 1 else mainidx;
      objs := objs - {r};
      marked := marked - {r};
    }

    /** One object of sweeplist over rootgc. */
    method SweepRoot1()
      requires SweepOk(Snap()) && sweepgc < |rootgc|
      modifies this`objs, this`marked, this`uvhead, this`rootgc, this`mainidx, this`sweepgc
      ensures SweepOk(Snap()) && Swept(old(Snap()), Snap())
      ensures objs.Keys < old(objs).Keys || (objs.Keys == old(objs).Keys &&
        |rootgc| - sweepgc < old(|rootgc| - sweepgc))
    {
      hide Core, Lists, StringsSwept, RootSwept, Swept, IsCurrent, RootUpTo, Inv;
      ghost var g := Snap();
      SweepOkInv(g);
      RootStart(g);
      var r := rootgc[sweepgc];
      if objs[r].Thread? {  // open upvalues hang off their thread, not off rootgc
        SweepUps(sweepgc);
        UpsDone(Snap(), sweepgc);
      }
      ghost var g1 := Snap();
      if marked[r].color != White(!currentwhite) || marked[r].fixed {
        KeepRoot();
        SweptTrans(g, g1, Snap());
      } else {
        FreeRoot();
        SweptTrans(g, g1, Snap());
        SweptFewer(g, Snap(), r);
      }
      SweptKeys(g, Snap());
    }

    /** sweeplist over rootgc, at most `count' objects. */
    method SweepList(count: nat)
      requires SweepOk(Snap())
      modifies this`objs, this`marked, this`uvhead, this`rootgc, this`mainidx, this`sweepgc
      ensures SweepOk(Snap()) && Swept(old(Snap()), Snap())
      ensures old(sweepgc >= |rootgc|) ==> Snap() == old(Snap())
      ensures count > 0 && old(sweepgc < |rootgc|) ==>
        objs.Keys < old(objs).Keys || (objs.Keys == old(objs).Keys && |rootgc| - sweepgc < old(|rootgc| - sweepgc))
    {
      hide Core, Lists, StringsSwept, RootSwept, Swept, IsCurrent, RootUpTo;
      ghost var g := Snap();
      SweepOkSame(g);
      var n := count;
      while n > 0 && sweepgc < |rootgc|
        invariant SweepOk(Snap()) && Swept(g, Snap()) && objs.Keys <= old(objs).Keys && n <= count
        invariant n == count ==> Snap() == g
        invariant g.sweepgc >= |g.rootgc| ==> n == count
        invariant n < count ==>
          objs.Keys < old(objs).Keys || (objs.Keys == old(objs).Keys && |rootgc| - sweepgc < old(|rootgc| - sweepgc))
        decreases n
      {
        ghost var g1 := Snap();
        SweepRoot1();
        SweptTrans(g, g1, Snap());
        n := n - 1;
      }
    }

    /** GCTM: the finalizer of the first userdata of tmudata is called; what it does is up to the mutator. */
    method GCTM()
      requires Valid() && gcstate == Finalize && tmudata != []
      modifies this`objs, this`marked, this`rootgc, this`tmudata, this`called
      ensures Valid() && tmudata == old(tmudata)[1..]
      ensures FinalizeReady(old(Snap())) && Snap() == Finalize1(old(Snap()))
      ensures called == if Finalizes(old(Snap())) then old(called) + [old(tmudata)[0]] else old(called)
      ensures old(tmudata)[0] in rootgc && old(tmudata)[0] !in old(called)
      ensures objs.Keys == old(objs).Keys && forall r :: r in objs && r != running ==> objs[r] == old(objs)[r]
      ensures Fixed(marked) == old(Fixed(marked))
    {
      hide Base, Lists, Sound, Fin, Inv, HasGc, NothingLiveFreed, Fixed, Finalize1;
      ghost var g := Snap();
      FinalizeFacts(g);
      FinalizeInv(g);
      var o := tmudata[0];
      FixedKept(marked, o, marked[o].(color := White(currentwhite)));
      ReturnFirst();
      if HasGc(objs, objs[o].mt) {
        called := called + [o];
        objs := Push(objs, running, Gc(o));
      }
      assert Snap() == Finalize1(g) by { FinalizeIs(g); }
    }

    /** The first userdata of tmudata goes back to rootgc, white. */
    method ReturnFirst()
      requires tmudata != [] && tmudata[0] in marked && mainidx < |rootgc|
      modifies this`marked, this`rootgc, this`tmudata
      ensures old(tmudata != [] && tmudata[0] in marked && mainidx < |rootgc|) && Snap() == ReturnedWhite(old(Snap()))
    {
      var o := tmudata[0];
      tmudata := tmudata[1..];
      rootgc := rootgc[..mainidx + 1] + [o] + rootgc[mainidx + 1..];
      marked := marked[o := marked[o].(color := White(currentwhite))];
    }

    /** How far a collection still has to go. */
    ghost function Rank(): nat
      reads this
    {
      match gcstate
      case Pause => 0
      case Propagate => 4
      case SweepString => 3
      case Sweep => 2
      case Finalize => 1
    }

    ghost function Left(): nat
      reads this
    {
      match gcstate
      case Pause => 0
      case Propagate => Work()
      case SweepString => if sweepstrgc <= |strt| then |strt| - sweepstrgc else 0
      case Sweep => if sweepgc <= |rootgc| then |rootgc| - sweepgc else 0
      case Finalize => |tmudata|
    }

    ghost function Unswept(): set<Ref>
      reads this
    {
      if gcstate == Sweep then objs.Keys else {}
    }

    /**
     singlestep. K is any bound on what the collection under way may keep.
     */
    method SingleStep(ghost K: set<Ref>)
      requires Valid() && StepBound(Snap(), K)
      modifies this
      ensures Valid()
      ensures NothingLiveFreed(old(Snap()), Snap()) && StepKeeps(old(Snap()), Snap())
      ensures old(gcstate) != Finalize ==> StepBound(Snap(), K)
      ensures old(gcstate) == Finalize ==> objs.Keys == old(objs).Keys && Fixed(marked) == old(Fixed(marked))
      ensures gcstate == Pause ==> old(gcstate) == Finalize && tmudata == []
      ensures old(gcstate) == Propagate ==> gcstate == Propagate || gcstate == SweepString
      ensures old(gcstate) == Pause <==> Rank() > old(Rank())
      ensures old(gcstate) != Pause ==>
        Rank() < old(Rank()) || (Rank() == old(Rank()) &&
          (Unswept() < old(Unswept()) || (Unswept() == old(Unswept()) && Left() < old(Left()))))
      ensures forall u :: u in called && u !in old(called) ==> u in old(tmudata)
      ensures old(Dark()) ==> Dark()
      ensures old(gcstate) != Pause ==> FloorKept(old(Snap()), Snap())
    {
      hide Uncut, Inv, StepBound, NothingLiveFreed, Whites, Fixed, Preserved, HeapKept, EntriesLeft, BlackWeak,
        Finalize1,
        FinalizeReady,
        TmBlack, FloorKept;
      match gcstate {
        case Pause => StartStep(K);
        case Propagate => MarkStep(K);
        case SweepString => StringStepK(K);
        case Sweep => SweepStep(K);
        case Finalize => FinalizeStep();
      }
    }

    method StartStep(ghost K: set<Ref>)
      requires Valid() && gcstate == Pause && StepBound(Snap(), K)
      modifies this`marked, this`gray, this`grayagain, this`weak, this`gcstate
      ensures Valid() && gcstate == Propagate && StepBound(Snap(), K) && NothingLiveFreed(old(Snap()), Snap())
      ensures old(Dark()) ==> Dark()
    {
      hide Inv, MarkBound;
      MainIdx(Snap());
      MarkRoot(K);
    }

    method MarkStep(ghost K: set<Ref>)
      requires Valid() && gcstate == Propagate && StepBound(Snap(), K)
      modifies this`marked, this`gray, this`grayagain, this`weak, this`objs, this`rootgc, this`tmudata,
        this`currentwhite
      modifies this`cut, this`gcstate, this`sweepgc, this`sweepstrgc
      ensures Valid() && StepBound(Snap(), K) && NothingLiveFreed(old(Snap()), Snap())
      ensures gcstate == SweepString || (gcstate == Propagate && Work() < old(Work()))
      ensures gcstate == Propagate ==> HeapKept(old(objs), objs) && BlackWeak(objs, marked) <= old(BlackWeak(objs, marked))
      ensures gcstate != Propagate ==>
        EntriesLeft(old(objs), old(BlackWeak(objs, marked)), objs, marked, Alive(marked, currentwhite), weak)
      ensures old(Dark()) ==> Dark()
      ensures FloorKept(old(Snap()), Snap())
    {
      hide Inv, MarkBound, Cleared, SameFrame, HeapKept, Alive, NonWhite, Stay, Moved, Whites, AtomicRan, Queued,
        MarkedAre, FloorKept, BlackWeak, EntriesLeft;
      ghost var g := Snap();
      MainIdx(g);
      if gray != [] {
        PropagateStep(K);
        KeptKeysOf(g.objs, objs);
      } else {
        ghost var o1, m1, o2, m2 := Atomic(K);
        FrameKeys(g.objs, objs);
      }
    }

    method StringStepK(ghost K: set<Ref>)
      requires Valid() && gcstate == SweepString && StepBound(Snap(), K)
      modifies this`marked, this`objs, this`strt, this`sweepstrgc, this`gcstate
      ensures Valid() && StepBound(Snap(), K) && NothingLiveFreed(old(Snap()), Snap()) && Preserved(old(Snap()), Snap())
      ensures gcstate == Sweep || (gcstate == SweepString && sweepstrgc == old(sweepstrgc) + 1 <= |strt| &&
        |strt| == old(|strt|))
      ensures old(Dark()) ==> Dark()
      ensures FloorKept(old(Snap()), Snap())
    {
      hide Inv, Swept, Alive, Preserved, TmBlack, FloorKept;
      ghost var g := Snap();
      SweepStringStep();
      SweptBound(g, Snap(), K);
      SweptPreserves(g, Snap());
      PreservedDark(g, Snap());
      FloorSweep(g, Snap());
    }

    method SweepStep(ghost K: set<Ref>)
      requires Valid() && gcstate == Sweep && StepBound(Snap(), K)
      modifies this`objs, this`marked, this`uvhead, this`rootgc, this`mainidx, this`sweepgc, this`gcstate
      ensures Valid() && StepBound(Snap(), K) && NothingLiveFreed(old(Snap()), Snap()) && Preserved(old(Snap()), Snap())
      ensures gcstate == Finalize || (gcstate == Sweep && sweepgc <= |rootgc| &&
        (objs.Keys < old(objs).Keys || (objs.Keys == old(objs).Keys && |rootgc| - sweepgc < old(|rootgc| - sweepgc))))
      ensures old(Dark()) ==> Dark()
      ensures FloorKept(old(Snap()), Snap())
    {
      hide Inv, Swept, Alive, SweepOk, Preserved, TmBlack, FloorKept;
      ghost var g := Snap();
      SweepOkInv(g);
      SweepPos(g);
      SweepList(40);
      SweptBound(g, Snap(), K);
      SweepOkInv(Snap());
      SweepPos(Snap());
      SweptPreserves(g, Snap());
      PreservedDark(g, Snap());
      ghost var g1 := Snap();
      if sweepgc >= |rootgc| {
        gcstate := Finalize;
        DarkGrows(g1, Snap());
        SweepEnds(g1, K);
        PreservedPhase(g, g1, Finalize);
      }
      FloorSweep(g, Snap());
    }

    method FinalizeStep()
      requires Valid() && gcstate == Finalize
      modifies this`objs, this`marked, this`rootgc, this`tmudata, this`called, this`gcstate
      ensures Valid() && NothingLiveFreed(old(Snap()), Snap())
      ensures gcstate == Finalize ==> |tmudata| < old(|tmudata|)
      ensures gcstate == Pause ==> tmudata == []
      ensures gcstate == Pause || gcstate == Finalize
      ensures forall u :: u in called && u !in old(called) ==> u in old(tmudata)
      ensures objs.Keys == old(objs).Keys && Fixed(marked) == old(Fixed(marked))
      ensures if old(tmudata) == [] then Snap() == old(Snap()).(phase := Pause) else FinalizeReady(old(Snap())) && Snap() == Finalize1(old(Snap()))
      ensures old(Dark()) ==> Dark()
      ensures FloorKept(old(Snap()), Snap())
    {
      hide Base, Lists, Sound, Fin, Inv, Finalize1, FinalizeReady, TmBlack, FloorKept;
      ghost var g0 := Snap();
      MainIdx(g0);
      if tmudata != [] {
        ghost var g := Snap();
        FinalizeFacts(g);
        FinalizeDark(g);
        GCTM();
        assert Snap() == Finalize1(g);
      } else {
        ToPause(Snap());
        ghost var g := Snap();
        gcstate := Pause;
        DarkGrows(g, Snap());
      }
      FloorRest(g0, Snap());
    }

    // ---- the program ----

    ghost function Live(): set<Ref>
      reads this
    {
      Alive(marked, currentwhite)
    }

    /** Setting stack slots of a thread: no barrier. */
    method SetStack(t: Ref, s: seq<Value>)
      requires Valid() && t in objs && objs[t].Thread? && t in marked && !IsDead(marked[t], currentwhite)
      requires AllOk(s, Live()) && LevelsIn(objs, objs[t].(stack := s))
      modifies this`objs
      ensures Valid() && objs == old(objs)[t := old(objs)[t].(stack := s)]
    {
      hide Inv, LevelsIn, AllOk, Alive;
      StackInv(Snap(), t, s);
      objs := objs[t := objs[t].(stack := s)];
    }

    /** A value pushed on the stack of a live thread. */
    method PushOn(t: Ref, v: Value)
      requires Valid() && t in objs && objs[t].Thread? && t in Live() && Ok(v, Live())
      modifies this`objs
      ensures Valid() && objs == Push(old(objs), t, v)
    {
      hide Inv, LevelsIn, Alive;
      AliveKnown(Snap(), t);
      LevelsGrow(Snap(), t, objs[t].stack + [v]);
      StackValues(Snap(), t);
      SetStack(t, objs[t].stack + [v]);
    }

    /** An assignment to a field, with the barrier that goes with it. */
    method Store(r: Ref, e: Edit)
      requires Valid() && r in objs && r in Live() && !objs[r].Str? && !objs[r].IsOpen()
      requires Ok(Newcomer(e), Live()) && Ok(KeyFor(objs[r], e), Live())
      modifies this`objs, this`marked, this`gray, this`grayagain
      ensures Valid() && objs == old(objs)[r := Edited(old(objs)[r], e)] && old(Live()) <= Live()
      ensures old(Dark()) && (gcstate == Propagate || r !in tmudata) ==> Dark()
    {
      hide TmBlack, Inv, Adds, LevelsIn, Alive, Edited, KeyFor, Newcomer;
      ghost var g := Snap();
      EditReady(g, r, e);
      var v, o' := Newcomer(e), Edited(objs[r], e);
      ghost var k := KeyFor(objs[r], e);
      if v.Gc? && marked[v.ref].color.White? && marked[r].color.Black? {
        if objs[r].Table? { BarrierBack(r, o', k, v); } else { BarrierForward(r, o', k, v); }
      } else {
        QuietEdit(g, r, o', k, v);
        objs := objs[r := o'];
        DarkGrows(g, Snap());
      }
    }

    /** luaC_barrierback, after the store into a black table. */
    method BarrierBack(t: Ref, o': Obj, ghost k: Value, v: Value)
      requires Valid() && t in objs && objs[t].Table? && t in marked && marked[t].color.Black?
      requires Adds(objs[t], o', k, v) && LevelsIn(objs, o') && Ok(k, Live()) && Ok(v, Live())
      modifies this`objs, this`marked, this`grayagain
      ensures Valid() && objs == old(objs)[t := o'] && old(Live()) <= Live()
      ensures old(Dark()) ==> Dark()
    {
      hide Inv, Adds, LevelsIn, Alive;
      BackEdit(Snap(), t, o', k, v);
      objs := objs[t := o'];
      Regray(t);
    }

    /** luaC_barrierback: the table is to be traversed again. */
    method Regray(t: Ref)
      requires t in marked
      modifies this`marked, this`grayagain
      ensures t in old(marked) && marked == old(marked)[t := old(marked)[t].(color := Gray)] &&
        grayagain == [t] + old(grayagain)
    {
      marked := marked[t := marked[t].(color := Gray)];
      grayagain := [t] + grayagain;
    }

    /** luaC_barrierf, after the store into a black object. */
    method BarrierForward(r: Ref, o': Obj, ghost k: Value, v: Value)
      requires Valid() && r in objs && !objs[r].Table? && r in marked && marked[r].color.Black?
      requires Adds(objs[r], o', k, v) && LevelsIn(objs, o') && Ok(k, Live()) && v.Gc? && v.ref in Live()
      requires v.ref in marked && marked[v.ref].color.White?
      modifies this`objs, this`marked, this`gray
      ensures Valid() && objs == old(objs)[r := o'] && old(Live()) <= Live()
      ensures old(Dark()) && (gcstate == Propagate || r !in tmudata) ==> Dark()
    {
      hide Inv, Adds, LevelsIn, Alive, MarkInv, StrongBut, MayStore, CoveredBut, Grows, NonWhite, Whites, TmBlack,
        CutOk;
      ghost var g := Snap();
      if gcstate == Propagate {
        AddsTable(objs[r], o', k, v);
        ForwardReady(g, r, o', k, v);
        objs := objs[r := o'];
        NoCut(objs, marked);
        ReallyMarkObject(v.ref, Todo(g) + {r}, objs.Keys);  // Sound needs v marked, since o stays black
        StoreForward(g, r, o', v, marked, gray, objs.Keys);
        GrowsMore(g.marked, marked, objs.Keys);
        DarkGrows(g, Snap());
        GrowsAlive(g.marked, marked, objs.Keys, currentwhite);
      } else {  // in the sweep phases no colour is claimed; white spares later barriers
        WhiteEdit(g, r, o', k, v);
        objs := objs[r := o'];
        marked := marked[r := marked[r].(color := White(currentwhite))];
        if r !in tmudata { DarkBut(g, Snap(), r, marked[r]); }
      }
    }

    /** A new object on its list: luaC_link, or the linking of luaS_newudata. */
    method Alloc(o: Obj) returns (r: Ref)
      requires Valid() && NewOk(Snap(), o) && !o.Str?
      modifies this`objs, this`marked, this`nextref, this`rootgc, this`mainidx, this`sweepgc
      ensures Valid() && r !in old(objs) && objs == old(objs)[r := o] && r == old(nextref) && old(Live()) <= Live() &&
        r in Live()
      ensures marked == old(marked)[r := Mark(White(currentwhite), false, false, false)]
      ensures old(Dark()) ==> Dark()
    {
      hide Uncut, Inv, NewOk, Alive, InsertAt;
      MainIdx(Snap());
      ghost var g := Snap();
      LinkedInv(g, o);
      NextFree(g);
      AddedAlive(marked, currentwhite, nextref);
      r := Link(o);
    }

    /** luaC_link: a new object, white; userdata follow the main thread in the list, others head it. */
    method Link(o: Obj) returns (r: Ref)
      requires mainidx < |rootgc|
      modifies this`objs, this`marked, this`nextref, this`rootgc, this`mainidx, this`sweepgc
      ensures r == old(nextref) && objs == old(objs)[r := o] &&
        marked == old(marked)[r := Mark(White(currentwhite), false, false, false)] &&
        nextref == r + 1
      ensures var k := if o.Udata? then old(mainidx) + 1 else 0;
        && k <= |old(rootgc)| && rootgc == InsertAt(old(rootgc), k, r) &&
          mainidx == (if o.Udata? then old(mainidx) else old(mainidx) + 1)
        && sweepgc == if old(sweepgc) <= k then old(sweepgc) else old(sweepgc) + 1
    {
      hide InsertAt;
      r := nextref;
      var k := if o.Udata? then mainidx + 1 else 0;
      var sweep := if sweepgc > k then sweepgc + 1 else sweepgc;
      objs := objs[r := o];
      marked := marked[r := FreshMark(currentwhite)];
      nextref := r + 1;
      rootgc := InsertAt(rootgc, k, r);
      sweepgc := sweep;
      mainidx := if o.Udata? then mainidx else mainidx + 1;
    }

    /** luaS_newlstr, once the bucket is known: the string found there, brought back if dead, or a new one. */
    method Intern(b: nat, i: nat) returns (r: Ref)
      requires Valid() && b < |strt|
      modifies this`objs, this`marked, this`nextref, this`strt
      ensures Valid() && r in objs && objs[r] == Str(b) && r in Live() && old(Live()) <= Live()
      ensures forall x :: x in old(objs) ==> x in objs && objs[x] == old(objs)[x]
      ensures i < old(|strt[b]|) ==> r == old(strt[b])[i] && objs == old(objs)
      ensures old(Dark()) ==> Dark()
    {
      hide Uncut, Inv, Alive;
      ghost var g := Snap();
      if i < |strt[b]| {
        r := strt[b][i];
        InternedAt(g, b, i);
        if marked[r].color == White(!currentwhite) {
          ResurrectInv(g, r);
          ResurrectAlive(g, r);
          marked := marked[r := marked[r].(color := White(currentwhite))];
        } else {
          InAlive(g, r);
        }
      } else {
        StrAddedInv(g, b);
        NextFree(g);
        AddedAlive(marked, currentwhite, nextref);
        r := NewString(b);
        assert Snap() == StrAdded(g, b);
      }
    }

    /** newlstr: a white string at the head of its bucket. */
    method NewString(b: nat) returns (r: Ref)
      requires b < |strt|
      modifies this`objs, this`marked, this`nextref, this`strt
      ensures r == old(nextref) && objs == old(objs)[r := Str(b)] &&
        marked == old(marked)[r := Mark(White(currentwhite), false, false, false)] && nextref == r + 1
      ensures b < |old(strt)| && strt == old(strt)[b := [r] + old(strt)[b]]
    {
      r := nextref;
      objs := objs[r := Str(b)];
      marked := marked[r := FreshMark(currentwhite)];
      strt := strt[b := [r] + strt[b]];
      nextref := r + 1;
    }

    /** The search of luaF_findupval: past the upvalues of higher levels. */
    method SearchUp(level: nat) returns (i: nat)
      requires Valid()
      ensures running in objs && objs[running].Thread? && i <= |objs[running].openupval|
      ensures forall j :: 0 <= j < |objs[running].openupval| ==>
        objs[running].openupval[j] in objs && objs[objs[running].openupval[j]].IsOpen()
      ensures forall j :: 0 <= j < i ==> objs[objs[running].openupval[j]].cell.level > level
      ensures i < |objs[running].openupval| ==> objs[objs[running].openupval[i]].cell.level <= level
    {
      hide Inv;
      RunningUps(Snap());
      var ups := objs[running].openupval;
      i := 0;
      while i < |ups| && objs[ups[i]].cell.level > level
        invariant 0 <= i <= |ups|
        invariant forall j :: 0 <= j < i ==> objs[ups[j]].cell.level > level
      {
        i := i + 1;
      }
    }

    /** luaF_findupval: the one upvalue of a stack slot. */
    method FindUpval(level: nat) returns (uv: Ref)
      requires Valid() && running in objs && objs[running].Thread? && level < |objs[running].stack|
      modifies this`objs, this`marked, this`uvhead, this`nextref
      ensures Valid() && uv in objs && uv in Live() && objs[uv] == UpVal(Open(running, level)) && old(Live()) <= Live()
      ensures running in objs && objs[running].Thread? && objs[running].stack == old(objs)[running].stack
      ensures uv in objs[running].openupval
      ensures forall x :: x in old(objs) && x != running ==> x in objs && objs[x] == old(objs)[x]
      ensures forall u :: u in old(objs)[running].openupval && u in old(objs) && old(objs)[u] == UpVal(Open(running, level)) ==>
        u == uv && objs == old(objs)
      ensures old(Dark()) ==> Dark()
    {
      hide Uncut, Inv, Alive, Gap;
      ghost var g := Snap();
      RunningUps(g);
      var i := SearchUp(level);
      var ups := objs[running].openupval;
      if i < |ups| && objs[ups[i]].cell.level == level {  // the list descends, so the first one not above level decides
        uv := ups[i];
        FoundUp(g, i);
        if marked[uv].color == White(!currentwhite) {  // is it dead? resurrect it
          ResurrectInv(g, uv);
          ResurrectAlive(g, uv);
          marked := marked[uv := marked[uv].(color := White(currentwhite))];
        } else {
          InAlive(g, uv);
        }
      } else {
        GapHere(g, i, level);
        uv := NewUp(i, level);
      }
    }

    /** Not found: a new open upvalue, chained in the proper position. */
    method NewUp(k: nat, level: nat) returns (uv: Ref)
      requires Valid() && running in objs && objs[running].Thread? && Gap(objs, running, k, level)
      modifies this`objs, this`marked, this`uvhead, this`nextref
      ensures Valid() && uv !in old(objs) && uv in Live() && old(Live()) <= Live() && running != uv &&
        running in old(objs)
      ensures k <= |old(objs)[running].openupval|
      ensures objs == SetOpen(old(objs), running, InsertAt(old(objs)[running].openupval, k,
        uv))[uv := UpVal(Open(running, level))]
      ensures uv in InsertAt(old(objs)[running].openupval, k, uv)
      ensures marked == old(marked)[uv := Mark(White(currentwhite), false, false, false)]
      ensures old(Dark()) ==> Dark()
    {
      hide Uncut, Inv, Alive, Gap, InsertAt;
      ghost var g := Snap();
      RunningUps(g);
      UpAddedInv(g, running, k, level);
      NextFree(g);
      GapPlace(objs, running, k, level);
      InsertedIn(objs[running].openupval, k, nextref);
      AddedAlive(marked, currentwhite, nextref);
      uv := nextref;
      objs := SetOpen(objs, running, InsertAt(objs[running].openupval, k, uv))[uv := UpVal(Open(running, level))];
      marked := marked[uv := FreshMark(currentwhite)];
      uvhead := [uv] + uvhead;
      nextref := uv + 1;
      assert Snap() == UpAdded(g, running, k, level);
    }

    /** luaF_close: every upvalue at or above the level, and no other, gets its own value or is freed. */
    method Close(level: nat)
      requires Valid() && running in objs && objs[running].Thread?
      modifies this`objs, this`marked, this`gray, this`uvhead, this`rootgc, this`mainidx, this`sweepgc
      ensures Valid() && Preserved(old(Snap()), Snap())
      ensures running in objs && objs[running].Thread? && objs[running].stack == old(objs)[running].stack
      ensures var ups, left := old(objs)[running].openupval, objs[running].openupval;
        |left| <= |ups| && left == ups[|ups| - |left|..]
      ensures forall u :: u in objs[running].openupval ==> u in objs && objs[u].IsOpen() && objs[u].cell.level < level
      ensures ClosedTo(old(objs), objs, running, |old(objs)[running].openupval| - |objs[running].openupval|, level)
    {
      hide Uncut, Inv, Preserved, Alive, ClosedTo, TopClosed;
      ghost var g := Snap();
      PreservedSame(g);
      CloseBegins(g, level);
      ghost var n: nat := 0;
      while objs[running].openupval != [] && TopLevel() >= level
        invariant Valid() && Preserved(g, Snap()) && running in objs && objs[running].Thread?
        invariant ClosedTo(g.objs, objs, running, n, level)
        decreases |objs[running].openupval|
      {
        CloseNext(g, n, level);
        n := n + 1;
      }
      ClosedFacts(g.objs, objs, running, n, level);
      RunningUps(Snap());
      AllBelow(Snap(), level);
    }

    /** One round: the topmost open upvalue, which is not below the level. */
    method CloseNext(ghost g: G, ghost n: nat, level: nat)
      requires Inv(g) && Valid() && Preserved(g, Snap()) && g.running == running && running in objs &&
        objs[running].Thread?
      requires objs[running].openupval != [] && TopLevel() >= level && ClosedTo(g.objs, objs, running, n, level)
      modifies this`objs, this`marked, this`gray, this`uvhead, this`rootgc, this`mainidx, this`sweepgc
      ensures Valid() && Preserved(g, Snap()) && running in objs && objs[running].Thread?
      ensures running in old(objs) && old(objs)[running].Thread? &&
        |objs[running].openupval| < |old(objs)[running].openupval|
      ensures ClosedTo(g.objs, objs, running, n + 1, level)
    {
      hide Uncut, Inv, Preserved, Alive, ClosedTo, TopClosed;
      ghost var g1 := Snap();
      RunningUps(g1);
      ClosedFacts(g.objs, objs, running, n, level);
      CloseTop();
      PreservedTrans(g, g1, Snap());
      ClosedMore(g, g1.objs, objs, n, level);
      ClosedFacts(g.objs, objs, running, n + 1, level);
    }

    function TopLevel(): nat
      requires Valid() && running in objs && objs[running].Thread? && objs[running].openupval != []
      reads this
    {
      RunningUps(Snap());
      objs[objs[running].openupval[0]].cell.level
    }

    method CloseTop()
      requires Valid() && running in objs && objs[running].Thread? && objs[running].openupval != []
      modifies this`objs, this`marked, this`gray, this`uvhead, this`rootgc, this`mainidx, this`sweepgc
      ensures Valid() && Preserved(old(Snap()), Snap())
      ensures TopClosed(old(objs), objs, running)
    {
      hide Uncut, Inv, Core, Preserved, Alive, UpValue, Without;
      ghost var g := Snap();
      TopUp(g);
      var u := objs[running].openupval[0];
      if marked[u].color == White(!currentwhite) {
        CloseDeadInv(g, running);
        CloseDeadKeeps(g);
        FreeTop(u);
        assert Snap() == UpGone(g, running, 0);
      } else if gcstate == Propagate {
        CloseMarking(u);
      } else {
        CloseKept(u);
      }
    }

    /** A dead upvalue is freed instead of closed. */
    method FreeTop(u: Ref)
      requires running in objs && objs[running].Thread? && objs[running].openupval != []
      modifies this`objs, this`marked, this`uvhead
      ensures running in old(objs) && old(objs)[running].Thread? && old(objs)[running].openupval != []
      ensures objs == SetOpen(old(objs), running, CutAt(old(objs)[running].openupval, 0)) - {u}
      ensures uvhead == Without(old(uvhead), u) && marked == old(marked) - {u}
    {
      hide Without, CutAt;
      objs := SetOpen(objs, running, CutAt(objs[running].openupval, 0)) - {u};
      uvhead := Without(uvhead, u);
      marked := marked - {u};
    }

    method Whiten(u: Ref)
      requires u in marked && !marked[u].color.Black? && marked[u].color != White(!currentwhite)
      modifies this`marked
      ensures u in old(marked) && marked == old(marked)[u := old(marked)[u].(color := White(currentwhite))]
    {
      if marked[u].color.Gray? {  // a closed upvalue joins rootgc behind sweepgc: it must be white already
        marked := marked[u := marked[u].(color := White(currentwhite))];
      }
    }

    /** luaC_linkupval outside the propagation phase. */
    method CloseKept(u: Ref)
      requires Valid() && gcstate != Propagate && UpReady(objs, running) && u == objs[running].openupval[0] &&
        objs[u].IsOpen() && u in marked && !marked[u].color.Black? && marked[u].color != White(!currentwhite)
      modifies this`objs, this`marked, this`uvhead, this`rootgc, this`mainidx, this`sweepgc
      ensures Valid() && Preserved(old(Snap()), Snap())
      ensures TopClosed(old(objs), objs, running)
    {
      hide Uncut, Inv, Core, Preserved, Alive, UpValue, Without, TopClosed;
      ghost var g := Snap();
      KeptClosed(g, u);
      Whiten(u);
      MoveUp(running);
      assert Snap() == UpClosed(Kept(g, u), running);
    }

    /** The first open upvalue of t leaves the open lists, takes its value and goes to the head of rootgc. */
    method MoveUp(t: Ref)
      requires UpReady(objs, t)
      modifies this`objs, this`uvhead, this`rootgc, this`mainidx, this`sweepgc
      ensures UpReady(old(objs), t)
      ensures var h, ups := old(objs), old(objs)[t].openupval;
        objs == SetOpen(h, t, ups[1..])[ups[0] := UpVal(Closed(UpValue(h, h[ups[0]].cell)))] &&
          uvhead == Without(old(uvhead), ups[0]) && rootgc == [ups[0]] + old(rootgc)
      ensures mainidx == old(mainidx) + 1 && sweepgc == if old(sweepgc) == 0 then 0 else old(sweepgc) + 1
    {
      hide UpValue, Without;
      var u := objs[t].openupval[0];
      uvhead := Without(uvhead, u);
      objs := SetOpen(objs, t, objs[t].openupval[1..])[u := UpVal(Closed(UpValue(objs, objs[u].cell)))];
      rootgc := [u] + rootgc;
      mainidx := mainidx + 1;
      if sweepgc != 0 { sweepgc := sweepgc + 1; }
    }

    /** The upvalue is closed; a gray one turns black. */
    method BlackenUp(u: Ref)
      requires UpReady(objs, running) && u == objs[running].openupval[0] && u in marked && !marked[u].color.Black?
      modifies this`objs, this`marked, this`uvhead, this`rootgc, this`mainidx, this`sweepgc
      ensures UpReady(old(objs), running) && u in old(marked)
      ensures var c := old(marked)[u].color; Snap() == ClosedAs(old(Snap()), running, if c.White? then c else Black)
    {
      hide UpValue, Without;
      ghost var g, c := Snap(), marked[u].color;
      if marked[u].color.Gray? { marked := marked[u := marked[u].(color := Black)]; }
      assert marked == g.marked[u := g.marked[u].(color := if c.White? then c else Black)];
      MoveUp(running);
    }

    /** The step of luaF_close in the mark phase: a gray upvalue turns black, so that its value needs the barrier. */
    method CloseMarking(u: Ref)
      requires Valid() && gcstate == Propagate && running in objs && objs[running].Thread? &&
        objs[running].openupval != []
      requires u == objs[running].openupval[0] && u in objs && objs[u].IsOpen() && u in marked && u != running &&
        !IsDead(marked[u], currentwhite)
      modifies this`objs, this`marked, this`gray, this`uvhead, this`rootgc, this`mainidx, this`sweepgc
      ensures Valid() && Preserved(old(Snap()), Snap()) && TopClosed(old(objs), objs, running)
    {
      hide Inv, Core, Preserved, Alive, UpValue, Without, MarkInv, NonWhite, Grows, StrongBut, TopClosed, CutOk, Todo;
      ghost var g := Snap();
      UpClosedTop(g, running);
      CloseMark(g, running);
      MarkingParts(g);
      NotBlack(g, u);
      var c := marked[u].color;
      BlackenUp(u);
      ghost var g1 := Snap();
      MarkClosed(u, Todo(g1));
      CloseDone(g1, u, marked, gray, objs.Keys);
      CloseMarkKeeps(g, u, c, marked, gray, objs.Keys);
    }

    /** The value of an upvalue just closed is marked if the upvalue is. */
    method MarkClosed(u: Ref, ghost todo: set<Ref>)
      requires cut == {} && MarkInv(objs, marked, currentwhite, gray, grayagain, weak, todo + {u})
      requires u in objs && objs[u].UpVal? && objs[u].cell.Closed? && u in marked
      modifies this`marked, this`gray
      ensures MarkInv(objs, marked, currentwhite, gray, grayagain, weak, todo) && Grows(old(marked), marked, objs.Keys)
    {
      hide MarkInv, NonWhite, Whites, Grows, StrongBut, CutOk, UpValue;
      ghost var m0 := marked;
      GrowsSame(marked, objs.Keys);
      NoCut(objs, marked);
      if !marked[u].color.White? {
        ClosedValue(objs, marked, currentwhite, gray, grayagain, weak, todo + {u}, u);
        MarkValue(objs[u].cell.val, todo + {u}, objs.Keys);
        GrowsKeeps(m0, marked, objs.Keys, u);
        UpValCovered(objs, objs[u], NonWhite(marked)) by { ClosedIs(objs, objs[u]); }
      }
      ShrinkPlain(objs, marked, currentwhite, gray, grayagain, weak, todo, u);
    }

    /** OP_SETUPVAL: the cell is written, on a stack if it is open, so every closure that shares it reads v. */
    method SetUpvalue(r: Ref, i: nat, v: Value)
      requires Valid() && r in objs && r in Live() && objs[r].LClosure? && i < |objs[r].upvals| && Ok(v, Live())
      modifies this`objs, this`marked, this`gray, this`grayagain
      ensures Valid() && old(Live()) <= Live() && r in old(objs) && objs.Keys == old(objs).Keys &&
        objs[r] == old(objs)[r]
      ensures objs[r].upvals[i] in old(objs)
      ensures var u := objs[r].upvals[i]; u in objs && (objs[u].UpVal? <==> old(objs)[u].UpVal?) && (objs[u].UpVal? ==> UpValue(objs, objs[u].cell) == v)
      ensures forall x :: x in objs && x != objs[r].upvals[i] ==>
        objs[x] == old(objs)[x] || (old(objs)[objs[r].upvals[i]].IsOpen() &&
          x == old(objs)[objs[r].upvals[i]].cell.thread)
      ensures old(Dark()) ==> Dark()
    {
      hide Uncut, Inv, Alive, TmBlack;
      UpvalOf(Snap(), r, i);
      var u := objs[r].upvals[i];
      if objs[u].IsOpen() {
        AliveKnown(Snap(), u);
        PokeInv(Snap(), u, v);
        var t, level := objs[u].cell.thread, objs[u].cell.level;
        ghost var g := Snap();
        objs := objs[t := objs[t].(stack := objs[t].stack[level := v])];
        DarkGrows(g, Snap());
      } else if objs[u].UpVal? {
        UpOff(Snap(), u);
        Store(u, SetUp(v));
      }
    }

    /** luaF_newLclosure with its upvalues; nothing when a captured variable does not exist. */
    method NewClosure(env: Ref, p: Ref, parent: Ref, caps: seq<Capture>) returns (r: Option<Ref>)
      requires Valid() && env in Live() && p in Live() && parent in Live() && parent in objs
      modifies this`objs, this`marked, this`uvhead, this`nextref, this`rootgc, this`mainidx, this`sweepgc
      ensures Valid() && old(Live()) <= Live()
      ensures r.Some? ==> r.value in objs && r.value in Live() && objs[r.value].LClosure? && |objs[r.value].upvals| == |caps|
      ensures r.Some? ==> objs[r.value].env == env && objs[r.value].p == p
      ensures running in old(objs) && running in objs && objs[running].Thread? && old(objs)[running].Thread?
      ensures objs[running].stack == old(objs)[running].stack
      ensures r.Some? ==> forall j :: 0 <= j < |caps| ==> Captures(old(objs), parent, caps[j], objs[r.value].upvals[j])
      ensures r.Some? ==> forall j :: 0 <= j < |caps| ==> CapturedAs(objs, running, caps[j], objs[r.value].upvals[j])
      ensures old(Dark()) ==> Dark()
      ensures r.Some? <==> forall j :: 0 <= j < |caps| ==> CanCapture(old(objs), running, parent, caps[j])
    {
      hide Uncut, Inv, Alive, TmBlack;
      r := None;
      RunningUps(Snap());
      var upvals := CaptureAll(parent, caps);
      if upvals.Some? {
        ClosureLive(Snap(), env, p, upvals.value);
        var c := Alloc(LClosure(env, p, upvals.value));
        r := Some(c);
      }
    }

    /** The pseudo-instructions after OP_CLOSURE. */
    method CaptureAll(parent: Ref, caps: seq<Capture>) returns (r: Option<seq<Ref>>)
      requires Valid() && parent in Live() && parent in objs && running in objs && objs[running].Thread?
      modifies this`objs, this`marked, this`uvhead, this`nextref, this`rootgc, this`mainidx, this`sweepgc
      ensures Valid() && old(Live()) <= Live() && running in objs && objs[running].Thread? &&
        objs[running].stack == old(objs)[running].stack
      ensures r.Some? ==> |r.value| == |caps| && RefsOk(r.value, Live())
      ensures r.Some? ==> forall j :: 0 <= j < |caps| ==> Captures(old(objs), parent, caps[j], r.value[j])
      ensures r.Some? ==> forall j :: 0 <= j < |caps| ==> CapturedAs(objs, running, caps[j], r.value[j])
      ensures old(Dark()) ==> Dark()
      ensures r.Some? <==> forall j :: 0 <= j < |caps| ==> CanCapture(old(objs), running, parent, caps[j])
    {
      hide Uncut, Inv, Alive, TmBlack, CapturedAll, Agree, Captures, CapturedAs, CanCapture;
      ghost var o0 := objs;
      AgreeSame(objs, running, parent, caps);
      var upvals: seq<Ref> := [];
      while |upvals| < |caps|
        invariant Valid() && old(Live()) <= Live() && Agree(o0, objs, running) && |upvals| <= |caps|
        invariant running in objs && objs[running].Thread? && objs[running].stack == o0[running].stack && parent in objs
        invariant RefsOk(upvals, Live()) && CapturedAll(o0, objs, running, parent, caps, upvals)
        invariant old(Dark()) ==> Dark()
        decreases |caps| - |upvals|
      {
        ghost var o := objs;
        CannotCapture(o0, o, running, parent, caps[|upvals|]);
        var u := Capture1(parent, caps[|upvals|]);
        if u.None? { return None; }
        CaptureMore(o0, o, objs, running, parent, caps, upvals, u.value);
        upvals := upvals + [u.value];
      }
      CapturedEnd(o0, objs, running, parent, caps, upvals);
      return Some(upvals);
    }

    /** One captured variable. */
    method Capture1(parent: Ref, c: Capture) returns (u: Option<Ref>)
      requires Valid() && parent in objs && parent in Live() && running in objs && objs[running].Thread?
      modifies this`objs, this`marked, this`uvhead, this`nextref, this`rootgc, this`mainidx, this`sweepgc
      ensures Valid() && old(Live()) <= Live() && running in objs && objs[running].Thread? &&
        objs[running].stack == old(objs)[running].stack
      ensures Agree(old(objs), objs, running)
      ensures u.Some? ==> u.value in objs && u.value in Live() && Captures(old(objs), parent, c, u.value) && CapturedAs(objs, running, c, u.value)
      ensures old(Dark()) ==> Dark()
      ensures u.Some? <==> CanCapture(old(objs), running, parent, c)
    {
      hide Inv, Alive;
      u := None;
      match c {
        case OfStack(level) =>
          if level < |objs[running].stack| {
            var f := FindUpval(level);
            u := Some(f);
          }
        case OfParent(i) =>
          if objs[parent].LClosure? && i < |objs[parent].upvals| {
            UpvalOf(Snap(), parent, i);
            u := Some(objs[parent].upvals[i]);
          }
        case Fresh =>
          FreshUpOk(Snap());
          var f := Alloc(UpVal(Closed(Nil)));
          u := Some(f);
      }
    }

    // ---- whole collections ----

    /** The first loop of luaC_fullgc: steps until a sweep that was under way is over. */
    method FinishSweep()
      requires Valid() && gcstate != Pause && gcstate != Propagate
      modifies this
      ensures Valid() && gcstate == Finalize && Preserved(old(Snap()), Snap())
    {
      hide Inv, Preserved, StepBound, NothingLiveFreed;
      ghost var g := Snap();
      PreservedSame(g);
      while gcstate != Finalize
        invariant Valid() && (gcstate == SweepString || gcstate == Sweep || gcstate == Finalize) && Preserved(g, Snap())
        decreases Rank(), Unswept(), Left()
      {
        ghost var g1 := Snap();
        UniverseBound(g1);
        if gcstate == SweepString { StringStepK(objs.Keys); } else { SweepStep(objs.Keys); }
        PreservedTrans(g, g1, Snap());
      }
    }

    /**
     The second loop: a whole collection. What is left at its end was needed at its start, or is fixed; gb is the
     state after the atomic step.
     */
    method FinishCycle(ghost K: set<Ref>, ghost F: set<Ref>, ghost o: Heap) returns (ghost gb: G)
      requires Valid() && gcstate == Propagate && MarkBound(Snap(), K) && Floor(Snap(), F)
      requires Midway(o, Snap(), Snap())
      modifies this
      ensures Valid() && gcstate == Pause && tmudata == [] && F <= objs.Keys <= K + Fixed(marked)
      ensures Cleansed(o, gb.weak, Snap())
    {
      hide Inv, MarkBound, NothingLiveFreed, Alive, Fixed, Whites, Floor, FloorKept, Midway, Cleansed, StepKeeps;
      gb := Snap();
      ghost var k := K;
      while gcstate != Pause
        invariant Valid() && (gcstate != Pause ==> StepBound(Snap(), k))
        invariant Floor(Snap(), F) && Midway(o, gb, Snap())
        invariant if gcstate == Propagate then k == K else k == Alive(gb.marked, gb.cw) <= K + Fixed(gb.marked)
        invariant gcstate == Pause ==> tmudata == [] && objs.Keys <= k + Fixed(marked)
        decreases Rank(), Unswept(), Left()
      {
        ghost var g := Snap();
        SingleStep(k);
        FloorUse(g, Snap(), F);
        MidStep(o, gb, g, Snap());
        if g.phase == Propagate {
          gb := Snap();
          if gcstate == SweepString {
            BoundSelf(gb, K);
            k := Alive(marked, currentwhite);
          }
        }
      }
      FloorPause(Snap(), F);
      MidFixed(o, gb, Snap(), K);
      CycleDone(o, gb, Snap());
    }

    /** A cycle not yet at its sweep is given up; there is nothing dead to sweep yet. */
    method StartSweep()
      requires Valid()
      modifies this`sweepstrgc, this`sweepgc, this`gray, this`grayagain, this`weak, this`gcstate
      ensures Valid() && gcstate != Pause && gcstate != Propagate && Preserved(old(Snap()), Snap())
    {
      hide Inv, Preserved;
      ghost var g := Snap();
      PreservedSame(g);
      if gcstate == Pause || gcstate == Propagate {
        ResetInv(g);
        sweepstrgc := 0;
        sweepgc := 0;
        ClearLists();
        gcstate := SweepString;
      }
    }

    /** luaC_fullgc; g1 is the state when its own marking starts. */
    method FullGc() returns (ghost g1: G)
      requires Valid()
      modifies this
      ensures Valid() && gcstate == Pause && tmudata == []
      ensures Preserved(old(Snap()), g1) && Collected(g1, Snap())
    {
      hide Inv, Preserved, MarkBound, Needed, Fixed, Strings, Midway, Cleansed, BlackWeak;
      ghost var g := Snap();
      StartSweep();
      ghost var g0 := Snap();
      FinishSweep();
      g1 := Snap();
      PreservedTrans(g, g0, g1);
      NeededBound(g1);
      MarkRoot(Needed(g1));
      FloorStart(g1, Snap());
      MidStart(Snap());
      ghost var gb := FinishCycle(Needed(g1), Needed(g1) - Strings(g1.objs), g1.objs);
    }

    // ---- whole runs ----

    /** lua_newstate: the main thread, the registry and the table of globals. */
    constructor (strings: nat)
      requires strings > 0
      ensures Valid() && gcstate == Pause && running == mainthread && Dark()
    {
      var t := Table(None, Mode(false, false), false, [], []);
      mainthread := 0;
      registry := 1;
      objs := map[0 := Thread(Gc(2), [], []), 1 := t, 2 := t];
      marked := map[0 := Mark(White(false), false, false, true), 1 := FreshMark(false), 2 := FreshMark(false)];
      currentwhite := false;
      gray, grayagain, weak := [], [], [];
      rootgc, mainidx, sweepgc := [1, 2, 0], 2, 0;
      tmudata, uvhead, called, cut := [], [], [], {};
      running := 0;
      mt := seq(9, i => None);
      gcstate := Pause;
      strt := seq(strings, i => []);
      sweepstrgc := 0;
      nextref := 3;
      new;
      InitialInv(strings);
      assert Snap() == Initial(strings);
    }

    /**
     Any sequence of moves of the program and of the collector, from any state. `trace` is the run: its
     states, from the first to the last.
     */
    method Run(script: seq<Action>) returns (ghost trace: seq<G>)
      requires Valid()
      modifies this
      ensures Valid() && Safe(Snap()) && NoDup(called)
      ensures RunOf(trace, script) && trace[0] == old(Snap()) && trace[|script|] == Snap() && AllStatesSafe(trace)
      ensures old(Dark()) && !Touched(trace, script) ==> Dark()
    {
      hide Inv, Safe, NoDup, Effect, TmBlack, TouchesPending, RunOf, AllInv, Touched;
      trace := [Snap()];
      RunStart(Snap());
      for i := 0 to |script|
        invariant Valid() && RunOf(trace, script[..i]) && |trace| == i + 1 && trace[0] == old(Snap()) &&
          trace[i] == Snap()
        invariant AllInv(trace) && (old(Dark()) && !Touched(trace, script[..i]) ==> Dark())
      {
        assert script[..i + 1] == script[..i] + [script[i]];
        Do(script[i]);
        RunMore(trace, script[..i], script[i], Snap());
        AllInvMore(trace, Snap());
        trace := trace + [Snap()];
      }
      assert script[..|script|] == script;
      RunSafe(trace);
    }

    method Do(a: Action)
      requires Valid()
      modifies this
      ensures Valid() && Effect(old(Snap()), a, Snap())
      ensures old(Dark()) && !TouchesPending(old(Snap()), a) ==> Dark()
    {
      hide Uncut, Inv, TmBlack, SendEffect, MoveEffect, CloseEffect, CollectEffect, NothingLiveFreed, StepKeeps,
        TouchesPending;
      match a {
        case StepGc => Step();
        case CollectGc => DoCollect();
        case SetTop(n) => DoSetTop(n);
        case CloseUps(level) => DoClose(level);
        case Send(t, v) => DoSend(t, v);
        case _ => DoMove(a);
      }
    }

    method DoMove(a: Action)
      requires Valid()
      modifies this
      ensures Valid() && MoveEffect(old(Snap()), a, Snap())
      ensures old(Dark()) && !TouchesPending(old(Snap()), a) ==> Dark()
    {
      hide Uncut, Inv, TmBlack, StackEffect, RootEffect, WriteEffect, NewEffect, MoveEffect, TouchesPending;
      ghost var g := Snap();
      if a.Resume? || a.Back? || a.SetMt? {
        DoRoot(a);
      } else if a.New? || a.NewString? || a.NewFunction? {
        DoNew(a);
      } else if a.Write? || a.WriteUp? {
        DoWrite(a);
      } else {
        DoStack(a);
      }
      MoveIs(g, a, Snap());
    }

    /** One step of the collector, with no claim about what it keeps. */
    method Step()
      requires Valid()
      modifies this
      ensures Valid() && NothingLiveFreed(old(Snap()), Snap()) && StepKeeps(old(Snap()), Snap())
      ensures old(Dark()) ==> Dark()
    {
      hide Inv, StepBound, NothingLiveFreed, StepKeeps;
      UniverseBound(Snap());
      SingleStep(objs.Keys);
    }

    method DoStack(a: Action)
      requires Valid()
      modifies this`objs
      ensures Valid() && StackEffect(old(Snap()), a, Snap()) && (old(Dark()) ==> Dark())
    {
      hide Uncut, Inv, Alive, Fetched, Assigned, TmBlack;
      ghost var g := Snap();
      HeldLive(g);
      if a.Assign? {
        var s := Assigned(objs[running].stack, a.i, a.j);
        AssignedLive(objs[running].stack, a.i, a.j, Live());
        AliveKnown(g, running);
        LevelsGrow(g, running, s);
        SetStack(running, s);
      } else {
        FetchedLive(g, a);
        var v := Fetch(a);
        if v.Some? { PushOn(running, v.value); }
      }
      DarkGrows(g, Snap());
    }

    /** What the move reads: a constant, a stack slot, a field of an object the program holds, a root. */
    method Fetch(a: Action) returns (v: Option<Value>)
      requires Valid() && running in objs && objs[running].Thread?
      ensures v == Fetched(Snap(), a)
    {
      hide Inv, Select;
      HeldLive(Snap());
      var s := objs[running].stack;
      v := None;
      match a {
        case PushNil => v := Some(Nil);
        case PushPlain(n) => v := Some(Plain(n));
        case Copy(i) => if i < |s| { v := Some(s[i]); }
        case Read(r, sel) => if r in Held(s) { v := Some(Select(objs, objs[r], sel)); }
        case ReadRegistry => v := Some(Gc(registry));
        case ReadMt(k) => if k < |mt| && mt[k].Some? { v := Some(Gc(mt[k].value)); }
        case _ =>
      }
    }

    method DoSend(t: Ref, v: Value)
      requires Valid()
      modifies this`objs
      ensures Valid()
      ensures SendEffect(old(Snap()), t, v, Snap())
      ensures old(Dark()) ==> Dark()
    {
      hide Uncut, Inv, Alive, TmBlack;
      ghost var g := Snap();
      HeldLive(g);
      var s := objs[running].stack;
      if t in Held(s) && objs[t].Thread? && Ok(v, Held(s)) { PushOn(t, v); }
      DarkGrows(g, Snap());
    }

    method DoCollect()
      requires Valid()
      modifies this
      ensures Valid() && CollectEffect(old(Snap()), Snap()) && Dark()
    {
      hide Inv, Preserved, Collected;
      ghost var g := Snap();
      ghost var g1 := FullGc();
      assert Preserved(g, g1);
    }

    method DoClose(level: nat)
      requires Valid()
      modifies this`objs, this`marked, this`gray, this`uvhead, this`rootgc, this`mainidx, this`sweepgc
      ensures Valid() && CloseEffect(old(Snap()), level, None, Snap()) && (old(Dark()) ==> Dark())
    {
      hide Inv, Preserved, ClosedTo, TmBlack;
      ghost var g := Snap();
      RunningUps(g);
      Close(level);
      PreservedDark(g, Snap());
      SameStack(objs, running);
    }

    method DoSetTop(n: nat)
      requires Valid()
      modifies this`objs, this`marked, this`gray, this`uvhead, this`rootgc, this`mainidx, this`sweepgc
      ensures Valid()
      ensures CloseEffect(old(Snap()), n, Some(n), Snap()) && (old(Dark()) ==> Dark())
    {
      hide Uncut, Inv, Alive, Preserved, AllOk, ClosedTo, TmBlack, CloseEffect;
      ghost var g := Snap();
      DoClose(n);
      ghost var g1 := Snap();
      HeldLive(g1);
      AliveKnown(g1, running);
      var s := objs[running].stack;
      var s' := TopTo(s, n);
      TopValues(s, n, Live());
      CloseBelow(g, n, g1);
      CutLevels(objs, running, n);
      SetStack(running, s');
      SetTopEffect(g, g1, n);
      DarkGrows(g1, Snap());
    }

    method DoWrite(a: Action)
      requires Valid()
      modifies this`objs, this`marked, this`gray, this`grayagain
      ensures Valid() && WriteEffect(old(Snap()), a, Snap())
      ensures old(Dark()) && !TouchesPending(old(Snap()), a) ==> Dark()
    {
      hide Uncut, Inv, Edited, MayWrite, UpWritten, TmBlack;
      HeldLive(Snap());
      match a {
        case Write(r, e) => DoField(r, e);
        case WriteUp(r, i, v) => DoUp(r, i, v);
        case _ =>
      }
    }

    method DoField(r: Ref, e: Edit)
      requires Valid() && running in objs && objs[running].Thread?
      modifies this`objs, this`marked, this`gray, this`grayagain
      ensures Valid() && OnThread(old(Snap()))
      ensures objs == if MayWrite(old(Snap()), r, e) then old(objs)[r := Edited(old(objs)[r], e)] else old(objs)
      ensures old(Dark()) && (gcstate == Propagate || r !in tmudata) ==> Dark()
    {
      hide Uncut, Inv, Alive, Edited, KeyFor, Newcomer, TmBlack;
      HeldLive(Snap());
      var h := Held(objs[running].stack);
      if r in h && Ok(Newcomer(e), h) && Ok(KeyFor(objs[r], e), h) && !objs[r].Str? &&
        !objs[r].IsOpen() { Store(r, e); }
    }

    method DoUp(r: Ref, i: nat, v: Value)
      requires Valid() && running in objs && objs[running].Thread?
      modifies this`objs, this`marked, this`gray, this`grayagain
      ensures Valid() && (old(Dark()) ==> Dark()) && running in old(objs) && old(objs)[running].Thread?
      ensures var h := Held(old(objs)[running].stack);
        if r in h && r in old(objs) && Ok(v, h) && old(objs)[r].LClosure? && i < |old(objs)[r].upvals|
        then UpWritten(old(objs), objs, old(objs)[r].upvals[i], v) else objs == old(objs)
    {
      hide Uncut, Inv, Alive, TmBlack, UpValue;
      HeldLive(Snap());
      var h := Held(objs[running].stack);
      if r in h && Ok(v, h) && objs[r].LClosure? && i < |objs[r].upvals| { SetUpvalue(r, i, v); }
    }

    method DoNew(a: Action)
      requires Valid()
      modifies this`objs, this`marked, this`uvhead, this`nextref, this`rootgc, this`mainidx, this`sweepgc, this`strt
      ensures Valid() && NewEffect(old(Snap()), a, Snap()) && (old(Dark()) ==> Dark())
    {
      hide Uncut, Inv, ObjectEffect, StringEffect, ClosureEffect, TmBlack;
      match a {
        case New(o) => DoObject(o);
        case NewString(b, i) => DoString(b, i);
        case NewFunction(env, p, parent, caps) => DoFunction(env, p, parent, caps);
        case _ =>
      }
    }

    method DoObject(o: Obj)
      requires Valid()
      modifies this`objs, this`marked, this`nextref, this`rootgc, this`mainidx, this`sweepgc
      ensures Valid() && (old(Dark()) ==> Dark()) && ObjectEffect(old(Snap()), o, Snap())
    {
      hide Uncut, Inv, Alive, ObjLive, NewOk, TmBlack;
      ghost var g := Snap();
      HeldLive(g);
      var h := Held(objs[running].stack);
      if !o.Str? && !o.IsOpen() && ObjLive(o, h) && (o.Thread? ==> o.openupval == []) {
        LiveMonotone(o, h, Live());
        HeldNew(g, o);
        var r := Alloc(o);
        ghost var g1 := Snap();
        PushOn(running, Gc(r));
        DarkGrows(g1, Snap());
      }
    }

    method DoString(b: nat, i: nat)
      requires Valid()
      modifies this`objs, this`marked, this`nextref, this`strt
      ensures Valid() && (old(Dark()) ==> Dark()) && StringEffect(old(Snap()), b, i, Snap())
    {
      hide Uncut, Inv, Alive, TmBlack;
      ghost var g := Snap();
      HeldLive(g);
      if b < |strt| {
        var r := Intern(b, i);
        ghost var g1 := Snap();
        PushOn(running, Gc(r));
        DarkGrows(g1, Snap());
        assert StringAt(g, b, i, Snap(), r) && TopIs(g, Snap(), Gc(r));
      }
    }

    method DoFunction(env: Ref, p: Ref, parent: Ref, caps: seq<Capture>)
      requires Valid()
      modifies this`objs, this`marked, this`uvhead, this`nextref, this`rootgc, this`mainidx, this`sweepgc
      ensures Valid() && (old(Dark()) ==> Dark()) && ClosureEffect(old(Snap()), env, p, parent, caps, Snap())
    {
      hide Uncut, Inv, Alive, TmBlack, FunctionEffect;
      HeldLive(Snap());
      var h := Held(objs[running].stack);
      if env in h && p in h && parent in h { PushFunction(env, p, parent, caps); }
    }

    method PushFunction(env: Ref, p: Ref, parent: Ref, caps: seq<Capture>)
      requires Valid() && running in objs && objs[running].Thread?
      requires env in Held(objs[running].stack) && p in Held(objs[running].stack) && parent in Held(objs[running].stack)
      modifies this`objs, this`marked, this`uvhead, this`nextref, this`rootgc, this`mainidx, this`sweepgc
      ensures Valid() && (old(Dark()) ==> Dark()) && FunctionEffect(old(Snap()), env, p, parent, caps, Snap())
    {
      hide Uncut, Inv, Alive, TmBlack, Captures, CapturedAs, CanCapture;
      ghost var g := Snap();
      HeldLive(g);
      var r := NewClosure(env, p, parent, caps);
      HeldLive(Snap());
      if r.Some? {
        ghost var g1 := Snap();
        PushOn(running, Gc(r.value));
        DarkGrows(g1, Snap());
        PushedFunction(g, g1.objs, env, p, parent, caps, Snap(), r.value);
      }
    }

    method DoRoot(a: Action)
      requires Valid()
      modifies this`running, this`mt
      ensures Valid()
      ensures RootEffect(old(Snap()), a, Snap())
      ensures old(Dark()) ==> Dark()
    {
      hide Uncut, Inv, Alive, MtIn, TmBlack;
      ghost var g := Snap();
      HeldLive(g);
      RootsLive(g, 0);
      MtLive(g);
      var h := Held(objs[running].stack);
      match a {
        case Resume(t) =>
          if t in h && objs[t].Thread? {
            RootsInv(g, t, mt);
            running := t;
          }
        case Back =>
          RootsInv(g, mainthread, mt);
          running := mainthread;
        case SetMt(k, o) =>
          if k < |mt| && OptOk(o, h) {
            MtUpdated(mt, k, o, Live());
            RootsInv(g, running, mt[k := o]);
            mt := mt[k := o];
          }
        case _ =>
      }
      DarkGrows(g, Snap());
    }
  }
}
