/** What a program does to objects: fields read and written, stack slots, and the barrier each write needs. */
module GcOps {
  import opened Common
  import opened GcHeap
  import opened GcInv
  import opened GcLists
  import opened GcState
  import opened GcSweep
  import opened GcMutator

  // ---- reading ----

  datatype Selector = Meta | Env | Index(i: nat) | KeyOf(i: nat) | ValOf(i: nat) | Up(i: nat) | ProtoOf | Nested(i: nat)

  /** The value a program finds in a field; nil when there is none. The key of an empty entry is never read. */
  function Select(objs: Heap, o: Obj, sel: Selector): Value {
    match sel
    case Meta => if (o.Table? || o.Udata?) && o.mt.Some? then Gc(o.mt.value) else Nil
    case Env =>
      if o.Udata? || o.CClosure? || o.LClosure? then Gc(o.env) else if o.Thread? then o.gt else Nil
    case Index(i) =>
      if o.Table? && i < |o.arr| then o.arr[i]
      else if o.CClosure? && i < |o.upvalue| then o.upvalue[i]
      else if o.Thread? && i < |o.stack| then o.stack[i]
      else if o.Proto? && i < |o.k| then o.k[i] else Nil
    case KeyOf(i) =>
      if o.Table? && i < |o.node| && !o.node[i].val.Nil? && o.node[i].key.Live? then o.node[i].key.v else Nil
    case ValOf(i) => if o.Table? && i < |o.node| then o.node[i].val else Nil
    case Up(i) =>
      if o.LClosure? && i < |o.upvals| && o.upvals[i] in objs && objs[o.upvals[i]].UpVal?
      then UpValue(objs, objs[o.upvals[i]].cell) else Nil
    case ProtoOf => if o.LClosure? then Gc(o.p) else Nil
    case Nested(i) => if o.Proto? && i < |o.protos| then Gc(o.protos[i]) else Nil
  }

  /** An upvalue gives the stack slot it is open on, or its own value. */
  predicate UpReads(objs: Heap, u: Ref, x: Ref) {
    u in objs && objs[u].UpVal? &&
    match objs[u].cell
    case Open(t, level) =>
      t in objs && objs[t].Thread? && level < |objs[t].stack| && objs[t].stack[level] == Gc(x)
    case Closed(v) => v == Gc(x)
  }

  /** What a program can read from an object, kind by kind: every reference in it, but for the names of a prototype. */
  ghost predicate Readable(objs: Heap, o: Obj, x: Ref) {
    match o
    case Str(_) => false
    case Udata(mt, env) => x == env || mt == Some(x)
    case UpVal(_) => false
    case CClosure(env, upvalue) => x == env || Gc(x) in upvalue
    case LClosure(env, p, upvals) =>
      x == env || x == p || exists u :: u in upvals && UpReads(objs, u, x)
    case Table(mt, _, _, arr, node) =>
      mt == Some(x) || Gc(x) in arr || exists n :: n in node && !n.val.Nil? && (n.key == Live(Gc(x)) || n.val == Gc(x))
    case Thread(gt, stack, _) => gt == Gc(x) || Gc(x) in stack
    case Proto(_, k, _, protos) => Gc(x) in k || x in protos
  }

  /** The selectors reach all of it, and nothing else. */
  lemma SelectAll(objs: Heap, o: Obj, x: Ref)
    ensures Readable(objs, o, x) <==> exists sel :: Select(objs, o, sel) == Gc(x)
  {
    if sel :| Select(objs, o, sel) == Gc(x) { SelectOnly(objs, o, x, sel); }
    if Readable(objs, o, x) { var sel := SelectFor(objs, o, x); }
  }

  lemma SelectOnly(objs: Heap, o: Obj, x: Ref, sel: Selector)
    requires Select(objs, o, sel) == Gc(x)
    ensures Readable(objs, o, x)
  {
    match sel {
      case KeyOf(i) => assert o.node[i] in o.node;
      case ValOf(i) => assert o.node[i] in o.node;
      case Up(i) => assert o.upvals[i] in o.upvals;
      case _ =>
    }
  }

  lemma SelectFor(objs: Heap, o: Obj, x: Ref) returns (sel: Selector)
    requires Readable(objs, o, x)
    ensures Select(objs, o, sel) == Gc(x)
  {
    match o {
      case Udata(mt, env) => sel := if x == env then Env else Meta;
      case CClosure(env, upvalue) =>
        if x == env { return Env; }
        var i :| 0 <= i < |upvalue| && upvalue[i] == Gc(x);
        sel := Index(i);
      case LClosure(env, p, upvals) =>
        if x == env { return Env; }
        if x == p { return ProtoOf; }
        var u :| u in upvals && UpReads(objs, u, x);
        var i :| 0 <= i < |upvals| && upvals[i] == u;
        sel := Up(i);
      case Table(mt, _, _, arr, node) =>
        if mt == Some(x) { return Meta; }
        if Gc(x) in arr {
          var i :| 0 <= i < |arr| && arr[i] == Gc(x);
          return Index(i);
        }
        var n :| n in node && !n.val.Nil? && (n.key == Live(Gc(x)) || n.val == Gc(x));
        var i :| 0 <= i < |node| && node[i] == n;
        sel := if n.val == Gc(x) then ValOf(i) else KeyOf(i);
      case Thread(gt, stack, _) =>
        if gt == Gc(x) { return Env; }
        var i :| 0 <= i < |stack| && stack[i] == Gc(x);
        sel := Index(i);
      case Proto(_, k, _, protos) =>
        if Gc(x) in k {
          var i :| 0 <= i < |k| && k[i] == Gc(x);
          return Index(i);
        }
        var i :| 0 <= i < |protos| && protos[i] == x;
        sel := Nested(i);
    }
  }

  /** Whatever a program reads from a live object, weak tables and upvalues included, is live. */
  lemma SelectLive(g: G, r: Ref, sel: Selector)
    requires Inv(g) && r in g.objs && r in Alive(g.marked, g.cw)
    ensures Ok(Select(g.objs, g.objs[r], sel), Alive(g.marked, g.cw))
  {
    hide Alive, Base, Lists, Fin, PhaseOk;
    var A := Alive(g.marked, g.cw);
    var o := g.objs[r];
    assert RefsIn(g.objs, o, A);
    match sel {
      case KeyOf(i) => if o.Table? && i < |o.node| { assert NodeLive(o.node[i], A); }
      case ValOf(i) => if o.Table? && i < |o.node| { assert NodeLive(o.node[i], A); }
      case Up(i) =>
        if o.LClosure? && i < |o.upvals| && o.upvals[i] in g.objs { assert RefsIn(g.objs, g.objs[o.upvals[i]], A); }
      case _ =>
    }
  }

  lemma SlotLive(g: G, i: nat)
    requires Inv(g)
    ensures g.running in g.objs && g.objs[g.running].Thread? && g.running in g.marked &&
      !IsDead(g.marked[g.running], g.cw)
    ensures Ok(SlotValue(g.objs, g.running, i), Alive(g.marked, g.cw))
    ensures SlotValue(g.objs, g.running, i).Gc? ==>
      SlotValue(g.objs, g.running, i).ref in g.objs && SlotValue(g.objs, g.running, i).ref in g.marked
  {
    assert RefsIn(g.objs, g.objs[g.running], Alive(g.marked, g.cw));
  }

  lemma RootsLive(g: G, k: nat)
    requires Inv(g)
    ensures Ok(Gc(g.registry), Alive(g.marked, g.cw)) && Ok(Gc(g.mainthread), Alive(g.marked, g.cw))
    ensures k < |g.mt| ==> OptOk(g.mt[k], Alive(g.marked, g.cw))
    ensures g.mainthread in g.objs && g.objs[g.mainthread].Thread?
  {
    hide Alive, Base, Fin, PhaseOk;
  }

  // ---- writing ----

  /** One assignment to a field. NewKey and AddKey put a key in place, with a nil value as yet (newkey). */
  datatype Edit =
    | SetMeta(mt: Option<Ref>)
    | SetEnv(env: Ref)
    | SetIndex(i: nat, v: Value)
    | NewKey(i: nat, k: Value)
    | AddKey(k: Value)
    | SetVal(i: nat, v: Value)
    | SetUp(v: Value)
    | AddConst(v: Value)
    | AddName(s: Ref)
    | AddProto(p: Ref)
    | SetMode(mode: Mode, gc: bool)

  /** The object after the assignment; an assignment that does not apply changes nothing. */
  function Edited(o: Obj, e: Edit): Obj {
    match e
    case SetMeta(mt) => if o.Table? || o.Udata? then o.(mt := mt) else o
    case SetEnv(env) =>
      if o.Udata? || o.CClosure? || o.LClosure? then o.(env := env) else if o.Thread? then o.(gt := Gc(env)) else o
    case SetIndex(i, v) =>
      if o.Table? && i < |o.arr| then o.(arr := o.arr[i := v])
      else if o.CClosure? && i < |o.upvalue| then o.(upvalue := o.upvalue[i := v]) else o
    case NewKey(i, k) =>
      if o.Table? && i < |o.node| && o.node[i].val.Nil? then o.(node := o.node[i := Node(Live(k), Nil)]) else o
    case AddKey(k) => if o.Table? then o.(node := o.node + [Node(Live(k), Nil)]) else o
    case SetVal(i, v) =>
      if o.Table? && i < |o.node| && o.node[i].key.Live? then o.(node := o.node[i := o.node[i].(val := v)]) else o
    case SetUp(v) => if o.UpVal? && o.cell.Closed? then UpVal(Closed(v)) else o
    case AddConst(v) => if o.Proto? then o.(k := o.k + [v]) else o
    case AddName(s) => if o.Proto? then o.(names := o.names + [s]) else o
    case AddProto(p) => if o.Proto? then o.(protos := o.protos + [p]) else o
    case SetMode(mode, gc) => if o.Table? then o.(mode := mode, gc := gc) else o
  }

  /** The field that an assignment writes, when it applies to the object. */
  function Field(o: Obj, e: Edit): Option<Selector> {
    match e
    case SetMeta(_) => if o.Table? || o.Udata? then Some(Meta) else None
    case SetEnv(_) => if o.Udata? || o.CClosure? || o.LClosure? || o.Thread? then Some(Env) else None
    case SetIndex(i, _) => if (o.Table? && i < |o.arr|) || (o.CClosure? && i < |o.upvalue|) then Some(Index(i))
      else None
    case SetVal(i, _) => if o.Table? && i < |o.node| && o.node[i].key.Live? then Some(ValOf(i)) else None
    case AddConst(_) => if o.Proto? then Some(Index(|o.k|)) else None
    case AddProto(_) => if o.Proto? then Some(Nested(|o.protos|)) else None
    case _ => None
  }

  /** What has been written is what is read; every other field, but for a key whose entry gets its value, reads as it did. */
  lemma EditReads(objs: Heap, o: Obj, e: Edit, sel: Selector)
    ensures Field(o, e) == Some(sel) ==> Select(objs, Edited(o, e), sel) == Newcomer(e)
    ensures Field(o, e) != Some(sel) && !(e.SetVal? && sel == KeyOf(e.i)) ==>
      Select(objs, Edited(o, e), sel) == Select(objs, o, sel)
  {
    match e
    case SetMeta(_) =>
    case SetEnv(_) =>
    case SetIndex(_, _) =>
    case NewKey(_, _) =>
    case _ =>
  }

  /** A key put in place is read once its entry has a value. */
  lemma KeyReads(objs: Heap, o: Obj, i: nat, k: Value, v: Value)
    requires o.Table? && !v.Nil?
    ensures i < |o.node| && o.node[i].val.Nil? ==>
      Select(objs, Edited(Edited(o, NewKey(i, k)), SetVal(i, v)), KeyOf(i)) == k
    ensures Select(objs, Edited(Edited(o, AddKey(k)), SetVal(|o.node|, v)), KeyOf(|o.node|)) == k
    ensures i < |o.node| && o.node[i].key.Live? ==> Select(objs, Edited(o, SetVal(i, v)), KeyOf(i)) == o.node[i].key.v
  {
  }

  /** The value the barrier is about. */
  function Newcomer(e: Edit): Value {
    match e
    case SetMeta(mt) => if mt.Some? then Gc(mt.value) else Nil
    case SetEnv(env) => Gc(env)
    case SetIndex(_, v) => v
    case NewKey(_, k) => k
    case AddKey(k) => k
    case SetVal(_, v) => v
    case SetUp(v) => v
    case AddConst(v) => v
    case AddName(s) => Gc(s)
    case AddProto(p) => Gc(p)
    case SetMode(_, _) => Nil
  }

  /** The key whose entry gets a value. */
  function KeyFor(o: Obj, e: Edit): Value {
    if e.SetVal? && o.Table? && e.i < |o.node| && o.node[e.i].key.Live? then o.node[e.i].key.v else Nil
  }

  lemma EditAdds(o: Obj, e: Edit)
    requires !o.Str? && !o.IsOpen()
    ensures Adds(o, Edited(o, e), KeyFor(o, e), Newcomer(e))
    ensures Edited(o, e).Thread? <==> o.Thread?
    ensures o.Thread? ==> Edited(o, e).stack == o.stack && Edited(o, e).openupval == o.openupval
  {
    forall S | ObjLive(o, S) ensures ObjLive(Edited(o, e), S + RefOf(KeyFor(o, e)) + RefOf(Newcomer(e)))
    {
      EditLive(o, e, S);
    }
    if o.Table? {
      forall S | TableCovered(o, false, false, S) ensures TableCovered(Edited(o, e), false, false,
        S + RefOf(Newcomer(e)))
      {
        EditCovered(o, e, S);
      }
    }
  }

  lemma EditLive(o: Obj, e: Edit, S: set<Ref>)
    requires ObjLive(o, S)
    ensures ObjLive(Edited(o, e), S + RefOf(KeyFor(o, e)) + RefOf(Newcomer(e)))
  {
    var T := S + RefOf(KeyFor(o, e)) + RefOf(Newcomer(e));
    LiveMonotone(o, S, T);
    if o.Table? {
      var o' := Edited(o, e);
      forall i | 0 <= i < |o'.node| ensures NodeLive(o'.node[i], T)
      {
        if i < |o.node| { assert NodeLive(o.node[i], T); }
      }
    }
  }

  lemma EditCovered(o: Obj, e: Edit, S: set<Ref>)
    requires o.Table? && TableCovered(o, false, false, S)
    ensures TableCovered(Edited(o, e), false, false, S + RefOf(Newcomer(e)))
  {
    var T := S + RefOf(Newcomer(e));
    var o' := Edited(o, e);
    forall i | 0 <= i < |o'.node| ensures NodeCovered(o'.node[i], false, false, T)
    {
      if i < |o.node| { assert NodeCovered(o.node[i], false, false, S); }
    }
  }

  /** When the barrier has nothing to do. */
  lemma QuietEdit(g: G, r: Ref, o': Obj, k: Value, v: Value)
    requires Inv(g) && r in g.objs && r in g.marked && !IsDead(g.marked[r], g.cw) && Adds(g.objs[r], o', k, v) &&
      LevelsIn(g.objs, o')
    requires Ok(k, Alive(g.marked, g.cw)) && Ok(v, Alive(g.marked, g.cw))
    requires v.Gc? && g.marked[r].color.Black? ==> v.ref in g.marked && !g.marked[v.ref].color.White?
    ensures Inv(Stored(g, r, o'))
  {
    hide Inv, Adds, MayStore, CoveredBut, NonWhite, LevelsIn, Alive;
    AddsMay(g, r, o', k, v);
    if g.phase == Propagate {
      if g.marked[r].color.Black? && r !in g.tm {
        AddsCovered(g, r, o', k, v);
        if v.Gc? { InNonWhite(g.marked, v.ref); }
      }
      StoreQuiet(g, r, o', v);
    } else {
      StorePhase(g, r, o');
    }
  }

  lemma InNonWhite(m: Marks, r: Ref)
    requires r in m && !m[r].color.White?
    ensures r in NonWhite(m)
  {
  }

  /** Before luaC_barrierf marks the value, in the marking phase. */
  lemma ForwardReady(g: G, r: Ref, o': Obj, k: Value, v: Value)
    requires Inv(g) && g.phase == Propagate && r in g.objs && r in g.marked && !IsDead(g.marked[r], g.cw)
    requires Adds(g.objs[r], o', k, v) && LevelsIn(g.objs, o') && g.marked[r].color.Black? && v.Gc?
    requires Ok(k, Alive(g.marked, g.cw)) && Ok(v, Alive(g.marked, g.cw))
    ensures MayStore(g, r, o') && (r in g.tm || CoveredBut(g, o', v))
    ensures MarkInv(g.objs[r := o'], g.marked, g.cw, g.gray, g.again, g.weak, Todo(g) + {r})
    ensures StrongBut(g.objs[r := o'], g.objs[r := o'].Keys, {}) && v.ref in g.objs[r := o'] && v.ref in g.marked
  {
    hide Inv, Adds, MayStore, CoveredBut, NonWhite, LevelsIn, Lists, StrongBut, LiveClosed, Tri;
    AddsMay(g, r, o', k, v);
    TodoParts(g);
    if r !in g.tm { AddsCovered(g, r, o', k, v); }
    StoreMark(g, r, o', Todo(g));
    AllStrong(g.objs[r := o']) by { KeysClosed(g.objs[r := o'], g.marked, g.cw, g.gray, g.again, g.weak,
      Todo(g) + {r}); }
    AliveKnown(g, v.ref);
  }

  lemma KeysClosed(objs: Heap, marked: Marks, cw: bool, gray: seq<Ref>, again: seq<Ref>, weak: seq<Ref>, todo: set<Ref>)
    requires MarkInv(objs, marked, cw, gray, again, weak, todo)
    ensures LiveClosed(objs, objs.Keys)
  {
  }

  lemma AliveKnown(g: G, r: Ref)
    requires Inv(g) && r in Alive(g.marked, g.cw)
    ensures r in g.objs && r in g.marked && !IsDead(g.marked[r], g.cw)
  {
  }

  // ---- stack slots: threads are never black, so no barrier is needed ----

  lemma StackInv(g: G, t: Ref, s: seq<Value>)
    requires Inv(g) && t in g.objs && g.objs[t].Thread? && t in g.marked && !IsDead(g.marked[t], g.cw)
    requires AllOk(s, Alive(g.marked, g.cw)) && LevelsIn(g.objs, g.objs[t].(stack := s))
    ensures Inv(Stored(g, t, g.objs[t].(stack := s)))
  {
    hide Inv, MayStore, CoveredBut, NonWhite, LevelsIn;
    var o' := g.objs[t].(stack := s);
    StackMay(g, t, s);
    if g.phase == Propagate {
      ThreadGray(g, t);
      StoreQuiet(g, t, o', Nil);
    } else {
      StorePhase(g, t, o');
    }
  }

  lemma StackMay(g: G, t: Ref, s: seq<Value>)
    requires Inv(g) && t in g.objs && g.objs[t].Thread? && t in g.marked && !IsDead(g.marked[t], g.cw)
    requires AllOk(s, Alive(g.marked, g.cw)) && LevelsIn(g.objs, g.objs[t].(stack := s))
    ensures MayStore(g, t, g.objs[t].(stack := s))
  {
    hide LevelsIn, Base, Lists, Fin, PhaseOk;
    assert RefsIn(g.objs, g.objs[t], Alive(g.marked, g.cw));
  }

  lemma ThreadGray(g: G, t: Ref)
    requires Inv(g) && t in g.objs && g.objs[t].Thread? && t in g.marked
    ensures !g.marked[t].color.Black?
  {
  }

  /** A stack that does not shrink keeps its open upvalues in range. */
  lemma LevelsGrow(g: G, t: Ref, s: seq<Value>)
    requires Inv(g) && t in g.objs && g.objs[t].Thread? && |s| >= |g.objs[t].stack|
    ensures LevelsIn(g.objs, g.objs[t].(stack := s))
  {
    assert ThreadOk(g.objs, t);
  }

  /** A write through an open upvalue goes to a slot of its thread, even if that thread is dead by now. */
  lemma PokeInv(g: G, u: Ref, v: Value)
    requires Inv(g) && u in g.objs && u in g.marked && g.objs[u].IsOpen() && !IsDead(g.marked[u], g.cw) &&
      Ok(v, Alive(g.marked, g.cw))
    ensures var t, level := g.objs[u].cell.thread, g.objs[u].cell.level;
      && t in g.objs && g.objs[t].Thread? && level < |g.objs[t].stack|
      && Inv(Stored(g, t, g.objs[t].(stack := g.objs[t].stack[level := v])))
  {
    hide Inv, LevelsIn, Lists, Sound, Base, Fin, PhaseOk, Alive, AllOk, ObjLive;
    InvParts(g);
    var t, level := g.objs[u].cell.thread, g.objs[u].cell.level;
    UpPlace(g, u);
    var s := g.objs[t].stack[level := v];
    var o' := g.objs[t].(stack := s);
    LevelsGrow(g, t, s);
    if IsDead(g.marked[t], g.cw) {
      MarkedPhase(g, t);
      PokeDead(g, t, level, v);
      StoreLists(g, t, o');
      StorePhaseOk(g, t, o');
      CoreInv(Stored(g, t, o'));
    } else {
      SlotsLive(g, t, level, v);
      StackInv(g, t, s);
    }
  }

  lemma UpPlace(g: G, u: Ref)
    requires Inv(g) && u in g.objs && g.objs[u].IsOpen()
    ensures var t, level := g.objs[u].cell.thread, g.objs[u].cell.level;
      t in g.objs && t in g.marked && g.objs[t].Thread? && level < |g.objs[t].stack|
  {
    assert Owner(g.objs, g.rootgc, g.strt, g.tm, u);
    assert ThreadOk(g.objs, g.objs[u].cell.thread);
  }

  lemma MarkedPhase(g: G, t: Ref)
    requires Inv(g) && t in g.marked && IsDead(g.marked[t], g.cw)
    ensures g.phase != Propagate
  {
  }

  lemma SlotsLive(g: G, t: Ref, level: nat, v: Value)
    requires Inv(g) && t in g.objs && t in g.marked && g.objs[t].Thread? && !IsDead(g.marked[t], g.cw) &&
      level < |g.objs[t].stack|
    requires Ok(v, Alive(g.marked, g.cw))
    ensures AllOk(g.objs[t].stack[level := v], Alive(g.marked, g.cw)) && AllOk(g.objs[t].stack, Alive(g.marked, g.cw))
  {
    assert RefsIn(g.objs, g.objs[t], Alive(g.marked, g.cw));
  }

  lemma PokeDead(g: G, t: Ref, level: nat, v: Value)
    requires Base(g) && Sound(g) && Fin(g) && t in g.objs && t in g.marked && g.objs[t].Thread? &&
      IsDead(g.marked[t], g.cw)
    requires level < |g.objs[t].stack| && Ok(v, Alive(g.marked, g.cw))
    ensures var g' := Stored(g, t, g.objs[t].(stack := g.objs[t].stack[level := v])); Base(g') && Sound(g') && Fin(g')
  {
    var g' := Stored(g, t, g.objs[t].(stack := g.objs[t].stack[level := v]));
    var A := Alive(g.marked, g.cw);
    forall x | x in g'.objs && x in A ensures RefsIn(g'.objs, g'.objs[x], A) { assert RefsIn(g.objs, g.objs[x], A); }
  }

  // ---- the barrier at work ----

  lemma EditReady(g: G, r: Ref, e: Edit)
    requires Inv(g) && r in g.objs && r in Alive(g.marked, g.cw) && !g.objs[r].Str? && !g.objs[r].IsOpen()
    requires Ok(Newcomer(e), Alive(g.marked, g.cw))
    ensures r in g.marked && !IsDead(g.marked[r], g.cw)
    ensures Adds(g.objs[r], Edited(g.objs[r], e), KeyFor(g.objs[r], e), Newcomer(e)) &&
      LevelsIn(g.objs, Edited(g.objs[r], e))
    ensures Newcomer(e).Gc? ==> Newcomer(e).ref in g.objs && Newcomer(e).ref in g.marked
  {
    hide Inv, Adds, Edited, KeyFor, Newcomer, Alive;
    AliveKnown(g, r);
    EditAdds(g.objs[r], e);
    EditLevels(g, r, Edited(g.objs[r], e));
    if Newcomer(e).Gc? { AliveKnown(g, Newcomer(e).ref); }
  }

  lemma EditLevels(g: G, r: Ref, o': Obj)
    requires Inv(g) && r in g.objs && (o'.Thread? <==> g.objs[r].Thread?)
    requires o'.Thread? ==> o'.stack == g.objs[r].stack && o'.openupval == g.objs[r].openupval
    ensures LevelsIn(g.objs, o')
  {
    if o'.Thread? { assert ThreadOk(g.objs, r); }
  }

  /** luaC_barrierback on a black table, after the store. */
  lemma BackEdit(g: G, r: Ref, o': Obj, k: Value, v: Value)
    requires Inv(g) && r in g.objs && g.objs[r].Table? && r in g.marked && g.marked[r].color.Black?
    requires Adds(g.objs[r], o', k, v) && LevelsIn(g.objs, o') && Ok(k, Alive(g.marked, g.cw)) &&
      Ok(v, Alive(g.marked, g.cw))
    ensures Inv(Regrayed(Stored(g, r, o'), r)) && Alive(Regrayed(g, r).marked, g.cw) == Alive(g.marked, g.cw)
  {
    hide Inv, Adds, MayStore, LevelsIn, Alive;
    AddsMay(g, r, o', k, v);
    AddsTable(g.objs[r], o', k, v);
    RegrayAlive(g, r);
    if g.phase == Propagate {
      StoreBack(g, r, o');
    } else {
      StorePhase(g, r, o');
      RegrayInv(Stored(g, r, o'), r);
    }
  }

  lemma AddsTable(o: Obj, o': Obj, k: Value, v: Value)
    requires Adds(o, o', k, v)
    ensures o.Table? <==> o'.Table?
  {
  }

  /** luaC_barrierf outside the marking phase: the object is made white. */
  lemma WhiteEdit(g: G, r: Ref, o': Obj, k: Value, v: Value)
    requires Inv(g) && g.phase != Propagate && r in g.objs && r in g.marked && g.marked[r].color.Black?
    requires Adds(g.objs[r], o', k, v) && LevelsIn(g.objs, o') && Ok(k, Alive(g.marked, g.cw)) &&
      Ok(v, Alive(g.marked, g.cw))
    ensures Inv(Kept(Stored(g, r, o'), r)) && Alive(Kept(g, r).marked, g.cw) == Alive(g.marked, g.cw)
  {
    hide Inv, Adds, MayStore, LevelsIn, Alive;
    AddsMay(g, r, o', k, v);
    StorePhase(g, r, o');
    KeepInv(Stored(g, r, o'), r);
    KeptAlive(g, r);
  }

  lemma KeptAlive(g: G, r: Ref)
    requires r in g.marked && !IsDead(g.marked[r], g.cw)
    ensures Alive(Kept(g, r).marked, g.cw) == Alive(g.marked, g.cw)
  {
    assert Alive(Kept(g, r).marked, g.cw) == Alive(g.marked, g.cw);
  }

  lemma GrowsAlive(m: Marks, m': Marks, K: set<Ref>, cw: bool)
    requires Grows(m, m', K)
    ensures Alive(m, cw) <= Alive(m', cw)
  {
  }
}
