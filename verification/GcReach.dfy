/** What strong references reach: the least set that holds some starting objects and is closed under them. */
module GcReach {
  import opened Common
  import opened GcHeap

  /** S holds the base and, but for the members of `cut`, whatever its members refer to strongly. */
  ghost predicate Bounds(objs: Heap, base: set<Ref>, cut: set<Ref>, S: set<Ref>) {
    base <= S && StrongBut(objs, S, cut)
  }

  /** There is a chain of strong references from the base to r that leaves no member of `cut`. */
  ghost predicate Reached(objs: Heap, base: set<Ref>, cut: set<Ref>, r: Ref) {
    forall S: set<Ref> :: Bounds(objs, base, cut, S) ==> r in S
  }

  ghost function Closure(objs: Heap, base: set<Ref>, cut: set<Ref>): set<Ref> {
    set r | r in objs && Reached(objs, base, cut, r)
  }

  ghost predicate ReachedValue(objs: Heap, base: set<Ref>, cut: set<Ref>, v: Value) {
    Ok(v, objs.Keys) && (v.Gc? ==> Reached(objs, base, cut, v.ref))
  }

  lemma BoundsBase(objs: Heap, base: set<Ref>, cut: set<Ref>, S: set<Ref>)
    requires Bounds(objs, base, cut, S)
    ensures base <= S
  {
  }

  lemma ReachedOk(objs: Heap, base: set<Ref>, cut: set<Ref>, v: Value)
    requires ReachedValue(objs, base, cut, v)
    ensures Ok(v, Closure(objs, base, cut))
  {
  }

  /** The closure is a bound, and the least one. */
  lemma ClosureLeast(objs: Heap, base: set<Ref>, cut: set<Ref>)
    requires LiveClosed(objs, objs.Keys) && base <= objs.Keys
    ensures Bounds(objs, base, cut, Closure(objs, base, cut))
    ensures forall S: set<Ref> :: Bounds(objs, base, cut, S) ==> Closure(objs, base, cut) <= S
  {
    hide StrongIn, RefsIn;
    forall r | r in objs && r in Closure(objs, base, cut) && r !in cut
      ensures StrongIn(objs, objs[r], Closure(objs, base, cut))
    {
      assert RefsIn(objs, objs[r], objs.Keys);
      ClosedAt(objs, base, cut, r);
    }
  }

  lemma ClosedAt(objs: Heap, base: set<Ref>, cut: set<Ref>, r: Ref)
    requires r in objs && r in Closure(objs, base, cut) && r !in cut && RefsIn(objs, objs[r], objs.Keys)
    ensures StrongIn(objs, objs[r], Closure(objs, base, cut))
  {
    var o := objs[r];
    assert InAll(objs, base, cut, o) by {
      forall S: set<Ref> | Bounds(objs, base, cut, S) ensures StrongIn(objs, o, S) { assert r in S; }
    }
    hide Bounds, Closure;
    if o.Table? { ClosedTable(objs, base, cut, o); } else { ClosedPlain(objs, base, cut, o); }
  }

  ghost predicate InAll(objs: Heap, base: set<Ref>, cut: set<Ref>, o: Obj) {
    forall S: set<Ref> :: Bounds(objs, base, cut, S) ==> StrongIn(objs, o, S)
  }

  lemma ClosedPlain(objs: Heap, base: set<Ref>, cut: set<Ref>, o: Obj)
    requires !o.Table? && RefsIn(objs, o, objs.Keys) && InAll(objs, base, cut, o)
    ensures RefsIn(objs, o, Closure(objs, base, cut))
  {
    hide Bounds, Closure;
    assert forall S: set<Ref> :: Bounds(objs, base, cut, S) ==> RefsIn(objs, o, S);
    match o {
      case Str(_) =>
      case Udata(mt, env) =>
        if mt.Some? { ReachedOk(objs, base, cut, Gc(mt.value)); }
        ReachedOk(objs, base, cut, Gc(env));
      case UpVal(cell) =>
        ReachedOk(objs, base, cut, UpValue(objs, cell));
      case CClosure(env, upvalue) =>
        ReachedOk(objs, base, cut, Gc(env));
        ClosedValues(objs, base, cut, upvalue);
      case LClosure(env, p, upvals) =>
        ReachedOk(objs, base, cut, Gc(env));
        ReachedOk(objs, base, cut, Gc(p));
        forall i | 0 <= i < |upvals| ensures upvals[i] in Closure(objs, base,
          cut) { ReachedOk(objs, base, cut, Gc(upvals[i])); }
      case Thread(gt, stack, _) =>
        ReachedOk(objs, base, cut, gt);
        ClosedValues(objs, base, cut, stack);
      case Proto(source, k, names, protos) =>
        if source.Some? { ReachedOk(objs, base, cut, Gc(source.value)); }
        ClosedValues(objs, base, cut, k);
        forall i | 0 <= i < |names| ensures names[i] in Closure(objs, base,
          cut) { ReachedOk(objs, base, cut, Gc(names[i])); }
        forall i | 0 <= i < |protos| ensures protos[i] in Closure(objs, base,
          cut) { ReachedOk(objs, base, cut, Gc(protos[i])); }
    }
  }

  lemma ClosedValues(objs: Heap, base: set<Ref>, cut: set<Ref>, vs: seq<Value>)
    requires AllOk(vs, objs.Keys) && forall S: set<Ref> :: Bounds(objs, base, cut, S) ==> AllOk(vs, S)
    ensures AllOk(vs, Closure(objs, base, cut))
  {
    hide Bounds, Closure;
    forall i | 0 <= i < |vs| ensures Ok(vs[i], Closure(objs, base, cut)) { ReachedOk(objs, base, cut, vs[i]); }
  }

  lemma ClosedTable(objs: Heap, base: set<Ref>, cut: set<Ref>, o: Obj)
    requires o.Table? && RefsIn(objs, o, objs.Keys) && InAll(objs, base, cut, o)
    ensures StrongIn(objs, o, Closure(objs, base, cut))
  {
    hide Bounds, Closure;
    var m, C := ModeOf(objs, o.mt), Closure(objs, base, cut);
    if o.mt.Some? { ReachedOk(objs, base, cut, Gc(o.mt.value)); }
    forall i | 0 <= i < |o.arr| ensures (!m.v ==> Ok(o.arr[i], C)) && StrOk(objs, o.arr[i], C)
    {
      if !m.v || (o.arr[i].Gc? && o.arr[i].ref in objs && objs[o.arr[i].ref].Str?) { ReachedOk(objs, base, cut,
        o.arr[i]); }
    }
    forall i | 0 <= i < |o.node| && !o.node[i].val.Nil?
      ensures NodeCovered(o.node[i], m.k, m.v, C) && NodeStrOk(objs, o.node[i], C)
    {
      ClosedNode(objs, base, cut, o, i);
    }
  }

  lemma ClosedNode(objs: Heap, base: set<Ref>, cut: set<Ref>, o: Obj, i: nat)
    requires o.Table? && RefsIn(objs, o, objs.Keys) && InAll(objs, base, cut, o) && i < |o.node| && !o.node[i].val.Nil?
    ensures var m := ModeOf(objs, o.mt);
      NodeCovered(o.node[i], m.k, m.v, Closure(objs, base, cut)) && NodeStrOk(objs, o.node[i], Closure(objs, base, cut))
  {
    hide Bounds, Closure;
    var m := ModeOf(objs, o.mt);
    var n := o.node[i];
    assert NodeLive(n, objs.Keys);
    assert forall S: set<Ref> :: Bounds(objs, base, cut, S) ==> NodeCovered(n, m.k, m.v, S) && NodeStrOk(objs, n, S);
    if !m.k || (n.key.v.Gc? && n.key.v.ref in objs && objs[n.key.v.ref].Str?) { ReachedOk(objs, base, cut, n.key.v); }
    if !m.v || (n.val.Gc? && n.val.ref in objs && objs[n.val.ref].Str?) { ReachedOk(objs, base, cut, n.val); }
  }
}
