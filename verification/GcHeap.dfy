/**
 The heap the collector works on: object kinds with their references, the colour part of the
 header's `marked` byte, and the predicates that say which references an object holds.
 */
module GcHeap {
  import opened Common

  type Ref = nat

  /** A tagged value; `Plain` stands for every non-nil value that is not collectable. */
  datatype Value = Nil | Plain(n: int) | Gc(ref: Ref)

  /** A hash key; `Dead` is the LUA_TDEADKEY tag that replaces the tag of a removed collectable key. */
  datatype Key = Live(v: Value) | Dead(ref: Ref)
  datatype Node = Node(key: Key, val: Value)

  datatype Mode = Mode(k: bool, v: bool)

  /** Where an upvalue's `v` points: into a stack, or to its own `u.value`. */
  datatype Cell = Open(thread: Ref, level: nat) | Closed(val: Value)

  /**
   `mode` and `gc` of a table are what its own fields "__mode" and "__gc" hold, read when the table
   serves as a metatable. A thread's `stack` is the part below its `top`.
   */
  datatype Obj =
    | Str(bucket: nat)
    | Udata(mt: Option<Ref>, env: Ref)
    | UpVal(cell: Cell)
    | CClosure(env: Ref, upvalue: seq<Value>)
    | LClosure(env: Ref, p: Ref, upvals: seq<Ref>)
    | Table(mt: Option<Ref>, mode: Mode, gc: bool, arr: seq<Value>, node: seq<Node>)
    | Thread(gt: Value, stack: seq<Value>, openupval: seq<Ref>)
    | Proto(source: Option<Ref>, k: seq<Value>, names: seq<Ref>, protos: seq<Ref>)
  {
    predicate IsOpen() { UpVal? && cell.Open? }
    predicate Traversable() { CClosure? || LClosure? || Table? || Thread? || Proto? }
  }

  /** The three colour bits of a header; `w` tells which of the two whites. */
  datatype Color = White(w: bool) | Gray | Black

  /** bit3: finalized (userdata) or weak keys (tables); bit4: weak values; fixed: FIXEDBIT. */
  datatype Mark = Mark(color: Color, bit3: bool, bit4: bool, fixed: bool)

  type Heap = map<Ref, Obj>
  type Marks = map<Ref, Mark>

  // ---- reading the heap ----

  function SlotValue(objs: Heap, thread: Ref, level: nat): Value {
    if thread in objs && objs[thread].Thread? && level < |objs[thread].stack|
    then objs[thread].stack[level] else Nil
  }

  /** The value an upvalue gives to its closures (`*uv->v`). */
  function UpValue(objs: Heap, c: Cell): Value {
    match c
    case Open(thread, level) => SlotValue(objs, thread, level)
    case Closed(v) => v
  }

  /** gfasttm(g, mt, TM_MODE) read as the two weak flags. */
  function ModeOf(objs: Heap, mt: Option<Ref>): Mode {
    if mt.Some? && mt.value in objs && objs[mt.value].Table? then objs[mt.value].mode
    else Mode(false, false)
  }

  /** fasttm(L, mt, TM_GC) != NULL */
  predicate HasGc(objs: Heap, mt: Option<Ref>) {
    mt.Some? && mt.value in objs && objs[mt.value].Table? && objs[mt.value].gc
  }

  // ---- references held by an object, as "all of them lie in S" ----

  predicate Ok(v: Value, S: set<Ref>) { v.Gc? ==> v.ref in S }
  predicate OptOk(o: Option<Ref>, S: set<Ref>) { o.Some? ==> o.value in S }
  predicate AllOk(vs: seq<Value>, S: set<Ref>) { forall i :: 0 <= i < |vs| ==> Ok(vs[i], S) }
  predicate MtIn(mt: seq<Option<Ref>>, S: set<Ref>) { forall i :: 0 <= i < |mt| ==> OptOk(mt[i], S) }
  predicate RefsOk(rs: seq<Ref>, S: set<Ref>) { forall i :: 0 <= i < |rs| ==> rs[i] in S }
  predicate KeyOk(k: Key, S: set<Ref>) { k.Live? ==> Ok(k.v, S) }

  /** An entry whose value is nil holds nothing: its key is never followed. Only such keys are dead. */
  predicate NodeLive(n: Node, S: set<Ref>) { !n.val.Nil? ==> n.key.Live? && Ok(n.key.v, S) && Ok(n.val, S) }

  /** What a traversal that skips keys (wk) or values (wv) has marked. */
  predicate NodeCovered(n: Node, wk: bool, wv: bool, S: set<Ref>) {
    (!wk ==> KeyOk(n.key, S)) && (!wv ==> Ok(n.val, S))
  }

  predicate ObjLive(o: Obj, S: set<Ref>) {
    match o
    case Str(_) => true
    case Udata(mt, env) => OptOk(mt, S) && env in S
    case UpVal(cell) => cell.Closed? ==> Ok(cell.val, S)
    case CClosure(env, upvalue) => env in S && AllOk(upvalue, S)
    case LClosure(env, p, upvals) => env in S && p in S && RefsOk(upvals, S)
    case Table(mt, _, _, arr, node) =>
      OptOk(mt, S) && AllOk(arr, S) && forall i :: 0 <= i < |node| ==> NodeLive(node[i], S)
    case Thread(gt, stack, _) => Ok(gt, S) && AllOk(stack, S)
    case Proto(source, k, names, protos) =>
      OptOk(source, S) && AllOk(k, S) && RefsOk(names, S) && RefsOk(protos, S)
  }

  predicate UpLive(objs: Heap, o: Obj, S: set<Ref>) {
    o.IsOpen() ==> Ok(SlotValue(objs, o.cell.thread, o.cell.level), S)
  }

  /** Every reference the object holds, weak ones included, lies in S. */
  predicate RefsIn(objs: Heap, o: Obj, S: set<Ref>) { ObjLive(o, S) && UpLive(objs, o, S) }

  predicate TableCovered(o: Obj, wk: bool, wv: bool, S: set<Ref>)
    requires o.Table?
  {
    && OptOk(o.mt, S)
    && (!wv ==> AllOk(o.arr, S))
    && (forall i :: 0 <= i < |o.node| ==> NodeCovered(o.node[i], wk, wv, S))
  }

  /** The references a traversal marks lie in S; a gray table is read by its weak bits. */
  predicate Covered(objs: Heap, o: Obj, m: Mark, S: set<Ref>) {
    if o.Table? then TableCovered(o, m.color.Gray? && m.bit3, m.color.Gray? && m.bit4, S)
    else RefsIn(objs, o, S)
  }

  /** S is closed under every reference of its members. */
  ghost predicate LiveClosed(objs: Heap, S: set<Ref>) {
    forall r :: r in objs && r in S ==> RefsIn(objs, objs[r], S)
  }

  /** Strings count as values: a weak table keeps them. */
  predicate StrOk(objs: Heap, v: Value, S: set<Ref>) { v.Gc? && v.ref in objs && objs[v.ref].Str? ==> v.ref in S }

  predicate NodeStrOk(objs: Heap, n: Node, S: set<Ref>) {
    (n.key.Live? ==> StrOk(objs, n.key.v, S)) && StrOk(objs, n.val, S)
  }

  /** The references that keep things alive: those of a weak table are its strong halves and its strings. */
  predicate StrongIn(objs: Heap, o: Obj, S: set<Ref>) {
    if o.Table? then
      var m := ModeOf(objs, o.mt);
      && OptOk(o.mt, S)
      && (!m.v ==> AllOk(o.arr, S))
      && (forall i :: 0 <= i < |o.arr| ==> StrOk(objs, o.arr[i], S))
      && (forall i :: 0 <= i < |o.node| && !o.node[i].val.Nil? ==>
          NodeCovered(o.node[i], m.k, m.v, S) && NodeStrOk(objs, o.node[i], S))
    else RefsIn(objs, o, S)
  }

  /** S is closed under strong references. */
  ghost predicate StrongClosed(objs: Heap, S: set<Ref>) {
    forall r :: r in objs && r in S ==> StrongIn(objs, objs[r], S)
  }

  /** ... but for the members of `cut`. */
  ghost predicate StrongBut(objs: Heap, S: set<Ref>, cut: set<Ref>) {
    forall r :: r in objs && r in S && r !in cut ==> StrongIn(objs, objs[r], S)
  }

  // ---- colours ----

  function NonWhite(marked: Marks): set<Ref> {
    set r | r in marked && !marked[r].color.White?
  }

  function Whites(marked: Marks): set<Ref> {
    set r | r in marked && marked[r].color.White?
  }

  /** isdead: of the white that is not current. */
  predicate IsDead(m: Mark, cw: bool) { m.color == White(!cw) }

  function Alive(marked: Marks, cw: bool): set<Ref> {
    set r | r in marked && !IsDead(marked[r], cw)
  }

  /** Some white objects became gray or black; nothing else changed. */
  ghost predicate OnlyMarks(m: Marks, m': Marks) {
    m.Keys == m'.Keys &&
    forall r :: r in m ==>
      m'[r] == m[r] || (m[r].color.White? && !m'[r].color.White? && m'[r] == m[r].(color := m'[r].color))
  }

  lemma LiveMonotone(o: Obj, S: set<Ref>, S': set<Ref>)
    requires ObjLive(o, S) && S <= S'
    ensures ObjLive(o, S')
  {
  }

  lemma CoveredMonotone(objs: Heap, o: Obj, m: Mark, S: set<Ref>, S': set<Ref>)
    requires Covered(objs, o, m, S) && S <= S'
    ensures Covered(objs, o, m, S')
  {
  }
}
