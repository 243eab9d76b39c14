/** Facts about whole collections and whole runs. */
module GcRun {
  import opened Common
  import opened GcHeap
  import opened GcInv
  import opened GcLists
  import opened GcWeak
  import opened GcReach
  import opened GcState
  import opened GcSweep
  import opened GcFinal
  import opened GcMutator
  import opened GcAlloc
  import opened GcUpval
  import opened GcOps

  // ---- what a program can reach ----

  /** The value found by following a path of fields from v. */
  function Walk(objs: Heap, v: Value, path: seq<Selector>): Value
    decreases |path|
  {
    if path == [] || !v.Gc? || v.ref !in objs then v else Walk(objs, Select(objs, objs[v.ref], path[0]), path[1..])
  }

  /** The places a program starts from: its stack, the registry, the main thread, the basic metatables. */
  ghost predicate IsRoot(g: G, v: Value) {
    || (exists i: nat :: v == SlotValue(g.objs, g.running, i))
    || v == Gc(g.registry) || v == Gc(g.mainthread)
    || (exists k :: 0 <= k < |g.mt| && g.mt[k].Some? && v == Gc(g.mt[k].value))
  }

  /**
   Safety: whatever the collector is doing, every path of fields from a root, through weak tables,
   closed and open upvalues and other threads' stacks, ends at a value that is no object or at an
   object that is allocated and that the sweep will not free.
   */
  lemma ReachableSafe(g: G, v: Value, path: seq<Selector>)
    requires Inv(g) && IsRoot(g, v)
    ensures var w := Walk(g.objs, v, path); w.Gc? ==>
      w.ref in g.objs && w.ref in g.marked && !IsDead(g.marked[w.ref], g.cw)
  {
    hide Inv, Alive;
    RootLive(g, v);
    WalkLive(g, v, path);
    var w := Walk(g.objs, v, path);
    if w.Gc? { AliveKnown(g, w.ref); }
  }

  /** What a program can reach from its roots, over every path, is allocated and stays so. */
  ghost predicate Safe(g: G) {
    forall v, path {:trigger Walk(g.objs, v, path)} :: IsRoot(g, v) ==>
      var w := Walk(g.objs, v, path); w.Gc? ==> w.ref in g.objs && w.ref in g.marked && !IsDead(g.marked[w.ref], g.cw)
  }

  lemma AllSafe(g: G)
    requires Inv(g)
    ensures Safe(g) && NoDup(g.called)
  {
    hide Inv, Walk, IsRoot;
    forall v, path | IsRoot(g, v)
      ensures var w := Walk(g.objs, v, path); w.Gc? ==>
        w.ref in g.objs && w.ref in g.marked && !IsDead(g.marked[w.ref], g.cw)
    {
      ReachableSafe(g, v, path);
    }
    CalledOnce(g);
  }

  /** No finalizer is called twice. */
  lemma CalledOnce(g: G)
    requires Inv(g)
    ensures NoDup(g.called)
  {
  }

  /** What one step of the collector leaves of the objects' contents, phase by phase. */
  ghost predicate StepKeeps(g: G, g': G) {
    match g.phase
    case Pause => g'.objs == g.objs
    case Propagate =>
      if g'.phase == Propagate then HeapKept(g.objs, g'.objs) &&
        BlackWeak(g'.objs, g'.marked) <= BlackWeak(g.objs, g.marked)
      else EntriesLeft(g.objs, BlackWeak(g.objs, g.marked), g'.objs, g'.marked, Alive(g'.marked, g'.cw), g'.weak)
    case SweepString => Preserved(g, g')
    case Sweep => Preserved(g, g')
    case Finalize =>
      if g.tm == [] then g' == g.(phase := Pause) else FinalizeReady(g) && g' == Finalize1(g)
  }

  lemma RestNone(g: G)
    requires Inv(g) && (g.phase.Pause? || g.phase.Finalize?)
    ensures BlackWeak(g.objs, g.marked) == {}
  {
    hide Lists, Base, Sound, Fin, RestOk, BlackWeak;
    RestTables(g);
  }

  lemma RootLive(g: G, v: Value)
    requires Inv(g) && IsRoot(g, v)
    ensures Ok(v, Alive(g.marked, g.cw))
  {
    hide Inv, Alive, SlotValue;
    RootsLive(g, 0);
    if i: nat :| v == SlotValue(g.objs, g.running, i) {
      SlotLive(g, i);
    } else if k :| 0 <= k < |g.mt| && g.mt[k].Some? && v == Gc(g.mt[k].value) {
      RootsLive(g, k);
    }
  }

  lemma {:induction false} WalkLive(g: G, v: Value, path: seq<Selector>)
    requires Inv(g) && Ok(v, Alive(g.marked, g.cw))
    ensures Ok(Walk(g.objs, v, path), Alive(g.marked, g.cw))
    decreases |path|
  {
    hide Inv, Alive, Select;
    if path != [] && v.Gc? && v.ref in g.objs {
      SelectLive(g, v.ref, path[0]);
      WalkLive(g, Select(g.objs, g.objs[v.ref], path[0]), path[1..]);
    }
  }

  // ---- the program's moves ----

  /** How OP_CLOSURE fills one upvalue: the enclosing function's stack slot, one of its upvalues, or a fresh closed one. */
  datatype Capture = OfStack(level: nat) | OfParent(i: nat) | Fresh

  /**
   One move of the running program, or of the collector. A move names objects; it is made only if the
   program holds them, that is, has them on its stack.
   */
  datatype Action =
    | PushNil
    | PushPlain(n: int)
    | Copy(i: nat)
    | Assign(i: nat, j: nat)
    | SetTop(top: nat)
    | Read(r: Ref, sel: Selector)
    | ReadRegistry
    | ReadMt(k: nat)
    | Write(r: Ref, e: Edit)
    | WriteUp(r: Ref, i: nat, v: Value)
    | New(o: Obj)
    | NewString(b: nat, i: nat)
    | NewFunction(env: Ref, p: Ref, parent: Ref, caps: seq<Capture>)
    | CloseUps(level: nat)
    | Send(t: Ref, v: Value)
    | Resume(t: Ref)
    | Back
    | SetMt(k: nat, mt: Option<Ref>)
    | StepGc
    | CollectGc

  /** A parent's upvalue is shared, not copied. */
  predicate Captures(objs: Heap, parent: Ref, c: Capture, u: Ref) {
    c.OfParent? ==> parent in objs && objs[parent].LClosure? && c.i < |objs[parent].upvals| && u == objs[parent].upvals[c.i]
  }

  /** A captured stack slot is named by the upvalue. */
  predicate CapturedAs(objs: Heap, running: Ref, c: Capture, u: Ref) {
    u in objs && (c.OfStack? ==> objs[u] == UpVal(Open(running, c.level)))
  }

  /** The variable exists. */
  predicate CanCapture(objs: Heap, running: Ref, parent: Ref, c: Capture) {
    match c
    case OfStack(level) => running in objs && objs[running].Thread? && level < |objs[running].stack|
    case OfParent(i) => parent in objs && objs[parent].LClosure? && i < |objs[parent].upvals|
    case Fresh => true
  }

  /** The variables captured so far. */
  ghost predicate CapturedAll(o0: Heap, o: Heap, running: Ref, parent: Ref, caps: seq<Capture>, ups: seq<Ref>) {
    |ups| <= |caps| && forall j :: 0 <= j < |ups| ==>
      Captures(o0, parent, caps[j], ups[j]) && CapturedAs(o, running, caps[j], ups[j]) &&
        CanCapture(o0, running, parent, caps[j])
  }

  /** But for the running thread, which keeps its stack, what was there is still there. */
  ghost predicate Agree(o: Heap, o': Heap, running: Ref) {
    && running in o && running in o' && o[running].Thread? && o'[running].Thread? &&
      o'[running].stack == o[running].stack
    && forall x :: x in o && x != running ==> x in o' && o'[x] == o[x]
  }

  lemma CaptureMore(o0: Heap, o: Heap, o': Heap, running: Ref, parent: Ref, caps: seq<Capture>, ups: seq<Ref>, u: Ref)
    requires Agree(o0, o, running) && Agree(o, o', running) && CapturedAll(o0, o, running, parent, caps, ups) &&
      |ups| < |caps|
    requires Captures(o, parent, caps[|ups|], u) && CapturedAs(o', running, caps[|ups|], u) &&
      CanCapture(o, running, parent, caps[|ups|])
    requires parent in o0
    ensures Agree(o0, o', running) && CapturedAll(o0, o', running, parent, caps, ups + [u])
  {
    CannotCapture(o0, o, running, parent, caps[|ups|]);
  }

  lemma CannotCapture(o0: Heap, o: Heap, running: Ref, parent: Ref, c: Capture)
    requires Agree(o0, o, running) && parent in o0
    ensures CanCapture(o0, running, parent, c) <==> CanCapture(o, running, parent, c)
    ensures forall u :: Captures(o0, parent, c, u) <==> Captures(o, parent, c, u)
  {
  }

  lemma AgreeSame(o: Heap, running: Ref, parent: Ref, caps: seq<Capture>)
    requires running in o && o[running].Thread?
    ensures Agree(o, o, running) && CapturedAll(o, o, running, parent, caps, [])
  {
  }

  lemma CapturedEnd(o0: Heap, o: Heap, running: Ref, parent: Ref, caps: seq<Capture>, ups: seq<Ref>)
    requires CapturedAll(o0, o, running, parent, caps, ups) && |ups| == |caps|
    ensures forall j :: 0 <= j < |caps| ==> Captures(o0, parent, caps[j], ups[j])
    ensures forall j :: 0 <= j < |caps| ==> CapturedAs(o, running, caps[j], ups[j])
    ensures forall j :: 0 <= j < |caps| ==> CanCapture(o0, running, parent, caps[j])
  {
  }

  /** The objects on a stack. */
  function Held(s: seq<Value>): set<Ref> {
    set i | 0 <= i < |s| && s[i].Gc? :: s[i].ref
  }

  // ---- what each move does ----

  ghost predicate OnThread(g: G) { g.running in g.objs && g.objs[g.running].Thread? }

  ghost function Pushed(g: G, v: Value): G
    requires OnThread(g)
  {
    g.(objs := Push(g.objs, g.running, v))
  }

  function TopTo(s: seq<Value>, n: nat): seq<Value> {
    if n <= |s| then s[..n] else s + seq(n - |s|, i => Nil)
  }

  /** What a move pushes on the stack, if anything. */
  function Fetched(g: G, a: Action): Option<Value> {
    if g.running !in g.objs || !g.objs[g.running].Thread? then None else
    var s := g.objs[g.running].stack;
    match a
    case PushNil => Some(Nil)
    case PushPlain(n) => Some(Plain(n))
    case Copy(i) => if i < |s| then Some(s[i]) else None
    case Read(r, sel) => if r in Held(s) && r in g.objs then Some(Select(g.objs, g.objs[r], sel)) else None
    case ReadRegistry => Some(Gc(g.registry))
    case ReadMt(k) => if k < |g.mt| && g.mt[k].Some? then Some(Gc(g.mt[k].value)) else None
    case _ => None
  }

  function Assigned(s: seq<Value>, i: nat, j: nat): seq<Value> { if i < |s| && j < |s| then s[i := s[j]] else s }

  /** What a program holds, and what the moves on its stack do to the slots. */
  lemma StackLaws(s: seq<Value>, n: nat, i: nat, j: nat, r: Ref)
    ensures r in Held(s) <==> Gc(r) in s
    ensures |TopTo(s, n)| == n && forall k :: 0 <= k < n ==> TopTo(s, n)[k] == if k < |s| then s[k] else Nil
    ensures |Assigned(s, i, j)| == |s|
    ensures i < |s| && j < |s| ==> Assigned(s, i, j)[i] == s[j]
    ensures forall k :: 0 <= k < |s| && (k != i || j >= |s|) ==> Assigned(s, i, j)[k] == s[k]
  {
  }

  /** What the moves that read push, said without the stack being looked through. */
  lemma FetchLaws(g: G, a: Action)
    requires OnThread(g)
    ensures a.PushNil? ==> Fetched(g, a) == Some(Nil)
    ensures a.PushPlain? ==> Fetched(g, a) == Some(Plain(a.n))
    ensures a.Copy? ==> (a.i < |g.objs[g.running].stack| <==> Fetched(g, a) == Some(SlotValue(g.objs, g.running, a.i)))
    ensures a.Read? && Gc(a.r) in g.objs[g.running].stack && a.r in g.objs ==>
      Fetched(g, a) == Some(Select(g.objs, g.objs[a.r], a.sel))
    ensures a.Read? && Gc(a.r) !in g.objs[g.running].stack ==> Fetched(g, a) == None
    ensures a.ReadRegistry? ==> Fetched(g, a) == Some(Gc(g.registry))
    ensures a.ReadMt? ==> (a.k < |g.mt| && g.mt[a.k].Some? <==> Fetched(g, a).Some?)
    ensures a.ReadMt? && Fetched(g, a).Some? ==> Fetched(g, a).value == Gc(g.mt[a.k].value)
  {
  }

  /** The moves that only change a stack. */
  ghost predicate StackEffect(g: G, a: Action, g': G) {
    OnThread(g) &&
    if a.Assign?
    then g' == g.(objs := g.objs[g.running := g.objs[g.running].(stack := Assigned(g.objs[g.running].stack, a.i, a.j))])
    else var v := Fetched(g, a); g' == if v.Some? then Pushed(g, v.value) else g
  }

  ghost predicate SendEffect(g: G, t: Ref, v: Value, g': G) {
    OnThread(g) &&
    var h := Held(g.objs[g.running].stack);
    g' == if t in h && t in g.objs && g.objs[t].Thread? && Ok(v, h) then g.(objs := Push(g.objs, t, v)) else g
  }

  /** Resuming a coroutine, coming back from it, and lua_setmetatable for a basic type. */
  ghost predicate RootEffect(g: G, a: Action, g': G) {
    OnThread(g) &&
    var h := Held(g.objs[g.running].stack);
    match a
    case Resume(t) => g' == if t in h && t in g.objs && g.objs[t].Thread? then g.(running := t) else g
    case Back => g' == g.(running := g.mainthread)
    case SetMt(k, o) => g' == if k < |g.mt| && OptOk(o, h) then g.(mt := g.mt[k := o]) else g
    case _ => g' == g
  }

  /** Neither the collector's phase nor the program's place has changed. */
  ghost predicate SameControl(g: G, g': G) {
    && g'.cw == g.cw && g'.phase == g.phase && g'.weak == g.weak && g'.tm == g.tm && g'.running == g.running
    && g'.mt == g.mt && g'.called == g.called && g'.mainthread == g.mainthread && g'.registry == g.registry
  }

  ghost predicate MayWrite(g: G, r: Ref, e: Edit)
    requires OnThread(g)
  {
    var h := Held(g.objs[g.running].stack);
    r in h && r in g.objs && Ok(Newcomer(e), h) && Ok(KeyFor(g.objs[r], e), h) && !g.objs[r].Str? && !g.objs[r].IsOpen()
  }

  /** Assignments to a field and to an upvalue: one object changes, and headers through the barrier. */
  ghost predicate WriteEffect(g: G, a: Action, g': G) {
    OnThread(g) && SameControl(g, g') &&
    match a
    case Write(r, e) => g'.objs == if MayWrite(g, r, e) then g.objs[r := Edited(g.objs[r], e)] else g.objs
    case WriteUp(r, i, v) =>
      var h := Held(g.objs[g.running].stack);
      if r in h && r in g.objs && Ok(v, h) && g.objs[r].LClosure? && i < |g.objs[r].upvals|
      then UpWritten(g.objs, g'.objs, g.objs[r].upvals[i], v) else g'.objs == g.objs
    case _ => g'.objs == g.objs
  }

  ghost predicate UpWritten(objs: Heap, objs': Heap, u: Ref, v: Value) {
    && objs'.Keys == objs.Keys && u in objs
    && (objs[u].UpVal? ==> objs'[u].UpVal? && UpValue(objs', objs'[u].cell) == v)
    && (forall x :: x in objs && x != u && !(objs[u].IsOpen() && x == objs[u].cell.thread) ==> objs'[x] == objs[x])
  }

  /** What was allocated still is, and every object but the running thread reads the same. */
  ghost predicate OthersKept(g: G, g': G) {
    forall x :: x in g.objs && x != g.running ==> x in g'.objs && g'.objs[x] == g.objs[x]
  }

  ghost predicate TopIs(g: G, g': G, v: Value) {
    OnThread(g) && OnThread(g') && g'.objs[g'.running].stack == g.objs[g.running].stack + [v]
  }

  ghost predicate ObjectEffect(g: G, o: Obj, g': G) {
    OnThread(g) && SameControl(g, g') &&
    if !o.Str? && !o.IsOpen() && ObjLive(o, Held(g.objs[g.running].stack)) && (o.Thread? ==> o.openupval == [])
    then g.next !in g.objs && g'.objs == Push(g.objs[g.next := o], g.running, Gc(g.next))
    else g'.objs == g.objs
  }

  ghost predicate StringEffect(g: G, b: nat, i: nat, g': G) {
    OnThread(g) && SameControl(g, g') &&
    if b < |g.strt| then OthersKept(g, g') && exists r {:trigger Gc(r)} ::
      StringAt(g, b, i, g', r) && TopIs(g, g', Gc(r))
    else g'.objs == g.objs
  }

  ghost predicate ClosureEffect(g: G, env: Ref, p: Ref, parent: Ref, caps: seq<Capture>, g': G) {
    OnThread(g) && SameControl(g, g') &&
    var h := Held(g.objs[g.running].stack);
    if env in h && p in h && parent in h then FunctionEffect(g, env, p, parent, caps, g') else g'.objs == g.objs
  }

  ghost predicate NewEffect(g: G, a: Action, g': G) {
    match a
    case New(o) => ObjectEffect(g, o, g')
    case NewString(b, i) => StringEffect(g, b, i, g')
    case NewFunction(env, p, parent, caps) => ClosureEffect(g, env, p, parent, caps, g')
    case _ => g' == g
  }

  ghost predicate StringAt(g: G, b: nat, i: nat, g': G, r: Ref) {
    r in g'.objs && g'.objs[r] == Str(b) && (b < |g.strt| && i < |g.strt[b]| ==> r == g.strt[b][i])
  }

  /** A closure on the top of the stack, if every captured variable exists. */
  ghost predicate FunctionEffect(g: G, env: Ref, p: Ref, parent: Ref, caps: seq<Capture>, g': G) {
    OnThread(g) && OnThread(g') &&
    if forall j :: 0 <= j < |caps| ==> CanCapture(g.objs, g.running, parent, caps[j])
    then exists r, ups {:trigger LClosure(env, p, ups), Gc(r)} ::
      TopIs(g, g', Gc(r)) && ClosureAt(g, env, p, parent, caps, g', r, ups)
    else g'.objs[g'.running].stack == g.objs[g.running].stack
  }

  ghost predicate ClosureAt(g: G, env: Ref, p: Ref, parent: Ref, caps: seq<Capture>, g': G, r: Ref, ups: seq<Ref>) {
    && r in g'.objs && g'.objs[r] == LClosure(env, p, ups) && |ups| == |caps|
    && forall j :: 0 <= j < |caps| ==> Captures(g.objs, parent, caps[j], ups[j]) && CapturedAs(g'.objs, g.running, caps[j], ups[j])
  }

  /** The upvalues from the level up are closed; the stack is cut or filled with nil to n values if n is given. */
  ghost predicate CloseEffect(g: G, level: nat, n: Option<nat>, g': G) {
    OnThread(g) && OnThread(g') && SameControl(g, g') &&
    var t, t' := g.objs[g.running], g'.objs[g.running];
    && |t'.openupval| <= |t.openupval|
    && ClosedTo(g.objs, g'.objs[g.running := t'.(stack := t.stack)], g.running, |t.openupval| - |t'.openupval|, level)
    && (forall u :: u in t'.openupval ==> u in g'.objs && g'.objs[u].IsOpen() && g'.objs[u].cell.level < level)
    && t'.stack == if n.Some? then TopTo(t.stack, n.value) else t.stack
  }

  /** A whole collection: up to its own start nothing live is lost; what is left then is what was needed, strings aside. */
  ghost predicate CollectEffect(g: G, g': G) {
    && g'.phase == Pause && g'.tm == []
    && exists g1 :: Preserved(g, g1) && Collected(g1, g')
  }

  ghost predicate MoveEffect(g: G, a: Action, g': G) {
    match a
    case Resume(_) | Back | SetMt(_, _) => RootEffect(g, a, g')
    case New(_) | NewString(_, _) | NewFunction(_, _, _, _) => NewEffect(g, a, g')
    case Write(_, _) | WriteUp(_, _, _) => WriteEffect(g, a, g')
    case _ => StackEffect(g, a, g')
  }

  ghost predicate Effect(g: G, a: Action, g': G) {
    match a
    case StepGc => NothingLiveFreed(g, g') && StepKeeps(g, g')
    case CollectGc => CollectEffect(g, g')
    case SetTop(n) => CloseEffect(g, n, Some(n), g')
    case CloseUps(level) => CloseEffect(g, level, None, g')
    case Send(t, v) => SendEffect(g, t, v, g')
    case _ => MoveEffect(g, a, g')
  }

  lemma MoveIs(g: G, a: Action, g': G)
    requires a.Resume? || a.Back? || a.SetMt? ==> RootEffect(g, a, g')
    requires a.New? || a.NewString? || a.NewFunction? ==> NewEffect(g, a, g')
    requires a.Write? || a.WriteUp? ==> WriteEffect(g, a, g')
    requires !(a.Resume? || a.Back? || a.SetMt? || a.New? || a.NewString? || a.NewFunction? || a.Write? || a.WriteUp?) ==>
      StackEffect(g, a, g')
    ensures MoveEffect(g, a, g')
  {
  }

  /** A store into a userdata that awaits its finalizer, while nothing is being marked. */
  ghost predicate TouchesPending(g: G, a: Action) { a.Write? && a.r in g.tm && g.phase != Propagate }

  // ---- runs ----

  /** The states of a run: each move has its effect. */
  ghost predicate RunOf(trace: seq<G>, script: seq<Action>) {
    |trace| == |script| + 1 && forall i :: 0 <= i < |script| ==> MovedAt(trace, script, i)
  }

  ghost predicate MovedAt(trace: seq<G>, script: seq<Action>, i: nat)
    requires i < |script| && |trace| == |script| + 1
  {
    Effect(trace[i], script[i], trace[i + 1])
  }

  ghost predicate AllInv(trace: seq<G>) { forall i :: 0 <= i < |trace| ==> Inv(trace[i]) }

  /** In every state of the run, whatever a program can reach is allocated and stays so, and no finalizer was called twice. */
  ghost predicate AllStatesSafe(trace: seq<G>) { forall i ::
    0 <= i < |trace| ==> Safe(trace[i]) && NoDup(trace[i].called) }

  /** Some move of the run stores into a userdata that awaits its finalizer while nothing is being marked. */
  ghost predicate Touched(trace: seq<G>, script: seq<Action>) {
    exists i :: 0 <= i < |script| && i < |trace| && TouchesPending(trace[i], script[i])
  }

  lemma RunMore(trace: seq<G>, script: seq<Action>, a: Action, g': G)
    requires RunOf(trace, script) && Effect(trace[|script|], a, g')
    ensures RunOf(trace + [g'], script + [a])
    ensures !Touched(trace + [g'], script + [a]) ==> !Touched(trace, script) && !TouchesPending(trace[|script|], a)
  {
    hide Effect, TouchesPending;
    var t', s' := trace + [g'], script + [a];
    forall i | 0 <= i < |s'| ensures MovedAt(t', s', i) { if i < |script| { assert MovedAt(trace, script, i); } }
    if Touched(trace, script) {
      var i :| 0 <= i < |script| && TouchesPending(trace[i], script[i]);
      assert TouchesPending(t'[i], s'[i]);
    }
    assert TouchesPending(trace[|script|], a) ==> TouchesPending(t'[|script|], s'[|script|]);
  }

  lemma RunStart(g: G)
    requires Inv(g)
    ensures RunOf([g], []) && AllInv([g])
  {
  }

  lemma AllInvMore(trace: seq<G>, g: G)
    requires AllInv(trace) && Inv(g)
    ensures AllInv(trace + [g])
  {
    hide Inv;
  }

  lemma RunSafe(trace: seq<G>)
    requires AllInv(trace)
    ensures AllStatesSafe(trace)
  {
    hide Inv, Safe, NoDup;
    forall i | 0 <= i < |trace| ensures Safe(trace[i]) && NoDup(trace[i].called) { AllSafe(trace[i]); }
  }

  lemma HeldLive(g: G)
    requires Inv(g)
    ensures g.running in g.objs && g.objs[g.running].Thread?
    ensures Held(g.objs[g.running].stack) <= Alive(g.marked, g.cw) && Held(g.objs[g.running].stack) <= g.objs.Keys
    ensures AllOk(g.objs[g.running].stack, Alive(g.marked, g.cw)) && g.running in Alive(g.marked, g.cw)
  {
    assert RefsIn(g.objs, g.objs[g.running], Alive(g.marked, g.cw));
  }

  lemma HeldNew(g: G, o: Obj)
    requires Inv(g) && ObjLive(o, Alive(g.marked, g.cw)) && !o.IsOpen() && (o.Thread? ==> o.openupval == [])
    ensures NewOk(g, o)
  {
  }

  lemma UpvalOf(g: G, r: Ref, i: nat)
    requires Inv(g) && r in g.objs && r in Alive(g.marked, g.cw) && g.objs[r].LClosure? && i < |g.objs[r].upvals|
    ensures g.objs[r].upvals[i] in g.objs && g.objs[r].upvals[i] in Alive(g.marked, g.cw)
  {
    assert RefsIn(g.objs, g.objs[r], Alive(g.marked, g.cw));
  }

  lemma FixedKept(m: Marks, r: Ref, h: Mark)
    requires r in m && h.fixed == m[r].fixed
    ensures Fixed(m[r := h]) == Fixed(m)
  {
    assert Fixed(m[r := h]) == Fixed(m);
  }

  // ---- a new state ----

  ghost function Initial(n: nat): G {
    var t := Table(None, Mode(false, false), false, [], []);
    G(map[0 := Thread(Gc(2), [], []), 1 := t, 2 := t],
      map[0 := Mark(White(false), false, false, true), 1 := FreshMark(false), 2 := FreshMark(false)],
      false, Pause, [], [], [], [1, 2, 0], 2, 0, seq(n, i => []), 0, [], [], 0, seq(9, i => None), [], 3, 0, 1)
  }

  lemma InitialInv(n: nat)
    requires n > 0
    ensures Inv(Initial(n))
  {
    hide Base, Lists, Sound, Fin;
    InitialBase(n);
    InitialLists(n);
    InitialSound(n);
    InitialFin(n);
  }

  lemma InitialBase(n: nat)
    ensures Base(Initial(n))
  {
  }

  lemma InitialLists(n: nat)
    requires n > 0
    ensures Lists(Initial(n))
  {
    var g := Initial(n);
    assert g.objs.Keys == {0, 1, 2};
    assert ThreadOk(g.objs, 0);
    assert g.rootgc[0] == 1 && g.rootgc[1] == 2 && g.rootgc[2] == 0;
    forall r | r in g.objs ensures Owner(g.objs, g.rootgc, g.strt, g.tm, r) { assert r == 0 || r == 1 || r == 2; }
  }

  lemma InitialSound(n: nat)
    ensures Sound(Initial(n))
  {
    var g := Initial(n);
    assert Alive(g.marked, g.cw) == {0, 1, 2};
  }

  lemma InitialFin(n: nat)
    ensures Fin(Initial(n))
  {
    assert Initial(n).rootgc[3..] == [];
  }

  // ---- bounds on what is kept ----

  lemma UniverseBound(g: G)
    requires Inv(g)
    ensures StepBound(g, g.objs.Keys)
    ensures g.phase.Finalize? ==> MarkBound(g, g.objs.Keys)
  {
    hide Inv, MarkInv, Lists;
    AliveInside(g);
    match g.phase {
      case Pause => RestUniverse(g);
      case Propagate => MarkingUniverse(g);
      case SweepString =>
      case Sweep =>
      case Finalize => RestUniverse(g);
    }
  }

  lemma AliveInside(g: G)
    requires Inv(g)
    ensures Alive(g.marked, g.cw) <= g.objs.Keys && NonWhite(g.marked) <= g.objs.Keys && RootsIn(g, g.objs.Keys)
    ensures PendingIn(g.objs, g.marked, g.rootgc, g.objs.Keys)
  {
    hide Lists, Fin, PhaseOk;
    var A := Alive(g.marked, g.cw);
    forall i | 0 <= i < |g.mt| ensures OptOk(g.mt[i], g.objs.Keys) { assert OptOk(g.mt[i], A); }
  }

  lemma RestUniverse(g: G)
    requires Inv(g) && (g.phase.Pause? || g.phase.Finalize?)
    ensures MarkBound(g, g.objs.Keys)
  {
    hide Inv, MarkInv, RootsIn, StrongClosed, NonWhite;
    RestStart(g);
    AliveInside(g);
    AllStrong(g.objs) by { KeysClosed(g.objs, g.marked, g.cw, [], [], [], PropagateTodo(g.uvhead, [], [], g.tm)); }
  }

  lemma MarkingUniverse(g: G)
    requires Inv(g) && g.phase.Propagate?
    ensures MarkBound(g, g.objs.Keys)
  {
    hide Inv, MarkInv, RootsIn, StrongClosed, NonWhite;
    TodoParts(g);
    AliveInside(g);
    AllStrong(g.objs) by { KeysClosed(g.objs, g.marked, g.cw, g.gray, g.again, g.weak, Todo(g)); }
  }

  /** Needed is itself a bound, and the least one. */
  lemma NeededBound(g: G)
    requires Inv(g) && g.phase.Finalize?
    ensures MarkBound(g, Needed(g)) && forall K: set<Ref> :: MarkBound(g, K) ==> Needed(g) <= K
  {
    hide Inv, MarkBound, LiveClosed, Closure, Bounds;
    UniverseBound(g);
    RestStart(g);
    KeysClosed(g.objs, g.marked, g.cw, [], [], [], PropagateTodo(g.uvhead, [], [], g.tm));
    MarkBoundIs(g, g.objs.Keys);
    assert BoundBase(g) <= g.objs.Keys by { BoundsBase(g.objs, BoundBase(g), {}, g.objs.Keys); }
    ClosureLeast(g.objs, BoundBase(g), {});
    MarkBoundIs(g, Needed(g));
    forall K: set<Ref> | MarkBound(g, K) ensures Needed(g) <= K { MarkBoundIs(g, K); }
  }

  // ---- what is kept ----

  /** F is kept: while marking it is needed and holds no string; then it is not dead; then it is there. */
  ghost predicate Floor(g: G, F: set<Ref>) {
    match g.phase
    case Propagate => F <= Needed(g) && F !! Strings(g.objs)
    case SweepString => F <= Alive(g.marked, g.cw)
    case Sweep => F <= Alive(g.marked, g.cw)
    case _ => F <= g.objs.Keys
  }

  ghost predicate FloorKept(g: G, g': G) { forall F: set<Ref> :: Floor(g, F) ==> Floor(g', F) }

  /** While the marking goes on, what is needed stays needed. */
  lemma NeededGrows(g: G, g': G, K: set<Ref>)
    requires Progress(g.objs, g.marked, g'.objs, g'.marked, K)
    requires g'.mainthread == g.mainthread && g'.registry == g.registry && g'.running == g.running && g'.mt == g.mt
    requires g'.tm == g.tm && g'.rootgc == g.rootgc
    ensures Needed(g) <= Needed(g') && Strings(g'.objs) == Strings(g.objs)
  {
    hide HeapKept, MarksKept, NonWhite, Bounds, Finalizable;
    StringsKept(g.objs, g'.objs);
    KeptDomain(g.objs, g'.objs);
    FinalizableKept(g, g');
    assert BoundBase(g) <= BoundBase(g');
    forall S: set<Ref> | Bounds(g'.objs, BoundBase(g'), {}, S) ensures Bounds(g.objs, BoundBase(g), {}, S)
    {
      BoundsKept(g.objs, g'.objs, BoundBase(g), BoundBase(g'), S);
    }
  }

  lemma BoundsKept(objs: Heap, objs': Heap, base: set<Ref>, base': set<Ref>, S: set<Ref>)
    requires HeapKept(objs, objs') && base <= base' && Bounds(objs', base', {}, S)
    ensures Bounds(objs, base, {}, S)
  {
    hide HeapKept, StrongIn;
    KeptDomain(objs, objs');
    forall r | r in objs && r in S ensures StrongIn(objs, objs[r], S) { KeptStrong(objs, objs', r, S); }
  }

  lemma FinalizableKept(g: G, g': G)
    requires HeapKept(g.objs, g'.objs) && MarksKept(g.objs, g.marked, g'.marked) && g'.rootgc == g.rootgc
    ensures Finalizable(g) <= Finalizable(g')
  {
    hide HeapKept, MarksKept, HasGc;
    KeptDomain(g.objs, g'.objs);
    forall r | r in Finalizable(g) ensures r in Finalizable(g')
    {
      GcKept(g.objs, g'.objs, r);
      BitKept(g.objs, g.marked, g'.marked, r);
    }
  }

  lemma FloorMarking(g: G, g': G, K: set<Ref>)
    requires Progress(g.objs, g.marked, g'.objs, g'.marked, K) && g.phase == Propagate && g'.phase == Propagate
    requires g'.mainthread == g.mainthread && g'.registry == g.registry && g'.running == g.running && g'.mt == g.mt
    requires g'.tm == g.tm && g'.rootgc == g.rootgc
    ensures FloorKept(g, g')
  {
    hide Progress, Needed, Strings;
    NeededGrows(g, g', K);
  }

  /** One marking step, on the whole state. */
  lemma MarkingStep(g: G, g': G, K: set<Ref>)
    requires Inv(g) && g.phase == Propagate && MarkBound(g, K)
    requires g' == g.(objs := g'.objs, marked := g'.marked, gray := g'.gray, again := g'.again, weak := g'.weak)
    requires Progress(g.objs, g.marked, g'.objs, g'.marked, K) && StrongBut(g'.objs, K, {})
    requires MarkInv(g'.objs, g'.marked, g.cw, g'.gray, g'.again, g'.weak,
      PropagateTodo(g.uvhead, g.again, g.weak, g.tm))
    requires SetOf(g.again) <= SetOf(g'.again) && SetOf(g.weak) <= SetOf(g'.weak)
    ensures Inv(g') && MarkBound(g', K) && HeapKept(g.objs, g'.objs) && FloorKept(g, g') && (TmBlack(g) ==> TmBlack(g'))
  {
    hide Inv, MarkBound, Progress, StrongBut, MarkInv, PropagateTodo, SetOf, HeapKept, FloorKept, TmBlack, NonWhite;
    PropagateTodoGrows(g, g'.objs, g'.marked, g'.gray, g'.again, g'.weak, K);
    FloorMarking(g, g', K);
    DarkGrows(g, g');
    MarkingInv(g, g'.objs, g'.marked, g'.gray, g'.again, g'.weak, K);
  }

  lemma FloorAtomic(g: G, g': G, m2: Marks)
    requires g.phase == Propagate && g'.phase == SweepString && KeepsNeeded(g, m2) &&
      NonWhite(m2) <= Alive(g'.marked, g'.cw)
    ensures FloorKept(g, g')
  {
    hide NonWhite, Alive;
    forall F: set<Ref> | Floor(g, F) ensures F <= Alive(g'.marked, g'.cw)
    {
      forall r | r in F ensures r in NonWhite(m2) { assert r in g.objs && r !in Strings(g.objs); }
    }
  }

  lemma FloorSweep(g: G, g': G)
    requires (g.phase == SweepString || g.phase == Sweep) && Preserved(g, g')
    requires Inv(g) && Inv(g') && (g'.phase == SweepString || g'.phase == Sweep || g'.phase == Finalize)
    ensures FloorKept(g, g')
  {
    hide Inv, Survives;
    AliveInside(g);
    AliveInside(g');
    assert Alive(g.marked, g.cw) <= Alive(g'.marked, g'.cw);
  }

  lemma FloorRest(g: G, g': G)
    requires g.phase == Finalize && (g'.phase == Finalize || g'.phase == Pause) && g'.objs.Keys == g.objs.Keys
    ensures FloorKept(g, g')
  {
  }

  lemma FloorPause(g: G, F: set<Ref>)
    requires Floor(g, F) && g.phase == Pause
    ensures F <= g.objs.Keys
  {
  }

  lemma FloorStart(g: G, g': G)
    requires g'.phase == Propagate && g'.objs == g.objs && Needed(g) <= Needed(g')
    ensures Floor(g', Needed(g) - Strings(g.objs))
  {
  }

  lemma FloorUse(g: G, g': G, F: set<Ref>)
    requires FloorKept(g, g') && Floor(g, F)
    ensures Floor(g', F)
  {
  }

  /** What a collection that starts its marking in g1 leaves: strings aside, exactly what was needed. */
  ghost predicate Collected(g1: G, g': G) {
    && Inv(g1) && g1.phase == Finalize
    && g'.objs.Keys <= Needed(g1) + Fixed(g'.marked)
    && Needed(g1) - Strings(g1.objs) <= g'.objs.Keys
    && exists weak :: Cleansed(g1.objs, weak, g')
  }

  /**
   The tables that a collection leaves, against the heap o it started with: `weak` are those among them that are
   weak by their metatable, and these have lost the entries one half of which is gone or is a userdata with bit3.
   */
  ghost predicate Cleansed(o: Heap, weak: seq<Ref>, g': G) {
    && WeakList(o, {}, g'.objs.Keys, weak)
    && forall r :: r in o && o[r].Table? && r in g'.objs ==> TableLeft(o, g'.objs, g'.marked, g'.objs.Keys, weak, r)
  }

  /** Since the atomic step that ended in gb: live tables have kept their contents, and headers their bits. */
  ghost predicate SinceClear(gb: G, g: G) {
    && (forall r :: r in gb.objs && r in Alive(gb.marked, gb.cw) ==>
        r in g.objs && r in Alive(g.marked, g.cw) && SameBits(gb.marked[r], g.marked[r]) &&
        (gb.objs[r].Table? ==> g.objs[r] == gb.objs[r]))
    && Fixed(g.marked) <= Fixed(gb.marked)
  }

  /** A collection under way that started its marking on the heap o; gb is the state after its atomic step, once that is past. */
  ghost predicate Midway(o: Heap, gb: G, g: G) {
    if g.phase == Propagate then HeapKept(o, g.objs) && BlackWeak(g.objs, g.marked) == {}
    else Inv(gb) && EntriesLeft(o, {}, gb.objs, gb.marked, Alive(gb.marked, gb.cw), gb.weak) && SinceClear(gb, g)
  }

  lemma MidStart(g: G)
    requires g.phase == Propagate && BlackWeak(g.objs, g.marked) == {}
    ensures Midway(g.objs, g, g)
  {
  }

  lemma MidStep(o: Heap, gb: G, g: G, g': G)
    requires Midway(o, gb, g) && StepKeeps(g, g') && Inv(g') && !g.phase.Pause?
    requires g.phase != Propagate ==> g'.phase != Propagate
    ensures Midway(o, if g.phase == Propagate then g' else gb, g')
  {
    hide Inv, HeapKept, BlackWeak, EntriesLeft, SinceClear, Preserved, Finalize1, FinalizeReady;
    match g.phase
    case Propagate =>
      if g'.phase == Propagate {
        HeapKeptTrans(o, g.objs, g'.objs);
      } else {
        EntriesFrom(o, g.objs, g'.objs, g'.marked, Alive(g'.marked, g'.cw), g'.weak);
        SinceSame(g');
      }
    case SweepString => SinceSwept(gb, g, g');
    case Sweep => SinceSwept(gb, g, g');
    case Finalize => if g.tm != [] { SinceFinal(gb, g); } else { SincePause(gb, g); }
  }

  lemma SinceSame(g: G)
    requires Inv(g)
    ensures SinceClear(g, g)
  {
    hide Inv, Alive;
    AliveInside(g);
  }

  lemma SincePause(gb: G, g: G)
    requires SinceClear(gb, g)
    ensures SinceClear(gb, g.(phase := Pause))
  {
  }

  lemma SinceSwept(gb: G, g: G, g': G)
    requires SinceClear(gb, g) && Preserved(g, g')
    ensures SinceClear(gb, g')
  {
    hide Alive, Fixed;
  }

  lemma SinceFinal(gb: G, g: G)
    requires SinceClear(gb, g) && FinalizeReady(g)
    ensures SinceClear(gb, Finalize1(g))
  {
  }

  /** At the end: what is there, strings aside, is what was alive after the atomic step. */
  lemma Survivors(o: Heap, gb: G, g': G, x: Ref)
    requires Midway(o, gb, g') && g'.phase.Pause? && g'.objs.Keys <= Alive(gb.marked, gb.cw) + Fixed(g'.marked)
    requires x in o && !o[x].Str?
    ensures x in g'.objs <==> x in Alive(gb.marked, gb.cw)
  {
    hide Lists, Fin, PhaseOk, LiveClosed, WeakList, TableLeft;
    if o[x].Table? { TableIn(o, gb, x); }
    assert x in gb.objs && !gb.objs[x].Str?;
  }

  lemma StaysOn(o: Heap, gb: G, g': G, v: Value, isvalue: bool)
    requires SinceClear(gb, g') && gb.objs.Keys == o.Keys
    requires forall x :: x in o && !o[x].Str? ==> (x in g'.objs <==> x in Alive(gb.marked, gb.cw))
    ensures Stays(o, gb.marked, Alive(gb.marked, gb.cw), v, isvalue) <==> Stays(o, g'.marked, g'.objs.Keys, v, isvalue)
  {
  }

  lemma CycleDone(o: Heap, gb: G, g': G)
    requires Midway(o, gb, g') && g'.phase.Pause? && g'.objs.Keys <= Alive(gb.marked, gb.cw) + Fixed(g'.marked)
    ensures Cleansed(o, gb.weak, g')
  {
    hide Inv, WeakKeys, WeakValues, TableLeft, Fixed, Alive;
    var A := Alive(gb.marked, gb.cw);
    forall x | x in o && !o[x].Str? ensures x in g'.objs <==> x in A { Survivors(o, gb, g', x); }
    AliveInside(gb);
    forall v, isvalue ensures Stays(o, gb.marked, A, v, isvalue) <==> Stays(o, g'.marked, g'.objs.Keys, v, isvalue)
    {
      StaysOn(o, gb, g', v, isvalue);
    }
    forall r | r in o && o[r].Table? && r in g'.objs
      ensures TableLeft(o, g'.objs, g'.marked, g'.objs.Keys, gb.weak, r)
    {
      TableIn(o, gb, r);
      TableOnwards(o, gb.objs, gb.marked, A, g'.objs, g'.marked, g'.objs.Keys, gb.weak, r);
    }
  }

  /** Fixed objects that were alive in gb are fixed still. */
  lemma MidFixed(o: Heap, gb: G, g: G, K: set<Ref>)
    requires Midway(o, gb, g) && g.phase.Pause? && Alive(gb.marked, gb.cw) <= K + Fixed(gb.marked)
    ensures Alive(gb.marked, gb.cw) <= K + Fixed(g.marked)
  {
    hide Inv, EntriesLeft;
    AliveInside(gb);
  }

  lemma BoundSelf(g: G, K: set<Ref>)
    requires g.phase == SweepString && StepBound(g, K)
    ensures StepBound(g, Alive(g.marked, g.cw)) && Alive(g.marked, g.cw) <= K + Fixed(g.marked)
  {
  }

  lemma TableIn(o: Heap, gb: G, r: Ref)
    requires EntriesLeft(o, {}, gb.objs, gb.marked, Alive(gb.marked, gb.cw), gb.weak) && r in o && o[r].Table?
    ensures TableLeft(o, gb.objs, gb.marked, Alive(gb.marked, gb.cw), gb.weak, r) && r in gb.objs && gb.objs[r].Table?
  {
  }

  // ---- luaC_fullgc ----

  ghost function Reset(g: G): G {
    g.(gray := [], again := [], weak := [], sweepgc := 0, sweepstr := 0, phase := SweepString)
  }

  /** Before the marking is finished nothing is dead: a sweep from the start only turns everything white. */
  lemma ResetInv(g: G)
    requires Inv(g) && (g.phase.Pause? || g.phase.Propagate?)
    ensures Inv(Reset(g))
  {
    hide Inv, Base, Lists, Sound, Fin;
    InvParts(g);
    ResetCore(g);
    ResetPhase(g);
    CoreInv(Reset(g));
  }

  lemma ResetCore(g: G)
    requires Core(g)
    ensures Core(Reset(g))
  {
  }

  lemma ResetPhase(g: G)
    requires Lists(g)
    ensures PhaseOk(Reset(g))
  {
  }

  /** What was live is live still, and reads the same. */
  ghost predicate Preserved(g: G, g': G) {
    && (forall r :: r in g.objs && r in Alive(g.marked, g.cw) ==>
      Survives(g.objs, g'.objs, r) && r in Alive(g'.marked, g'.cw) && SameBits(g.marked[r], g'.marked[r]))
    && Fixed(g'.marked) <= Fixed(g.marked)
    && g'.running == g.running && g'.mt == g.mt && g'.tm == g.tm && g'.called == g.called
    && (TmBlack(g) ==> TmBlack(g'))
  }

  lemma PreservedSame(g: G)
    requires Inv(g)
    ensures Preserved(g, g) && (g.phase.Pause? || g.phase.Propagate? ==> Preserved(g, Reset(g)))
  {
    hide Inv, TmBlack, Alive;
    forall r | r in g.objs && r in Alive(g.marked, g.cw) ensures Survives(g.objs, g.objs, r) {}
    TmSame(g, Reset(g));
    assert Alive(Reset(g).marked, Reset(g).cw) == Alive(g.marked, g.cw);
  }

  lemma PreservedTrans(g: G, g1: G, g2: G)
    requires Preserved(g, g1) && Preserved(g1, g2)
    ensures Preserved(g, g2)
  {
    hide Alive;
    forall r | r in g.objs && r in Alive(g.marked, g.cw) ensures Survives(g.objs, g2.objs, r) &&
      r in Alive(g2.marked, g2.cw)
    {
      assert Survives(g.objs, g1.objs, r) && r in Alive(g1.marked, g1.cw);
      assert Survives(g1.objs, g2.objs, r);
    }
  }

  lemma SweptBits(m: Marks, m': Marks, cw: bool)
    ensures SweptMarks(m, m', cw) ==> Fixed(m') <= Fixed(m)
    ensures SweptMarks(m, m', cw) ==> forall r ::
      r in m && !IsDead(m[r], cw) ==> r in m' && SameBits(m[r], m'[r]) && !IsDead(m'[r], cw)
  {
  }

  lemma SweptPreserves(g: G, g': G)
    requires Inv(g') && (Swept(g, g') || Swept(g.(sweepstr := g'.sweepstr, phase := g'.phase), g'))
    ensures Preserved(g, g')
  {
    hide Inv, TmBlack, SameBits, SweptMarks;
    SweptBits(g.marked, g'.marked, g.cw);
    TmSame(g, g.(sweepstr := g'.sweepstr, phase := g'.phase));
    forall r | r in g.objs && r in Alive(g.marked, g.cw) ensures Survives(g.objs, g'.objs, r) &&
      r in Alive(g'.marked, g'.cw)
    {
      if Swept(g, g') { assert Survives(g.objs, g'.objs, r); } else { assert Survives(g.objs, g'.objs, r); }
    }
  }

  lemma PreservedDark(g: G, g': G)
    requires Preserved(g, g')
    ensures TmBlack(g) ==> TmBlack(g')
  {
  }

  lemma PreservedPhase(g: G, g': G, p: Phase)
    requires Preserved(g, g')
    ensures Preserved(g, g'.(phase := p))
  {
  }

  // ---- small facts for the methods ----

  lemma StackValues(g: G, t: Ref)
    requires Inv(g) && t in g.objs && g.objs[t].Thread? && t in Alive(g.marked, g.cw)
    ensures AllOk(g.objs[t].stack, Alive(g.marked, g.cw))
  {
    assert RefsIn(g.objs, g.objs[t], Alive(g.marked, g.cw));
  }

  lemma NextFree(g: G)
    requires Inv(g)
    ensures g.next !in g.objs && g.next !in g.marked
  {
  }

  lemma InternedAt(g: G, b: nat, i: nat)
    requires Inv(g) && b < |g.strt| && i < |g.strt[b]|
    ensures g.strt[b][i] in g.objs && g.strt[b][i] in g.marked && g.objs[g.strt[b][i]] == Str(b)
  {
    assert g.strt[b][i] in g.strt[b];
  }

  lemma GapPlace(objs: Heap, t: Ref, k: nat, level: nat)
    requires Gap(objs, t, k, level)
    ensures t in objs && objs[t].Thread? && k <= |objs[t].openupval|
  {
  }

  lemma InsertedIn(s: seq<Ref>, k: nat, r: Ref)
    requires k <= |s|
    ensures r in InsertAt(s, k, r)
  {
    assert InsertAt(s, k, r)[k] == r;
  }

  lemma AllBelow(g: G, level: nat)
    requires Inv(g) && g.running in g.objs && g.objs[g.running].Thread?
    requires var ups := g.objs[g.running].openupval;
      ups == [] || (ups[0] in g.objs && g.objs[ups[0]].IsOpen() && g.objs[ups[0]].cell.level < level)
    ensures forall u :: u in g.objs[g.running].openupval ==>
      u in g.objs && g.objs[u].IsOpen() && g.objs[u].cell.level < level
  {
    RunningUps(g);
  }

  lemma CloseDeadKeeps(g: G)
    requires Inv(g) && g.running in g.objs && g.objs[g.running].Thread? && g.objs[g.running].openupval != []
    requires var u := g.objs[g.running].openupval[0]; u in g.marked && IsDead(g.marked[u], g.cw)
    requires Inv(UpGone(g, g.running, 0))
    ensures Preserved(g, UpGone(g, g.running, 0))
    ensures UpGone(g, g.running, 0).objs[g.running] == g.objs[g.running].(openupval := g.objs[g.running].openupval[1..])
  {
    hide Inv, Core, Swept, Preserved;
    TopUp(g);
    UpGoneSwept(g, g.running, 0);
    SweptPreserves(g, UpGone(g, g.running, 0));
    assert CutAt(g.objs[g.running].openupval, 0) == g.objs[g.running].openupval[1..];
  }

  lemma CloseKeeps(g: G, u: Ref)
    requires Inv(g) && g.running in g.objs && g.objs[g.running].Thread? && g.objs[g.running].openupval != []
    requires u == g.objs[g.running].openupval[0] && u in g.objs && g.objs[u].IsOpen() && u in g.marked &&
      !IsDead(g.marked[u], g.cw)
    requires Inv(Kept(g, u)) && Inv(UpClosed(Kept(g, u), g.running))
    ensures Preserved(g, UpClosed(Kept(g, u), g.running))
  {
    hide Inv, Core, Swept, Preserved;
    TopUp(g);
    UpOff(g, u);
    KeptSwept(g, u) by { CoreShape(g); }
    UpClosedSwept(Kept(g, u)) by { InvParts(Kept(g, u)); }
    SweptTrans(g, Kept(g, u), UpClosed(Kept(g, u), g.running));
    SweptPreserves(g, UpClosed(Kept(g, u), g.running));
  }

  /** luaC_linkupval outside the marking phase, on the whole. */
  lemma KeptClosed(g: G, u: Ref)
    requires Inv(g) && g.phase != Propagate && g.running in g.objs && UpReady(g.objs, g.running) &&
      u == g.objs[g.running].openupval[0]
    requires g.objs[u].IsOpen() && u in g.marked && !IsDead(g.marked[u], g.cw)
    ensures var g' := UpClosed(Kept(g, u), g.running); Inv(g') && Preserved(g, g') && TopClosed(g.objs, g'.objs, g.running)
  {
    hide Inv, Preserved, TopClosed;
    UpClosedTop(g, g.running);
    UpClosedTop(Kept(g, u), g.running);
    KeepInv(g, u);
    CloseInv(Kept(g, u), g.running);
    CloseKeeps(g, u);
  }

  lemma UpOff(g: G, u: Ref)
    requires Inv(g) && u in g.objs && !g.objs[u].Udata?
    ensures u !in g.tm
  {
  }

  lemma UpClosedSwept(g: G)
    requires Core(g) && g.running in g.objs && g.objs[g.running].Thread? && g.objs[g.running].openupval != []
    requires g.objs[g.running].openupval[0] in g.objs && g.objs[g.objs[g.running].openupval[0]].IsOpen() &&
      g.objs[g.running].openupval[0] != g.running
    ensures Swept(g, UpClosed(g, g.running))
  {
    hide Lists, Sound, Fin, TmBlack, Survives;
    ClosedSurvive(g);
    TmSame(g, UpClosed(g, g.running));
  }

  lemma ClosedValue(objs: Heap, marked: Marks, cw: bool, gray: seq<Ref>, again: seq<Ref>, weak: seq<Ref>,
    todo: set<Ref>,
    u: Ref)
    requires MarkInv(objs, marked, cw, gray, again, weak, todo) && u in objs && objs[u].UpVal? && objs[u].cell.Closed?
    ensures Ok(objs[u].cell.val, objs.Keys) && StrongBut(objs, objs.Keys, {})
  {
    hide Tri, ListsOk, GrayListed, BlackOk, NoneDead;
    AllStrong(objs);
    assert RefsIn(objs, objs[u], objs.Keys);
  }

  lemma ClosedIs(objs: Heap, o: Obj)
    requires o.UpVal? && o.cell.Closed?
    ensures UpValue(objs, o.cell) == o.cell.val
  {
  }

  lemma CloseMarkKeeps(g: G, u: Ref, c: Color, m': Marks, gray': seq<Ref>, K: set<Ref>)
    requires Inv(g) && g.running in g.objs && g.objs[g.running].Thread? && g.objs[g.running].openupval != []
    requires u == g.objs[g.running].openupval[0] && u in g.objs && g.objs[u].IsOpen() && u in g.marked &&
      !IsDead(g.marked[u], g.cw)
    requires u != g.running && c == g.marked[u].color
    requires var g1 := ClosedAs(g, g.running, if c.White? then c else Black); Grows(g1.marked, m', K)
    ensures Preserved(g, ClosedAs(g, g.running, if c.White? then c else Black).(marked := m', gray := gray'))
  {
    hide Inv, Grows, Alive, NonWhite, Survives, TmBlack, Fixed, SameBits;
    AliveHeaders(g.marked, g.cw);
    var g1 := ClosedAs(g, g.running, if c.White? then c else Black);
    GrowsAlive(g1.marked, m', K, g.cw);
    AsAlive(g, u, if c.White? then c else Black);
    AsBlack(g, u, if c.White? then c else Black);
    GrowsMore(g1.marked, m', K);
    DarkGrows(g, g1.(marked := m', gray := gray'));
    ClosedSurvive(g);
    CloseBits(g.marked, u, if c.White? then c else Black, m', K);
  }

  /** Marking and repainting leave the other bits. */
  lemma CloseBits(m: Marks, u: Ref, c: Color, m': Marks, K: set<Ref>)
    requires u in m && Grows(m[u := m[u].(color := c)], m', K)
    ensures m'.Keys == m.Keys && (forall r :: r in m ==> SameBits(m[r], m'[r])) && Fixed(m') <= Fixed(m)
  {
  }

  lemma AliveHeaders(m: Marks, cw: bool)
    ensures Alive(m, cw) <= m.Keys
  {
  }

  lemma AsAlive(g: G, u: Ref, c: Color)
    requires u in g.marked && (c == g.marked[u].color || c.Black?)
    ensures Alive(g.marked, g.cw) <= Alive(g.marked[u := g.marked[u].(color := c)], g.cw)
  {
  }

  lemma AsBlack(g: G, u: Ref, c: Color)
    requires u in g.marked && (c == g.marked[u].color || c.Black?)
    ensures NonWhite(g.marked) <= NonWhite(g.marked[u := g.marked[u].(color := c)])
  {
  }

  lemma ClosedSurvive(g: G)
    requires g.running in g.objs && g.objs[g.running].Thread? && g.objs[g.running].openupval != []
    requires g.objs[g.running].openupval[0] in g.objs && g.objs[g.objs[g.running].openupval[0]].IsOpen() &&
      g.objs[g.running].openupval[0] != g.running
    ensures forall r :: r in g.objs ==> Survives(g.objs, UpClosed(g, g.running).objs, r)
  {
  }

  lemma ClosureLive(g: G, env: Ref, p: Ref, upvals: seq<Ref>)
    requires env in Alive(g.marked, g.cw) && p in Alive(g.marked, g.cw) && RefsOk(upvals, Alive(g.marked, g.cw))
    ensures NewOk(g, LClosure(env, p, upvals))
  {
  }

  lemma FreshUpOk(g: G)
    ensures NewOk(g, UpVal(Closed(Nil)))
  {
  }

  lemma PushedFunction(g: G, h: Heap, env: Ref, p: Ref, parent: Ref, caps: seq<Capture>, g': G, r: Ref)
    requires OnThread(g) && g'.running == g.running && g.running in h && h[g.running].Thread?
    requires h[g.running].stack == g.objs[g.running].stack && g'.objs == Push(h, g.running, Gc(r))
    requires r in h && h[r].LClosure? && |h[r].upvals| == |caps| && h[r].env == env && h[r].p == p
    requires forall j :: 0 <= j < |caps| ==>
      Captures(g.objs, parent, caps[j], h[r].upvals[j]) && CapturedAs(h, g.running, caps[j], h[r].upvals[j])
    requires forall j :: 0 <= j < |caps| ==> CanCapture(g.objs, g.running, parent, caps[j])
    ensures FunctionEffect(g, env, p, parent, caps, g')
  {
    hide CanCapture, Captures;
    assert LClosure(env, p, h[r].upvals) == h[r] && TopIs(g, g', Gc(r));
    assert ClosureAt(g, env, p, parent, caps, g', r, h[r].upvals);
  }

  lemma SetTopEffect(g: G, g1: G, n: nat)
    requires CloseEffect(g, n, None, g1)
    ensures CloseEffect(g, n, Some(n),
      g1.(objs := g1.objs[g1.running := g1.objs[g1.running].(stack := TopTo(g1.objs[g1.running].stack, n))]))
  {
    hide ClosedTo;
    var t := g1.objs[g1.running];
    var h := g1.objs[g1.running := t.(stack := TopTo(t.stack, n))];
    assert h[g.running := h[g.running].(stack := t.stack)] == g1.objs[g.running := t.(stack := t.stack)];
  }

  /** Cutting a stack at n leaves the open upvalues below n inside. */
  lemma CutLevels(objs: Heap, t: Ref, n: nat)
    requires t in objs && objs[t].Thread?
    requires forall u :: u in objs[t].openupval ==> u in objs && objs[u].IsOpen() && objs[u].cell.level < n
    ensures LevelsIn(objs, objs[t].(stack := TopTo(objs[t].stack, n)))
  {
  }

  lemma CloseBelow(g: G, level: nat, g': G)
    requires CloseEffect(g, level, None, g')
    ensures OnThread(g') && g'.running == g.running
    ensures forall u :: u in g'.objs[g'.running].openupval ==>
      u in g'.objs && g'.objs[u].IsOpen() && g'.objs[u].cell.level < level
  {
  }

  lemma FetchedLive(g: G, a: Action)
    requires Inv(g) && OnThread(g)
    ensures var v := Fetched(g, a); v.Some? ==> Ok(v.value, Alive(g.marked, g.cw))
  {
    hide Inv, Alive, Select;
    HeldLive(g);
    RootsLive(g, 0);
    match a {
      case Read(r, sel) => if r in Held(g.objs[g.running].stack) { SelectLive(g, r, sel); }
      case ReadMt(k) => RootsLive(g, k);
      case _ =>
    }
  }

  lemma AssignedLive(s: seq<Value>, i: nat, j: nat, S: set<Ref>)
    requires AllOk(s, S)
    ensures AllOk(Assigned(s, i, j), S) && |Assigned(s, i, j)| == |s|
  {
  }

  lemma SameStack(objs: Heap, t: Ref)
    requires t in objs && objs[t].Thread?
    ensures objs[t := objs[t].(stack := objs[t].stack)] == objs
  {
  }

  lemma TopValues(s: seq<Value>, n: nat, S: set<Ref>)
    requires AllOk(s, S)
    ensures AllOk(if n <= |s| then s[..n] else s + seq(n - |s|, i => Nil), S)
  {
  }

  lemma MtLive(g: G)
    requires Inv(g)
    ensures MtIn(g.mt, Alive(g.marked, g.cw))
  {
  }

  lemma MtUpdated(mt: seq<Option<Ref>>, k: nat, o: Option<Ref>, S: set<Ref>)
    requires MtIn(mt, S) && k < |mt| && OptOk(o, S)
    ensures MtIn(mt[k := o], S)
  {
  }
}
