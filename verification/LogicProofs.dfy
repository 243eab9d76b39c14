/** The operators `and`, `or` and `not`. */
module LogicProofs {
  import opened LuaVm
  import opened ExprSem
  import opened ExprProofs
  import opened CondProofs

  lemma FrameTrans(nact: nat, b: FS, s1: FS, s2: FS)
    requires Ok(nact, b) && Frame(b, s1) && Frame(s1, s2)
    ensures Frame(b, s2)
  {
    forall j | 0 <= j < |b.code| && Kept(b, j) ensures s2.code[j] == b.code[j] { KeptStill(nact, b, s1, j); }
  }

  // ---- and, or: the second operand after the branch ----

  /** luaK_posfix on `and` and `or`: the list of the first operand joins the one of the second. */
  function Joined(s: FS, l1: seq<nat>, l2: seq<nat>): FS {
    s.(code := Linked(s.code, l1, l2))
  }

  /** The tests before the jumps of l, as seen in either state. */
  lemma BranchTests(nact: nat, b: FS, s1: FS, s2: FS, h: int, l: seq<nat>)
    requires Ok(nact, s1) && Ok(nact, s2) && Frame(s1, s2) && BranchList(b, s1, h, l)
    ensures IsList(s2.code, h, l)
    ensures forall p :: p in l ==> |b.code| < p < |s1.code| && s2.code[p - 1].IsTest() && s2.code[p].Jmp? && View(s2)[p - 1] == View(s1)[p - 1]
    ensures forall p :: p in l ==> p in s1.open && p in s2.open
  {
    hide IsList, Paired, Targets, View;
    ListInside(s1.code, h, l);
    forall p | p in l
      ensures p in s1.open && p in s2.open && s2.code[p] == s1.code[p] && s2.code[p - 1].IsTest() &&
        View(s2)[p - 1] == View(s1)[p - 1]
    {
      assert p in SetOf(l);
      assert p in s2.open;
      assert Kept(s1, p) && Kept(s1, p - 1);
      ViewAt(s1, p - 1);
      ViewAt(s2, p - 1);
    }
    SameList(s1.code, s2.code, h, l);
  }

  lemma JoinedParts(s1: FS, s2: FS, gh: int, g: seq<nat>, oh: int, o: seq<nat>, h: int, l: seq<nat>)
    requires IsList(s2.code, gh, g) && IsList(s2.code, oh, o) && IsList(s2.code, h, l)
    requires (forall p :: p in l ==> 0 < p < |s1.code| && s2.code[p - 1].IsTest() && s2.code[p].Jmp?)
    requires (forall p :: p in g || p in o ==> p > |s1.code| && p < |s2.code| && s2.code[p - 1].IsTest()) &&
      forall p :: p in g ==> p !in o
    ensures var code' := Linked(s2.code, g, l);
      && IsList(code', if g == [] then h else gh, g + l) && IsList(code', oh, o) &&
        SetOf(g + l) == SetOf(g) + SetOf(l) && |code'| == |s2.code|
      && (forall p :: p in g + l || p in o ==> 0 < p < |code'| && code'[p - 1].IsTest())
      && (forall p :: p in g + l <==> p in g || p in l)
  {
    hide IsList, Linked;
    ListInside(s2.code, gh, g);
    ListInside(s2.code, oh, o);
    LinkedList(s2.code, gh, g, h, l);
    LinkedOther(s2.code, g, l, oh, o);
    LinkedAt(s2.code, g, l);
    var code' := Linked(s2.code, g, l);
    forall p | p in g + l || p in o ensures 0 < p < |code'| &&
      code'[p - 1].IsTest() { assert p in g || p in l || p in o; }
  }

  lemma JoinedLists(nact: nat, b: FS, s1: FS, s2: FS, h: int, l: seq<nat>, e: Exp, t: seq<nat>, f: seq<nat>,
    sense: bool)
    requires Ok(nact, s2) && Frame(b, s1) && Frame(s1, s2) && BranchList(b, s1, h, l) && Lists(s1, s2, e, t, f)
    requires IsList(s2.code, h, l) && (forall p ::
      p in l ==> |b.code| < p < |s1.code| && s2.code[p - 1].IsTest() && s2.code[p].Jmp?)
    ensures var g := if sense then f else t;
      var h' := if g == [] then h else if sense then e.f else e.t;
      if sense then Lists(b, Joined(s2, f, l), Exp(e.k, e.t, h'), t, f + l)
        else Lists(b, Joined(s2, t, l), Exp(e.k, h', e.f), t + l, f)
  {
    hide IsList, Paired, Targets, View, Linked, SetOf;
    ListInside(s2.code, e.t, t);
    ListInside(s2.code, e.f, f);
    if sense {
      JoinedParts(s1, s2, e.f, f, e.t, t, h, l);
      JoinedLast(s2, e, f, l);
    } else {
      JoinedParts(s1, s2, e.t, t, e.f, f, h, l);
      JoinedLast(s2, e, t, l);
    }
  }

  lemma JoinedLast(s: FS, e: Exp, g: seq<nat>, l: seq<nat>)
    requires (forall p :: p in g ==> p < |s.code| && s.code[p].Jmp?)
    requires e.k.VJmp? ==> 0 < e.k.p < |s.code| && e.k.p !in g && s.code[e.k.p - 1].CmpOp?
    requires e.k.VReloc? ==> e.k.p < |s.code| && s.code[e.k.p].IsValue()
    ensures e.k.VJmp? ==> Joined(s, g, l).code[e.k.p] == s.code[e.k.p] && Joined(s, g, l).code[e.k.p - 1] == s.code[e.k.p - 1]
    ensures e.k.VReloc? ==> Joined(s, g, l).code[e.k.p] == s.code[e.k.p]
  {
    LinkedAt(s.code, g, l);
  }

  /** How the two halves combine, at one start. */
  lemma JoinedAt(m: Machine, nact: nat, b: FS, s1: FS, s2: FS, l: seq<nat>, k: Kind, t: seq<nat>, f: seq<nat>,
    sense: bool,
                 x: Expr, y: Expr, kk: seq<Value>, c: nat, r0: Regs)
    requires c <= |b.code| <= |s1.code| && |s2.code| >= |s1.code| && nact <= b.fr && s1.fr == b.fr &&
      Fragment(m, nact, y)
    requires BranchAt(m, b, s1, l, sense, x, kk, c, r0) && DeliversAt(m, s1, s2, k, t, f, y, kk, c, r0)
    requires (forall p :: p in l ==> 0 < p < |s1.code| && View(s2)[p - 1] == View(s1)[p - 1])
    requires (forall p :: p in t || p in f ==> p > |s1.code|) && (k.VJmp? ==> k.p > |s1.code|)
    ensures DeliversAt(m, b, s2, k, if sense then t else t + l, if sense then f + l else f, if sense then EAnd(x, y)
      else EOr(x, y), kk, c, r0)
  {
    hide View, Run, IsList, KindValue, Fragment, Eval;
    LogicEval(m, x, y);
    assert Before(m, kk, s1, c, r0) == After(m, kk, s1, |s1.code|, c, r0);
    var start := Before(m, kk, b, c, r0);
    var out := After(m, kk, s1, |s1.code|, c, r0);
    if start.Fall? && out.Fall? { EvalLocals(m, nact, y, start.r, out.r) by { SameLess(start.r, out.r, b.fr, nact); } }
    assert forall p :: p in t + l <==> p in t || p in l;
    assert forall p :: p in f + l <==> p in f || p in l;
  }

  lemma LogicEval(m: Machine, x: Expr, y: Expr)
    ensures forall r :: Eval(m, EAnd(x, y), r) == if Falsy(Eval(m, x, r)) then Eval(m, x, r) else Eval(m, y, r)
    ensures forall r :: Eval(m, EOr(x, y), r) == if Falsy(Eval(m, x, r)) then Eval(m, y, r) else Eval(m, x, r)
  {
  }

  lemma SameLess(r: Regs, r': Regs, n: nat, k: nat)
    requires Same(r, r', n) && k <= n
    ensures Same(r, r', k)
  {
  }

  /** Delivery does not see how open jumps are linked. */
  lemma AlikeDelivers(m: Machine, b: FS, s: FS, s': FS, k: Kind, t: seq<nat>, f: seq<nat>, x: Expr, kk: seq<Value>,
    c: nat, r0: Regs)
    requires c <= |b.code| && |s'.code| == |s.code| && s'.open == s.open && Alike(View(s), View(s'), s.open)
    requires forall i :: 0 <= i < |s.code| && View(s)[i].IsTest() ==> View(s')[i] == View(s)[i]
    requires forall p: nat :: p in t || p in f || (k.VJmp? && p == k.p) ==> 0 < p <= |s.code| && View(s)[p - 1].IsTest()
    requires k.VReloc? ==> k.p < |s.code| && View(s)[k.p].IsValue()
    requires DeliversAt(m, b, s, k, t, f, x, kk, c, r0)
    ensures DeliversAt(m, b, s', k, t, f, x, kk, c, r0)
  {
    hide View, Run, Eval;
    RunAlike(m, kk, View(s), View(s'), c, End(s, k), s.open, r0);
    forall r ensures KindValue(m, kk, View(s'), k, r) == KindValue(m, kk, View(s), k,
      r) { AlikeKind(m, kk, View(s), View(s'), k, s.open, r); }
  }

  lemma AlikeKind(m: Machine, kk: seq<Value>, v: Code, v': Code, k: Kind, open: set<nat>, r: Regs)
    requires Alike(v, v', open) && (k.VReloc? ==> k.p < |v| && v[k.p].IsValue())
    ensures KindValue(m, kk, v', k, r) == KindValue(m, kk, v, k, r)
  {
    if k.VReloc? { assert AlikeAt(v, v', open, k.p); }
  }

  lemma JoinedCore(m: Machine, nact: nat, b: FS, s1: FS, h: int, l: seq<nat>, x: Expr, sense: bool,
                   s2: FS, e: Exp, t: seq<nat>, f: seq<nat>, y: Expr)
    requires Branch(m, nact, b, s1, h, l, sense, x) && Core(m, nact, s1, s2, e, t, f, y) && Fragment(m, nact, y)
    ensures var g := if sense then f else t;
      var h' := if g == [] then h else if sense then e.f else e.t;
      if sense then Core(m, nact, b, Joined(s2, f, l), Exp(e.k, e.t, h'), t, f + l, EAnd(x, y))
      else Core(m, nact, b, Joined(s2, t, l), Exp(e.k, h', e.f), t + l, f, EOr(x, y))
  {
    hide View, Run, IsList, Paired, Targets, Linked, Alike, Delivers, Eval, Landed, BranchLanded, SetOf, BranchAt, Kept;
    var g := if sense then f else t;
    BranchTests(nact, b, s1, s2, h, l);
    JoinedLists(nact, b, s1, s2, h, l, e, t, f, sense);
    ListsOpen(s1, s2, e, t, f);
    assert forall p :: p in g ==> p in f + t;
    LinkedOk(nact, s2, g, l);
    FrameTrans(nact, b, s1, s2);
    JoinedFrame(b, s1, s2, g, l);
    JoinedDelivers(m, nact, b, s1, h, l, x, sense, s2, e, t, f, y);
  }

  /** luaK_posfix on `and` (sense true) and `or` (sense false). */
  lemma AndOr(m: Machine, nact: nat, b: FS, s1: FS, h: int, l: seq<nat>, x: Expr, sense: bool,
              s2: FS, e: Exp, t: seq<nat>, f: seq<nat>, y: Expr)
    requires Branch(m, nact, b, s1, h, l, sense, x) && Holds(m, nact, s1, s2, e, t, f, y) && Fragment(m, nact, x)
    requires ConstOf(m, x) == NoConst && ConstOf(m, y) == NoConst && !e.k.VLocal? && !e.k.VUpval? && !e.k.VGlobal? &&
      !e.k.VIndexed?
    ensures var g := if sense then f else t;
      var h' := if g == [] then h else if sense then e.f else e.t;
      if sense then Holds(m, nact, b, Joined(s2, f, l), Exp(e.k, e.t, h'), t, f + l, EAnd(x, y))
      else Holds(m, nact, b, Joined(s2, t, l), Exp(e.k, h', e.f), t + l, f, EOr(x, y))
  {
    hide View, Paired, Targets, IsList, Core, Frame, Ok, BranchList, BranchAt;
    JoinedCore(m, nact, b, s1, h, l, x, sense, s2, e, t, f, y);
  }

  lemma JoinedFrame(b: FS, s1: FS, s2: FS, g: seq<nat>, l: seq<nat>)
    requires Frame(b, s2) && |s1.code| >= |b.code| && forall p ::
      p in g ==> p > |s1.code| && p < |s2.code| && s2.code[p].Jmp?
    ensures Frame(b, Joined(s2, g, l))
  {
    hide Linked;
    LinkedAt(s2.code, g, l);
  }

  lemma JoinedDelivers(m: Machine, nact: nat, b: FS, s1: FS, h: int, l: seq<nat>, x: Expr, sense: bool,
                       s2: FS, e: Exp, t: seq<nat>, f: seq<nat>, y: Expr)
    requires Branch(m, nact, b, s1, h, l, sense, x) && Core(m, nact, s1, s2, e, t, f, y) && Fragment(m, nact, y)
    ensures var g, t', f' := if sense then f else t, if sense then t else t + l, if sense then f + l else f;
      Delivers(m, nact, b, Joined(s2, g, l), e.k, t', f', if sense then EAnd(x, y) else EOr(x, y))
  {
    hide View, Run, IsList, Paired, Targets, Linked, Alike, Eval, Fragment, DeliversAt, BranchAt;
    var g := if sense then f else t;
    BranchTests(nact, b, s1, s2, h, l);
    ListsOpen(s1, s2, e, t, f);
    assert forall p :: p in g ==> p in f + t;
    LinkedOk(nact, s2, g, l);
    KindTests(nact, s1, s2, e, t, f);
    ListTests(nact, s2, l);
    JoinedAll(m, nact, b, s1, l, x, sense, s2, e, t, f, y);
  }

  lemma JoinedAll(m: Machine, nact: nat, b: FS, s1: FS, l: seq<nat>, x: Expr, sense: bool, s2: FS, e: Exp, t: seq<nat>,
    f: seq<nat>, y: Expr)
    requires (forall kk, c, r0 :: s1.k <= kk && Start(nact, b, c, r0) ==> BranchAt(m, b, s1, l, sense, x, kk, c, r0))
    requires Delivers(m, nact, s1, s2, e.k, t, f, y) && Fragment(m, nact, y) && s1.k <= s2.k
    requires |b.code| < |s1.code| <= |s2.code| && nact <= b.fr == s1.fr
    requires forall p :: p in l ==> 0 < p < |s1.code| && View(s2)[p - 1] == View(s1)[p - 1] && View(s2)[p - 1].IsTest()
    requires forall p: nat :: p in t || p in f || (e.k.VJmp? && p == e.k.p) ==>
      |s1.code| < p < |s2.code| && View(s2)[p - 1].IsTest()
    requires e.k.VJmp? ==> e.k.p > |s1.code|
    requires e.k.VReloc? ==> e.k.p < |s2.code| && View(s2)[e.k.p].IsValue()
    requires var s3 := Joined(s2, if sense then f else t, l);
      && |s3.code| == |s2.code| && Alike(View(s2), View(s3), s2.open) &&
        (forall i :: 0 <= i < |s2.code| && View(s2)[i].IsTest() ==> View(s3)[i] == View(s2)[i])
    ensures var g, t', f' := if sense then f else t, if sense then t else t + l, if sense then f + l else f;
      Delivers(m, nact, b, Joined(s2, g, l), e.k, t', f', if sense then EAnd(x, y) else EOr(x, y))
  {
    hide View, Run, Alike, Linked, Eval, Fragment, DeliversAt, BranchAt;
    var g, t', f' := if sense then f else t, if sense then t else t + l, if sense then f + l else f;
    var s3, z := Joined(s2, g, l), if sense then EAnd(x, y) else EOr(x, y);
    assert forall p :: p in t' ==> p in t || p in l;
    assert forall p :: p in f' ==> p in f || p in l;
    forall kk, c, r0 | s3.k <= kk && Start(nact, b, c, r0) ensures DeliversAt(m, b, s3, e.k, t', f', z, kk, c, r0)
    {
      StartLater(nact, b, s1, c, r0);
      assert s1.k <= kk;
      JoinedAt(m, nact, b, s1, s2, l, e.k, t, f, sense, x, y, kk, c, r0);
      AlikeDelivers(m, b, s2, s3, e.k, t', f', z, kk, c, r0);
    }
  }

  lemma StartLater(nact: nat, b: FS, s: FS, c: nat, r: Regs)
    requires Start(nact, b, c, r) && |s.code| > |b.code|
    ensures Start(nact, s, c, r)
  {
  }

  lemma KindTests(nact: nat, b: FS, s: FS, e: Exp, t: seq<nat>, f: seq<nat>)
    requires Ok(nact, s) && Lists(b, s, e, t, f)
    ensures forall p: nat :: p in t || p in f || (e.k.VJmp? && p == e.k.p) ==>
      |b.code| < p < |s.code| && View(s)[p - 1].IsTest()
    ensures e.k.VReloc? ==> e.k.p < |s.code| && View(s)[e.k.p].IsValue() && View(s) == s.code
    ensures e.k.VJmp? ==> e.k.p > |b.code|
  {
    hide IsList, Paired, Targets, View;
    if s.jumps == [] { ViewNoJumps(s); }
    forall p: nat | p in t || p in f || (e.k.VJmp? && p == e.k.p) ensures |b.code| < p < |s.code| &&
      View(s)[p - 1].IsTest() { ViewAt(s, p - 1); }
  }

  lemma ListTests(nact: nat, s: FS, l: seq<nat>)
    requires forall p :: p in l ==> 0 < p < |s.code| && s.code[p - 1].IsTest()
    ensures forall p :: p in l ==> View(s)[p - 1].IsTest()
  {
    hide View;
    forall p | p in l ensures View(s)[p - 1].IsTest() { ViewAt(s, p - 1); }
  }

  // ---- not ----

  function RemovedAt(code: Code, l: seq<nat>, i: nat): Instr
    requires i < |code|
  {
    if i + 1 in l && code[i].TestSet? then Test(code[i].b, code[i].cond) else code[i]
  }

  /** removevalues: the tests before the jumps of l store nothing. */
  function Removed(code: Code, l: seq<nat>): (w: Code)
    ensures |w| == |code| && forall i :: 0 <= i < |code| ==> w[i] == RemovedAt(code, l, i)
  {
    seq(|code|, i requires 0 <= i < |code| => RemovedAt(code, l, i))
  }

  function WithoutValues(s: FS, l: seq<nat>): FS {
    s.(code := Removed(s.code, l))
  }

  lemma WithoutOk(nact: nat, s: FS, l: seq<nat>)
    requires Ok(nact, s) && s.jumps == [] && (forall p :: p in l ==> p in s.open)
    ensures var s' := WithoutValues(s, l);
      Ok(nact, s') && View(s') == s'.code && View(s) == s.code && Alike(View(s), View(s'), s.open)
  {
    var s' := WithoutValues(s, l);
    ViewNoJumps(s);
    ViewNoJumps(s');
    forall i | 0 <= i < |s.code| ensures PairedAt(s'.code, i) && AlikeAt(s.code, s'.code, s.open, i)
    {
      assert PairedAt(s.code, i) && s'.code[i] == RemovedAt(s.code, l, i);
      if i + 1 < |s.code| { assert s'.code[i + 1] == RemovedAt(s.code, l, i + 1); }
    }
    forall i | 0 <= i < |s.code| && s'.code[i].Jmp?
      ensures s'.code[i] == s.code[i] { assert s'.code[i] == RemovedAt(s.code, l, i); }
    forall p | p in s.open ensures s'.code[p].Jmp? { assert s'.code[p] == RemovedAt(s.code, l, p); }
  }

  lemma WithoutLists(b: FS, s: FS, e: Exp, t: seq<nat>, f: seq<nat>)
    requires Lists(b, s, e, t, f) && Frame(b, s)
    ensures Lists(b, WithoutValues(s, f + t), Exp(e.k, e.f, e.t), f, t) && Frame(b, WithoutValues(s, f + t))
  {
    hide IsList, Removed, SetOf;
    var l, s' := f + t, WithoutValues(s, f + t);
    assert forall p :: p in l <==> p in f || p in t;
    RemovedParts(s.code, l);
    ListInside(s.code, e.t, t);
    ListInside(s.code, e.f, f);
    SameList(s.code, s'.code, e.t, t);
    SameList(s.code, s'.code, e.f, f);
    assert s.open == b.open + SetOf(f) + SetOf(t) + JumpOf(e.k);
  }

  /** Removing values touches only TESTSETs just before the listed jumps, and leaves tests there. */
  lemma RemovedParts(code: Code, l: seq<nat>)
    ensures forall i :: 0 <= i < |code| && (i + 1 !in l || !code[i].TestSet?) ==> Removed(code, l)[i] == code[i]
    ensures forall i :: 0 <= i < |code| && code[i].IsTest() ==> Removed(code, l)[i].IsTest()
    ensures |Removed(code, l)| == |code|
  {
    forall i | 0 <= i < |code| ensures Removed(code, l)[i] == RemovedAt(code, l, i) {}
  }

  /** After the removal no jump of the lists carries a value. */
  lemma NoValues(s: FS, l: seq<nat>)
    requires View(WithoutValues(s, l)) == WithoutValues(s, l).code
    ensures forall p :: p in l && 0 < p <= |s.code| ==> !View(WithoutValues(s, l))[p - 1].TestSet?
  {
    forall p | p in l && 0 < p <= |s.code| ensures !View(WithoutValues(s, l))[p - 1].TestSet?
    {
      assert WithoutValues(s, l).code[p - 1] == RemovedAt(s.code, l, p - 1);
    }
  }

  lemma NotRelocAt(m: Machine, b: FS, s: FS, t: seq<nat>, f: seq<nat>, reg: nat, x: Expr, kk: seq<Value>, c: nat,
    r0: Regs)
    requires c <= |b.code| <= |s.code| && (forall p :: p in t || p in f ==> 0 < p < |s.code|)
    requires DeliversAt(m, b, s, VNonReloc(reg), t, f, x, kk, c, r0)
    requires var s1 := Emitted(s, Not(0, reg));
      var s2 := WithoutValues(s1, f + t);
      View(s1) == s1.code && View(s2) == s2.code && Alike(View(s1), View(s2), s.open)
    ensures DeliversAt(m, b, WithoutValues(Emitted(s, Not(0, reg)), f + t), VReloc(|s.code|), f, t, ENot(x), kk, c, r0)
  {
    hide View, Run, Removed, Alike, Eval;
    NotEval(m, x);
    var i := Not(0, reg);
    var s1 := Emitted(s, i);
    var s2 := WithoutValues(s1, f + t);
    ViewPrefix(s, i);
    RunPrefix(m, kk, View(s), View(s1), c, |s.code|, s.open, s1.open, r0);
    RunAlike(m, kk, View(s1), View(s2), c, |s.code|, s1.open, r0);
    NoValues(s1, f + t);
    assert forall p :: p in t || p in f ==> p in f + t;
    LastIs(View(s1), View(s2), s.open, i);
  }

  lemma LastIs(v: Code, v': Code, open: set<nat>, i: Instr)
    requires Alike(v, v', open) && |v| > 0 && v[|v| - 1] == i && i.IsValue()
    ensures |v'| == |v| && v'[|v| - 1] == i
  {
    assert AlikeAt(v, v', open, |v| - 1);
  }

  /** codenot on a value in a register. */
  lemma NotReloc(m: Machine, nact: nat, b: FS, s: FS, e: Exp, t: seq<nat>, f: seq<nat>, x: Expr)
    requires Core(m, nact, b, s, e, t, f, x) && e.k.VNonReloc?
    ensures var s1 := Emitted(s, Not(0, e.k.reg));
      Core(m, nact, b, WithoutValues(s1, f + t), Exp(VReloc(|s.code|), e.f, e.t), f, t, ENot(x))
  {
    hide View, Run, IsList, Paired, Targets, Removed, Alike, Eval;
    var i := Not(0, e.k.reg);
    var s1 := Emitted(s, i);
    var s2 := WithoutValues(s1, f + t);
    EmitOk(nact, s, i);
    EmitFrame(nact, b, s, i);
    EmitLists(nact, b, s, e, t, f, i, VReloc(|s.code|));
    ListsOpen(b, s1, Exp(VReloc(|s.code|), e.t, e.f), t, f);
    WithoutOk(nact, s1, f + t);
    WithoutLists(b, s1, Exp(VReloc(|s.code|), e.t, e.f), t, f);
    ListsPlain(b, s, e, t, f);
    NotRelocAll(m, nact, b, s, e, t, f, x);
  }

  lemma ListsOpen(b: FS, s: FS, e: Exp, t: seq<nat>, f: seq<nat>)
    requires Lists(b, s, e, t, f)
    ensures forall p :: p in f + t ==> p in s.open
  {
  }

  lemma NotRelocAll(m: Machine, nact: nat, b: FS, s: FS, e: Exp, t: seq<nat>, f: seq<nat>, x: Expr)
    requires Delivers(m, nact, b, s, e.k, t, f, x) && e.k.VNonReloc? && |b.code| <= |s.code|
    requires (forall p :: p in t || p in f ==> 0 < p < |s.code|)
    requires var s1 := Emitted(s, Not(0, e.k.reg));
      var s2 := WithoutValues(s1, f + t);
      View(s1) == s1.code && View(s2) == s2.code && Alike(View(s1), View(s2), s.open)
    ensures Delivers(m, nact, b, WithoutValues(Emitted(s, Not(0, e.k.reg)), f + t), VReloc(|s.code|), f, t, ENot(x))
  {
    hide View, Run, Removed, Alike, Eval;
    var s2, k, z := WithoutValues(Emitted(s, Not(0, e.k.reg)), f + t), VReloc(|s.code|), ENot(x);
    forall kk, c, r0 | s2.k <= kk && Start(nact, b, c, r0) ensures DeliversAt(m, b, s2, k, f, t, z, kk, c, r0)
    {
      NotRelocAt(m, b, s, t, f, e.k.reg, x, kk, c, r0);
    }
  }

  lemma NotJmpAt(m: Machine, nact: nat, b: FS, s: FS, e: Exp, t: seq<nat>, f: seq<nat>, x: Expr, kk: seq<Value>,
    c: nat, r0: Regs)
    requires Ok(nact, s) && Lists(b, s, e, t, f) && e.k.VJmp? && c <= |b.code| &&
      DeliversAt(m, b, s, e.k, t, f, x, kk, c, r0)
    requires 0 < e.k.p < |s.code| && s.code[e.k.p - 1].CmpOp?
    requires var s1 := Inverted(s, e.k.p);
      var s2 := WithoutValues(s1, f + t);
      View(s2) == s2.code && Alike(View(s1), View(s2), s.open)
    ensures DeliversAt(m, b, WithoutValues(Inverted(s, e.k.p), f + t), e.k, f, t, ENot(x), kk, c, r0)
  {
    hide View, Run, Removed, Alike, IsList, Ok, Lists, Eval, Landed, CutLanded, Inverted;
    JmpFacts(nact, b, s, e, t, f);
    var s1 := Inverted(s, e.k.p);
    var s2 := WithoutValues(s1, f + t);
    InvertedAt(m, nact, b, s, e, t, f, x, kk, c, r0);
    RunAlike(m, kk, View(s1), View(s2), c, |s.code|, s1.open, r0);
    NoValues(s1, f + t);
    NotEval(m, x);
    assert forall p :: p in t || p in f ==> p in f + t;
    NotJmpTest(s, e.k.p, f + t);
    var start := Before(m, kk, b, c, r0);
    if start.Fall? {
      NotJmpLanded(m, kk, View(s), View(s2), e.k, t, f, b.fr, Eval(m, x, start.r), start.r,
        After(m, kk, s, |s.code|, c, r0), After(m, kk, s2, |s.code|, c, r0));
    }
  }

  lemma JmpFacts(nact: nat, b: FS, s: FS, e: Exp, t: seq<nat>, f: seq<nat>)
    requires Ok(nact, s) && Lists(b, s, e, t, f) && e.k.VJmp?
    ensures e.k.p !in t && e.k.p !in f && 0 < e.k.p < |s.code| && s.code[e.k.p - 1].CmpOp? && e.k.p > |b.code|
    ensures forall p :: p in t || p in f ==> 0 < p < |s.code|
    ensures |Inverted(s, e.k.p).code| == |s.code| && Inverted(s, e.k.p).open == s.open && Inverted(s, e.k.p).k == s.k
  {
    hide IsList, Paired, Targets;
  }

  /** What becomes of the outcome of a comparison when it is inverted and its lists are exchanged. */
  lemma NotJmpLanded(m: Machine, kk: seq<Value>, v: Code, v2: Code, k: Kind, t: seq<nat>, f: seq<nat>, fr: nat,
    value: Value, r: Regs,
                     out: Outcome, out2: Outcome)
    requires k.VJmp? && k.p !in t && k.p !in f && |v| == |v2| && 0 < k.p <= |v| &&
      Landed(m, kk, v, k, t, f, fr, value, r, out)
    requires out.Fall? ==> out2 == Exit(k.p, out.r)
    requires out.Exit? ==> out2 == if out.p == k.p then Fall(out.r) else out
    requires forall p :: p in t || p in f ==> 0 < p <= |v| && !v2[p - 1].TestSet?
    requires !v2[k.p - 1].TestSet? && !v[k.p - 1].TestSet?
    ensures Landed(m, kk, v2, k, f, t, fr, Bool(Falsy(value)), r, out2)
  {
  }

  lemma NotEval(m: Machine, x: Expr)
    ensures forall r :: Eval(m, ENot(x), r) == Bool(Falsy(Eval(m, x, r)))
  {
  }

  lemma NotJmpTest(s: FS, p: nat, l: seq<nat>)
    requires 0 < p < |s.code| && s.code[p - 1].CmpOp? &&
      View(WithoutValues(Inverted(s, p), l)) == WithoutValues(Inverted(s, p), l).code
    requires View(s) == s.code
    ensures !View(WithoutValues(Inverted(s, p), l))[p - 1].TestSet? && !View(s)[p - 1].TestSet?
  {
    assert WithoutValues(Inverted(s, p), l).code[p - 1] == RemovedAt(Inverted(s, p).code, l, p - 1);
  }

  /** codenot on a comparison. */
  lemma NotJmp(m: Machine, nact: nat, b: FS, s: FS, e: Exp, t: seq<nat>, f: seq<nat>, x: Expr)
    requires Core(m, nact, b, s, e, t, f, x) && e.k.VJmp?
    ensures Core(m, nact, b, WithoutValues(Inverted(s, e.k.p), f + t), Exp(e.k, e.f, e.t), f, t, ENot(x))
  {
    hide View, Run, IsList, Paired, Targets, Removed, Alike, Eval;
    var s1 := Inverted(s, e.k.p);
    var s2, z := WithoutValues(s1, f + t), ENot(x);
    InvertedOk(nact, s, e.k.p);
    InvertedLists(b, s, e, t, f);
    ListsOpen(b, s1, e, t, f);
    WithoutOk(nact, s1, f + t);
    WithoutLists(b, s1, e, t, f);
    forall kk, c, r0 | s2.k <= kk && Start(nact, b, c, r0) ensures DeliversAt(m, b, s2, e.k, f, t, z, kk, c, r0)
    {
      NotJmpAt(m, nact, b, s, e, t, f, x, kk, c, r0);
    }
  }
}
