/** Tests, conditional jumps and the short-circuit operators: what they do to the value delivered. */
module CondProofs {
  import opened Common
  import opened LuaVm
  import opened ExprSem
  import opened ExprProofs

  // ---- a test followed by a pending jump ----

  /** condjump with no list to join. */
  function CondJumped(s: FS, i: Instr): FS {
    s.(code := View(s) + [i, Jmp(NO_JUMP)], jumps := [], open := s.open + {|s.code| + 1})
  }

  lemma CondOk(nact: nat, s: FS, i: Instr)
    requires Ok(nact, s) && i.IsTest()
    ensures Ok(nact, CondJumped(s, i)) && View(CondJumped(s, i)) == CondJumped(s, i).code
  {
    var s' := CondJumped(s, i);
    ViewNoJumps(s');
    var v, v' := View(s), View(s');
    forall j | 0 <= j < |v'| ensures PairedAt(v', j) { if j < |v| { assert PairedAt(v, j); } }
    forall p | p in s'.open ensures p < |s'.code| && s'.code[p].Jmp? { if p < |v| { ViewAt(s, p); } }
  }

  lemma CondFrame(nact: nat, b: FS, s: FS, i: Instr)
    requires Ok(nact, b) && Frame(b, s)
    ensures Frame(b, CondJumped(s, i))
  {
    EmitFrame(nact, b, s, i);
    var s', s1 := CondJumped(s, i), Emitted(s, i);
    assert forall j :: 0 <= j < |s.code| ==> s'.code[j] == s1.code[j];
  }

  lemma CondList(s: FS, i: Instr, head: int, l: seq<nat>)
    requires IsList(s.code, head, l) && forall p :: p in l ==> p !in s.jumps
    ensures IsList(CondJumped(s, i).code, head, l)
  {
    ListInside(s.code, head, l);
    EmitList(s, i, head, l);
    SameList(Emitted(s, i).code, CondJumped(s, i).code, head, l);
  }

  lemma CondStep(m: Machine, kk: seq<Value>, v: Code, pend: set<nat>, r: Regs)
    requires |v| >= 2 && v[|v| - 2].IsTest() && v[|v| - 1].Jmp? && |v| - 1 in pend
    ensures Run(m, kk, v, |v| - 2, |v|, pend, r) ==
      if Jumps(m, kk, v[|v| - 2], r) then Exit(|v| - 1, r) else Fall(r)
  {
    assert v[..|v|] == v;
  }

  // ---- a value tested: the run goes on, or leaves through one of three kinds of jumps ----

  /** The lists of the expression, and the jump pc of the last test, which is the last instruction. */
  ghost predicate CutLists(b: FS, s: FS, th: int, fh: int, t: seq<nat>, f: seq<nat>, pc: nat) {
    && IsList(s.code, th, t) && IsList(s.code, fh, f)
    && (forall p :: p in t || p in f ==> p > |b.code| && p < pc && s.code[p - 1].IsTest())
    && (forall p :: p in t ==> p !in f)
    && s.open == b.open + SetOf(t) + SetOf(f) + {pc}
    && pc == |s.code| - 1 && pc > |b.code| && s.code[pc] == Jmp(NO_JUMP) && s.code[pc - 1].IsTest()
    && s.jumps == [] && s.lt < pc
  }

  predicate CutLanded(v: Code, t: seq<nat>, f: seq<nat>, pc: nat, cond: bool, fr: nat, value: Value, r: Regs,
    out: Outcome) {
    match out
    case Stuck => false
    case Fall(r') => Same(r, r', fr) && Falsy(value) == cond
    case Exit(p, r') =>
      && Same(r, r', fr) && (p in t || p in f || p == pc)
      && (p in f ==> Exits(v, p, r', false, value))
      && (p in t ==> Exits(v, p, r', true, value))
      && (p == pc ==> Exits(v, p, r', cond, value))
  }

  ghost predicate CutAt(m: Machine, b: FS, s: FS, t: seq<nat>, f: seq<nat>, pc: nat, cond: bool, x: Expr,
    kk: seq<Value>, c: nat, r0: Regs)
    requires c <= |b.code|
  {
    match Before(m, kk, b, c, r0)
    case Stuck => true
    case Exit(p, r) => After(m, kk, s, |s.code|, c, r0) == Exit(p, r)
    case Fall(r) => CutLanded(View(s), t, f, pc, cond, b.fr, Eval(m, x, r), r, After(m, kk, s, |s.code|, c, r0))
  }

  /** After jumponcond: the jump pc is taken exactly when the value of x is as `cond` says. */
  ghost predicate Cut(m: Machine, nact: nat, b: FS, s: FS, th: int, fh: int, t: seq<nat>, f: seq<nat>, pc: nat,
    cond: bool, x: Expr) {
    && Ok(nact, b) && Ok(nact, s) && Frame(b, s) && CutLists(b, s, th, fh, t, f, pc) && s.fr == b.fr
    && forall kk, c, r0 :: s.k <= kk && Start(nact, b, c, r0) ==> CutAt(m, b, s, t, f, pc, cond, x, kk, c, r0)
  }

  lemma PrefixViews(v: Code, w: Code, n: nat)
    requires n <= |v| && n <= |w| && w[..n] == v[..n]
    ensures forall i :: 0 <= i < n ==> w[i] == v[i]
  {
    forall i | 0 <= i < n ensures w[i] == v[i] { assert w[..n][i] == v[..n][i]; }
  }

  lemma CondPrefix(s: FS, i: Instr)
    ensures var s' := CondJumped(s, i);
      |View(s')| == |s.code| + 2 && View(s')[..|s.code|] == View(s) && View(s')[|s.code|] == i &&
        View(s')[|s.code| + 1] == Jmp(NO_JUMP)
  {
    var s' := CondJumped(s, i);
    ViewNoJumps(s');
    assert View(s')[..|s.code|] == View(s);
  }

  lemma TestAt(m: Machine, b: FS, s: FS, t: seq<nat>, f: seq<nat>, reg: nat, cond: bool, x: Expr, kk: seq<Value>,
    c: nat, r0: Regs)
    requires c <= |b.code| <= |s.code| && (forall p :: p in t || p in f ==> 0 < p < |s.code|) &&
      forall p :: p in s.open ==> p < |s.code|
    requires DeliversAt(m, b, s, VNonReloc(reg), t, f, x, kk, c, r0)
    ensures CutAt(m, b, CondJumped(s, TestSet(NO_REG, reg, cond)), t, f, |s.code| + 1, cond, x, kk, c, r0)
  {
    hide View, Run, Eval;
    var i := TestSet(NO_REG, reg, cond);
    var s' := CondJumped(s, i);
    CondPrefix(s, i);
    PrefixViews(View(s), View(s'), |s.code|);
    RunExtended(m, kk, View(s), |s.code|, View(s'), |s'.code|, c, s.open, s'.open, r0);
    var out := After(m, kk, s, |s.code|, c, r0);
    if out.Fall? { CondStep(m, kk, View(s'), s'.open, out.r); }
  }

  lemma CondCutLists(nact: nat, b: FS, s: FS, e: Exp, t: seq<nat>, f: seq<nat>, i: Instr)
    requires Ok(nact, s) && Frame(b, s) && i.IsTest() && IsList(s.code, e.t, t) && IsList(s.code, e.f, f)
    requires forall p :: p in t || p in f ==> p > |b.code| && p < |s.code| && s.code[p - 1].IsTest()
    requires (forall p :: p in t ==> p !in f) && s.open == b.open + SetOf(t) + SetOf(f)
    ensures CutLists(b, CondJumped(s, i), e.t, e.f, t, f, |s.code| + 1)
  {
    hide IsList, Paired, Targets, View;
    assert forall p :: p in t || p in f ==> p in s.open;
    CondList(s, i, e.t, t);
    CondList(s, i, e.f, f);
    forall p | p in t || p in f ensures CondJumped(s, i).code[p - 1].IsTest() { ViewAt(s, p - 1); }
    CondLast(s, i);
  }

  lemma CondLast(s: FS, i: Instr)
    ensures var code := CondJumped(s, i).code; |code| == |s.code| + 2 && code[|s.code| + 1] == Jmp(NO_JUMP) && code[|s.code|] == i
  {
  }

  lemma ListsPlain(b: FS, s: FS, e: Exp, t: seq<nat>, f: seq<nat>)
    requires Lists(b, s, e, t, f) && e.k.VNonReloc?
    ensures s.open == b.open + SetOf(t) + SetOf(f) && (forall p :: p in t || p in f ==> 0 < p < |s.code|)
  {
  }

  lemma OpenInside(nact: nat, s: FS)
    requires Ok(nact, s)
    ensures forall p :: p in s.open ==> p < |s.code|
  {
  }

  /** jumponcond on a value in a register. */
  lemma TestCut(m: Machine, nact: nat, b: FS, s: FS, e: Exp, t: seq<nat>, f: seq<nat>, x: Expr, cond: bool)
    requires Core(m, nact, b, s, e, t, f, x) && e.k.VNonReloc? && s.fr == b.fr
    ensures Cut(m, nact, b, CondJumped(s, TestSet(NO_REG, e.k.reg, cond)), e.t, e.f, t, f, |s.code| + 1, cond, x)
  {
    hide View, Run, IsList, Paired, Targets;
    var i := TestSet(NO_REG, e.k.reg, cond);
    var s', pc := CondJumped(s, i), |s.code| + 1;
    CondOk(nact, s, i);
    CondFrame(nact, b, s, i);
    ListsPlain(b, s, e, t, f);
    OpenInside(nact, s);
    CondCutLists(nact, b, s, e, t, f, i);
    forall kk, c, r0 | s'.k <= kk && Start(nact, b, c, r0) ensures CutAt(m, b, s', t, f, pc, cond, x, kk, c, r0)
    {
      TestAt(m, b, s, t, f, e.k.reg, cond, x, kk, c, r0);
    }
  }

  // ---- the same on `not`: the instruction is taken back ----

  function TakenBack(s: FS): FS
    requires |s.code| > 0
  {
    s.(code := s.code[..|s.code| - 1])
  }

  lemma BackOk(nact: nat, s: FS)
    requires Ok(nact, s) && |s.code| > 0 && s.code[|s.code| - 1].IsValue() && s.jumps == [] && s.lt < |s.code|
    ensures Ok(nact, TakenBack(s)) && View(TakenBack(s)) == TakenBack(s).code && View(s) == s.code
  {
    var s' := TakenBack(s);
    ViewNoJumps(s);
    ViewNoJumps(s');
    forall j | 0 <= j < |s'.code| ensures PairedAt(s'.code, j) { assert PairedAt(s.code, j); }
  }

  lemma BackList(code: Code, head: int, l: seq<nat>)
    requires IsList(code, head, l) && |code| > 0 && !code[|code| - 1].Jmp?
    ensures IsList(code[..|code| - 1], head, l)
  {
    ListInside(code, head, l);
    SameList(code, code[..|code| - 1], head, l);
  }

  lemma NotAt(m: Machine, b: FS, s: FS, t: seq<nat>, f: seq<nat>, cond: bool, x: Expr, kk: seq<Value>, c: nat, r0: Regs)
    requires |s.code| > 0 && s.code[|s.code| - 1].Not? && s.jumps == [] && c <= |b.code| < |s.code|
    requires (forall p :: p in t || p in f ==> 0 < p < |s.code| - 1) && forall p :: p in s.open ==> p < |s.code| - 1
    requires DeliversAt(m, b, s, VReloc(|s.code| - 1), t, f, x, kk, c, r0)
    ensures CutAt(m, b, CondJumped(TakenBack(s), Test(s.code[|s.code| - 1].b, !cond)), t, f, |s.code|, cond, x, kk, c,
      r0)
  {
    hide View, Run, Eval;
    var n, i := |s.code| - 1, Test(s.code[|s.code| - 1].b, !cond);
    var s1 := TakenBack(s);
    var s' := CondJumped(s1, i);
    ViewNoJumps(s);
    ViewNoJumps(s1);
    CondPrefix(s1, i);
    assert View(s')[..n] == View(s)[..n];
    PrefixViews(View(s), View(s'), n);
    RunExtended(m, kk, View(s), n, View(s'), |s'.code|, c, s.open, s'.open, r0);
    var out := After(m, kk, s, n, c, r0);
    if out.Fall? { CondStep(m, kk, View(s'), s'.open, out.r); }
  }

  lemma BackCutLists(nact: nat, b: FS, s: FS, e: Exp, t: seq<nat>, f: seq<nat>, i: Instr)
    requires Ok(nact, TakenBack'(s)) && Lists(b, s, e, t, f) && e.k.VReloc? && i.IsTest() && Frame(b, s)
    ensures CutLists(b, CondJumped(TakenBack'(s), i), e.t, e.f, t, f, |s.code|)
  {
    hide Paired, Targets, View, SetOf;
    var s1 := TakenBack'(s);
    BeforeLast(b, s, e, t, f);
    BackList(s.code, e.t, t);
    BackList(s.code, e.f, f);
    assert forall p :: p in t || p in f ==> s1.code[p - 1] == s.code[p - 1];
    BackCut(nact, b, s1, e, t, f, i);
  }

  function TakenBack'(s: FS): FS { if |s.code| > 0 then TakenBack(s) else s }

  lemma BackCut(nact: nat, b: FS, s: FS, e: Exp, t: seq<nat>, f: seq<nat>, i: Instr)
    requires Ok(nact, s) && i.IsTest() && IsList(s.code, e.t, t) && IsList(s.code, e.f, f) && s.jumps == [] &&
      |b.code| <= |s.code|
    requires forall p :: p in t || p in f ==> p > |b.code| && p < |s.code| && s.code[p - 1].IsTest()
    requires (forall p :: p in t ==> p !in f) && s.open == b.open + SetOf(t) + SetOf(f)
    ensures CutLists(b, CondJumped(s, i), e.t, e.f, t, f, |s.code| + 1)
  {
    hide IsList, Paired, Targets, View;
    assert forall p :: p in t || p in f ==> p in s.open;
    CondList(s, i, e.t, t);
    CondList(s, i, e.f, f);
    forall p | p in t || p in f ensures CondJumped(s, i).code[p - 1].IsTest() { ViewAt(s, p - 1); }
    CondLast(s, i);
  }

  lemma OpenBefore(nact: nat, s: FS)
    requires Ok(nact, s) && |s.code| > 0 && s.code[|s.code| - 1].IsValue()
    ensures forall p :: p in s.open ==> p < |s.code| - 1
  {
  }

  lemma BackCondFrame(b: FS, s: FS, i: Instr)
    requires Frame(b, s) && |s.code| > |b.code| && s.jumps == [] && (forall p :: p in s.open ==> p < |s.code| - 1)
    ensures Frame(b, CondJumped(TakenBack(s), i))
  {
    var s' := CondJumped(TakenBack(s), i);
    ViewNoJumps(TakenBack(s));
    assert forall j :: 0 <= j < |s.code| - 1 ==> s'.code[j] == s.code[j];
  }

  /** jumponcond on a `not` still to be given a register. */
  lemma NotCut(m: Machine, nact: nat, b: FS, s: FS, e: Exp, t: seq<nat>, f: seq<nat>, x: Expr, cond: bool)
    requires Core(m, nact, b, s, e, t, f, x) && e.k.VReloc? && s.code[e.k.p].Not? && s.fr == b.fr
    ensures Cut(m, nact, b, CondJumped(TakenBack(s), Test(s.code[e.k.p].b, !cond)), e.t, e.f, t, f, |s.code|, cond, x)
  {
    var i := Test(s.code[e.k.p].b, !cond);
    var s' := CondJumped(TakenBack(s), i);
    BackOk(nact, s);
    CondOk(nact, TakenBack(s), i);
    OpenBefore(nact, s);
    BackCondFrame(b, s, i);
    BeforeLast(b, s, e, t, f);
    BackCutLists(nact, b, s, e, t, f, i);
    forall kk, c, r0 | s'.k <= kk && Start(nact, b, c, r0) ensures CutAt(m, b, s', t, f, |s.code|, cond, x, kk, c, r0)
    {
      NotAt(m, b, s, t, f, cond, x, kk, c, r0);
    }
  }

  // ---- comparisons: their own jump, as it is or inverted ----

  /** A comparison that is to jump when it is true. */
  lemma JmpCut(m: Machine, nact: nat, b: FS, s: FS, e: Exp, t: seq<nat>, f: seq<nat>, x: Expr)
    requires Core(m, nact, b, s, e, t, f, x) && e.k.VJmp? && s.fr == b.fr
    ensures Cut(m, nact, b, s, e.t, e.f, t, f, e.k.p, true, x)
  {
    hide View, Run, IsList, Paired, Targets, Eval;
    JmpCutLists(b, s, e, t, f);
    var p := e.k.p;
    forall kk, c, r0 | s.k <= kk && Start(nact, b, c, r0) ensures CutAt(m, b, s, t, f, p, true, x, kk, c, r0)
    {
      assert DeliversAt(m, b, s, e.k, t, f, x, kk, c, r0);
    }
  }

  lemma JmpCutLists(b: FS, s: FS, e: Exp, t: seq<nat>, f: seq<nat>)
    requires Lists(b, s, e, t, f) && e.k.VJmp?
    ensures CutLists(b, s, e.t, e.f, t, f, e.k.p)
  {
  }

  /** invertjump */
  function Inverted(s: FS, p: nat): FS
    requires 0 < p <= |s.code| && s.code[p - 1].CmpOp?
  {
    var i := s.code[p - 1];
    s.(code := s.code[p - 1 := CmpOp(i.cmp, !i.cond, i.b, i.c)])
  }

  lemma InvertedOk(nact: nat, s: FS, p: nat)
    requires Ok(nact, s) && s.jumps == [] && 0 < p < |s.code| && s.code[p - 1].CmpOp?
    ensures Ok(nact, Inverted(s, p)) && View(Inverted(s, p)) == Inverted(s, p).code && View(s) == s.code
  {
    var s' := Inverted(s, p);
    ViewNoJumps(s);
    ViewNoJumps(s');
    forall j | 0 <= j < |s'.code| ensures PairedAt(s'.code, j) { assert PairedAt(s.code, j); }
  }

  lemma InvertedLists(b: FS, s: FS, e: Exp, t: seq<nat>, f: seq<nat>)
    requires Lists(b, s, e, t, f) && e.k.VJmp? && Frame(b, s)
    ensures Frame(b, Inverted(s, e.k.p)) && Lists(b, Inverted(s, e.k.p), e, t, f)
  {
    hide IsList;
    var s' := Inverted(s, e.k.p);
    ListInside(s.code, e.t, t);
    ListInside(s.code, e.f, f);
    SameList(s.code, s'.code, e.t, t);
    SameList(s.code, s'.code, e.f, f);
  }

  /** After inverting, the runs that fell out of the last test jump, and the others fall. */
  lemma InvertedRun(m: Machine, nact: nat, s: FS, kk: seq<Value>, c: nat, r0: Regs)
    requires Ok(nact, s) && |s.code| >= 2 && s.code[|s.code| - 2].CmpOp? && s.code[|s.code| - 1].Jmp? &&
      |s.code| - 1 in s.open
    requires s.lt < |s.code| - 1 && s.jumps == [] && c < |s.code| - 1
    ensures var p := |s.code| - 1;
      var out, out' := After(m, kk, s, |s.code|, c, r0), After(m, kk, Inverted(s, p), |s.code|, c, r0);
      match out
      case Stuck => true
      case Fall(r) => out' == Exit(p, r)
      case Exit(q, r) => out' == if q == p then Fall(r) else Exit(q, r)
  {
    hide Run, Paired, Targets, Inside;
    var n, q := |s.code|, |s.code| - 2;
    var s' := Inverted(s, n - 1);
    InvertedOk(nact, s, n - 1);
    InsideLast(nact, s, q);
    InsideLast(nact, s', q);
    assert View(s')[..q] == View(s)[..q];
    Through(m, kk, View(s), q, n, c, s.open, r0);
    Through(m, kk, View(s'), q, n, c, s.open, r0);
    RunPrefix(m, kk, View(s), View(s'), c, q, s.open, s.open, r0);
    RunInside(m, kk, View(s), c, q, s.open, r0);
    var out := Run(m, kk, View(s), c, q, s.open, r0);
    if out.Fall? { InvertedStep(m, kk, s, out.r); }
  }

  lemma InvertedStep(m: Machine, kk: seq<Value>, s: FS, r: Regs)
    requires |s.code| >= 2 && s.code[|s.code| - 2].CmpOp? && s.code[|s.code| - 1].Jmp? && |s.code| - 1 in s.open
    requires View(s) == s.code && View(Inverted(s, |s.code| - 1)) == Inverted(s, |s.code| - 1).code
    ensures var n := |s.code|;
      var s' := Inverted(s, n - 1);
      var out, out' := Run(m, kk, View(s), n - 2, n, s.open, r), Run(m, kk, View(s'), n - 2, n, s.open, r);
      (out == Fall(r) && out' == Exit(n - 1, r)) || (out == Exit(n - 1, r) && out' == Fall(r))
  {
    hide Run, View;
    CondStep(m, kk, View(s), s.open, r);
    CondStep(m, kk, View(Inverted(s, |s.code| - 1)), s.open, r);
  }

  /** A run leaves through a jump it has passed. */
  lemma {:induction false} RunInside(m: Machine, kk: seq<Value>, v: Code, pc: nat, end: nat, pend: set<nat>, r: Regs)
    requires end <= |v|
    ensures Run(m, kk, v, pc, end, pend, r).Exit? ==> Run(m, kk, v, pc, end, pend, r).p < end
    decreases end - pc
  {
    if pc < end {
      var n := Step(m, kk, v[..end], pc, pend, r);
      if n.Goto? && pc < n.pc <= end { RunInside(m, kk, v, n.pc, end, pend, n.r); }
    }
  }

  ghost predicate InvertedOutcome(m: Machine, s: FS, p: nat, kk: seq<Value>, c: nat, r0: Regs)
    requires 0 < p <= |s.code| && s.code[p - 1].CmpOp?
  {
    var s' := Inverted(s, p);
    var out, out' := After(m, kk, s, |s.code|, c, r0), After(m, kk, s', |s.code|, c, r0);
    && (out.Fall? ==> out' == Exit(p, out.r)) && (out.Exit? ==> out' == if out.p == p then Fall(out.r)
      else Exit(out.p, out.r))
    && View(s') == s'.code && View(s) == s.code
  }

  lemma InvertedAt(m: Machine, nact: nat, b: FS, s: FS, e: Exp, t: seq<nat>, f: seq<nat>, x: Expr, kk: seq<Value>,
    c: nat, r0: Regs)
    requires Ok(nact, s) && Lists(b, s, e, t, f) && e.k.VJmp? && c <= |b.code| &&
      DeliversAt(m, b, s, e.k, t, f, x, kk, c, r0)
    ensures CutAt(m, b, Inverted(s, e.k.p), t, f, e.k.p, false, x, kk, c, r0)
    ensures InvertedOutcome(m, s, e.k.p, kk, c, r0)
  {
    hide Run, IsList, Paired, Targets, Eval, View;
    InvertedRun(m, nact, s, kk, c, r0);
    InvertedOk(nact, s, e.k.p);
    RunInside(m, kk, View(b), c, |b.code|, b.open, r0);
  }

  /** ... or inverted, to jump when it is false. */
  lemma InvertedCut(m: Machine, nact: nat, b: FS, s: FS, e: Exp, t: seq<nat>, f: seq<nat>, x: Expr)
    requires Core(m, nact, b, s, e, t, f, x) && e.k.VJmp? && s.fr == b.fr
    ensures Cut(m, nact, b, Inverted(s, e.k.p), e.t, e.f, t, f, e.k.p, false, x)
  {
    hide View, Run, IsList, Paired, Targets, Eval;
    var s', p := Inverted(s, e.k.p), e.k.p;
    InvertedOk(nact, s, p);
    InvertedLists(b, s, e, t, f);
    JmpCutLists(b, s', e, t, f);
    forall kk, c, r0 | s'.k <= kk && Start(nact, b, c, r0) ensures CutAt(m, b, s', t, f, p, false, x, kk, c, r0)
    {
      InvertedAt(m, nact, b, s, e, t, f, x, kk, c, r0);
    }
  }

  // ---- joining lists ----

  /** luaK_concat in the code: the last jump of l1 is linked to the first of l2. */
  function Linked(code: Code, l1: seq<nat>, l2: seq<nat>): Code {
    if l1 == [] || l2 == [] || l1[|l1| - 1] >= |code| then code
    else code[l1[|l1| - 1] := Jmp(l2[0] as int - (l1[|l1| - 1] as int + 1))]
  }

  /** luaK_concat is list append. */
  lemma LinkedList(code: Code, h1: int, l1: seq<nat>, h2: int, l2: seq<nat>)
    requires IsList(code, h1, l1) && IsList(code, h2, l2) && forall p :: p in l1 ==> p !in l2
    ensures IsList(Linked(code, l1, l2), if l1 == [] then h2 else h1, l1 + l2)
  {
    var l, code' := l1 + l2, Linked(code, l1, l2);
    NoDupConcat(l1, l2);
    if l1 == [] {
      assert l == l2;
    } else if l2 == [] {
      assert l == l1;
    } else {
      forall i | 0 <= i < |l| ensures l[i] < |code'| && code'[l[i]].Jmp? &&
        LinkedTo(code', l, i) { LinkedOne(code, h1, l1, h2, l2, i); }
    }
  }

  lemma LinkedOne(code: Code, h1: int, l1: seq<nat>, h2: int, l2: seq<nat>, i: nat)
    requires IsList(code, h1, l1) && IsList(code, h2, l2) && forall p :: p in l1 ==> p !in l2
    requires l1 != [] && l2 != [] && i < |l1| + |l2|
    ensures var l, code' := l1 + l2, Linked(code, l1, l2); l[i] < |code'| && code'[l[i]].Jmp? && LinkedTo(code', l, i)
  {
    var l, last := l1 + l2, l1[|l1| - 1];
    assert last in l1 && l2[0] in l2 && l2[0] != last;
    if i < |l1| {
      assert l[i] == l1[i] && l1[i] in l1 && LinkedTo(code, l1, i);
      if i + 1 < |l1| { assert l1[i] != last; } else { assert l[i + 1] == l2[0]; }
    } else {
      assert l[i] == l2[i - |l1|] && l2[i - |l1|] in l2 && LinkedTo(code, l2, i - |l1|);
    }
  }

  lemma LinkedOther(code: Code, l1: seq<nat>, l2: seq<nat>, h: int, l: seq<nat>)
    requires IsList(code, h, l) && forall p :: p in l ==> p !in l1
    ensures IsList(Linked(code, l1, l2), h, l)
  {
    ListInside(code, h, l);
    SameList(code, Linked(code, l1, l2), h, l);
  }

  lemma LinkedAt(code: Code, l1: seq<nat>, l2: seq<nat>)
    requires forall p :: p in l1 ==> p < |code| && code[p].Jmp?
    ensures |Linked(code, l1, l2)| == |code|
    ensures forall i :: 0 <= i < |code| ==> Linked(code, l1, l2)[i] == code[i] || (i in l1 && code[i].Jmp? && Linked(code, l1, l2)[i].Jmp?)
  {
    if l1 != [] { assert l1[|l1| - 1] in l1; }
  }

  // ---- luaK_patchtohere ----

  function Here(s: FS, l: seq<nat>): FS {
    s.(code := Linked(s.code, s.jumps, l), jumps := s.jumps + l, open := s.open - SetOf(l), lt := |s.code|)
  }

  lemma HereView(nact: nat, s: FS, l: seq<nat>)
    requires Ok(nact, s) && forall p :: p in l ==> p in s.open
    ensures |Here(s, l).code| == |s.code| && PatchedTo(View(s), |s.code|, View(Here(s, l)), ToHere(l, |s.code|), NO_REG)
  {
    hide Paired, Targets, PatchAt, Linked;
    var s', n := Here(s, l), |s.code|;
    LinkedAt(s.code, s.jumps, l);
    forall i | 0 <= i < n ensures View(s')[i] == PatchAt(View(s), ToHere(l, n), NO_REG, i)
    {
      assert View(s')[i] == PatchAt(s'.code, ToHere(s'.jumps, n), NO_REG, i);
      assert View(s)[i] == PatchAt(s.code, ToHere(s.jumps, n), NO_REG, i);
      PatchTwice(s.code, s'.code, View(s), ToHere(s.jumps, n), ToHere(l, n), ToHere(s'.jumps, n), n, i);
    }
  }

  /** Sending two sets of jumps to one place, one after the other or both at once. */
  lemma PatchTwice(code: Code, code': Code, v: Code, d1: map<nat, nat>, d2: map<nat, nat>, d: map<nat, nat>, here: nat,
    i: nat)
    requires i < |code| && |code'| == |code| == |v| && d.Keys == d1.Keys + d2.Keys && d1.Keys !! d2.Keys
    requires forall p :: p in d ==> d[p] == here
    requires forall p :: p in d1 ==> d1[p] == here
    requires forall p :: p in d2 ==> d2[p] == here
    requires v[i] == PatchAt(code, d1, NO_REG, i)
    requires code'[i] == code[i] || (i in d1 && code[i].Jmp? && code'[i].Jmp?)
    ensures PatchAt(code', d, NO_REG, i) == PatchAt(v, d2, NO_REG, i)
  {
  }

  lemma HereOk(nact: nat, s: FS, l: seq<nat>)
    requires Ok(nact, s) && NoDup(l) && forall p :: p in l ==> p in s.open
    ensures Ok(nact, Here(s, l))
  {
    hide View, Linked, NoDup;
    var s', n := Here(s, l), |s.code|;
    LinkedAt(s.code, s.jumps, l);
    HereView(nact, s, l);
    NoDupConcat(s.jumps, l);
    var v, v' := View(s), View(s');
    forall i | 0 <= i < n ensures PairedAt(v', i) && (v'[i].Jmp? && i !in s'.open ==> i + 1 + v'[i].sbx <= n)
    {
      assert PairedAt(v, i);
      assert v'[i] == PatchAt(v, ToHere(l, n), NO_REG, i);
      if i + 1 < n { assert v'[i + 1] == PatchAt(v, ToHere(l, n), NO_REG, i + 1); }
      if i in l { ViewAt(s, i); }
    }
  }

  lemma HereFrame(nact: nat, b: FS, s: FS, l: seq<nat>)
    requires Ok(nact, b) && Frame(b, s) && |s.code| > |b.code| && s.jumps == [] &&
      (forall p :: p in l ==> |b.code| < p < |s.code|)
    ensures Frame(b, Here(s, l))
  {
  }

  // ---- goiftrue, goiffalse ----

  predicate BranchLanded(v: Code, l: seq<nat>, sense: bool, fr: nat, value: Value, r: Regs, out: Outcome) {
    match out
    case Stuck => false
    case Fall(r') => Same(r, r', fr) && Falsy(value) == !sense
    case Exit(p, r') => Same(r, r', fr) && p in l && Exits(v, p, r', !sense, value)
  }

  ghost predicate BranchAt(m: Machine, b: FS, s: FS, l: seq<nat>, sense: bool, x: Expr, kk: seq<Value>, c: nat,
    r0: Regs)
    requires c <= |b.code|
  {
    match Before(m, kk, b, c, r0)
    case Stuck => true
    case Exit(p, r) => After(m, kk, s, |s.code|, c, r0) == Exit(p, r)
    case Fall(r) => BranchLanded(View(s), l, sense, b.fr, Eval(m, x, r), r, After(m, kk, s, |s.code|, c, r0))
  }

  ghost predicate BranchList(b: FS, s: FS, h: int, l: seq<nat>) {
    && IsList(s.code, h, l) && s.open == b.open + SetOf(l) && |s.code| > |b.code|
    && (forall p :: p in l ==> p > |b.code| && p < |s.code| && s.code[p - 1].IsTest())
  }

  /** The code goes on when the truth of x is `sense`, and leaves through l with the value of x otherwise. */
  ghost predicate Branch(m: Machine, nact: nat, b: FS, s: FS, h: int, l: seq<nat>, sense: bool, x: Expr) {
    && Ok(nact, b) && Ok(nact, s) && Frame(b, s) && BranchList(b, s, h, l) && s.fr == b.fr
    && forall kk, c, r0 :: s.k <= kk && Start(nact, b, c, r0) ==> BranchAt(m, b, s, l, sense, x, kk, c, r0)
  }

  /** The jump of the test joins the list g, and the list o is patched to here. */
  function Gone(s: FS, g: seq<nat>, o: seq<nat>, pc: nat): FS {
    Here(s.(code := Linked(s.code, g, [pc])), o)
  }

  lemma GoneOk(nact: nat, s: FS, g: seq<nat>, o: seq<nat>, pc: nat)
    requires Ok(nact, s) && s.jumps == [] && NoDup(o) && (forall p :: p in o || p in g ==> p in s.open) && pc < |s.code|
    ensures var s1 := s.(code := Linked(s.code, g, [pc]));
      && Ok(nact, s1) && View(s1) == s1.code && View(s) == s.code && Alike(View(s), View(s1), s.open)
      && Ok(nact, Gone(s, g, o, pc))
      && PatchedTo(View(s1), |s.code|, View(Gone(s, g, o, pc)), ToHere(o, |s.code|), NO_REG)
      && |Gone(s, g, o, pc).code| == |s.code| && Gone(s, g, o, pc).code == s1.code
  {
    var s1 := s.(code := Linked(s.code, g, [pc]));
    LinkedOk(nact, s, g, [pc]);
    HereOk(nact, s1, o);
    HereView(nact, s1, o);
  }

  /** Relinking jumps of open lists changes nothing that is run. */
  lemma LinkedOk(nact: nat, s: FS, l1: seq<nat>, l2: seq<nat>)
    requires Ok(nact, s) && (forall p :: p in l1 ==> p in s.open)
    ensures var s1 := s.(code := Linked(s.code, l1, l2));
      && Ok(nact, s1) && |s1.code| == |s.code| && Alike(View(s), View(s1), s.open)
      && (s.jumps == [] ==> View(s1) == s1.code && View(s) == s.code)
      && (forall i :: 0 <= i < |s.code| && View(s)[i].IsTest() ==> View(s1)[i] == View(s)[i])
  {
    var s1 := s.(code := Linked(s.code, l1, l2));
    LinkedAt(s.code, l1, l2);
    var v, v1 := View(s), View(s1);
    if s.jumps == [] { ViewNoJumps(s); ViewNoJumps(s1); }
    forall i | 0 <= i < |s.code| ensures v1[i] == v[i] || (i in s.open && v[i].Jmp? && v1[i].Jmp?)
    {
      assert v1[i] == PatchAt(s1.code, ToHere(s1.jumps, |s.code|), NO_REG, i);
      assert v[i] == PatchAt(s.code, ToHere(s.jumps, |s.code|), NO_REG, i);
    }
    forall i | 0 <= i < |s.code| ensures PairedAt(v1, i) { assert PairedAt(v, i); }
  }

  lemma GoneLists(b: FS, s: FS, gh: int, g: seq<nat>, o: seq<nat>, pc: nat)
    requires IsList(s.code, gh, g) && pc < |s.code| && s.code[pc] == Jmp(NO_JUMP) && pc > |b.code| &&
      s.code[pc - 1].IsTest()
    requires (forall p :: p in g || p in o ==> p > |b.code| && p < pc && s.code[p - 1].IsTest()) && s.jumps == []
    requires s.open == b.open + SetOf(g) + SetOf(o) + {pc} && (forall p :: p in g ==> p !in o)
    requires (forall p :: p in b.open ==> p < |b.code|) && (forall p :: p in g ==> s.code[p].Jmp?)
    ensures BranchList(b, Gone(s, g, o, pc), if g == [] then pc else gh, g + [pc])
  {
    hide IsList, Linked;
    var s2 := Gone(s, g, o, pc);
    OneList(s.code, pc);
    LinkedList(s.code, gh, g, pc, [pc]);
    LinkedAt(s.code, g, [pc]);
    assert s2.code == Linked(s.code, g, [pc]) by { NoLink(Linked(s.code, g, [pc]), o); }
    forall p | p in g + [pc] ensures p > |b.code| && p < |s2.code| &&
      s2.code[p - 1].IsTest() { assert p in g || p == pc; }
    GoneOpen(b, s, g, o, pc);
  }

  lemma OneList(code: Code, pc: nat)
    requires pc < |code| && code[pc] == Jmp(NO_JUMP)
    ensures IsList(code, pc, [pc])
  {
    assert LinkedTo(code, [pc], 0);
  }

  lemma NoLink(code: Code, l: seq<nat>)
    ensures Linked(code, [], l) == code
  {
  }

  lemma GoneOpen(b: FS, s: FS, g: seq<nat>, o: seq<nat>, pc: nat)
    requires s.open == b.open + SetOf(g) + SetOf(o) + {pc} && (forall p :: p in g ==> p !in o)
    requires (forall p :: p in o ==> p != pc && p !in b.open)
    ensures s.open - SetOf(o) == b.open + SetOf(g + [pc])
  {
    assert SetOf(g + [pc]) == SetOf(g) + {pc};
  }

  lemma GoneAt(m: Machine, b: FS, s: FS, g: seq<nat>, o: seq<nat>, pc: nat, t: seq<nat>, f: seq<nat>, cond: bool,
    x: Expr,
               kk: seq<Value>, c: nat, r0: Regs)
    requires g == (if cond then t else f) && o == (if cond then f else t) && c <= |b.code| < pc < |s.code|
    requires (forall p :: p in g ==> p !in o) && (forall p :: p in o ==> p != pc && p > |b.code| && p < pc) &&
      pc > 0 && s.code[pc - 1].IsTest()
    requires (forall p :: p in g ==> 0 < p < |s.code| && s.code[p - 1].IsTest())
    requires (forall p :: p in b.open ==> p < |b.code|) && s.open == b.open + SetOf(g) + SetOf(o) + {pc}
    requires var s1, s2 := s.(code := Linked(s.code, g, [pc])), Gone(s, g, o, pc);
      && |s1.code| == |s.code| && View(s1) == s1.code && View(s) == s.code && Alike(View(s), View(s1), s.open)
      && PatchedTo(View(s1), |s.code|, View(s2), ToHere(o, |s.code|), NO_REG) && |s2.code| == |s.code|
      && (forall i :: 0 <= i < |s.code| && View(s)[i].IsTest() ==> View(s1)[i] == View(s)[i])
    requires CutAt(m, b, s, t, f, pc, cond, x, kk, c, r0)
    ensures BranchAt(m, b, Gone(s, g, o, pc), g + [pc], !cond, x, kk, c, r0)
  {
    hide View, Run, Eval, Linked, Alike, Gone, IsList, PatchedTo, CutLanded, BranchLanded;
    var n, s1, s2 := |s.code|, s.(code := Linked(s.code, g, [pc])), Gone(s, g, o, pc);
    RunAlike(m, kk, View(s), View(s1), c, n, s.open, r0);
    assert s2.open == s.open - SetOf(o) by { GoneIs(s, g, o, pc); }
    RunPatched(m, kk, View(s1), n, View(s2), n, ToHere(o, n), NO_REG, c, s.open, s2.open, r0);
    GoneTests(View(s), View(s1), View(s2), n, g, o, pc);
    RunInside(m, kk, View(b), c, |b.code|, b.open, r0);
    StoredNone(View(s1));
    RunDone(m, kk, View(s2), n, s2.open);
    var start := Before(m, kk, b, c, r0);
    if start.Fall? {
      GoneLanded(View(s), View(s2), g, o, pc, t, f, cond, b.fr, Eval(m, x, start.r), start.r,
        After(m, kk, s, n, c, r0), After(m, kk, s2, n, c, r0));
    }
  }

  /** What the patching makes of an outcome of the test. */
  lemma GoneLanded(v: Code, v2: Code, g: seq<nat>, o: seq<nat>, pc: nat, t: seq<nat>, f: seq<nat>, cond: bool, fr: nat,
    value: Value, r: Regs,
                   out: Outcome, out2: Outcome)
    requires g == (if cond then t else f) && o == (if cond then f else t) && (forall p :: p in g ==> p !in o) &&
      pc !in o && |v| == |v2|
    requires CutLanded(v, t, f, pc, cond, fr, value, r, out)
    requires out.Fall? ==> out2 == out
    requires out.Exit? ==> out2 == if out.p in o then Fall(out.r) else out
    requires forall p :: p in g + [pc] ==> 0 < p <= |v| && v2[p - 1] == v[p - 1]
    requires forall p :: p in g || p == pc ==> p in g + [pc]
    ensures BranchLanded(v2, g + [pc], !cond, fr, value, r, out2)
  {
  }

  lemma RunDone(m: Machine, kk: seq<Value>, v: Code, end: nat, pend: set<nat>)
    requires end <= |v|
    ensures forall r :: Run(m, kk, v, end, end, pend, r) == Fall(r)
  {
  }

  lemma GoneTests(v: Code, v1: Code, v2: Code, n: nat, g: seq<nat>, o: seq<nat>, pc: nat)
    requires |v| == |v1| == |v2| == n && 0 < pc < n && v[pc - 1].IsTest()
    requires (forall p :: p in g ==> p !in o && 0 < p < n && v[p - 1].IsTest()) && (forall p :: p in o ==> p != pc)
    requires PatchedTo(v1, n, v2, ToHere(o, n), NO_REG) && forall i :: 0 <= i < n && v[i].IsTest() ==> v1[i] == v[i]
    ensures forall p :: p in g + [pc] ==> 0 < p <= n && v2[p - 1] == v[p - 1]
    ensures forall p :: p in g || p == pc ==> p in g + [pc]
  {
    forall p | p in g + [pc] ensures 0 < p <= n && v2[p - 1] == v[p - 1]
    {
      assert p in g || p == pc;
      assert v2[p - 1] == PatchAt(v1, ToHere(o, n), NO_REG, p - 1);
    }
  }

  lemma GoneIs(s: FS, g: seq<nat>, o: seq<nat>, pc: nat)
    ensures Gone(s, g, o, pc).open == s.open - SetOf(o)
  {
  }

  lemma StoredNone(v: Code)
    ensures forall p, r :: Stored(v, p, NO_REG, r) == r
  {
  }

  /** luaK_goiftrue (cond false) and luaK_goiffalse (cond true), after the test. */
  lemma GoIf(m: Machine, nact: nat, b: FS, s: FS, th: int, fh: int, t: seq<nat>, f: seq<nat>, pc: nat, cond: bool,
    x: Expr)
    requires Cut(m, nact, b, s, th, fh, t, f, pc, cond, x)
    ensures var g, gh, o := if cond then t else f, if cond then th else fh, if cond then f else t;
      Branch(m, nact, b, Gone(s, g, o, pc), if g == [] then pc else gh, g + [pc], !cond, x)
  {
    hide View, Run, Linked, Alike, Gone, Paired, Targets;
    var g, gh, o := if cond then t else f, if cond then th else fh, if cond then f else t;
    var s2 := Gone(s, g, o, pc);
    GoneReady(m, nact, b, s, th, fh, t, f, pc, cond, x, gh, g, o);
    GoneOk(nact, s, g, o, pc);
    LinkedOk(nact, s, g, [pc]);
    GoneLists(b, s, gh, g, o, pc);
    GoneFrame(nact, b, s, g, o, pc);
    GoneRest(s, g, o, pc);
    var l, sense := g + [pc], !cond;
    forall kk, c, r0 | s2.k <= kk && Start(nact, b, c, r0) ensures BranchAt(m, b, s2, l, sense, x, kk, c, r0)
    {
      GoneAt(m, b, s, g, o, pc, t, f, cond, x, kk, c, r0);
    }
  }

  lemma GoneReady(m: Machine, nact: nat, b: FS, s: FS, th: int, fh: int, t: seq<nat>, f: seq<nat>, pc: nat, cond: bool,
    x: Expr,
                  gh: int, g: seq<nat>, o: seq<nat>)
    requires Cut(m, nact, b, s, th, fh, t, f, pc, cond, x)
    requires g == (if cond then t else f) && gh == (if cond then th else fh) && o == (if cond then f else t)
    ensures IsList(s.code, gh, g) && NoDup(o) && pc < |s.code| && s.code[pc] == Jmp(NO_JUMP) && pc > |b.code| &&
      s.code[pc - 1].IsTest()
    ensures (forall p :: p in g || p in o ==> p > |b.code| && p < pc && s.code[p - 1].IsTest() && s.code[p].Jmp?) &&
      s.jumps == []
    ensures s.open == b.open + SetOf(g) + SetOf(o) + {pc} && (forall p :: p in g ==> p !in o)
    ensures (forall p :: p in b.open ==> p < |b.code|) && (forall p :: p in o || p in g ==> p in s.open)
  {
    hide View, Run, IsList, Paired, Targets;
    assert forall p :: p in t || p in f ==> p in s.open;
    ListDistinct(s.code, th, t);
    ListDistinct(s.code, fh, f);
  }

  lemma ListDistinct(code: Code, h: int, l: seq<nat>)
    requires IsList(code, h, l)
    ensures NoDup(l)
  {
  }

  lemma GoneFrame(nact: nat, b: FS, s: FS, g: seq<nat>, o: seq<nat>, pc: nat)
    requires Ok(nact, b) && Frame(b, s) && |b.code| < pc < |s.code| && s.jumps == []
    requires (forall p :: p in g || p in o ==> |b.code| < p < pc && s.code[p].Jmp?)
    ensures Frame(b, Gone(s, g, o, pc))
  {
    hide Linked, Paired, Targets;
    var s1 := s.(code := Linked(s.code, g, [pc]));
    LinkedAt(s.code, g, [pc]);
    assert Frame(b, s1);
    HereFrame(nact, b, s1, o);
  }

  lemma GoneRest(s: FS, g: seq<nat>, o: seq<nat>, pc: nat)
    ensures Gone(s, g, o, pc).fr == s.fr && Gone(s, g, o, pc).k == s.k
  {
  }
}
