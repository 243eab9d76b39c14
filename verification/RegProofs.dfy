/** exp2reg: the pending jumps of an expression meet again, with its value in one register. */
module RegProofs {
  import opened Common
  import opened LuaVm
  import opened ExprSem
  import opened ExprProofs
  import opened CondProofs
  import opened LogicProofs

  // ---- jumps sent past a new jump instead of to it ----

  /** w is v[..n] with the jumps to n sent on to `end`, where the jump at n goes too. */
  ghost predicate Retargeted(v: Code, n: nat, w: Code, end: nat, js: seq<nat>, pend: set<nat>) {
    && n <= |v| && n < end <= |w| && n !in pend && w[n] == Jmp(end - (n + 1)) && (n > 0 ==> !w[n - 1].IsTest())
    && (forall i :: 0 <= i < n ==> w[i] == v[i] || (i in js && v[i] == Jmp(n - (i + 1)) && w[i] == Jmp(end - (i + 1))))
    && (forall p :: p in js ==> p !in pend)
  }

  lemma StepRetargeted(m: Machine, kk: seq<Value>, v: Code, n: nat, w: Code, end: nat, js: seq<nat>, pc: nat,
    pend: set<nat>, r: Regs)
    requires Retargeted(v, n, w, end, js, pend) && pc < n
    ensures match Step(m, kk, v[..n], pc, pend, r)
      case Goto(q, r') =>
        q <= n ==> var s := Step(m, kk, w[..end], pc, pend, r); s == Goto(q, r') || (q == n && s == Goto(end, r'))
      case Leave(p, r') => Step(m, kk, w[..end], pc, pend, r) == Leave(p, r')
      case Bad => true
  {
    var x, y := v[..n], w[..end];
    assert x[pc] == v[pc] && y[pc] == w[pc];
    if pc > 0 { assert x[pc - 1] == v[pc - 1] && y[pc - 1] == w[pc - 1]; }
    if pc + 1 < n { assert x[pc + 1] == v[pc + 1] && y[pc + 1] == w[pc + 1]; }
  }

  lemma {:induction false} RunRetargeted(m: Machine, kk: seq<Value>, v: Code, n: nat, w: Code, end: nat, js: seq<nat>,
    pc: nat, pend: set<nat>, r: Regs)
    requires Retargeted(v, n, w, end, js, pend) && pc <= n
    ensures match Run(m, kk, v, pc, n, pend, r)
      case Fall(r') => Run(m, kk, w, pc, end, pend, r) == Fall(r')
      case Exit(p, r') => Run(m, kk, w, pc, end, pend, r) == Exit(p, r')
      case Stuck => true
    decreases n - pc
  {
    if pc < n {
      StepRetargeted(m, kk, v, n, w, end, js, pc, pend, r);
      var s := Step(m, kk, v[..n], pc, pend, r);
      if s.Goto? && pc < s.pc <= n { RunRetargeted(m, kk, v, n, w, end, js, s.pc, pend, s.r); }
    } else {
      var y := w[..end];
      assert y[n] == w[n];
      if n > 0 { assert y[n - 1] == w[n - 1]; }
    }
  }

  /** A jump over LOADBOOL false and LOADBOOL true; it and the jumps to here go past them. */
  function JumpedPast(s: FS, reg: nat): FS {
    var n := |s.code|;
    s.(code := s.code + [Jmp(if s.jumps == [] then NO_JUMP else s.jumps[0] as int - (n + 1)),
      LoadBool(reg, false, true), LoadBool(reg, true, false)],
       jumps := [n] + s.jumps, lt := n + 3)
  }

  lemma PastAt(nact: nat, s: FS, reg: nat)
    requires Ok(nact, s) && |s.code| > 0
    ensures var s', n := JumpedPast(s, reg), |s.code|;
      && |View(s')| == n + 3 && View(s')[n] == Jmp(2) && View(s')[n + 1] == LoadBool(reg, false, true) &&
        View(s')[n + 2] == LoadBool(reg, true, false)
      && (forall i :: 0 <= i < n ==> View(s')[i] == View(s)[i] || (i in s.jumps && View(s)[i] == Jmp(n - (i + 1)) && View(s')[i] == Jmp(n + 3 - (i + 1))))
      && (n > 0 ==> !View(s')[n - 1].IsTest())
  {
    hide Paired, Targets, ToHere, PatchAt;
    var s', n := JumpedPast(s, reg), |s.code|;
    var d, d' := ToHere(s.jumps, n), ToHere(s'.jumps, n + 3);
    assert forall p :: p in s'.jumps <==> p == n || p in s.jumps;
    LastNoTest(nact, s);
    forall i | 0 <= i < n
      ensures View(s')[i] == View(s)[i] || (i in s.jumps && View(s)[i] == Jmp(n - (i + 1)) &&
        View(s')[i] == Jmp(n + 3 - (i + 1)))
    {
      assert View(s')[i] == PatchAt(s'.code, d', NO_REG, i) && View(s)[i] == PatchAt(s.code, d, NO_REG, i);
      PatchPast(s.code, s'.code, d, d', n, i);
    }
    forall i | n <= i < n + 3 ensures View(s')[i] == if i == n then Jmp(2) else s'.code[i]
    {
      assert View(s')[i] == PatchAt(s'.code, d', NO_REG, i);
      PatchNew(s'.code, d', n, i);
    }
    if n > 0 { LastStays(s.code, s'.code, d, d', n); }
  }

  lemma LastNoTest(nact: nat, s: FS)
    requires Ok(nact, s) && |s.code| > 0
    ensures !s.code[|s.code| - 1].IsTest()
  {
    assert PairedAt(View(s), |s.code| - 1);
    ViewAt(s, |s.code| - 1);
  }

  lemma PatchPast(code: Code, code': Code, d: map<nat, nat>, d': map<nat, nat>, n: nat, i: nat)
    requires i < n == |code| < |code'| && code'[i] == code[i] && (i + 1 == n ==> !code[i].IsTest())
    requires forall p :: p in d ==> p < n && code[p].Jmp? && d[p] == n
    requires forall p :: p in d' ==> d'[p] == n + 3
    requires forall p :: p in d' <==> p == n || p in d
    ensures var a, b := PatchAt(code, d, NO_REG, i), PatchAt(code', d', NO_REG, i);
      b == a || (i in d && a == Jmp(n - (i + 1)) && b == Jmp(n + 3 - (i + 1)))
  {
  }

  lemma PatchNew(code: Code, d: map<nat, nat>, n: nat, i: nat)
    requires n <= i < |code| == n + 3 && code[n].Jmp? && code[n + 1].LoadBool? && code[n + 2].LoadBool?
    requires n in d && d[n] == n + 3
    ensures PatchAt(code, d, NO_REG, i) == if i == n then Jmp(2) else code[i]
  {
  }

  lemma LastStays(code: Code, code': Code, d: map<nat, nat>, d': map<nat, nat>, n: nat)
    requires 0 < n == |code| < |code'| && code'[n - 1] == code[n - 1] && !code[n - 1].IsTest()
    ensures !PatchAt(code', d', NO_REG, n - 1).IsTest()
  {
  }

  lemma PastOk(nact: nat, s: FS, reg: nat)
    requires Ok(nact, s) && |s.code| > 0
    ensures Ok(nact, JumpedPast(s, reg))
  {
    var s', n := JumpedPast(s, reg), |s.code|;
    PastAt(nact, s, reg);
    NoDupCons(n, s.jumps);
    var v, v' := View(s), View(s');
    forall i | 0 <= i < |v'| ensures PairedAt(v', i) && (v'[i].Jmp? && i !in s'.open ==> i + 1 + v'[i].sbx <= n + 3)
    {
      if i < n { assert PairedAt(v, i); }
    }
    forall p | p in s'.jumps ensures p < |s'.code| && s'.code[p].Jmp? &&
      p !in s'.open { assert p == n || p in s.jumps; }
  }

  lemma PastLists(nact: nat, b: FS, s: FS, e: Exp, t: seq<nat>, f: seq<nat>, reg: nat)
    requires Ok(nact, b) && Ok(nact, s) && Frame(b, s) && Lists(b, s, e, t, f) && e.k.VNonReloc? && (t != [] || f != [])
    ensures Frame(b, JumpedPast(s, reg)) && Lists(b, JumpedPast(s, reg), e, t, f)
  {
    hide IsList;
    var s' := JumpedPast(s, reg);
    ListInside(s.code, e.t, t);
    ListInside(s.code, e.f, f);
    SameList(s.code, s'.code, e.t, t);
    SameList(s.code, s'.code, e.f, f);
    assert forall i :: 0 <= i < |s.code| ==> s'.code[i] == s.code[i];
    if t != [] { assert t[0] in t; } else { assert f[0] in f; }
    assert |s.code| > |b.code|;
    assert forall p :: p in s'.jumps <==> p == |s.code| || p in s.jumps;
  }

  lemma PastDelivers(m: Machine, nact: nat, b: FS, s: FS, reg: nat, t: seq<nat>, f: seq<nat>, x: Expr)
    requires Ok(nact, s) && Delivers(m, nact, b, s, VNonReloc(reg), t, f, x) && |b.code| <= |s.code| && |s.code| > 0
    requires forall p :: p in t || p in f ==> 0 < p < |s.code| && s.code[p - 1].IsTest()
    ensures Delivers(m, nact, b, JumpedPast(s, reg), VNonReloc(reg), t, f, x)
  {
    hide View, Run, Paired, Targets, Eval;
    var s', n := JumpedPast(s, reg), |s.code|;
    PastAt(nact, s, reg);
    PastTests(nact, s, reg, t, f);
    PastRetargeted(nact, s, reg);
    forall kk, c, r0 | s'.k <= kk && Start(nact, b, c, r0) ensures DeliversAt(m, b, s', VNonReloc(reg), t, f, x, kk, c,
      r0)
    {
      assert DeliversAt(m, b, s, VNonReloc(reg), t, f, x, kk, c, r0);
      RunRetargeted(m, kk, View(s), n, View(s'), n + 3, s.jumps, c, s.open, r0);
    }
  }

  lemma PastRetargeted(nact: nat, s: FS, reg: nat)
    requires Ok(nact, s) && |s.code| > 0
    ensures Retargeted(View(s), |s.code|, View(JumpedPast(s, reg)), |s.code| + 3, s.jumps, s.open)
  {
    PastAt(nact, s, reg);
  }

  lemma PastTests(nact: nat, s: FS, reg: nat, t: seq<nat>, f: seq<nat>)
    requires Ok(nact, s) && |s.code| > 0 && forall p :: p in t || p in f ==> 0 < p < |s.code| && s.code[p - 1].IsTest()
    ensures forall p :: p in t || p in f ==> View(JumpedPast(s, reg))[p - 1] == View(s)[p - 1]
  {
    hide View, Paired, Targets, JumpedPast;
    PastAt(nact, s, reg);
    forall p | p in t || p in f ensures View(JumpedPast(s, reg))[p - 1] == View(s)[p - 1] { ViewAt(s, p - 1); }
  }

  /** exp2reg on a value in its register, when some jump needs a boolean loaded. */
  lemma PastCore(m: Machine, nact: nat, b: FS, s: FS, e: Exp, t: seq<nat>, f: seq<nat>, x: Expr)
    requires Core(m, nact, b, s, e, t, f, x) && e.k.VNonReloc? && (t != [] || f != [])
    ensures Core(m, nact, b, JumpedPast(s, e.k.reg), e, t, f, x)
  {
    hide View, Run, Paired, Targets, IsList, Delivers;
    if t != [] { assert t[0] in t; } else { assert f[0] in f; }
    PastOk(nact, s, e.k.reg);
    PastLists(nact, b, s, e, t, f, e.k.reg);
    PastDelivers(m, nact, b, s, e.k.reg, t, f, x);
  }

  // ---- the two labels after a comparison ----

  function Labels(s: FS, t: seq<nat>, p: nat, reg: nat): FS {
    s.(code := Linked(s.code, t, [p]) + [LoadBool(reg, false, true), LoadBool(reg, true, false)], lt := |s.code| + 1)
  }

  lemma LabelsOk(nact: nat, s: FS, t: seq<nat>, p: nat, reg: nat)
    requires Ok(nact, s) && s.jumps == [] && (forall q :: q in t ==> q in s.open)
    ensures var s' := Labels(s, t, p, reg);
      && Ok(nact, s') && View(s') == s'.code && View(s) == s.code && |s'.code| == |s.code| + 2
      && Alike(View(s), Linked(s.code, t, [p]), s.open) && View(s')[..|s.code|] == Linked(s.code, t, [p])
      && View(s')[|s.code|] == LoadBool(reg, false, true) && View(s')[|s.code| + 1] == LoadBool(reg, true, false)
  {
    var s' := Labels(s, t, p, reg);
    var s1 := s.(code := Linked(s.code, t, [p]));
    LinkedOk(nact, s, t, [p]);
    ViewNoJumps(s');
    assert s'.code[..|s.code|] == s1.code;
    forall i | 0 <= i < |s'.code| ensures PairedAt(s'.code, i) { if i < |s.code| { assert PairedAt(s1.code, i); } }
  }

  lemma LabelsParts(b: FS, s: FS, th: int, t: seq<nat>, fh: int, f: seq<nat>, p: nat, reg: nat)
    requires IsList(s.code, th, t) && IsList(s.code, fh, f) && p < |s.code| && s.code[p] == Jmp(NO_JUMP) && p !in t &&
      p !in f && p > 0 && s.code[p - 1].IsTest()
    requires (forall q :: q in t || q in f ==> 0 < q < |s.code| && s.code[q - 1].IsTest()) && forall q :: q in t ==>
      q !in f
    ensures var s', h := Labels(s, t, p, reg), if t == [] then p else th;
      && IsList(s'.code, h, t + [p]) && IsList(s'.code, fh, f) && |s'.code| == |s.code| + 2
      && (forall q :: q in t + [p] <==> q in t || q == p)
      && (forall q :: q in t || q in f || q == p ==> s'.code[q - 1].IsTest())
      && (forall i :: 0 <= i < |s.code| ==> s'.code[i] == s.code[i] || i in t)
  {
    hide IsList, Linked;
    var s', t', c1 := Labels(s, t, p, reg), t + [p], Linked(s.code, t, [p]);
    ListInside(s.code, th, t);
    ListInside(s.code, fh, f);
    OneList(s.code, p);
    LinkedList(s.code, th, t, p, [p]);
    LinkedOther(s.code, t, [p], fh, f);
    LinkedAt(s.code, t, [p]);
    assert forall i :: 0 <= i < |s.code| ==> s'.code[i] == c1[i];
    ListInside(c1, if t == [] then p else th, t');
    ListInside(c1, fh, f);
    SameList(c1, s'.code, if t == [] then p else th, t');
    SameList(c1, s'.code, fh, f);
  }

  lemma LabelsLists(b: FS, s: FS, e: Exp, t: seq<nat>, f: seq<nat>, reg: nat)
    requires Lists(b, s, e, t, f) && e.k.VJmp? && Frame(b, s)
    ensures var s', h := Labels(s, t, e.k.p, reg), if t == [] then e.k.p else e.t;
      Frame(b, s') && Lists(b, s', Exp(VNonReloc(reg), h, e.f), t + [e.k.p], f)
  {
    hide IsList, Linked, Labels, SetOf;
    LabelsParts(b, s, e.t, t, e.f, f, e.k.p, reg);
    LabelsRest(s, t, e.k.p, reg);
    OneMore(t, f, e.k.p, b.open);
  }

  lemma OneMore(t: seq<nat>, f: seq<nat>, p: nat, open: set<nat>)
    ensures open + SetOf(t + [p]) + SetOf(f) + {} == open + SetOf(t) + SetOf(f) + {p}
  {
    assert SetOf(t + [p]) == SetOf(t) + {p};
  }

  lemma LabelsRest(s: FS, t: seq<nat>, p: nat, reg: nat)
    ensures var s' := Labels(s, t, p, reg); s'.jumps == s.jumps && s'.open == s.open && s'.fr == s.fr && s'.k == s.k && s'.lt == |s.code| + 1
  {
  }

  /** The two labels are in place, and the tests of the lists as they were. */
  ghost predicate LabelsReady(s: FS, t: seq<nat>, f: seq<nat>, p: nat, reg: nat) {
    var s' := Labels(s, t, p, reg);
    && (forall q: nat :: q in t || q in f || q == p ==> 0 < q < |s.code| && View(s)[q - 1].IsTest())
    && View(s') == s'.code && View(s) == s.code && |s'.code| == |s.code| + 2
    && Alike(View(s), Linked(s.code, t, [p]), s.open) && View(s')[..|s.code|] == Linked(s.code, t, [p])
    && View(s')[|s.code|] == LoadBool(reg, false, true) && View(s')[|s.code| + 1] == LoadBool(reg, true, false)
    && (forall q: nat :: q in t || q in f || q == p ==> View(s')[q - 1] == View(s)[q - 1])
  }

  lemma LabelsAt(m: Machine, b: FS, s: FS, e: Exp, t: seq<nat>, f: seq<nat>, x: Expr, reg: nat, kk: seq<Value>, c: nat,
    r0: Regs)
    requires e.k.VJmp? && c <= |b.code| <= |s.code| && |r0| == MAXSTACK && b.fr == reg < MAXSTACK &&
      DeliversAt(m, b, s, e.k, t, f, x, kk, c, r0)
    requires LabelsReady(s, t, f, e.k.p, reg)
    ensures DeliversAt(m, b, Labels(s, t, e.k.p, reg), VNonReloc(reg), t + [e.k.p], f, x, kk, c, r0)
  {
    hide View, Run, Alike, Linked, Eval;
    var s', p, n := Labels(s, t, e.k.p, reg), e.k.p, |s.code|;
    var w := Linked(s.code, t, [p]);
    RunAlike(m, kk, View(s), w, c, n, s.open, r0);
    RunExtended(m, kk, w, n, View(s'), n + 2, c, s.open, s.open, r0);
    RunLength(m, kk, View(s), c, n, s.open, r0);
    var out := After(m, kk, s, n, c, r0);
    if out.Fall? { FalseLabel(m, kk, View(s'), reg, s.open, out.r); }
    assert forall q :: q in t + [p] <==> q in t || q == p;
  }

  lemma FalseLabel(m: Machine, kk: seq<Value>, v: Code, reg: nat, pend: set<nat>, r: Regs)
    requires |v| >= 2 && v[|v| - 2] == LoadBool(reg, false, true)
    ensures Run(m, kk, v, |v| - 2, |v|, pend, r) == Fall(Put(r, reg, Bool(false)))
  {
    assert v[..|v|] == v;
  }

  lemma TrueLabel(m: Machine, kk: seq<Value>, v: Code, reg: nat, pend: set<nat>, r: Regs)
    requires |v| >= 1 && v[|v| - 1] == LoadBool(reg, true, false)
    ensures Run(m, kk, v, |v| - 1, |v|, pend, r) == Fall(Put(r, reg, Bool(true)))
  {
    assert v[..|v|] == v;
  }

  /** exp2reg on a comparison: its jump joins the list of true exits, and falling out means false. */
  lemma LabelsCore(m: Machine, nact: nat, b: FS, s: FS, e: Exp, t: seq<nat>, f: seq<nat>, x: Expr)
    requires Core(m, nact, b, s, e, t, f, x) && e.k.VJmp?
    ensures var s', h := Labels(s, t, e.k.p, b.fr), if t == [] then e.k.p else e.t;
      Core(m, nact, b, s', Exp(VNonReloc(b.fr), h, e.f), t + [e.k.p], f, x)
  {
    hide View, Run, Alike, Linked, Eval, Paired, Targets, IsList, DeliversAt, Labels, Kept;
    var s', t', reg := Labels(s, t, e.k.p, b.fr), t + [e.k.p], b.fr;
    ListsOpen(b, s, e, t, f);
    assert forall q: nat :: q in t ==> q in f + t;
    LabelsRest(s, t, e.k.p, b.fr);
    LabelsOk(nact, s, t, e.k.p, b.fr);
    LabelsLists(b, s, e, t, f, b.fr);
    LabelsDelivers(m, nact, b, s, e, t, f, x);
  }

  lemma LabelsDelivers(m: Machine, nact: nat, b: FS, s: FS, e: Exp, t: seq<nat>, f: seq<nat>, x: Expr)
    requires Core(m, nact, b, s, e, t, f, x) && e.k.VJmp?
    ensures Delivers(m, nact, b, Labels(s, t, e.k.p, b.fr), VNonReloc(b.fr), t + [e.k.p], f, x)
  {
    hide View, Run, Alike, Linked, Eval, Paired, Targets, IsList, DeliversAt, Labels, Kept;
    LabelsRest(s, t, e.k.p, b.fr);
    ListsOpen(b, s, e, t, f);
    assert forall q: nat :: q in t ==> q in f + t;
    LabelsOk(nact, s, t, e.k.p, b.fr);
    KindTests(nact, b, s, e, t, f);
    LabelsTests(nact, s, t, f, e.k.p, b.fr);
    LabelsAll(m, nact, b, s, e, t, f, x);
  }

  lemma LabelsAll(m: Machine, nact: nat, b: FS, s: FS, e: Exp, t: seq<nat>, f: seq<nat>, x: Expr)
    requires Delivers(m, nact, b, s, e.k, t, f, x) && e.k.VJmp? && |b.code| <= |s.code| && b.fr < MAXSTACK
    requires Labels(s, t, e.k.p, b.fr).k == s.k
    requires LabelsReady(s, t, f, e.k.p, b.fr)
    ensures Delivers(m, nact, b, Labels(s, t, e.k.p, b.fr), VNonReloc(b.fr), t + [e.k.p], f, x)
  {
    hide View, Run, Alike, Linked, Eval, DeliversAt, Labels, LabelsReady;
    var s', t', reg := Labels(s, t, e.k.p, b.fr), t + [e.k.p], b.fr;
    forall kk, c, r0 | s'.k <= kk && Start(nact, b, c, r0) ensures DeliversAt(m, b, s', VNonReloc(reg), t', f, x, kk,
      c, r0)
    {
      assert DeliversAt(m, b, s, e.k, t, f, x, kk, c, r0);
      LabelsAt(m, b, s, e, t, f, x, reg, kk, c, r0);
    }
  }

  lemma LabelsTests(nact: nat, s: FS, t: seq<nat>, f: seq<nat>, p: nat, reg: nat)
    requires Ok(nact, s) && s.jumps == [] && (forall q :: q in t ==> q in s.open)
    requires forall q: nat :: q in t || q in f || q == p ==> 0 < q < |s.code| && View(s)[q - 1].IsTest()
    ensures |View(Labels(s, t, p, reg))| == |s.code| + 2
    ensures forall q: nat :: q in t || q in f || q == p ==> View(Labels(s, t, p, reg))[q - 1] == View(s)[q - 1]
  {
    hide View, Linked;
    LabelsOk(nact, s, t, p, reg);
    LinkedOk(nact, s, t, [p]);
    var v, s1 := View(Labels(s, t, p, reg)), s.(code := Linked(s.code, t, [p]));
    assert View(s1) == s1.code;
    forall q: nat | q in t || q in f || q == p ensures v[q - 1] == View(s)[q - 1]
    {
      assert v[q - 1] == v[..|s.code|][q - 1] == s1.code[q - 1];
      assert View(s)[q - 1].IsTest();
    }
  }

  // ---- patching a list to a final position ----

  /** Where patchlistaux sends the jumps of l: the ones with a value to the end, the others to a label. */
  function Dests(code: Code, l: seq<nat>, final: nat, label': nat): (d: map<nat, nat>)
    ensures d.Keys == SetOf(l)
    ensures forall p :: p in d ==> d[p] == if 0 < p <= |code| && code[p - 1].TestSet? then final else label'
  {
    if l == [] then map[]
    else
      var p := l[|l| - 1];
      assert l == l[..|l| - 1] + [p];
      Dests(code, l[..|l| - 1], final, label')[p := if 0 < p <= |code| && code[p - 1].TestSet? then final else label']
  }

  /** patchlistaux, the position after the expression being a label. */
  function PatchedList(s: FS, l: seq<nat>, label': nat, reg: nat): FS {
    s.(code := Patch(s.code, Dests(s.code, l, |s.code|, label'), reg), open := s.open - SetOf(l), lt := |s.code|)
  }

  /** need_value is false, or the label holds the boolean. */
  ghost predicate LabelOk(v: Code, l: seq<nat>, label': nat, reg: nat, truth: bool) {
    || (forall p :: p in l ==> 0 < p <= |v| && v[p - 1].TestSet?)
    || (|v| >= 2 && label' == (if truth then |v| - 1 else |v| - 2) && v[label'] == LoadBool(reg, truth, !truth)
        && forall p :: p in l ==> p < label')
  }

  lemma PatchedView(nact: nat, s: FS, l: seq<nat>, label': nat, reg: nat)
    requires Ok(nact, s) && forall p :: p in l ==> p in s.open
    ensures PatchedTo(View(s), |s.code|, View(PatchedList(s, l, label', reg)), Dests(s.code, l, |s.code|, label'), reg)
  {
    hide Paired, Targets;
    var s', n := PatchedList(s, l, label', reg), |s.code|;
    var d, j := Dests(s.code, l, n, label'), ToHere(s.jumps, n);
    forall i | 0 <= i < n ensures View(s')[i] == PatchAt(View(s), d, reg, i)
    {
      assert View(s')[i] == PatchAt(s'.code, j, NO_REG, i);
      assert View(s)[i] == PatchAt(s.code, j, NO_REG, i);
      assert s'.code[i] == PatchAt(s.code, d, reg, i);
    }
  }

  lemma PatchedOk(nact: nat, s: FS, l: seq<nat>, label': nat, reg: nat)
    requires Ok(nact, s) && (forall p :: p in l ==> p in s.open) &&
      (label' <= |s.code| || (forall p :: p in l ==> 0 < p <= |s.code| && s.code[p - 1].TestSet?))
    ensures Ok(nact, PatchedList(s, l, label', reg))
  {
    hide View, Patch, Dests;
    var s', n := PatchedList(s, l, label', reg), |s.code|;
    var d := Dests(s.code, l, n, label');
    PatchedView(nact, s, l, label', reg);
    var v, v' := View(s), View(s');
    forall i | 0 <= i < n ensures PairedAt(v', i) && (v'[i].Jmp? && i !in s'.open ==> i + 1 + v'[i].sbx <= n)
    {
      assert v'[i] == PatchAt(v, d, reg, i) && PairedAt(v, i);
      if i + 1 < n { assert v'[i + 1] == PatchAt(v, d, reg, i + 1); }
    }
    forall i | 0 <= i < n ensures s'.code[i].Jmp? <==>
      s.code[i].Jmp? { assert s'.code[i] == PatchAt(s.code, d, reg, i); }
  }

  /** The other list, and what came before the expression, are not touched. */
  lemma PatchedParts(b: FS, s: FS, reg: nat, l: seq<nat>, o: seq<nat>, oh: int, label': nat)
    requires IsList(s.code, oh, o) && Frame(b, s) && (forall p :: p in l ==> p > |b.code|) && forall p :: p in o ==>
      p !in l
    requires forall p :: p in o ==> 0 < p < |s.code| && s.code[p - 1].IsTest()
    ensures var s' := PatchedList(s, l, label', reg);
      && |s'.code| == |s.code| && IsList(s'.code, oh, o) && (forall p :: p in o ==> s'.code[p - 1].IsTest())
      && (forall i :: 0 <= i < |b.code| ==> s'.code[i] == s.code[i]) && IsList(s'.code, NO_JUMP, [])
  {
    hide IsList;
    var s', d := PatchedList(s, l, label', reg), Dests(s.code, l, |s.code|, label');
    ListInside(s.code, oh, o);
    forall p | p in o ensures s'.code[p] == s.code[p] && s'.code[p - 1].IsTest()
    {
      assert s'.code[p] == PatchAt(s.code, d, reg, p) && s'.code[p - 1] == PatchAt(s.code, d, reg, p - 1);
    }
    SameList(s.code, s'.code, oh, o);
    forall i | 0 <= i < |b.code| ensures s'.code[i] == s.code[i] { assert s'.code[i] == PatchAt(s.code, d, reg, i); }
    EmptyList(s'.code);
  }

  lemma PatchedLists(nact: nat, b: FS, s: FS, reg: nat, t: seq<nat>, f: seq<nat>, th: int, fh: int, label': nat,
    truth: bool)
    requires Ok(nact, b) && Lists(b, s, Exp(VNonReloc(reg), th, fh), t, f) && Frame(b, s)
    ensures var s' := PatchedList(s, if truth then t else f, label', reg);
      Frame(b, s') &&
      Lists(b, s', Exp(VNonReloc(reg), if truth then NO_JUMP else th, if truth then fh else NO_JUMP),
        if truth then [] else t, if truth then f else [])
  {
    hide IsList, Patch, Dests, Paired, Targets;
    var l, o, oh := if truth then t else f, if truth then f else t, if truth then fh else th;
    PatchedParts(b, s, reg, l, o, oh, label');
    PatchedOpen(nact, b, s, l, o);
    if truth { assert SetOf([]) == {}; } else { assert SetOf([]) == {}; }
  }

  lemma PatchedOpen(nact: nat, b: FS, s: FS, l: seq<nat>, o: seq<nat>)
    requires Ok(nact, b) && s.open == b.open + SetOf(l) + SetOf(o) && (forall p :: p in l ==> p > |b.code|) &&
      forall p :: p in o ==> p !in l
    ensures s.open - SetOf(l) == b.open + SetOf(o)
    ensures forall p :: 0 <= p < |b.code| ==> (p in s.open - SetOf(l) <==> p in s.open)
  {
    hide Paired, Targets;
  }

  lemma EmptyList(code: Code)
    ensures IsList(code, NO_JUMP, [])
  {
  }

  /** What the patched list does to one run. */
  lemma PatchedRun(m: Machine, s: FS, l: seq<nat>, o: seq<nat>, label': nat, reg: nat, truth: bool, kk: seq<Value>,
    c: nat, r0: Regs)
    requires c <= |s.code| && |r0| == MAXSTACK && reg < MAXSTACK
    requires (forall p :: p in l || p in o ==> 0 < p < |s.code| && p in s.open && View(s)[p - 1].IsTest()) &&
      forall p :: p in o ==> p !in l
    requires var s', d := PatchedList(s, l, label', reg), Dests(s.code, l, |s.code|, label');
      PatchedTo(View(s), |s.code|, View(s'), d, reg) && LabelOk(View(s), l, label', reg, truth)
      && (forall p :: p in l ==> (s.code[p - 1].TestSet? <==> View(s)[p - 1].TestSet?))
    ensures var s' := PatchedList(s, l, label', reg);
      var out, out' := After(m, kk, s, |s.code|, c, r0), After(m, kk, s', |s'.code|, c, r0);
      match out
      case Stuck => true
      case Fall(r) => out' == Fall(r)
      case Exit(p, r) =>
        if p in l then out'.Fall? && Same(r, out'.r, reg) && Reg(out'.r, reg) == ExitValue(View(s), p, r, truth)
        else out' == Exit(p, r)
    ensures forall p :: p in o ==> View(PatchedList(s, l, label', reg))[p - 1] == View(s)[p - 1]
  {
    hide View, Run, PatchedTo, LabelOk;
    var s', d, n := PatchedList(s, l, label', reg), Dests(s.code, l, |s.code|, label'), |s.code|;
    DestsForward(View(s), s.code, l, label', reg, truth);
    RunPatched(m, kk, View(s), n, View(s'), n, d, reg, c, s.open, s'.open, r0);
    RunDone(m, kk, View(s'), n, s'.open);
    PatchedTests(View(s), View(s'), n, d, reg, o);
    var out := After(m, kk, s, n, c, r0);
    ExitLength(m, kk, View(s), c, n, s.open, r0);
    if out.Exit? && out.p in l {
      PatchedExit(m, kk, View(s), View(s'), n, d, reg, out.p, l, label', truth, s'.open, out.r);
    }
  }

  lemma DestsForward(v: Code, code: Code, l: seq<nat>, label': nat, reg: nat, truth: bool)
    requires LabelOk(v, l, label', reg, truth) && |v| == |code| && forall p ::
      p in l ==> 0 < p < |v| && (code[p - 1].TestSet? <==> v[p - 1].TestSet?)
    ensures var d := Dests(code, l, |code|, label'); forall p :: p in d ==> p < d[p] <= |code|
  {
    var d := Dests(code, l, |code|, label');
    forall p | p in d ensures p < d[p] <= |code| { assert p in SetOf(l); }
  }

  lemma PatchedDelivers(m: Machine, b: FS, s: FS, t: seq<nat>, f: seq<nat>, x: Expr, label': nat, truth: bool,
    kk: seq<Value>, c: nat, r0: Regs)
    requires c <= |b.code| <= |s.code| && |r0| == MAXSTACK && b.fr < MAXSTACK &&
      DeliversAt(m, b, s, VNonReloc(b.fr), t, f, x, kk, c, r0)
    requires (forall p :: p in t || p in f ==> 0 < p < |s.code| && p > |b.code| && p in s.open && View(s)[p - 1].IsTest()) && forall p :: p in t ==> p !in f
    requires var l := if truth then t else f;
      var s', d := PatchedList(s, l, label', b.fr), Dests(s.code, l, |s.code|, label');
      PatchedTo(View(s), |s.code|, View(s'), d, b.fr) && LabelOk(View(s), l, label', b.fr, truth)
      && (forall p :: p in l ==> (s.code[p - 1].TestSet? <==> View(s)[p - 1].TestSet?))
    ensures DeliversAt(m, b, PatchedList(s, if truth then t else f, label', b.fr), VNonReloc(b.fr),
      if truth then [] else t, if truth then f else [], x, kk, c, r0)
  {
    hide View, Run, Eval, PatchedTo, LabelOk, Dests;
    var l, o := if truth then t else f, if truth then f else t;
    PatchedRun(m, s, l, o, label', b.fr, truth, kk, c, r0);
    RunInside(m, kk, View(b), c, |b.code|, b.open, r0);
  }

  lemma {:induction false} ExitLength(m: Machine, kk: seq<Value>, v: Code, pc: nat, end: nat, pend: set<nat>, r: Regs)
    requires end <= |v|
    ensures Run(m, kk, v, pc, end, pend, r).Exit? ==> |Run(m, kk, v, pc, end, pend, r).r| == |r|
    decreases end - pc
  {
    if pc < end {
      var n := Step(m, kk, v[..end], pc, pend, r);
      if n.Goto? && pc < n.pc <= end { ExitLength(m, kk, v, n.pc, end, pend, n.r); }
    }
  }

  lemma PatchedTests(v: Code, w: Code, n: nat, d: map<nat, nat>, reg: nat, o: seq<nat>)
    requires PatchedTo(v, n, w, d, reg) && forall p :: p in o ==> 0 < p < n && v[p - 1].IsTest() && p !in d
    ensures forall p :: p in o ==> w[p - 1] == v[p - 1]
  {
    forall p | p in o ensures w[p - 1] == v[p - 1] { assert w[p - 1] == PatchAt(v, d, reg, p - 1); }
  }

  /** A jump of the list arrives with the value in the register. */
  lemma PatchedExit(m: Machine, kk: seq<Value>, v: Code, w: Code, n: nat, d: map<nat, nat>, reg: nat, p: nat,
    l: seq<nat>, label': nat, truth: bool,
                    pend: set<nat>, r: Regs)
    requires PatchedTo(v, n, w, d, reg) && |v| == |w| == n && 0 < p < n && p in l && |r| == MAXSTACK && reg < MAXSTACK
    requires LabelOk(v, l, label', reg, truth) && d.Keys == SetOf(l) && d[p] == if v[p - 1].TestSet? then n else label'
    requires v[p - 1].IsTest()
    ensures var out := Run(m, kk, w, d[p], n, pend, Stored(v, p, reg, r));
      out.Fall? && Same(r, out.r, reg) && Reg(out.r, reg) == ExitValue(v, p, r, truth)
  {
    if v[p - 1].TestSet? {
      RunDone(m, kk, w, n, pend);
    } else {
      assert w[label'] == PatchAt(v, d, reg, label');
      if truth { TrueLabel(m, kk, w, reg, pend, r); } else { FalseLabel(m, kk, w, reg, pend, r); }
    }
  }

  /** patchlistaux on one of the two lists, at the end of exp2reg. */
  lemma PatchedCore(m: Machine, nact: nat, b: FS, s: FS, th: int, fh: int, t: seq<nat>, f: seq<nat>, x: Expr,
    label': nat, truth: bool)
    requires Core(m, nact, b, s, Exp(VNonReloc(b.fr), th, fh), t, f, x)
    requires LabelOk(View(s), if truth then t else f, label', b.fr, truth)
    ensures Core(m, nact, b, PatchedList(s, if truth then t else f, label', b.fr),
                 Exp(VNonReloc(b.fr), if truth then NO_JUMP else th, if truth then fh else NO_JUMP),
                 if truth then [] else t, if truth then f else [], x)
  {
    hide View, Run, Eval, PatchedTo, LabelOk, Dests, IsList, Paired, Targets, Patch;
    var e, l := Exp(VNonReloc(b.fr), th, fh), if truth then t else f;
    var s', k, t', f' := PatchedList(s, l, label', b.fr), VNonReloc(b.fr), if truth then [] else t, if truth then f
      else [];
    ListsOpen(b, s, e, t, f);
    assert forall p :: p in l ==> p in f + t;
    KindTests(nact, b, s, e, t, f);
    ControlsSeen(nact, s, l);
    LabelBound(s, l, label', b.fr, truth);
    PatchedView(nact, s, l, label', b.fr);
    PatchedOk(nact, s, l, label', b.fr);
    PatchedLists(nact, b, s, b.fr, t, f, th, fh, label', truth);
    assert forall p :: p in t || p in f ==> p in f + t;
    forall kk, c, r0 | s'.k <= kk && Start(nact, b, c, r0) ensures DeliversAt(m, b, s', k, t', f', x, kk, c, r0)
    {
      PatchedDelivers(m, b, s, t, f, x, label', truth, kk, c, r0);
    }
  }

  lemma ControlsSeen(nact: nat, s: FS, l: seq<nat>)
    requires Ok(nact, s) && forall p :: p in l ==> 0 < p < |s.code| && p in s.open && View(s)[p - 1].IsTest()
    ensures forall p :: p in l ==> (s.code[p - 1].TestSet? <==> View(s)[p - 1].TestSet?)
  {
    hide View, Paired, Targets;
    forall p | p in l ensures s.code[p - 1].TestSet? <==> View(s)[p - 1].TestSet? { ViewAt(s, p - 1); }
  }

  lemma LabelBound(s: FS, l: seq<nat>, label': nat, reg: nat, truth: bool)
    requires LabelOk(View(s), l, label', reg, truth)
    requires forall p :: p in l ==> 0 < p < |s.code| && (s.code[p - 1].TestSet? <==> View(s)[p - 1].TestSet?)
    ensures label' <= |s.code| || (forall p :: p in l ==> 0 < p <= |s.code| && s.code[p - 1].TestSet?)
  {
  }
}
