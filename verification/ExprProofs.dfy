/** What each operation on code under construction does to the value delivered. */
module ExprProofs {
  import opened LuaVm
  import opened ExprSem

  // ---- appending one instruction ----

  /** luaK_code: jumps to here are discharged, then the instruction is added. */
  function Emitted(s: FS, i: Instr): FS {
    s.(code := View(s) + [i], jumps := [])
  }

  predicate Plain(i: Instr) { i.IsValue() || i.LoadNil? || (i.LoadBool? && !i.skip) }

  lemma ViewNoJumps(s: FS)
    requires s.jumps == []
    ensures View(s) == s.code
  {
    assert forall i :: 0 <= i < |s.code| ==> View(s)[i] == s.code[i];
  }

  lemma EmitOk(nact: nat, s: FS, i: Instr)
    requires Ok(nact, s) && Plain(i)
    ensures Ok(nact, Emitted(s, i)) && View(Emitted(s, i)) == Emitted(s, i).code
  {
    var s' := Emitted(s, i);
    ViewNoJumps(s');
    var v, v' := View(s), View(s');
    forall j | 0 <= j < |v'| ensures PairedAt(v', j) { if j < |v| { assert PairedAt(v, j); } }
    forall p | p in s'.open ensures p < |s'.code| && s'.code[p].Jmp? { ViewAt(s, p); }
  }

  lemma ViewAt(s: FS, i: nat)
    requires i < |s.code|
    ensures i !in s.jumps && i + 1 !in s.jumps ==> View(s)[i] == s.code[i]
    ensures View(s)[i].IsTest() <==> s.code[i].IsTest()
    ensures View(s)[i].Jmp? <==> s.code[i].Jmp?
    ensures (s.code[i].Jmp? && i !in s.jumps) || (s.code[i].IsTest() && i + 1 !in s.jumps) ==> View(s)[i] == s.code[i]
    ensures View(s)[i].CmpOp? ==> View(s)[i] == s.code[i]
    ensures View(s)[i].IsValue() ==> View(s)[i] == s.code[i]
  {
    assert View(s)[i] == PatchAt(s.code, ToHere(s.jumps, |s.code|), NO_REG, i);
  }

  lemma EmitFrame(nact: nat, b: FS, s: FS, i: Instr)
    requires Ok(nact, b) && Frame(b, s)
    ensures Frame(b, Emitted(s, i))
  {
    var s' := Emitted(s, i);
    forall j | 0 <= j < |b.code| && Kept(b, j) ensures s'.code[j] == b.code[j]
    {
      ViewAt(s, j);
      KeptStill(nact, b, s, j);
    }
  }

  lemma KeptStill(nact: nat, b: FS, s: FS, j: nat)
    requires Ok(nact, b) && Frame(b, s) && j < |b.code| && Kept(b, j)
    ensures s.code[j] == b.code[j] && Kept(s, j)
  {
    ViewAt(b, j);
    assert PairedAt(View(b), j);
  }

  /** A list depends on its own jumps only. */
  lemma SameList(code: Code, code': Code, head: int, l: seq<nat>)
    requires IsList(code, head, l) && forall p :: p in l ==> p < |code| && p < |code'| && code'[p] == code[p]
    ensures IsList(code', head, l)
  {
    forall i | 0 <= i < |l| ensures l[i] < |code'| && code'[l[i]].Jmp? && LinkedTo(code', l, i)
    {
      assert l[i] in l && LinkedTo(code, l, i);
    }
  }

  lemma ListInside(code: Code, head: int, l: seq<nat>)
    requires IsList(code, head, l)
    ensures forall p :: p in l ==> p < |code| && code[p].Jmp?
  {
  }

  /** A list that is not the one of jumps to here stays as it is. */
  lemma EmitList(s: FS, i: Instr, head: int, l: seq<nat>)
    requires IsList(s.code, head, l) && forall p :: p in l ==> p !in s.jumps
    ensures IsList(Emitted(s, i).code, head, l)
  {
    hide View, LinkedTo;
    ListInside(s.code, head, l);
    forall p | p in l ensures Emitted(s, i).code[p] == s.code[p] { ViewJmp(s, p); }
    SameList(s.code, Emitted(s, i).code, head, l);
  }

  lemma ViewJmp(s: FS, p: nat)
    requires p < |s.code| && s.code[p].Jmp? && p !in s.jumps
    ensures View(s)[p] == s.code[p]
  {
    assert View(s)[p] == PatchAt(s.code, ToHere(s.jumps, |s.code|), NO_REG, p);
  }

  /** The lists of e after an instruction was added, for a descriptor k that is not a pending instruction before it. */
  lemma EmitLists(nact: nat, b: FS, s: FS, e: Exp, t: seq<nat>, f: seq<nat>, i: Instr, k: Kind)
    requires Ok(nact, s) && Lists(b, s, e, t, f) && Frame(b, s) && Plain(i) && !e.k.VJmp?
    requires k.VNonReloc? || (k == VReloc(|s.code|) && i.IsValue())
    ensures Lists(b, Emitted(s, i), Exp(k, e.t, e.f), t, f)
  {
    hide IsList, Paired, Targets, View;
    EmitList(s, i, e.t, t);
    EmitList(s, i, e.f, f);
    forall p | p in t || p in f ensures Emitted(s, i).code[p - 1].IsTest() { ViewAt(s, p - 1); }
  }

  lemma ViewPrefix(s: FS, i: Instr)
    ensures var s' := Emitted(s, i); |View(s')| == |View(s)| + 1 && View(s')[..|s.code|] == View(s) && View(s')[|s.code|] == i
  {
    var s' := Emitted(s, i);
    ViewNoJumps(s');
    assert View(s')[..|s.code|] == View(s);
  }

  // ---- a variable read into a register still to be chosen ----

  lemma RelocAt(m: Machine, nact: nat, b: FS, s: FS, e: Exp, t: seq<nat>, f: seq<nat>, x: Expr, i: Instr,
    kk: seq<Value>, c: nat, r0: Regs)
    requires Ok(nact, s) && Lists(b, s, e, t, f) && i.IsValue() && !e.k.VJmp? && !e.k.VReloc? &&
      c <= |b.code| <= |s.code|
    requires DeliversAt(m, b, s, e.k, t, f, x, kk, c, r0)
    requires forall r :: Compute(m, kk, i, r) == KindValue(m, kk, View(s), e.k, r)
    ensures DeliversAt(m, b, Emitted(s, i), VReloc(|s.code|), t, f, x, kk, c, r0)
  {
    hide View, Run, Compute, Eval, Ok, IsList, KindValue;
    var s' := Emitted(s, i);
    ViewPrefix(s, i);
    RunPrefix(m, kk, View(s), View(s'), c, |s.code|, s.open, s'.open, r0);
    RelocValue(m, kk, s, i);
    forall p | p in t || p in f ensures 0 < p <= |s.code| &&
      View(s')[p - 1] == View(s)[p - 1] { assert View(s')[..|s.code|][p - 1] == View(s)[p - 1]; }
  }

  lemma RelocValue(m: Machine, kk: seq<Value>, s: FS, i: Instr)
    requires i.IsValue()
    ensures forall r :: KindValue(m, kk, View(Emitted(s, i)), VReloc(|s.code|), r) == Compute(m, kk, i, r)
  {
    hide View, Compute;
    ViewPrefix(s, i);
  }

  /** luaK_dischargevars on an upvalue, a global or an indexed variable. */
  lemma RelocNew(m: Machine, nact: nat, b: FS, s: FS, e: Exp, t: seq<nat>, f: seq<nat>, x: Expr, i: Instr)
    requires Core(m, nact, b, s, e, t, f, x) && i.IsValue() && !e.k.VJmp? && !e.k.VReloc?
    requires forall kk, r :: s.k <= kk ==> Compute(m, kk, i, r) == KindValue(m, kk, View(s), e.k, r)
    ensures Core(m, nact, b, Emitted(s, i), Exp(VReloc(|s.code|), e.t, e.f), t, f, x)
  {
    var s' := Emitted(s, i);
    EmitOk(nact, s, i);
    EmitFrame(nact, b, s, i);
    EmitLists(nact, b, s, e, t, f, i, VReloc(|s.code|));
    forall kk, c, r0 | s'.k <= kk && Start(nact, b, c, r0) ensures DeliversAt(m, b, s', VReloc(|s.code|), t, f, x, kk,
      c, r0)
    {
      RelocAt(m, nact, b, s, e, t, f, x, i, kk, c, r0);
    }
  }

  // ---- a value into a register ----

  /** The instruction computes the value of e into register reg. */
  ghost predicate Loads(m: Machine, kk: seq<Value>, v: Code, k: Kind, i: Instr, reg: nat) {
    Plain(i) && i.a == reg && (i.LoadNil? ==> i.to == reg) &&
    forall r {:trigger KindValue(m, kk, v, k, r)} ::
      (if i.LoadBool? then Bool(i.flag) else if i.LoadNil? then Nil else Compute(m, kk, i, r)) == KindValue(m, kk, v,
        k, r)
  }

  lemma PlainStep(m: Machine, kk: seq<Value>, v: Code, pend: set<nat>, r: Regs)
    requires |v| > 0 && Plain(v[|v| - 1]) && |r| == MAXSTACK
    ensures var n, i := |v| - 1, v[|v| - 1];
      Run(m, kk, v, n, |v|, pend, r) == Fall(
        if i.LoadBool? then Put(r, i.a, Bool(i.flag)) else if i.LoadNil? then PutNils(r, i.a, i.to)
          else Put(r, i.a, Compute(m, kk, i, r)))
  {
    var n := |v| - 1;
    assert v[..|v|] == v;
  }

  lemma ToRegAt(m: Machine, nact: nat, b: FS, s: FS, e: Exp, t: seq<nat>, f: seq<nat>, x: Expr, i: Instr,
    kk: seq<Value>, c: nat, r0: Regs)
    requires Ok(nact, s) && Lists(b, s, e, t, f) && !e.k.VJmp? && !e.k.VReloc? && c <= |b.code| <= |s.code| &&
      |r0| == MAXSTACK
    requires DeliversAt(m, b, s, e.k, t, f, x, kk, c, r0) && b.fr < MAXSTACK
    requires Loads(m, kk, View(s), e.k, i, b.fr)
    ensures DeliversAt(m, b, Emitted(s, i), VNonReloc(b.fr), t, f, x, kk, c, r0)
  {
    hide View, Run, Eval, Ok, IsList, KindValue, Loads;
    var s' := Emitted(s, i);
    ViewPrefix(s, i);
    RunExtended(m, kk, View(s), |s.code|, View(s'), |s'.code|, c, s.open, s'.open, r0);
    RunLength(m, kk, View(s), c, |s.code|, s.open, r0);
    forall p | p in t || p in f ensures 0 < p <= |s.code| &&
      View(s')[p - 1] == View(s)[p - 1] { assert View(s')[..|s.code|][p - 1] == View(s)[p - 1]; }
    var out := After(m, kk, s, |s.code|, c, r0);
    if out.Fall? { LoadStep(m, kk, s, e.k, i, b.fr, out.r); }
  }

  lemma LoadStep(m: Machine, kk: seq<Value>, s: FS, k: Kind, i: Instr, reg: nat, r: Regs)
    requires Loads(m, kk, View(s), k, i, reg) && |r| == MAXSTACK && reg < MAXSTACK
    ensures var s' := Emitted(s, i);
      var out := Run(m, kk, View(s'), |s.code|, |s'.code|, s.open, r);
      out.Fall? && Same(r, out.r, reg) && KindValue(m, kk, View(s'), VNonReloc(reg), out.r) == KindValue(m, kk,
        View(s), k, r)
  {
    hide View;
    ViewPrefix(s, i);
    PlainStep(m, kk, View(Emitted(s, i)), s.open, r);
    assert KindValue(m, kk, View(s), k, r) == KindValue(m, kk, View(s), k, r);
  }

  lemma {:induction false} RunLength(m: Machine, kk: seq<Value>, v: Code, pc: nat, end: nat, pend: set<nat>, r: Regs)
    requires end <= |v|
    ensures Run(m, kk, v, pc, end, pend, r).Fall? ==> |Run(m, kk, v, pc, end, pend, r).r| == |r|
    decreases end - pc
  {
    if pc < end {
      var n := Step(m, kk, v[..end], pc, pend, r);
      if n.Goto? && pc < n.pc <= end { RunLength(m, kk, v, n.pc, end, pend, n.r); }
    }
  }

  /** discharge2reg, for a value that no instruction computes yet. */
  lemma ToReg(m: Machine, nact: nat, b: FS, s: FS, e: Exp, t: seq<nat>, f: seq<nat>, x: Expr, i: Instr)
    requires Core(m, nact, b, s, e, t, f, x) && !e.k.VJmp? && !e.k.VReloc?
    requires forall kk :: s.k <= kk ==> Loads(m, kk, View(s), e.k, i, b.fr)
    ensures Core(m, nact, b, Emitted(s, i), Exp(VNonReloc(b.fr), e.t, e.f), t, f, x)
  {
    var s' := Emitted(s, i);
    assert Loads(m, s.k, View(s), e.k, i, b.fr);
    EmitOk(nact, s, i);
    EmitFrame(nact, b, s, i);
    EmitLists(nact, b, s, e, t, f, i, VNonReloc(b.fr));
    forall kk, c, r0 | s'.k <= kk && Start(nact, b, c, r0) ensures DeliversAt(m, b, s', VNonReloc(b.fr), t, f, x, kk,
      c, r0)
    {
      ToRegAt(m, nact, b, s, e, t, f, x, i, kk, c, r0);
    }
  }

  // ---- the register of a relocatable instruction ----

  function Relocated(s: FS, reg: nat): FS
    requires |s.code| > 0 && s.code[|s.code| - 1].IsValue()
  {
    var p := |s.code| - 1;
    s.(code := s.code[p := s.code[p].SetA(reg)])
  }

  lemma RelocatedOk(nact: nat, s: FS, reg: nat)
    requires Ok(nact, s) && s.jumps == [] && |s.code| > 0 && s.code[|s.code| - 1].IsValue()
    ensures Ok(nact, Relocated(s, reg)) && View(Relocated(s, reg)) == Relocated(s, reg).code && View(s) == s.code
  {
    var s' := Relocated(s, reg);
    ViewNoJumps(s);
    ViewNoJumps(s');
    forall j | 0 <= j < |s'.code| ensures PairedAt(s'.code, j) { assert PairedAt(s.code, j); }
  }

  lemma RelocatedLists(b: FS, s: FS, e: Exp, t: seq<nat>, f: seq<nat>, reg: nat, reg': nat)
    requires Lists(b, s, e, t, f) && e.k.VReloc? && Frame(b, s)
    ensures Frame(b, Relocated(s, reg)) && Lists(b, Relocated(s, reg), Exp(VNonReloc(reg'), e.t, e.f), t, f)
  {
    hide IsList;
    var s' := Relocated(s, reg);
    BeforeLast(b, s, e, t, f);
    SameList(s.code, s'.code, e.t, t);
    SameList(s.code, s'.code, e.f, f);
  }

  lemma RelocatedAt(m: Machine, b: FS, s: FS, e: Exp, t: seq<nat>, f: seq<nat>, x: Expr, kk: seq<Value>, c: nat,
    r0: Regs)
    requires e.k.VReloc? && e.k.p == |s.code| - 1 && s.code[e.k.p].IsValue() && View(s) == s.code
    requires View(Relocated(s, b.fr)) == Relocated(s, b.fr).code && b.fr < MAXSTACK
    requires forall p :: p in t || p in f ==> 0 < p < e.k.p
    requires c <= |b.code| <= e.k.p && |r0| == MAXSTACK && DeliversAt(m, b, s, e.k, t, f, x, kk, c, r0)
    ensures DeliversAt(m, b, Relocated(s, b.fr), VNonReloc(b.fr), t, f, x, kk, c, r0)
  {
    hide View, Run, Eval, IsList, Compute;
    var s', p := Relocated(s, b.fr), e.k.p;
    assert View(s')[..p] == View(s)[..p];
    RunExtended(m, kk, View(s), p, View(s'), |s'.code|, c, s.open, s'.open, r0);
    RunLength(m, kk, View(s), c, p, s.open, r0);
    var out := After(m, kk, s, p, c, r0);
    if out.Fall? {
      PlainStep(m, kk, View(s'), s'.open, out.r);
      SetASame(m, kk, s.code[p], b.fr, out.r);
    }
  }

  lemma SetASame(m: Machine, kk: seq<Value>, i: Instr, reg: nat, r: Regs)
    requires i.IsValue()
    ensures Compute(m, kk, i.SetA(reg), r) == Compute(m, kk, i, r)
  {
  }

  lemma RelocatedCore(m: Machine, nact: nat, b: FS, s: FS, e: Exp, t: seq<nat>, f: seq<nat>, x: Expr)
    requires Core(m, nact, b, s, e, t, f, x) && e.k.VReloc?
    ensures Core(m, nact, b, Relocated(s, b.fr), Exp(VNonReloc(b.fr), e.t, e.f), t, f, x)
  {
    var s' := Relocated(s, b.fr);
    RelocatedOk(nact, s, b.fr);
    RelocatedLists(b, s, e, t, f, b.fr, b.fr);
    BeforeLast(b, s, e, t, f);
    forall kk, c, r0 | s'.k <= kk && Start(nact, b, c, r0) ensures DeliversAt(m, b, s', VNonReloc(b.fr), t, f, x, kk,
      c, r0)
    {
      RelocatedAt(m, b, s, e, t, f, x, kk, c, r0);
    }
  }

  /** Listed jumps are not the last instruction when that is a relocatable one. */
  lemma BeforeLast(b: FS, s: FS, e: Exp, t: seq<nat>, f: seq<nat>)
    requires Lists(b, s, e, t, f) && e.k.VReloc?
    ensures forall p :: p in t || p in f ==> 0 < p < e.k.p
  {
    ListInside(s.code, e.t, t);
    ListInside(s.code, e.f, f);
  }

  // ---- luaK_nil ----

  /** No jump leads past the last instruction, or past the last test and its jump. */
  lemma InsideLast(nact: nat, s: FS, q: nat)
    requires Ok(nact, s) && s.lt <= q
    requires (q + 1 == |s.code| && View(s)[q].LoadNil?) || (q + 2 == |s.code| && View(s)[q].IsTest())
    ensures Inside(View(s), q, s.open)
  {
    var v := View(s);
    forall i | 0 <= i < q
      ensures v[i].Jmp? && i !in s.open ==> i + 1 + v[i].sbx <= q
      ensures v[i].IsTest() ==> i + 1 < q
      ensures v[i].LoadBool? && v[i].skip ==> i + 2 <= q
    {
      assert PairedAt(v, i);
    }
  }

  /** The last LOADNIL made to reach register reg. */
  function NilsTo(s: FS, reg: nat): FS
    requires |s.code| > 0 && s.code[|s.code| - 1].LoadNil?
  {
    var p := |s.code| - 1;
    s.(code := s.code[p := LoadNil(s.code[p].a, if reg > s.code[p].to then reg else s.code[p].to)])
  }

  lemma NilsOk(nact: nat, s: FS, reg: nat)
    requires Ok(nact, s) && |s.code| > 0 && s.lt < |s.code| && s.code[|s.code| - 1].LoadNil?
    ensures Ok(nact, NilsTo(s, reg)) && View(NilsTo(s, reg)) == NilsTo(s, reg).code && View(s) == s.code
  {
    var s' := NilsTo(s, reg);
    ViewNoJumps(s);
    ViewNoJumps(s');
    forall j | 0 <= j < |s'.code| ensures PairedAt(s'.code, j) { assert PairedAt(s.code, j); }
  }

  lemma NilsLists(b: FS, s: FS, e: Exp, t: seq<nat>, f: seq<nat>, reg: nat, reg': nat)
    requires Lists(b, s, e, t, f) && e.k.VNil? && Frame(b, s) && |s.code| > 0 && s.code[|s.code| - 1].LoadNil?
    ensures Frame(b, NilsTo(s, reg)) && Lists(b, NilsTo(s, reg), Exp(VNonReloc(reg'), e.t, e.f), t, f)
  {
    hide IsList;
    var s' := NilsTo(s, reg);
    ListInside(s.code, e.t, t);
    ListInside(s.code, e.f, f);
    SameList(s.code, s'.code, e.t, t);
    SameList(s.code, s'.code, e.f, f);
  }

  lemma NilsAt(m: Machine, nact: nat, b: FS, s: FS, t: seq<nat>, f: seq<nat>, x: Expr, kk: seq<Value>, c: nat, r0: Regs)
    requires Ok(nact, s) && |s.code| > 0 && s.lt < |s.code| && s.code[|s.code| - 1].LoadNil? && View(s) == s.code
    requires s.code[|s.code| - 1].a <= b.fr <= s.code[|s.code| - 1].to + 1 && b.fr < MAXSTACK
    requires View(NilsTo(s, b.fr)) == NilsTo(s, b.fr).code
    requires forall p :: p in t || p in f ==> 0 < p < |s.code|
    requires c <= |b.code| <= |s.code| && c < |s.code| && |r0| == MAXSTACK &&
      DeliversAt(m, b, s, VNil, t, f, x, kk, c, r0)
    ensures DeliversAt(m, b, NilsTo(s, b.fr), VNonReloc(b.fr), t, f, x, kk, c, r0)
  {
    hide View, Run, Eval, IsList, Compute, Ok, Inside;
    var s', q := NilsTo(s, b.fr), |s.code| - 1;
    InsideLast(nact, s, q);
    assert View(s')[..q] == View(s)[..q];
    InsideSame(View(s), View(s'), q, s.open);
    Through(m, kk, View(s), q, |s.code|, c, s.open, r0);
    Through(m, kk, View(s'), q, |s.code|, c, s.open, r0);
    RunPrefix(m, kk, View(s), View(s'), c, q, s.open, s.open, r0);
    RunLength(m, kk, View(s), c, q, s.open, r0);
    var out := Run(m, kk, View(s), c, q, s.open, r0);
    if out.Fall? { NilStep(m, kk, s, b.fr, out.r); }
    forall p | p in t || p in f ensures View(s')[p - 1] == View(s)[p - 1] {}
  }

  lemma InsideSame(v: Code, w: Code, q: nat, pend: set<nat>)
    requires Inside(v, q, pend) && q <= |w| && w[..q] == v[..q]
    ensures Inside(w, q, pend)
  {
    forall i | 0 <= i < q ensures w[i] == v[i] { assert w[..q][i] == v[..q][i]; }
  }

  lemma NilStep(m: Machine, kk: seq<Value>, s: FS, reg: nat, r: Regs)
    requires |s.code| > 0 && s.code[|s.code| - 1].LoadNil? && View(s) == s.code && |r| == MAXSTACK && reg < MAXSTACK
    requires s.code[|s.code| - 1].a <= reg <= s.code[|s.code| - 1].to + 1 && View(NilsTo(s, reg)) == NilsTo(s, reg).code
    ensures var q := |s.code| - 1;
      var out, out' := Run(m, kk, View(s), q, q + 1, s.open, r), Run(m, kk, View(NilsTo(s, reg)), q, q + 1, s.open, r);
      out.Fall? && out'.Fall? && Same(out.r, out'.r, reg) && Reg(out'.r, reg) == Nil
  {
    hide View;
    var q := |s.code| - 1;
    assert View(s)[..q + 1] == s.code;
    assert View(NilsTo(s, reg))[..q + 1] == NilsTo(s, reg).code;
  }

  lemma NilsCore(m: Machine, nact: nat, b: FS, s: FS, e: Exp, t: seq<nat>, f: seq<nat>, x: Expr)
    requires Core(m, nact, b, s, e, t, f, x) && e.k.VNil?
    requires |s.code| > 0 && s.lt < |s.code| && s.code[|s.code| - 1].LoadNil?
    requires s.code[|s.code| - 1].a <= b.fr <= s.code[|s.code| - 1].to + 1
    ensures Core(m, nact, b, NilsTo(s, b.fr), Exp(VNonReloc(b.fr), e.t, e.f), t, f, x)
  {
    var s' := NilsTo(s, b.fr);
    NilsOk(nact, s, b.fr);
    NilsLists(b, s, e, t, f, b.fr, b.fr);
    forall kk, c, r0 | s'.k <= kk && Start(nact, b, c, r0) ensures DeliversAt(m, b, s', VNonReloc(b.fr), t, f, x, kk,
      c, r0)
    {
      NilsAt(m, nact, b, s, t, f, x, kk, c, r0);
    }
  }

  /** At the start of a function the register is nil already. */
  lemma NilCleanCore(m: Machine, nact: nat, b: FS, s: FS, e: Exp, t: seq<nat>, f: seq<nat>, x: Expr)
    requires Core(m, nact, b, s, e, t, f, x) && e.k.VNil? && |s.code| == 0 && s.lt < 0
    ensures Core(m, nact, b, s, Exp(VNonReloc(b.fr), e.t, e.f), t, f, x)
  {
    forall kk, c, r0 | s.k <= kk && Start(nact, b, c, r0) ensures DeliversAt(m, b, s, VNonReloc(b.fr), t, f, x, kk, c,
      r0)
    {
      assert DeliversAt(m, b, s, e.k, t, f, x, kk, c, r0);
    }
  }
}
