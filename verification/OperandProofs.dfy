/** Operands in registers and constants, and the operators over them. */
module OperandProofs {
  import opened LuaVm
  import opened ExprSem
  import opened ExprProofs
  import opened CondProofs
  import opened LogicProofs

  ghost predicate OperandAt(m: Machine, b: FS, s: FS, o: nat, x: Expr, kk: seq<Value>, c: nat, r0: Regs)
    requires c <= |b.code|
  {
    match Before(m, kk, b, c, r0)
    case Stuck => true
    case Exit(p, r) => After(m, kk, s, |s.code|, c, r0) == Exit(p, r)
    case Fall(r) =>
      var out := After(m, kk, s, |s.code|, c, r0);
      out.Fall? && Same(r, out.r, b.fr) && RK(kk, out.r, o) == Eval(m, x, r)
  }

  /** At most one temporary, the last register reserved, holds the operand. */
  predicate OperandReg(nact: nat, b: FS, s: FS, o: nat) {
    if IsTemp(nact, o) then o == b.fr && s.fr == b.fr + 1 else s.fr == b.fr && (o >= BITRK ==> o - BITRK < |s.k|)
  }

  /** RK(o) is the value of x once the code between b and s has run. */
  ghost predicate Operand(m: Machine, nact: nat, b: FS, s: FS, o: nat, x: Expr) {
    && Ok(nact, b) && Ok(nact, s) && Frame(b, s) && s.open == b.open && Fragment(m, nact, x) &&
      OperandReg(nact, b, s, o)
    && forall kk, c, r0 :: s.k <= kk && Start(nact, b, c, r0) ==> OperandAt(m, b, s, o, x, kk, c, r0)
  }

  /** A value in a register is an operand. */
  lemma RegOperand(m: Machine, nact: nat, b: FS, s: FS, r: nat, x: Expr)
    requires Core(m, nact, b, s, Exp(VNonReloc(r), NO_JUMP, NO_JUMP), [], [], x) && Fragment(m, nact, x) &&
      OperandReg(nact, b, s, r) && r < BITRK
    ensures Operand(m, nact, b, s, r, x)
  {
    hide View, Run, Eval, IsList, Paired, Targets, Fragment;
    assert s.open == b.open;
    forall kk, c, r0 | s.k <= kk && Start(nact, b, c, r0) ensures OperandAt(m, b, s, r, x, kk, c, r0)
    {
      assert DeliversAt(m, b, s, VNonReloc(r), [], [], x, kk, c, r0);
    }
  }

  /** A constant in the table is an operand; it has no code. */
  lemma ConstOperand(m: Machine, nact: nat, b: FS, s: FS, i: nat, x: Expr)
    requires Ok(nact, b) && s == b.(k := s.k) && b.k <= s.k && Fragment(m, nact, x) && i < |s.k|
    requires ConstOf(m, x) != NoConst && s.k[i] == ConstValue(ConstOf(m, x))
    ensures Operand(m, nact, b, s, BITRK + i, x)
  {
    hide Run, Eval, Fragment, ConstOf, Patch;
    SameView(b, s);
    OkSame(nact, b, s);
    var o := BITRK + i;
    forall kk, c, r0 | s.k <= kk && Start(nact, b, c, r0) ensures OperandAt(m, b, s, o, x, kk, c, r0)
    {
      var start := Before(m, kk, b, c, r0);
      if start.Fall? { ConstEval(m, nact, x, start.r); }
      assert kk[i] == s.k[i];
    }
  }

  lemma SameView(b: FS, s: FS)
    requires s == b.(k := s.k)
    ensures View(s) == View(b)
  {
  }

  lemma OkSame(nact: nat, b: FS, s: FS)
    requires Ok(nact, b) && s == b.(k := s.k) && b.k <= s.k
    ensures Ok(nact, s) && Frame(b, s)
  {
  }

  /** More constants make no difference to a start. */
  lemma Rebase(m: Machine, nact: nat, b: FS, s1: FS, s2: FS, o: nat, x: Expr)
    requires Ok(nact, b) && s1 == b.(k := s1.k) && b.k <= s1.k && Operand(m, nact, s1, s2, o, x)
    ensures Operand(m, nact, b, s2, o, x)
  {
    hide View, Run, Eval, Paired, Targets, Fragment;
    SameView(b, s1);
    OkSame(nact, b, s1);
    RebaseFrame(b, s1, s2);
    forall kk, c, r0 | s2.k <= kk && Start(nact, b, c, r0) ensures OperandAt(m, b, s2, o, x, kk, c, r0)
    {
      assert Start(nact, s1, c, r0);
      assert OperandAt(m, s1, s2, o, x, kk, c, r0);
    }
  }

  lemma RebaseFrame(b: FS, s1: FS, s2: FS)
    requires s1 == b.(k := s1.k) && b.k <= s1.k && Frame(s1, s2)
    ensures Frame(b, s2)
  {
    assert forall i :: 0 <= i < |b.code| ==> (Kept(b, i) <==> Kept(s1, i));
  }

  // ---- two operands ----

  ghost predicate BothAt(m: Machine, b: FS, s: FS, o1: nat, o2: nat, x1: Expr, x2: Expr, kk: seq<Value>, c: nat,
    r0: Regs)
    requires c <= |b.code|
  {
    match Before(m, kk, b, c, r0)
    case Stuck => true
    case Exit(p, r) => After(m, kk, s, |s.code|, c, r0) == Exit(p, r)
    case Fall(r) =>
      var out := After(m, kk, s, |s.code|, c, r0);
      out.Fall? && Same(r, out.r, b.fr) && RK(kk, out.r, o1) == Eval(m, x1, r) && RK(kk, out.r, o2) == Eval(m, x2, r)
  }

  ghost predicate Both(m: Machine, nact: nat, b: FS, s: FS, o1: nat, o2: nat, x1: Expr, x2: Expr) {
    && Ok(nact, b) && Ok(nact, s) && Frame(b, s) && s.open == b.open
    && forall kk, c, r0 :: s.k <= kk && Start(nact, b, c, r0) ==> BothAt(m, b, s, o1, o2, x1, x2, kk, c, r0)
  }

  lemma FirstKept(m: Machine, nact: nat, kk: seq<Value>, b: FS, s1: FS, o: nat, r: Regs, r': Regs)
    requires OperandReg(nact, b, s1, o) && Same(r, r', s1.fr) && nact <= b.fr
    ensures RK(kk, r', o) == RK(kk, r, o)
  {
  }

  /** The second operand leaves the first one alone. */
  lemma BothOperands(m: Machine, nact: nat, b: FS, s1: FS, s2: FS, o1: nat, o2: nat, x1: Expr, x2: Expr)
    requires Operand(m, nact, b, s1, o1, x1) && Operand(m, nact, s1, s2, o2, x2)
    ensures Both(m, nact, b, s2, o1, o2, x1, x2)
  {
    hide View, Run, Eval, Paired, Targets, Fragment, RK;
    FrameTrans(nact, b, s1, s2);
    assert nact <= b.fr <= s1.fr;
    hide OperandAt, BothAt;
    forall kk, c, r0 | s2.k <= kk && Start(nact, b, c, r0) ensures BothAt(m, b, s2, o1, o2, x1, x2, kk, c, r0)
    {
      StartStill(nact, b, s1, c, r0);
      assert s1.k <= kk;
      assert OperandAt(m, b, s1, o1, x1, kk, c, r0) && OperandAt(m, s1, s2, o2, x2, kk, c, r0);
      BothOperandsAt(m, nact, b, s1, s2, o1, o2, x1, x2, kk, c, r0);
    }
  }

  lemma BothOperandsAt(m: Machine, nact: nat, b: FS, s1: FS, s2: FS, o1: nat, o2: nat, x1: Expr, x2: Expr,
    kk: seq<Value>, c: nat, r0: Regs)
    requires c <= |b.code| <= |s1.code| && nact <= b.fr <= s1.fr && OperandReg(nact, b, s1, o1) && Fragment(m, nact, x2)
    requires OperandAt(m, b, s1, o1, x1, kk, c, r0) && OperandAt(m, s1, s2, o2, x2, kk, c, r0)
    ensures BothAt(m, b, s2, o1, o2, x1, x2, kk, c, r0)
  {
    hide View, Run, Eval, Fragment, RK;
    hide OperandReg;
    var start, mid, out := Before(m, kk, b, c, r0), After(m, kk, s1, |s1.code|, c, r0),
      After(m, kk, s2, |s2.code|, c, r0);
    assert mid == Before(m, kk, s1, c, r0);
    if start.Fall? {
      FirstKept(m, nact, kk, b, s1, o1, mid.r, out.r);
      EvalLocals(m, nact, x2, start.r, mid.r) by { SameLess(start.r, mid.r, b.fr, nact); }
    }
  }

  lemma StartStill(nact: nat, b: FS, s: FS, c: nat, r: Regs)
    requires Start(nact, b, c, r) && Frame(b, s)
    ensures Start(nact, s, c, r)
  {
  }

  lemma BothSwap(m: Machine, nact: nat, b: FS, s: FS, o1: nat, o2: nat, x1: Expr, x2: Expr)
    requires Both(m, nact, b, s, o1, o2, x1, x2)
    ensures Both(m, nact, b, s, o2, o1, x2, x1)
  {
    hide View, Run, Eval, Paired, Targets, RK;
    forall kk, c, r0 | s.k <= kk && Start(nact, b, c, r0) ensures BothAt(m, b, s, o2, o1, x2, x1, kk, c, r0)
    {
      assert BothAt(m, b, s, o1, o2, x1, x2, kk, c, r0);
    }
  }

  // ---- the instruction over them ----

  lemma FreeOk(nact: nat, b: FS, s: FS)
    requires Ok(nact, b) && Ok(nact, s) && Frame(b, s)
    ensures Ok(nact, s.(fr := b.fr)) && Frame(b, s.(fr := b.fr)) && View(s.(fr := b.fr)) == View(s)
  {
  }

  lemma NewLists(nact: nat, b: FS, s: FS, i: Instr)
    requires Ok(nact, s) && Frame(b, s) && s.open == b.open && i.IsValue()
    ensures Lists(b, Emitted(s, i), Exp(VReloc(|s.code|), NO_JUMP, NO_JUMP), [], [])
  {
  }

  lemma BinaryAt(m: Machine, b: FS, s: FS, o1: nat, o2: nat, x1: Expr, x2: Expr, i: Instr, z: Expr, kk: seq<Value>,
    c: nat, r0: Regs)
    requires c <= |b.code| <= |s.code| && BothAt(m, b, s, o1, o2, x1, x2, kk, c, r0) && i.IsValue()
    requires forall r, r' :: RK(kk, r, o1) == Eval(m, x1, r') && RK(kk, r, o2) == Eval(m, x2, r') ==>
      Compute(m, kk, i, r) == Eval(m, z, r')
    ensures DeliversAt(m, b, Emitted(s, i), VReloc(|s.code|), [], [], z, kk, c, r0)
  {
    hide View, Run, Eval, RK, Compute;
    ViewPrefix(s, i);
    RunPrefix(m, kk, View(s), View(Emitted(s, i)), c, |s.code|, s.open, s.open, r0);
    RelocValue(m, kk, s, i);
  }

  /** codearith: an arithmetic instruction over two operands. */
  lemma ArithCore(m: Machine, nact: nat, b: FS, s: FS, o1: nat, o2: nat, x1: Expr, x2: Expr, op: ArithOp)
    requires Both(m, nact, b, s, o1, o2, x1, x2)
    ensures var s1 := s.(fr := b.fr);
      Core(m, nact, b, Emitted(s1, ArithOp(op, 0, o1, o2)), Exp(VReloc(|s.code|), NO_JUMP, NO_JUMP), [], [],
        EArith(op, x1, x2))
  {
    hide View, Run, IsList, Paired, Targets;
    var s1, i, z := s.(fr := b.fr), ArithOp(op, 0, o1, o2), EArith(op, x1, x2);
    var s', k := Emitted(s1, i), VReloc(|s.code|);
    FreeOk(nact, b, s);
    EmitOk(nact, s1, i);
    EmitFrame(nact, b, s1, i);
    NewLists(nact, b, s1, i);
    forall kk, c, r0 | s'.k <= kk && Start(nact, b, c, r0) ensures DeliversAt(m, b, s', k, [], [], z, kk, c, r0)
    {
      assert BothAt(m, b, s, o1, o2, x1, x2, kk, c, r0);
      BothFreed(m, b, s, o1, o2, x1, x2, kk, c, r0);
      ArithValue(m, kk, o1, o2, x1, x2, op);
      BinaryAt(m, b, s1, o1, o2, x1, x2, i, z, kk, c, r0);
    }
  }

  lemma BothFreed(m: Machine, b: FS, s: FS, o1: nat, o2: nat, x1: Expr, x2: Expr, kk: seq<Value>, c: nat, r0: Regs)
    requires c <= |b.code| && BothAt(m, b, s, o1, o2, x1, x2, kk, c, r0)
    ensures BothAt(m, b, s.(fr := b.fr), o1, o2, x1, x2, kk, c, r0)
  {
    assert View(s.(fr := b.fr)) == View(s);
  }

  lemma ArithValue(m: Machine, kk: seq<Value>, o1: nat, o2: nat, x1: Expr, x2: Expr, op: ArithOp)
    ensures var i := ArithOp(op, 0, o1, o2);
      i.IsValue() && forall r, r' :: RK(kk, r, o1) == Eval(m, x1, r') && RK(kk, r, o2) == Eval(m, x2, r') ==>
        Compute(m, kk, i, r) == Eval(m, EArith(op, x1, x2), r')
  {
  }

  /** luaK_indexed: nothing is coded yet. */
  lemma IndexCore(m: Machine, nact: nat, b: FS, s: FS, o1: nat, o2: nat, x1: Expr, x2: Expr)
    requires Both(m, nact, b, s, o1, o2, x1, x2) && o1 < BITRK
    ensures Core(m, nact, b, s, Exp(VIndexed(o1, o2), NO_JUMP, NO_JUMP), [], [], EIndex(x1, x2))
  {
    hide View, Run, Paired, Targets;
    var k, z := VIndexed(o1, o2), EIndex(x1, x2);
    forall kk, c, r0 | s.k <= kk && Start(nact, b, c, r0) ensures DeliversAt(m, b, s, k, [], [], z, kk, c, r0)
    {
      assert BothAt(m, b, s, o1, o2, x1, x2, kk, c, r0);
    }
  }

  // ---- comparisons ----

  /** The test i jumps exactly when z holds of the two operands. */
  ghost predicate Compares(m: Machine, kk: seq<Value>, o1: nat, o2: nat, x1: Expr, x2: Expr, i: Instr, z: Expr) {
    i.CmpOp? && forall r, r' :: RK(kk, r, o1) == Eval(m, x1, r') && RK(kk, r, o2) == Eval(m, x2, r') ==>
      Bool(Jumps(m, kk, i, r)) == Eval(m, z, r')
  }

  lemma CompareAt(m: Machine, b: FS, s: FS, o1: nat, o2: nat, x1: Expr, x2: Expr, i: Instr, z: Expr, kk: seq<Value>,
    c: nat, r0: Regs)
    requires c <= |b.code| <= |s.code| && BothAt(m, b, s, o1, o2, x1, x2, kk, c, r0) && i.CmpOp? &&
      forall p :: p in s.open ==> p < |s.code|
    requires Compares(m, kk, o1, o2, x1, x2, i, z)
    ensures DeliversAt(m, b, CondJumped(s, i), VJmp(|s.code| + 1), [], [], z, kk, c, r0)
  {
    hide View, Run, Eval, RK, Jumps;
    var s' := CondJumped(s, i);
    CondPrefix(s, i);
    PrefixViews(View(s), View(s'), |s.code|);
    RunExtended(m, kk, View(s), |s.code|, View(s'), |s'.code|, c, s.open, s'.open, r0);
    var out := After(m, kk, s, |s.code|, c, r0);
    if out.Fall? { CondStep(m, kk, View(s'), s'.open, out.r); }
  }

  lemma CompareLists(nact: nat, b: FS, s: FS, i: Instr)
    requires Ok(nact, s) && Frame(b, s) && s.open == b.open && i.CmpOp?
    ensures Lists(b, CondJumped(s, i), Exp(VJmp(|s.code| + 1), NO_JUMP, NO_JUMP), [], [])
  {
  }

  /** codecomp: the comparison that jumps when z holds. */
  lemma CompareCore(m: Machine, nact: nat, b: FS, s: FS, o1: nat, o2: nat, x1: Expr, x2: Expr, i: Instr, z: Expr)
    requires Both(m, nact, b, s, o1, o2, x1, x2) && i.CmpOp?
    requires forall kk :: Compares(m, kk, o1, o2, x1, x2, i, z)
    ensures var s1 := s.(fr := b.fr);
      Core(m, nact, b, CondJumped(s1, i), Exp(VJmp(|s.code| + 1), NO_JUMP, NO_JUMP), [], [], z)
  {
    hide View, Run, IsList, Paired, Targets, Eval, Compares, DeliversAt;
    var s1, k := s.(fr := b.fr), VJmp(|s.code| + 1);
    var s' := CondJumped(s1, i);
    FreeOk(nact, b, s);
    CondOk(nact, s1, i);
    CondFrame(nact, b, s1, i);
    CompareLists(nact, b, s1, i);
    OpenInside(nact, s1);
    forall kk, c, r0 | s'.k <= kk && Start(nact, b, c, r0) ensures DeliversAt(m, b, s', k, [], [], z, kk, c, r0)
    {
      assert BothAt(m, b, s, o1, o2, x1, x2, kk, c, r0);
      BothFreed(m, b, s, o1, o2, x1, x2, kk, c, r0);
      CompareAt(m, b, s1, o1, o2, x1, x2, i, z, kk, c, r0);
    }
  }

  /** Which comparison codecomp uses: greater is less with the operands exchanged. */
  function Comparison(rel: RelOp, o1: nat, o2: nat): Instr {
    match rel
    case EqRel => CmpOp(Eq, true, o1, o2)
    case NeRel => CmpOp(Eq, false, o1, o2)
    case LtRel => CmpOp(Lt, true, o1, o2)
    case LeRel => CmpOp(Le, true, o1, o2)
    case GtRel => CmpOp(Lt, true, o2, o1)
    case GeRel => CmpOp(Le, true, o2, o1)
  }

  lemma ComparisonValue(m: Machine, rel: RelOp, o1: nat, o2: nat, x1: Expr, x2: Expr)
    ensures forall kk :: Compares(m, kk, o1, o2, x1, x2, Comparison(rel, o1, o2), ERel(rel, x1, x2))
  {
  }

  // ---- unary operators on a register ----

  lemma UnaryAt(m: Machine, b: FS, s: FS, o: nat, x: Expr, i: Instr, z: Expr, kk: seq<Value>, c: nat, r0: Regs)
    requires c <= |b.code| <= |s.code| && OperandAt(m, b, s, o, x, kk, c, r0) && i.IsValue()
    requires forall r, r' :: RK(kk, r, o) == Eval(m, x, r') ==> Compute(m, kk, i, r) == Eval(m, z, r')
    ensures DeliversAt(m, b, Emitted(s, i), VReloc(|s.code|), [], [], z, kk, c, r0)
  {
    hide View, Run, Eval, RK, Compute;
    ViewPrefix(s, i);
    RunPrefix(m, kk, View(s), View(Emitted(s, i)), c, |s.code|, s.open, s.open, r0);
    RelocValue(m, kk, s, i);
  }

  /** codearith on `-' and `#'. */
  lemma UnaryCore(m: Machine, nact: nat, b: FS, s: FS, o: nat, x: Expr, i: Instr, z: Expr)
    requires Operand(m, nact, b, s, o, x) && o < BITRK
    requires (i == Unm(0, o) && z == EUnm(x)) || (i == Len(0, o) && z == ELen(x))
    ensures Core(m, nact, b, Emitted(s.(fr := b.fr), i), Exp(VReloc(|s.code|), NO_JUMP, NO_JUMP), [], [], z)
  {
    hide View, Run, IsList, Paired, Targets;
    var s1, k := s.(fr := b.fr), VReloc(|s.code|);
    var s' := Emitted(s1, i);
    FreeOk(nact, b, s);
    EmitOk(nact, s1, i);
    EmitFrame(nact, b, s1, i);
    NewLists(nact, b, s1, i);
    forall kk, c, r0 | s'.k <= kk && Start(nact, b, c, r0) ensures DeliversAt(m, b, s', k, [], [], z, kk, c, r0)
    {
      assert OperandAt(m, b, s, o, x, kk, c, r0);
      OperandFreed(m, b, s, o, x, kk, c, r0);
      UnaryAt(m, b, s1, o, x, i, z, kk, c, r0);
    }
  }

  lemma OperandFreed(m: Machine, b: FS, s: FS, o: nat, x: Expr, kk: seq<Value>, c: nat, r0: Regs)
    requires c <= |b.code| && OperandAt(m, b, s, o, x, kk, c, r0)
    ensures OperandAt(m, b, s.(fr := b.fr), o, x, kk, c, r0)
  {
    assert View(s.(fr := b.fr)) == View(s);
  }
}
