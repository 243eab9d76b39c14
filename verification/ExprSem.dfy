/**
 Expressions, their values, and what it means for code under construction to deliver the value of an
 expression: in a register, through a pending jump, or not emitted yet.
 */
module ExprSem {
  import opened Common
  import opened LuaVm

  // ---- expressions ----

  datatype RelOp = EqRel | NeRel | LtRel | LeRel | GtRel | GeRel

  datatype Expr =
    | ENil | ETrue | EFalse
    | ENum(n: int)
    | EStr(s: Value)
    | ELocal(reg: nat)
    | EUpval(up: nat)
    | EGlobal(name: Value)
    | EIndex(t: Expr, key: Expr)
    | EArith(op: ArithOp, x: Expr, y: Expr)
    | EUnm(x: Expr)
    | ELen(x: Expr)
    | ENot(x: Expr)
    | ERel(rel: RelOp, x: Expr, y: Expr)
    | EAnd(x: Expr, y: Expr)
    | EOr(x: Expr, y: Expr)

  function Rel(m: Machine, op: RelOp, x: Value, y: Value): bool {
    match op
    case EqRel => m.cmp(Eq, x, y)
    case NeRel => !m.cmp(Eq, x, y)
    case LtRel => m.cmp(Lt, x, y)
    case LeRel => m.cmp(Le, x, y)
    case GtRel => m.cmp(Lt, y, x)
    case GeRel => m.cmp(Le, y, x)
  }

  /** The value of an expression when the registers hold r. */
  function Eval(m: Machine, e: Expr, r: Regs): Value {
    match e
    case ENil => Nil
    case ETrue => Bool(true)
    case EFalse => Bool(false)
    case ENum(n) => Num(n)
    case EStr(s) => s
    case ELocal(reg) => Reg(r, reg)
    case EUpval(up) => m.upval(up)
    case EGlobal(name) => m.global(name)
    case EIndex(t, key) => m.index(Eval(m, t, r), Eval(m, key, r))
    case EArith(op, x, y) => m.Arith(op, Eval(m, x, r), Eval(m, y, r))
    case EUnm(x) => m.Unm(Eval(m, x, r))
    case ELen(x) => m.len(Eval(m, x, r))
    case ENot(x) => Bool(Falsy(Eval(m, x, r)))
    case ERel(rel, x, y) => Bool(Rel(m, rel, Eval(m, x, r), Eval(m, y, r)))
    case EAnd(x, y) => if Falsy(Eval(m, x, r)) then Eval(m, x, r) else Eval(m, y, r)
    case EOr(x, y) => if Falsy(Eval(m, x, r)) then Eval(m, y, r) else Eval(m, x, r)
  }

  /**
   The operators, through the machine alone: numbers are added where they stand and everything else is left to
   `arith` with the operands in their order; `>` and `>=` are `<` and `<=` with the operands exchanged, `~=` is the
   negation of `==`; nil and false are what `not`, `and` and `or` take for false.
   */
  lemma EvalLaws(m: Machine, e: Expr, r: Regs)
    ensures e.EArith? ==>
      var u, w := Eval(m, e.x, r), Eval(m, e.y, r);
      Eval(m, e, r) == if u.Num? && w.Num? then Num(m.num(e.op, u.n, w.n)) else m.arith(e.op, u, w)
    ensures e.EUnm? ==> var u := Eval(m, e.x, r); Eval(m, e, r) == if u.Num? then Num(m.neg(u.n)) else m.unm(u)
    ensures e.ENot? ==> var u := Eval(m, e.x, r); Eval(m, e, r) == Bool(u == Nil || u == Bool(false))
    ensures e.ERel? ==>
      var u, w := Eval(m, e.x, r), Eval(m, e.y, r);
      (e.rel == EqRel ==> Eval(m, e, r) == Bool(m.cmp(Eq, u, w))) &&
      (e.rel == NeRel ==> Eval(m, e, r) == Bool(!m.cmp(Eq, u, w))) &&
      (e.rel == LtRel ==> Eval(m, e, r) == Bool(m.cmp(Lt, u, w))) &&
      (e.rel == LeRel ==> Eval(m, e, r) == Bool(m.cmp(Le, u, w))) &&
      (e.rel == GtRel ==> Eval(m, e, r) == Bool(m.cmp(Lt, w, u))) &&
      (e.rel == GeRel ==> Eval(m, e, r) == Bool(m.cmp(Le, w, u)))
    ensures e.EAnd? || e.EOr? ==>
      var u, w := Eval(m, e.x, r), Eval(m, e.y, r);
      Eval(m, e, r) == if (u == Nil || u == Bool(false)) == e.EAnd? then u else w
    ensures e.ELen? ==> Eval(m, e, r) == m.len(Eval(m, e.x, r))
    ensures e.EIndex? ==> Eval(m, e, r) == m.index(Eval(m, e.t, r), Eval(m, e.key, r))
    ensures e.EGlobal? ==> Eval(m, e, r) == m.global(e.name)
    ensures e.EUpval? ==> Eval(m, e, r) == m.upval(e.up)
    ensures e.ELocal? && e.reg < |r| ==> Eval(m, e, r) == r[e.reg]
    ensures e.ENum? ==> Eval(m, e, r) == Num(e.n)
    ensures e.EStr? ==> Eval(m, e, r) == e.s
    ensures e.ENil? ==> Eval(m, e, r) == Nil
    ensures e.ETrue? || e.EFalse? ==> Eval(m, e, r) == Bool(e.ETrue?)
  {
  }

  // ---- constants the compiler recognises ----

  datatype Constant = NoConst | CNil | CTrue | CFalse | CNum(n: int) | CStr(s: Value)

  /** constfolding on two numerals; nothing for a division by 0 or a NaN. */
  function Folded(m: Machine, op: ArithOp, a: int, b: int): Option<int> {
    if (op == Div || op == Mod) && b == 0 then None
    else if m.isnan(m.num(op, a, b)) then None
    else Some(m.num(op, a, b))
  }

  function ConstOf(m: Machine, e: Expr): Constant {
    match e
    case ENil => CNil
    case ETrue => CTrue
    case EFalse => CFalse
    case ENum(n) => CNum(n)
    case EStr(s) => CStr(s)
    case ENot(x) =>
      (match ConstOf(m, x)
       case NoConst => NoConst
       case CNil => CTrue
       case CFalse => CTrue
       case _ => CFalse)
    case EUnm(x) =>
      var c := ConstOf(m, x);
      if c.CNum? && !m.isnan(m.neg(c.n)) then CNum(m.neg(c.n)) else NoConst
    case EArith(op, x, y) =>
      var c, c' := ConstOf(m, x), ConstOf(m, y);
      if c.CNum? && c'.CNum? && Folded(m, op, c.n, c'.n).Some? then CNum(Folded(m, op, c.n, c'.n).value) else NoConst
    case _ => NoConst
  }

  /** What is folded: numerals, but for a division or modulo by 0 and a result that is no number; `not` on any constant. */
  lemma FoldLaws(m: Machine, op: ArithOp, a: int, b: int)
    ensures ConstOf(m, EArith(op, ENum(a), ENum(b))) ==
      if ((op == Div || op == Mod) && b == 0) || m.isnan(m.num(op, a, b)) then NoConst else CNum(m.num(op, a, b))
    ensures ConstOf(m, EUnm(ENum(a))) == if m.isnan(m.neg(a)) then NoConst else CNum(m.neg(a))
    ensures ConstOf(m, ENot(ENum(a))) == CFalse && ConstOf(m, ENot(ENil)) == CTrue && ConstOf(m, ENot(EFalse)) == CTrue
  {
  }

  function ConstValue(c: Constant): Value {
    match c
    case NoConst => Nil
    case CNil => Nil
    case CTrue => Bool(true)
    case CFalse => Bool(false)
    case CNum(n) => Num(n)
    case CStr(s) => s
  }

  /** No operand of `and` and `or` is a constant; minus is not applied to nil or a boolean; variables exist. */
  predicate Fragment(m: Machine, nact: nat, e: Expr) {
    match e
    case ENil => true
    case ETrue => true
    case EFalse => true
    case ENum(n) => true
    case EStr(s) => s.Other?
    case ELocal(reg) => reg < nact
    case EUpval(_) => true
    case EGlobal(name) => name.Other?
    case EIndex(t, key) => Fragment(m, nact, t) && Fragment(m, nact, key)
    case EArith(_, x, y) => Fragment(m, nact, x) && Fragment(m, nact, y)
    case EUnm(x) => Fragment(m, nact, x) && MinusOk(m, ConstOf(m, x))
    case ELen(x) => Fragment(m, nact, x)
    case ENot(x) => Fragment(m, nact, x)
    case ERel(_, x, y) => Fragment(m, nact, x) && Fragment(m, nact, y)
    case EAnd(x, y) => Fragment(m, nact, x) && Fragment(m, nact, y) && ConstOf(m, x) == NoConst &&
      ConstOf(m, y) == NoConst
    case EOr(x, y) => Fragment(m, nact, x) && Fragment(m, nact, y) && ConstOf(m, x) == NoConst && ConstOf(m, y) == NoConst
  }

  predicate MinusOk(m: Machine, c: Constant) {
    c == NoConst || c.CStr? || (c.CNum? && !m.isnan(m.neg(c.n)))
  }

  /** Folding agrees with evaluation. */
  lemma {:induction false} ConstEval(m: Machine, nact: nat, e: Expr, r: Regs)
    requires Fragment(m, nact, e) && ConstOf(m, e) != NoConst
    ensures Eval(m, e, r) == ConstValue(ConstOf(m, e))
    ensures ConstOf(m, e).CStr? ==> ConstOf(m, e).s.Other?
  {
    match e {
      case ENot(x) => ConstEval(m, nact, x, r);
      case EUnm(x) => ConstEval(m, nact, x, r);
      case EArith(_, x, y) => ConstEval(m, nact, x, r); ConstEval(m, nact, y, r);
      case _ =>
    }
  }

  /** Only the registers of local variables matter. */
  lemma {:induction false} EvalLocals(m: Machine, nact: nat, e: Expr, r: Regs, r': Regs)
    requires Fragment(m, nact, e) && Same(r, r', nact)
    ensures Eval(m, e, r) == Eval(m, e, r')
  {
    match e {
      case EIndex(x, y) => EvalLocals(m, nact, x, r, r'); EvalLocals(m, nact, y, r, r');
      case EArith(_, x, y) => EvalLocals(m, nact, x, r, r'); EvalLocals(m, nact, y, r, r');
      case EUnm(x) => EvalLocals(m, nact, x, r, r');
      case ELen(x) => EvalLocals(m, nact, x, r, r');
      case ENot(x) => EvalLocals(m, nact, x, r, r');
      case ERel(_, x, y) => EvalLocals(m, nact, x, r, r'); EvalLocals(m, nact, y, r, r');
      case EAnd(x, y) => EvalLocals(m, nact, x, r, r'); EvalLocals(m, nact, y, r, r');
      case EOr(x, y) => EvalLocals(m, nact, x, r, r'); EvalLocals(m, nact, y, r, r');
      case _ =>
    }
  }

  /** Registers below n agree. */
  predicate Same(r: Regs, r': Regs, n: nat) {
    |r| == |r'| && forall i :: 0 <= i < n && i < |r| ==> r[i] == r'[i]
  }

  // ---- expression descriptors ----

  datatype Kind =
    | VNil | VTrue | VFalse
    | VK(info: nat)
    | VKNum(n: int)
    | VLocal(reg: nat)
    | VUpval(up: nat)
    | VGlobal(info: nat)
    | VIndexed(t: nat, aux: nat)
    | VJmp(p: nat)
    | VReloc(p: nat)
    | VNonReloc(reg: nat)

  /** expdesc: t and f head the lists of jumps taken when the value is true or false. */
  datatype Exp = Exp(k: Kind, t: int, f: int)

  // ---- the state of code generation ----

  /**
   A value of FuncState: `jumps` are the jumps of the list jpc, `open` all jumps on other lists, `lt`
   is lasttarget, `fr` freereg.
   */
  datatype FS = FS(code: Code, jumps: seq<nat>, open: set<nat>, lt: int, fr: nat, k: seq<Value>)

  function SetOf(s: seq<nat>): set<nat> { set p | p in s }

  function ToHere(s: seq<nat>, here: nat): (d: map<nat, nat>)
    ensures d.Keys == SetOf(s) && forall p :: p in d ==> d[p] == here
  {
    if s == [] then map[]
    else
      assert s == s[..|s| - 1] + [s[|s| - 1]];
      ToHere(s[..|s| - 1], here)[s[|s| - 1] := here]
  }

  /** The code as it will be once the jumps to here are discharged. */
  function View(s: FS): (v: Code)
    ensures |v| == |s.code|
  {
    Patch(s.code, ToHere(s.jumps, |s.code|), NO_REG)
  }

  // ---- lists of jumps ----

  /** getjump */
  function Link(code: Code, p: nat): int
    requires p < |code| && code[p].Jmp?
  {
    if code[p].sbx == NO_JUMP then NO_JUMP else p + 1 + code[p].sbx
  }

  predicate LinkedTo(code: Code, l: seq<nat>, i: nat)
    requires i < |l| && l[i] < |code| && code[l[i]].Jmp?
  {
    Link(code, l[i]) == if i + 1 < |l| then l[i + 1] else NO_JUMP
  }

  /** The jumps l, in this order, are threaded through the code from head on. */
  ghost predicate IsList(code: Code, head: int, l: seq<nat>) {
    && NoDup(l)
    && head == (if l == [] then NO_JUMP else l[0])
    && (forall i :: 0 <= i < |l| ==> l[i] < |code| && code[l[i]].Jmp?)
    && (forall i {:trigger Link(code, l[i])} {:trigger LinkedTo(code, l, i)} :: 0 <= i < |l| ==> LinkedTo(code, l, i))
  }

  // ---- well-formed states ----

  /** A test is followed by its jump, a skipping LOADBOOL by the other one; the code does not end in between. */
  predicate PairedAt(v: Code, i: nat)
    requires i < |v|
  {
    && (v[i].IsTest() ==> i + 1 < |v| && v[i + 1].Jmp?)
    && (v[i].LoadBool? && v[i].skip ==> i + 1 < |v| && v[i + 1].LoadBool?)
  }

  ghost predicate Paired(v: Code) {
    forall i :: 0 <= i < |v| ==> PairedAt(v, i)
  }

  /** Resolved jumps go to positions that were marked as labels. */
  ghost predicate Targets(v: Code, open: set<nat>, lt: int) {
    forall i :: 0 <= i < |v| && v[i].Jmp? && i !in open ==> i + 1 + v[i].sbx <= lt
  }

  ghost predicate Ok(nact: nat, s: FS) {
    && Paired(View(s)) && Targets(View(s), s.open, s.lt)
    && NoDup(s.jumps) && (forall p :: p in s.jumps ==> p < |s.code| && s.code[p].Jmp? && p !in s.open)
    && (forall p :: p in s.open ==> p < |s.code| && s.code[p].Jmp?)
    && (s.jumps != [] ==> s.lt == |s.code|) && -1 <= s.lt <= |s.code|
    && nact <= s.fr < MAXSTACK
  }

  /** Jumps and tests that have nothing to do with the jumps to here. */
  predicate Kept(b: FS, i: nat)
    requires i < |b.code|
  {
    (b.code[i].Jmp? && i !in b.jumps) || (b.code[i].IsTest() && i + 1 !in b.jumps)
  }

  /** What compiling a part of an expression leaves alone. */
  ghost predicate Frame(b: FS, s: FS) {
    && |b.code| <= |s.code| && b.k <= s.k && b.lt <= s.lt
    && (forall i :: 0 <= i < |b.code| && Kept(b, i) ==> s.code[i] == b.code[i])
    && (forall p :: 0 <= p < |b.code| ==> (p in s.open <==> p in b.open))
    && (if |s.code| == |b.code| then s.jumps == b.jumps else forall p :: p in s.jumps ==> p >= |b.code|)
  }

  // ---- delivering a value ----

  /** The position up to which the code of e is complete. */
  function End(s: FS, k: Kind): nat {
    if k.VReloc? then k.p else |s.code|
  }

  /** The value when the code is left at its end. */
  function KindValue(m: Machine, kk: seq<Value>, v: Code, k: Kind, r: Regs): Value {
    match k
    case VNil => Nil
    case VTrue => Bool(true)
    case VFalse => Bool(false)
    case VK(info) => Const(kk, info)
    case VKNum(n) => Num(n)
    case VLocal(reg) => Reg(r, reg)
    case VUpval(up) => m.upval(up)
    case VGlobal(info) => m.global(Const(kk, info))
    case VIndexed(t, aux) => m.index(Reg(r, t), RK(kk, r, aux))
    case VJmp(_) => Bool(false)
    case VReloc(p) => if p < |v| && v[p].IsValue() then Compute(m, kk, v[p], r) else Nil
    case VNonReloc(reg) => Reg(r, reg)
  }

  /** The value when it is left through a pending jump of the list for `truth`. */
  function ExitValue(v: Code, p: nat, r: Regs, truth: bool): Value {
    if 0 < p <= |v| && v[p - 1].TestSet? then Reg(r, v[p - 1].b) else Bool(truth)
  }

  predicate Exits(v: Code, p: nat, r: Regs, truth: bool, value: Value) {
    ExitValue(v, p, r, truth) == value && Falsy(value) == !truth
  }

  /** A run that started with registers r, now at `out`, delivers the value; registers below fr are kept. */
  predicate Landed(m: Machine, kk: seq<Value>, v: Code, k: Kind, t: seq<nat>, f: seq<nat>, fr: nat, value: Value,
    r: Regs, out: Outcome) {
    match out
    case Stuck => false
    case Fall(r') => Same(r, r', fr) && KindValue(m, kk, v, k, r') == value
    case Exit(p, r') =>
      && Same(r, r', fr)
      && (p in f || p in t || k == VJmp(p))
      && (p in f ==> Exits(v, p, r', false, value))
      && (p in t || k == VJmp(p) ==> Exits(v, p, r', true, value))
  }

  /** Registers at or above the local variables are nil when a function starts. */
  predicate Clean(r: Regs, nact: nat) { forall i :: nact <= i < |r| ==> r[i] == Nil }

  /**
   A start of execution: before the end of the code so far, or at a label, or at the entry of the
   function. kk is the constant table in the end.
   */
  ghost predicate Start(nact: nat, b: FS, c: nat, r: Regs) {
    c <= |b.code| && |r| == MAXSTACK && (c < |b.code| || c <= b.lt || (c == 0 && Clean(r, nact)))
  }

  ghost function Before(m: Machine, kk: seq<Value>, b: FS, c: nat, r: Regs): Outcome
    requires c <= |b.code|
  {
    Run(m, kk, View(b), c, |b.code|, b.open, r)
  }

  ghost function After(m: Machine, kk: seq<Value>, s: FS, end: nat, c: nat, r: Regs): Outcome
    requires end <= |s.code|
  {
    Run(m, kk, View(s), c, end, s.open, r)
  }

  /**
   For one start: if the code before the expression (state b) runs to its end, the code with the
   expression (state s) delivers its value; if it leaves through a pending jump, so does the new code.
   */
  ghost predicate DeliversAt(m: Machine, b: FS, s: FS, k: Kind, t: seq<nat>, f: seq<nat>, e: Expr, kk: seq<Value>,
    c: nat, r0: Regs)
    requires c <= |b.code|
  {
    End(s, k) <= |s.code| &&
    match Before(m, kk, b, c, r0)
    case Stuck => true
    case Exit(p, r) => After(m, kk, s, End(s, k), c, r0) == Exit(p, r)
    case Fall(r) => Landed(m, kk, View(s), k, t, f, b.fr, Eval(m, e, r), r, After(m, kk, s, End(s, k), c, r0))
  }

  ghost predicate Delivers(m: Machine, nact: nat, b: FS, s: FS, k: Kind, t: seq<nat>, f: seq<nat>, e: Expr) {
    forall kk, c, r0 :: s.k <= kk && Start(nact, b, c, r0) ==> DeliversAt(m, b, s, k, t, f, e, kk, c, r0)
  }

  // ---- descriptors that fit the state ----

  function JumpOf(k: Kind): set<nat> { if k.VJmp? then {k.p} else {} }

  /** The lists of e are threaded in the code, past the start of the expression, after tests. */
  ghost predicate Lists(b: FS, s: FS, e: Exp, t: seq<nat>, f: seq<nat>) {
    && IsList(s.code, e.t, t) && IsList(s.code, e.f, f)
    && (forall p :: p in t || p in f ==> p > |b.code| && p < |s.code| && s.code[p - 1].IsTest())
    && (forall p :: p in t ==> p !in f)
    && s.open == b.open + SetOf(t) + SetOf(f) + JumpOf(e.k)
    && (e.k.VJmp? ==>
        && e.k.p == |s.code| - 1 && e.k.p > |b.code| && s.code[e.k.p] == Jmp(NO_JUMP) && s.code[e.k.p - 1].CmpOp?
        && e.k.p !in t && e.k.p !in f && s.jumps == [] && s.lt < e.k.p)
    && (e.k.VReloc? ==>
        e.k.p == |s.code| - 1 && e.k.p >= |b.code| && s.code[e.k.p].IsValue() && s.jumps == [] && s.lt <= e.k.p)
  }

  predicate IsTemp(nact: nat, r: nat) { nact <= r < BITRK }

  /** Which temporary registers e occupies: they are the last ones reserved. */
  predicate Temps(nact: nat, b: FS, s: FS, k: Kind) {
    match k
    case VLocal(r) => r < nact && s.fr == b.fr
    case VNonReloc(r) => if r < nact then s.fr == b.fr else r == b.fr && s.fr == b.fr + 1
    case VIndexed(t, a) =>
      && (t < nact || t == b.fr)
      && (IsTemp(nact, a) ==> a == if t < nact then b.fr else b.fr + 1)
      && s.fr == b.fr + (if t < nact then 0 else 1) + (if IsTemp(nact, a) then 1 else 0)
      && (a >= BITRK ==> a - BITRK < |s.k|)
    case _ => s.fr == b.fr
  }

  predicate IsConst(k: Kind) { k.VNil? || k.VTrue? || k.VFalse? || k.VK? || k.VKNum? }

  /** e is a constant descriptor only for expressions that fold to that constant; such an expression has no code. */
  ghost predicate Constants(m: Machine, b: FS, s: FS, e: Exp, x: Expr) {
    && (e.k.VNil? ==> ConstOf(m, x) == CNil) && (e.k.VTrue? ==> ConstOf(m, x) == CTrue) &&
      (e.k.VFalse? ==> ConstOf(m, x) == CFalse)
    && (e.k.VKNum? ==> ConstOf(m, x) == CNum(e.k.n))
    && (e.k.VK? ==> e.k.info < |s.k| && ConstOf(m, x) == CStr(s.k[e.k.info]))
    && (e.k.VGlobal? ==> e.k.info < |s.k|)
    && (IsConst(e.k) || e.k.VLocal? || e.k.VUpval? || e.k.VGlobal? ==>
        s == b.(k := s.k) && e.t == NO_JUMP && e.f == NO_JUMP)
  }

  /** e describes the code between the states b and s, which computes x. */
  ghost predicate Core(m: Machine, nact: nat, b: FS, s: FS, e: Exp, t: seq<nat>, f: seq<nat>, x: Expr) {
    && Ok(nact, b) && Ok(nact, s) && Frame(b, s) && Lists(b, s, e, t, f)
    && Delivers(m, nact, b, s, e.k, t, f, x)
  }

  /** ... holding no more temporaries than it needs, and a constant only if x is one. */
  ghost predicate Holds(m: Machine, nact: nat, b: FS, s: FS, e: Exp, t: seq<nat>, f: seq<nat>, x: Expr) {
    && Core(m, nact, b, s, e, t, f, x) && Fragment(m, nact, x)
    && Temps(nact, b, s, e.k) && Constants(m, b, s, e, x)
  }
}
