/** The expression opcodes and what executing them does to the registers. */
module LuaVm {
  const MAXSTACK := 250
  const NO_REG := 255
  const BITRK := 256
  const MAXINDEXRK := 255
  const MAXARG_SBX := 131071
  const MAXARG_BX := 262143
  const NO_JUMP := -1

  datatype Value = Nil | Bool(b: bool) | Num(n: int) | Other(x: int)

  predicate Falsy(v: Value) { v == Nil || v == Bool(false) }

  datatype ArithOp = Add | Sub | Mul | Div | Mod | Pow
  datatype CmpOp = Eq | Lt | Le

  /**
   What the opcodes leave to the rest of the system. `num` and `neg` are the arithmetic the compiler
   also folds with; the other fields stand for coercions, metamethods, tables, globals and upvalues.
   */
  datatype Machine = Machine(
    num: (ArithOp, int, int) -> int, neg: int -> int, isnan: int -> bool,
    arith: (ArithOp, Value, Value) -> Value, unm: Value -> Value, len: Value -> Value,
    cmp: (CmpOp, Value, Value) -> bool,
    index: (Value, Value) -> Value, global: Value -> Value, upval: nat -> Value)
  {
    function Arith(op: ArithOp, x: Value, y: Value): Value {
      if x.Num? && y.Num? then Num(num(op, x.n, y.n)) else arith(op, x, y)
    }

    function Unm(x: Value): Value { if x.Num? then Num(neg(x.n)) else unm(x) }
  }

  datatype Instr =
    | Move(a: nat, b: nat)
    | LoadK(a: nat, bx: nat)
    | LoadBool(a: nat, flag: bool, skip: bool)
    | LoadNil(a: nat, to: nat)
    | GetUpval(a: nat, b: nat)
    | GetGlobal(a: nat, bx: nat)
    | GetTable(a: nat, b: nat, c: nat)
    | ArithOp(op: ArithOp, a: nat, b: nat, c: nat)
    | Unm(a: nat, b: nat)
    | Not(a: nat, b: nat)
    | Len(a: nat, b: nat)
    | Jmp(sbx: int)
    | CmpOp(cmp: CmpOp, cond: bool, b: nat, c: nat)
    | Test(a: nat, cond: bool)
    | TestSet(a: nat, b: nat, cond: bool)
  {
    /** testTMode */
    predicate IsTest() { CmpOp? || Test? || TestSet? }

    /** Computes one value into register A, with no effect on control. */
    predicate IsValue() {
      Move? || LoadK? || GetUpval? || GetGlobal? || GetTable? || ArithOp? || Unm? || Not? || Len?
    }

    /** SETARG_A */
    function SetA(r: nat): (i: Instr)
      requires IsValue()
      ensures i.IsValue() && i.a == r
    {
      match this
      case Move(_, b) => Move(r, b)
      case LoadK(_, bx) => LoadK(r, bx)
      case GetUpval(_, b) => GetUpval(r, b)
      case GetGlobal(_, bx) => GetGlobal(r, bx)
      case GetTable(_, b, c) => GetTable(r, b, c)
      case ArithOp(op, _, b, c) => ArithOp(op, r, b, c)
      case Unm(_, b) => Unm(r, b)
      case Not(_, b) => Not(r, b)
      case Len(_, b) => Len(r, b)
    }
  }

  type Code = seq<Instr>
  type Regs = seq<Value>

  function Reg(r: Regs, i: nat): Value { if i < |r| then r[i] else Nil }

  function Put(r: Regs, i: nat, v: Value): (r': Regs)
    ensures |r'| == |r| && (i < |r| ==> r'[i] == v) && forall j :: 0 <= j < |r| && j != i ==> r'[j] == r[j]
  {
    if i < |r| then r[i := v] else r
  }

  /** R(a) := ... := R(to) := nil */
  function PutNils(r: Regs, a: nat, to: nat): (r': Regs)
    ensures |r'| == |r| && forall j :: 0 <= j < |r| ==> r'[j] == if a <= j <= to then Nil else r[j]
  {
    seq(|r|, j requires 0 <= j < |r| => if a <= j <= to then Nil else r[j])
  }

  function Const(k: seq<Value>, i: nat): Value { if i < |k| then k[i] else Nil }

  function RK(k: seq<Value>, r: Regs, i: nat): Value {
    if i >= BITRK then Const(k, i - BITRK) else Reg(r, i)
  }

  function Compute(m: Machine, k: seq<Value>, i: Instr, r: Regs): Value
    requires i.IsValue()
  {
    match i
    case Move(_, b) => Reg(r, b)
    case LoadK(_, bx) => Const(k, bx)
    case GetUpval(_, b) => m.upval(b)
    case GetGlobal(_, bx) => m.global(Const(k, bx))
    case GetTable(_, b, c) => m.index(Reg(r, b), RK(k, r, c))
    case ArithOp(op, _, b, c) => m.Arith(op, RK(k, r, b), RK(k, r, c))
    case Unm(_, b) => m.Unm(Reg(r, b))
    case Not(_, b) => Bool(Falsy(Reg(r, b)))
    case Len(_, b) => m.len(Reg(r, b))
  }

  /** Whether a test takes the jump that follows it. */
  predicate Jumps(m: Machine, k: seq<Value>, i: Instr, r: Regs)
    requires i.IsTest()
  {
    match i
    case CmpOp(op, cond, b, c) => m.cmp(op, RK(k, r, b), RK(k, r, c)) == cond
    case Test(a, cond) => Falsy(Reg(r, a)) != cond
    case TestSet(_, b, cond) => Falsy(Reg(r, b)) != cond
  }

  // ---- running code whose jumps are partly unresolved ----

  /** One step: to another position, out through an unresolved jump, or neither. */
  datatype Next = Goto(pc: int, r: Regs) | Leave(p: nat, r: Regs) | Bad

  /** The jump at p, when it is reached. */
  function JumpFrom(v: Code, p: nat, pend: set<nat>, r: Regs): Next {
    if p >= |v| || !v[p].Jmp? then Bad
    else if p in pend then Leave(p, r)
    else Goto(p + 1 + v[p].sbx, r)
  }

  /**
   The instruction at pc; `pend` are the jumps still waiting on a list. A TESTSET before such a jump
   has no register yet and stores nothing. The jump after a test is reached through that test only.
   */
  function Step(m: Machine, k: seq<Value>, v: Code, pc: nat, pend: set<nat>, r: Regs): Next
    requires pc < |v|
  {
    var i := v[pc];
    if i.Jmp? then (if pc > 0 && v[pc - 1].IsTest() then Bad else JumpFrom(v, pc, pend, r))
    else if i.LoadBool? then Goto(if i.skip then pc + 2 else pc + 1, Put(r, i.a, Bool(i.flag)))
    else if i.LoadNil? then Goto(pc + 1, PutNils(r, i.a, i.to))
    else if i.IsTest() then
      if !Jumps(m, k, i, r) then Goto(pc + 2, r)
      else JumpFrom(v, pc + 1, pend, if i.TestSet? && pc + 1 !in pend then Put(r, i.a, Reg(r, i.b)) else r)
    else Goto(pc + 1, Put(r, i.a, Compute(m, k, i, r)))
  }

  // ---- the opcodes one by one ----

  /** The operand i of an opcode is x: a register, or from 256 on a constant. */
  predicate OperandIs(k: seq<Value>, r: Regs, i: nat, x: Value) {
    if i < 256 then i < |r| && r[i] == x else i - 256 < |k| && k[i - 256] == x
  }

  /** The opcodes that leave a value in register a. */
  lemma ValueLaws(m: Machine, k: seq<Value>, v: Code, pc: nat, pend: set<nat>, r: Regs, x: Value, y: Value)
    requires pc < |v|
    ensures v[pc].Move? && v[pc].a < |r| && v[pc].b < |r| ==>
      Step(m, k, v, pc, pend, r) == Goto(pc + 1, r[v[pc].a := r[v[pc].b]])
    ensures v[pc].LoadK? && v[pc].a < |r| && v[pc].bx < |k| ==>
      Step(m, k, v, pc, pend, r) == Goto(pc + 1, r[v[pc].a := k[v[pc].bx]])
    ensures v[pc].LoadBool? && v[pc].a < |r| ==>
      Step(m, k, v, pc, pend, r) == Goto(pc + (if v[pc].skip then 2 else 1), r[v[pc].a := Bool(v[pc].flag)])
    ensures v[pc].LoadNil? ==>
      Step(m, k, v, pc, pend, r).Goto? && Step(m, k, v, pc, pend, r).pc == pc + 1 &&
      var r' := Step(m, k, v, pc, pend, r).r;
      |r'| == |r| && forall j :: 0 <= j < |r| ==> r'[j] == if v[pc].a <= j <= v[pc].to then Nil else r[j]
    ensures v[pc].GetUpval? && v[pc].a < |r| ==>
      Step(m, k, v, pc, pend, r) == Goto(pc + 1, r[v[pc].a := m.upval(v[pc].b)])
    ensures v[pc].GetGlobal? && v[pc].a < |r| && v[pc].bx < |k| ==>
      Step(m, k, v, pc, pend, r) == Goto(pc + 1, r[v[pc].a := m.global(k[v[pc].bx])])
    ensures v[pc].GetTable? && v[pc].a < |r| && v[pc].b < |r| && OperandIs(k, r, v[pc].c, y) ==>
      Step(m, k, v, pc, pend, r) == Goto(pc + 1, r[v[pc].a := m.index(r[v[pc].b], y)])
    ensures v[pc].ArithOp? && v[pc].a < |r| && OperandIs(k, r, v[pc].b, x) && OperandIs(k, r, v[pc].c, y) ==>
      Step(m, k, v, pc, pend, r) == Goto(pc + 1,
        r[v[pc].a := if x.Num? && y.Num? then Num(m.num(v[pc].op, x.n, y.n)) else m.arith(v[pc].op, x, y)])
    ensures v[pc].Unm? && v[pc].a < |r| && v[pc].b < |r| && r[v[pc].b] == x ==>
      Step(m, k, v, pc, pend, r) == Goto(pc + 1, r[v[pc].a := if x.Num? then Num(m.neg(x.n)) else m.unm(x)])
    ensures v[pc].Not? && v[pc].a < |r| && v[pc].b < |r| && r[v[pc].b] == x ==>
      Step(m, k, v, pc, pend, r) == Goto(pc + 1, r[v[pc].a := Bool(x == Nil || x == Bool(false))])
    ensures v[pc].Len? && v[pc].a < |r| && v[pc].b < |r| ==>
      Step(m, k, v, pc, pend, r) == Goto(pc + 1, r[v[pc].a := m.len(r[v[pc].b])])
  {
  }

  /**
   A jump, and the tests: a test goes on with the jump behind it when it comes out as asked, and skips that jump
   otherwise; a TESTSET that jumps stores the value it tested.
   */
  lemma TestLaws(m: Machine, k: seq<Value>, v: Code, pc: nat, r: Regs, x: Value, y: Value)
    requires pc < |v| && (pc > 0 ==> !v[pc - 1].IsTest())
    ensures v[pc].Jmp? ==> Step(m, k, v, pc, {}, r) == Goto(pc + 1 + v[pc].sbx, r)
    ensures pc + 1 < |v| && v[pc + 1].Jmp? && v[pc].CmpOp? && OperandIs(k, r, v[pc].b, x) && OperandIs(k, r, v[pc].c, y) ==>
      Step(m, k, v, pc, {}, r) == Goto(if m.cmp(v[pc].cmp, x, y) == v[pc].cond then pc + 2 + v[pc + 1].sbx else pc + 2,
        r)
    ensures pc + 1 < |v| && v[pc + 1].Jmp? && v[pc].Test? && v[pc].a < |r| && r[v[pc].a] == x ==>
      Step(m, k, v, pc, {}, r) ==
        if (x != Nil && x != Bool(false)) == v[pc].cond then Goto(pc + 2 + v[pc + 1].sbx, r) else Goto(pc + 2, r)
    ensures pc + 1 < |v| && v[pc + 1].Jmp? && v[pc].TestSet? && v[pc].a < |r| && v[pc].b < |r| && r[v[pc].b] == x ==>
      Step(m, k, v, pc, {}, r) ==
        if (x != Nil && x != Bool(false)) == v[pc].cond then Goto(pc + 2 + v[pc + 1].sbx, r[v[pc].a := x])
          else Goto(pc + 2, r)
  {
  }

  datatype Outcome = Fall(r: Regs) | Exit(p: nat, r: Regs) | Stuck

  /** From pc to the position `end`, or out through a pending jump. Expression code only jumps forward. */
  function Run(m: Machine, k: seq<Value>, v: Code, pc: nat, end: nat, pend: set<nat>, r: Regs): Outcome
    requires end <= |v|
    decreases end - pc
  {
    if pc >= end then (if pc == end then Fall(r) else Stuck)
    else
      match Step(m, k, v[..end], pc, pend, r)
      case Goto(n, r') => if pc < n <= end then Run(m, k, v, n, end, pend, r') else Stuck
      case Leave(p, r') => Exit(p, r')
      case Bad => Stuck
  }

  // ---- patching ----

  /** What patchlistaux leaves at position i when it sends each jump p of d to d[p]. */
  function PatchAt(v: Code, d: map<nat, nat>, reg: nat, i: nat): Instr
    requires i < |v|
  {
    if i in d && v[i].Jmp? then Jmp(d[i] - (i + 1))
    else if i + 1 in d && v[i].TestSet? then
      if reg != NO_REG && reg != v[i].b then TestSet(reg, v[i].b, v[i].cond) else Test(v[i].b, v[i].cond)
    else v[i]
  }

  function Patch(v: Code, d: map<nat, nat>, reg: nat): (w: Code)
    ensures |w| == |v| && forall i :: 0 <= i < |v| ==> w[i] == PatchAt(v, d, reg, i)
  {
    seq(|v|, i requires 0 <= i < |v| => PatchAt(v, d, reg, i))
  }

  /** The registers after the patched jump p is taken: the value tested may have been stored. */
  function Stored(v: Code, p: nat, reg: nat, r: Regs): Regs {
    if 0 < p <= |v| && v[p - 1].TestSet? && reg != NO_REG && reg != v[p - 1].b then Put(r, reg, Reg(r, v[p - 1].b))
      else r
  }

  /** w starts with v[..end], patched. */
  ghost predicate PatchedTo(v: Code, end: nat, w: Code, d: map<nat, nat>, reg: nat) {
    end <= |v| && end <= |w| && forall i :: 0 <= i < end ==> w[i] == PatchAt(v, d, reg, i)
  }

  /** What a step on patched code has to be, when it was st before. */
  ghost predicate StepAs(v: Code, end: nat, d: map<nat, nat>, reg: nat, st: Next, st': Next) {
    match st
    case Goto(n, r) => n <= end ==> st' == st
    case Leave(p, r) => p < end && st' == if p in d then Goto(d[p], Stored(v, p, reg, r)) else st
    case Bad => true
  }

  /** A jump, reached on its own or through the test before it. */
  lemma JumpPatched(v: Code, end: nat, w: Code, end': nat, d: map<nat, nat>, reg: nat, p: nat, pend: set<nat>,
    pend': set<nat>, r: Regs)
    requires PatchedTo(v, end, w, d, reg) && end <= end' <= |w| && p < end && !(p > 0 && v[p - 1].TestSet?)
    requires d.Keys <= pend && forall p :: 0 <= p < end ==> (p in pend' <==> p in pend && p !in d)
    ensures StepAs(v, end, d, reg, JumpFrom(v[..end], p, pend, r), JumpFrom(w[..end'], p, pend', r))
  {
    assert w[p] == PatchAt(v, d, reg, p);
  }

  /** A test and its jump. */
  lemma TestPatched(m: Machine, k: seq<Value>, v: Code, end: nat, w: Code, end': nat, d: map<nat, nat>, reg: nat,
    pc: nat, pend: set<nat>, pend': set<nat>, r: Regs)
    requires PatchedTo(v, end, w, d, reg) && pc < end <= end' <= |w| && v[pc].IsTest()
    requires d.Keys <= pend && forall p :: 0 <= p < end ==> (p in pend' <==> p in pend && p !in d)
    ensures StepAs(v, end, d, reg, Step(m, k, v[..end], pc, pend, r), Step(m, k, w[..end'], pc, pend', r))
  {
    assert w[pc] == PatchAt(v, d, reg, pc);
    if pc + 1 < end { assert w[pc + 1] == PatchAt(v, d, reg, pc + 1); }
  }

  lemma StepPatched(m: Machine, k: seq<Value>, v: Code, end: nat, w: Code, end': nat, d: map<nat, nat>, reg: nat,
    pc: nat, pend: set<nat>, pend': set<nat>, r: Regs)
    requires PatchedTo(v, end, w, d, reg) && pc < end <= end' <= |w|
    requires d.Keys <= pend && forall p :: 0 <= p < end ==> (p in pend' <==> p in pend && p !in d)
    ensures StepAs(v, end, d, reg, Step(m, k, v[..end], pc, pend, r), Step(m, k, w[..end'], pc, pend', r))
  {
    if v[pc].IsTest() {
      TestPatched(m, k, v, end, w, end', d, reg, pc, pend, pend', r);
    } else if v[pc].Jmp? {
      assert w[pc] == PatchAt(v, d, reg, pc);
      if pc > 0 { assert w[pc - 1] == PatchAt(v, d, reg, pc - 1); }
      if pc == 0 || !v[pc - 1].IsTest() { JumpPatched(v, end, w, end', d, reg, pc, pend, pend', r); }
    } else {
      assert w[pc] == PatchAt(v, d, reg, pc);
    }
  }

  /**
   Patching retargets exactly the listed jumps: a run that left through one of them goes on at its
   destination, with the tested value stored if there was one to store; every other run is as before.
   */
  lemma {:induction false} RunPatched(m: Machine, k: seq<Value>, v: Code, end: nat, w: Code, end': nat,
    d: map<nat, nat>, reg: nat, pc: nat, pend: set<nat>, pend': set<nat>, r: Regs)
    requires PatchedTo(v, end, w, d, reg) && pc <= end <= end' <= |w|
    requires d.Keys <= pend && forall p :: 0 <= p < end ==> (p in pend' <==> p in pend && p !in d)
    requires forall p :: p in d ==> p < d[p] <= end'
    ensures match Run(m, k, v, pc, end, pend, r)
      case Fall(r') => Run(m, k, w, pc, end', pend', r) == Run(m, k, w, end, end', pend', r')
      case Exit(p, r') =>
        p < end &&
        if p in d then Run(m, k, w, pc, end', pend', r) == Run(m, k, w, d[p], end', pend', Stored(v, p, reg, r'))
        else Run(m, k, w, pc, end', pend', r) == Exit(p, r')
      case Stuck => true
    decreases end - pc
  {
    if pc < end {
      StepPatched(m, k, v, end, w, end', d, reg, pc, pend, pend', r);
      match Step(m, k, v[..end], pc, pend, r) {
        case Goto(n, r') =>
          if pc < n <= end { RunPatched(m, k, v, end, w, end', d, reg, n, pend, pend', r'); }
        case Leave(p, r') =>
          LeaveAfter(m, k, v[..end], pc, pend, r);
        case Bad =>
      }
    }
  }

  lemma LeaveAfter(m: Machine, k: seq<Value>, v: Code, pc: nat, pend: set<nat>, r: Regs)
    requires pc < |v| && Step(m, k, v, pc, pend, r).Leave?
    ensures pc <= Step(m, k, v, pc, pend, r).p <= pc + 1
  {
  }

  /** Code that is only extended runs as before up to where it ended. */
  lemma RunExtended(m: Machine, k: seq<Value>, v: Code, end: nat, w: Code, end': nat, pc: nat, pend: set<nat>,
    pend': set<nat>, r: Regs)
    requires pc <= end <= |v| && end <= end' <= |w| && w[..end] == v[..end]
    requires forall p :: 0 <= p < end ==> (p in pend' <==> p in pend)
    ensures match Run(m, k, v, pc, end, pend, r)
      case Fall(r') => Run(m, k, w, pc, end', pend', r) == Run(m, k, w, end, end', pend', r')
      case Exit(p, r') => p < end && Run(m, k, w, pc, end', pend', r) == Exit(p, r')
      case Stuck => true
  {
    forall i | 0 <= i < end ensures w[i] == PatchAt(v, map[], 0, i) { assert w[i] == w[..end][i] == v[..end][i]; }
    RunPatched(m, k, v, end, w, end', map[], 0, pc, pend, pend', r);
  }

  // ---- positions that cannot be jumped over ----

  /** Nothing before q leads past q, except by falling into it. */
  ghost predicate Inside(v: Code, q: nat, pend: set<nat>) {
    q <= |v| && forall i :: 0 <= i < q ==>
      && (v[i].Jmp? && i !in pend ==> i + 1 + v[i].sbx <= q)
      && (v[i].IsTest() ==> i + 1 < q)
      && (v[i].LoadBool? && v[i].skip ==> i + 2 <= q)
  }

  lemma {:induction false} Through(m: Machine, k: seq<Value>, v: Code, q: nat, end: nat, pc: nat, pend: set<nat>,
    r: Regs)
    requires Inside(v, q, pend) && pc <= q <= end <= |v|
    ensures Run(m, k, v, pc, end, pend, r) ==
      match Run(m, k, v, pc, q, pend, r)
      case Fall(r') => Run(m, k, v, q, end, pend, r')
      case Exit(p, r') => Exit(p, r')
      case Stuck => Stuck
    decreases q - pc
  {
    if pc < q {
      StepInside(m, k, v, q, end, pc, pend, r);
      match Step(m, k, v[..q], pc, pend, r) {
        case Goto(n, r') => if pc < n <= q { Through(m, k, v, q, end, n, pend, r'); }
        case Leave(p, r') =>
        case Bad =>
      }
    }
  }

  lemma StepInside(m: Machine, k: seq<Value>, v: Code, q: nat, end: nat, pc: nat, pend: set<nat>, r: Regs)
    requires Inside(v, q, pend) && pc < q <= end <= |v|
    ensures Step(m, k, v[..end], pc, pend, r) == Step(m, k, v[..q], pc, pend, r)
    ensures Step(m, k, v[..q], pc, pend, r).Goto? ==> Step(m, k, v[..q], pc, pend, r).pc <= q
  {
    var w, u := v[..end], v[..q];
    assert u[pc] == w[pc] == v[pc];
    if pc > 0 { assert u[pc - 1] == w[pc - 1] == v[pc - 1]; }
    if pc + 1 < q { assert u[pc + 1] == w[pc + 1] == v[pc + 1]; }
  }

  /** The same prefix runs the same. */
  lemma RunPrefix(m: Machine, k: seq<Value>, v: Code, w: Code, pc: nat, end: nat, pend: set<nat>, pend': set<nat>,
    r: Regs)
    requires end <= |v| && end <= |w| && v[..end] == w[..end] && forall p :: 0 <= p < end ==>
      (p in pend' <==> p in pend)
    ensures Run(m, k, w, pc, end, pend', r) == Run(m, k, v, pc, end, pend, r)
    decreases end - pc
  {
    if pc < end {
      var n := Step(m, k, v[..end], pc, pend, r);
      if n.Goto? && pc < n.pc <= end { RunPrefix(m, k, v, w, n.pc, end, pend, pend', n.r); }
    }
  }

  // ---- changes that do not matter while a jump is pending ----

  /** Links of pending jumps, and whether the test before one will store its value, make no difference yet. */
  ghost predicate Alike(v: Code, w: Code, pend: set<nat>) {
    |v| == |w| && forall i :: 0 <= i < |v| ==> AlikeAt(v, w, pend, i)
  }

  predicate AlikeAt(v: Code, w: Code, pend: set<nat>, i: nat)
    requires i < |v| && i < |w|
  {
    || w[i] == v[i]
    || (i in pend && v[i].Jmp? && w[i].Jmp?)
    || (i + 1 in pend && v[i].TestSet? && w[i] == Test(v[i].b, v[i].cond))
  }

  lemma {:induction false} RunAlike(m: Machine, k: seq<Value>, v: Code, w: Code, pc: nat, end: nat, pend: set<nat>,
    r: Regs)
    requires Alike(v, w, pend) && end <= |v|
    ensures Run(m, k, w, pc, end, pend, r) == Run(m, k, v, pc, end, pend, r)
    decreases end - pc
  {
    if pc < end {
      StepAlike(m, k, v, w, pc, end, pend, r);
      var n := Step(m, k, v[..end], pc, pend, r);
      if n.Goto? && pc < n.pc <= end { RunAlike(m, k, v, w, n.pc, end, pend, n.r); }
    }
  }

  lemma StepAlike(m: Machine, k: seq<Value>, v: Code, w: Code, pc: nat, end: nat, pend: set<nat>, r: Regs)
    requires Alike(v, w, pend) && pc < end <= |v|
    ensures Step(m, k, w[..end], pc, pend, r) == Step(m, k, v[..end], pc, pend, r)
  {
    var x, y := v[..end], w[..end];
    assert x[pc] == v[pc] && y[pc] == w[pc] && AlikeAt(v, w, pend, pc);
    if pc > 0 { assert x[pc - 1] == v[pc - 1] && y[pc - 1] == w[pc - 1] && AlikeAt(v, w, pend, pc - 1); }
    if pc + 1 < end { assert x[pc + 1] == v[pc + 1] && y[pc + 1] == w[pc + 1] && AlikeAt(v, w, pend, pc + 1); }
  }

  // ---- the interpreter loop ----

  lemma ExecuteOne(m: Machine, k: seq<Value>, code: Code, pc: nat, end: nat, regs: Regs)
    requires end <= |code|
    ensures end == pc + 1 && code[pc].ArithOp? && code[pc].a < |regs| ==> forall x, y ::
      OperandIs(k, regs, code[pc].b, x) && OperandIs(k, regs, code[pc].c, y) ==>
        Run(m, k, code, pc, end, {}, regs) == Fall(regs[code[pc].a :=
          if x.Num? && y.Num? then Num(m.num(code[pc].op, x.n, y.n)) else m.arith(code[pc].op, x, y)])
  {
    hide Step;
    if end == pc + 1 && code[pc].ArithOp? && code[pc].a < |regs| {
      forall x, y | OperandIs(k, regs, code[pc].b, x) && OperandIs(k, regs, code[pc].c, y)
        ensures Run(m, k, code, pc, end, {}, regs) == Fall(regs[code[pc].a :=
          if x.Num? && y.Num? then Num(m.num(code[pc].op, x.n, y.n)) else m.arith(code[pc].op, x, y)])
      {
        ValueLaws(m, k, code[..end], pc, {}, regs, x, y);
      }
    }
  }

  /** luaV_execute on the opcodes above, over code without unresolved jumps. */
  method Execute(m: Machine, k: seq<Value>, code: Code, start: nat, end: nat, regs: Regs) returns (r: Regs)
    requires end <= |code| && Run(m, k, code, start, end, {}, regs).Fall?
    ensures Run(m, k, code, start, end, {}, regs) == Fall(r)
    ensures end == start + 1 && code[start].ArithOp? && code[start].a < |regs| ==> forall x, y ::
      OperandIs(k, regs, code[start].b, x) && OperandIs(k, regs, code[start].c, y) ==> r == regs[code[start].a :=
        if x.Num? && y.Num? then Num(m.num(code[start].op, x.n, y.n)) else m.arith(code[start].op, x, y)]
  {
    ExecuteOne(m, k, code, start, end, regs);
    var pc := start;
    r := regs;
    while pc < end
      invariant 0 <= pc <= end && Run(m, k, code, pc, end, {}, r) == Run(m, k, code, start, end, {}, regs)
      decreases end - pc
    {
      var i := code[pc];
      ghost var v, pc0, r0 := code[..end], pc, r;
      assert v[pc] == i;
      assert Step(m, k, v, pc, {}, r).Goto?;
      pc := pc + 1;
      match i {
        case Jmp(sbx) => pc := pc + sbx;
        case LoadBool(a, flag, skip) =>
          r := Put(r, a, Bool(flag));
          if skip { pc := pc + 1; }
        case LoadNil(a, to) => r := StoreNils(r, a, to);
        case CmpOp(op, cond, b, c) =>
          if m.cmp(op, RK(k, r, b), RK(k, r, c)) == cond { assert v[pc] == code[pc]; pc := pc + code[pc].sbx; }
          pc := pc + 1;
        case Test(a, cond) =>
          if Falsy(Reg(r, a)) != cond { assert v[pc] == code[pc]; pc := pc + code[pc].sbx; }
          pc := pc + 1;
        case TestSet(a, b, cond) =>
          if Falsy(Reg(r, b)) != cond {
            r := Put(r, a, Reg(r, b));
            assert v[pc] == code[pc];
            pc := pc + code[pc].sbx;
          }
          pc := pc + 1;
        case Not(a, b) => r := Put(r, a, Bool(Falsy(Reg(r, b))));
        case _ => r := Put(r, i.a, Compute(m, k, i, r));
      }
      assert Step(m, k, v, pc0, {}, r0) == Goto(pc, r);
    }
  }

  /** The loop of OP_LOADNIL, from the last register down. */
  method StoreNils(r: Regs, a: nat, to: nat) returns (r': Regs)
    ensures r' == PutNils(r, a, to)
  {
    r' := r;
    var j: int := to;
    while j >= a
      invariant |r'| == |r| && (j <= to)
      invariant forall i :: 0 <= i < |r| ==> r'[i] == if a <= i <= to && i > j then Nil else r[i]
    {
      r' := Put(r', j, Nil);
      j := j - 1;
    }
  }
}
