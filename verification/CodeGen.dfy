/** The code generator of lcode.c for expressions. */
module CodeGen {
  import opened Common
  import opened LuaVm
  import opened ExprSem
  import opened ExprProofs
  import opened CondProofs
  import opened LogicProofs
  import opened RegProofs
  import opened OperandProofs

  predicate IsVar(k: Kind) { k.VLocal? || k.VUpval? || k.VGlobal? || k.VIndexed? }

  // ---- facts about lists for the loops ----

  lemma ListRest(code: Code, h: int, l: seq<nat>, j: nat)
    requires IsList(code, h, l) && j < |l|
    ensures l[j] < |code| && code[l[j]].Jmp? && Link(code, l[j]) == if j + 1 < |l| then l[j + 1] else NO_JUMP
  {
    assert LinkedTo(code, l, j);
  }

  /** The patched form of the test i, which brings a value. */
  function Storing(i: Instr, reg: nat): Instr
    requires i.TestSet?
  {
    if reg != NO_REG && reg != i.b then TestSet(reg, i.b, i.cond) else Test(i.b, i.cond)
  }

  /** One jump patched, with its test. */
  function PatchedOne(c: Code, p: nat, vt: nat, label': nat, reg: nat): Code
    requires p < |c|
  {
    if p > 0 && c[p - 1].TestSet? then c[p - 1 := Storing(c[p - 1], reg)][p := Jmp(vt as int - (p + 1))]
    else c[p := Jmp(label' as int - (p + 1))]
  }

  /** One more jump of the list patched. */
  lemma PatchOneMore(c0: Code, h: int, l: seq<nat>, j: nat, vt: nat, label': nat, reg: nat)
    requires IsList(c0, h, l) && j < |l|
    ensures var p := l[j];
      var c := Patch(c0, Dests(c0, l[..j], vt, label'), reg);
      && p < |c0| && c[p] == c0[p] && (p > 0 ==> (c[p - 1].TestSet? <==> c0[p - 1].TestSet?))
      && Patch(c0, Dests(c0, l[..j + 1], vt, label'), reg) == PatchedOne(c, p, vt, label', reg)
  {
    hide Dests;
    var p, d, d' := l[j], Dests(c0, l[..j], vt, label'), Dests(c0, l[..j + 1], vt, label');
    assert l[..j + 1] == l[..j] + [p];
    assert p !in l[..j];
    assert LinkedTo(c0, l, j);
    ListInside(c0, h, l);
    var c, c' := Patch(c0, d, reg), Patch(c0, d', reg);
    assert c[p] == PatchAt(c0, d, reg, p);
    if p > 0 { assert c[p - 1] == PatchAt(c0, d, reg, p - 1); }
    assert forall q :: q in d' <==> q in d || q == p;
    forall i | 0 <= i < |c0| ensures c'[i] == PatchedOne(c, p, vt, label', reg)[i]
    {
      assert c'[i] == PatchAt(c0, d', reg, i) && c[i] == PatchAt(c0, d, reg, i);
      PatchOneAt(c0, c, d, d', p, vt, label', reg, i);
    }
  }

  lemma PatchOneAt(c0: Code, c: Code, d: map<nat, nat>, d': map<nat, nat>, p: nat, vt: nat, label': nat, reg: nat,
    i: nat)
    requires i < |c0| == |c| && p < |c0| && c0[p].Jmp? && p !in d && c[p] == c0[p] && c[i] == PatchAt(c0, d, reg, i)
    requires p > 0 ==> c[p - 1] == PatchAt(c0, d, reg, p - 1)
    requires (forall q :: q in d' <==> q in d || q == p) &&
      (forall q :: q in d ==> d'[q] == d[q] && q < |c0| && c0[q].Jmp?)
    requires d'[p] == if p > 0 && c0[p - 1].TestSet? then vt else label'
    ensures PatchAt(c0, d', reg, i) == PatchedOne(c, p, vt, label', reg)[i]
  {
  }

  lemma DestsHere(code: Code, l: seq<nat>, n: nat)
    ensures Dests(code, l, n, n) == ToHere(l, n)
  {
    var a, b := Dests(code, l, n, n), ToHere(l, n);
    assert a.Keys == b.Keys;
    assert forall p :: p in a ==> a[p] == b[p];
  }

  lemma RemoveOneMore(c0: Code, h: int, l: seq<nat>, j: nat)
    requires IsList(c0, h, l) && j < |l|
    ensures var p := l[j];
      var c := Removed(c0, l[..j]);
      && p < |c0| && c[p] == c0[p] && (p > 0 ==> (c0[p - 1].TestSet? <==> c[p - 1].TestSet?) && (c0[p - 1].TestSet? ==> c[p - 1] == c0[p - 1]))
      && Removed(c0, l[..j + 1]) == if p > 0 && c0[p - 1].TestSet? then c[p - 1 := Test(c0[p - 1].b, c0[p - 1].cond)]
        else c
  {
    var p := l[j];
    assert l[..j + 1] == l[..j] + [p];
    assert p !in l[..j];
    assert LinkedTo(c0, l, j);
    var c, c' := Removed(c0, l[..j]), Removed(c0, l[..j + 1]);
    var c1 := if p > 0 && c0[p - 1].TestSet? then c[p - 1 := Test(c0[p - 1].b, c0[p - 1].cond)] else c;
    forall i | 0 <= i < |c0| ensures c'[i] == c1[i]
    {
      assert c'[i] == RemovedAt(c0, l[..j + 1], i) && c[i] == RemovedAt(c0, l[..j], i);
    }
  }

  lemma ListHead(code: Code, h: int, l: seq<nat>)
    requires IsList(code, h, l)
    ensures h == if l == [] then NO_JUMP else l[0]
  {
  }

  lemma NoneDone(c0: Code, vt: nat, label': nat, reg: nat)
    ensures Patch(c0, Dests(c0, [], vt, label'), reg) == c0 && Removed(c0, []) == c0
  {
    assert forall i :: 0 <= i < |c0| ==> Patch(c0, Dests(c0, [], vt, label'), reg)[i] == PatchAt(c0,
      Dests(c0, [], vt, label'), reg, i);
    assert forall i :: 0 <= i < |c0| ==> Removed(c0, [])[i] == RemovedAt(c0, [], i);
  }

  /** luaK_nil(from, n) on the state s. */
  function NilDone(nact: nat, s: FS, from: nat, n: nat): FS
    requires n > 0
  {
    if |s.code| > s.lt && |s.code| == 0 && from >= nact then s
    else if |s.code| > s.lt && |s.code| > 0 && s.code[|s.code| - 1].LoadNil?
      && s.code[|s.code| - 1].a <= from <= s.code[|s.code| - 1].to + 1 then NilsTo(s, from + n - 1)
    else Emitted(s, LoadNil(from, from + n - 1))
  }

  class FuncState {
    const m: Machine
    const nactvar: nat
    var code: Code
    var k: seq<Value>
    var jpc: int
    var lasttarget: int
    var freereg: nat
    var maxstacksize: nat
    ghost var jumps: seq<nat>      // the jumps on the list jpc
    ghost var open: set<nat>       // the jumps on other lists

    ghost function Snap(): FS
      reads this
    {
      FS(code, jumps, open, lasttarget, freereg, k)
    }

    ghost predicate Valid()
      reads this
    {
      IsList(code, jpc, jumps) && freereg <= maxstacksize < MAXSTACK
    }

    /** A limit of the instruction format is reached: the code is too long for a jump, or no constant or register is left. */
    ghost predicate Full()
      reads this
    {
      |code| > MAXARG_SBX || |k| >= MAXARG_BX || freereg + 1 >= MAXSTACK
    }

    /** Since a state with code, constants and registers of these sizes, no more than n and r have been added. */
    ghost predicate Grown(code0: nat, k0: nat, free0: nat, n: nat, r: nat)
      reads this
    {
      |code| <= code0 + n && |k| <= k0 + n && freereg <= free0 + r
    }

    /** A function whose first nactvar registers hold its parameters. */
    constructor (m: Machine, nactvar: nat)
      requires nactvar < MAXSTACK
      ensures Valid() && Ok(nactvar, Snap()) && Snap() == FS([], [], {}, -1, nactvar, []) && this.m == m &&
        this.nactvar == nactvar
    {
      this.m, this.nactvar := m, nactvar;
      code, k, jpc, lasttarget, freereg := [], [], NO_JUMP, -1, nactvar;
      maxstacksize := if nactvar > 2 then nactvar else 2;
      jumps, open := [], {};
    }

    // ---- jump lists ----

    method GetJump(pc: nat) returns (next: int)
      requires pc < |code| && code[pc].Jmp?
      ensures next == Link(code, pc)
    {
      var offset := code[pc].sbx;
      if offset == NO_JUMP {  // an offset of -1 is the encoded NO_JUMP; FixJump never stores it for a real target
        return NO_JUMP;
      }
      return (pc + 1) + offset;
    }

    method FixJump(pc: nat, dest: nat) returns (s: Status)
      requires pc < |code| && code[pc].Jmp?
      modifies this`code
      ensures s.Success? <==> -131071 <= dest - (pc + 1) <= 131071
      ensures code == if s.Success? then old(code)[pc := Jmp(dest - (pc + 1))] else old(code)
    {
      var offset: int := dest - (pc + 1);
      if offset > MAXARG_SBX || offset < -MAXARG_SBX {
        return Failure("control structure too long");
      }
      code := code[pc := Jmp(offset)];
      return Success;
    }

    method GetLabel() returns (pc: nat)
      modifies this`lasttarget
      ensures lasttarget == pc == |code|
    {
      lasttarget := |code|;
      return |code|;
    }

    /** getjumpcontrol */
    method GetJumpControl(pc: nat) returns (i: nat)
      requires pc < |code|
      ensures i == if pc >= 1 && code[pc - 1].IsTest() then pc - 1 else pc
    {
      if pc >= 1 && code[pc - 1].IsTest() { return pc - 1; }
      return pc;
    }

    /** need_value: some jump of the list does not bring a value of its own. */
    method NeedValue(list: int, ghost l: seq<nat>) returns (b: bool)
      requires IsList(code, list, l)
      ensures b <==> exists p :: p in l && !(p > 0 && code[p - 1].TestSet?)
    {
      var p := list;
      ghost var j := 0;
      while p != NO_JUMP
        invariant 0 <= j <= |l| && p == (if j < |l| then l[j] else NO_JUMP)
        invariant forall q :: q in l[..j] ==> q > 0 && code[q - 1].TestSet?
        decreases |l| - j
      {
        ListRest(code, list, l, j);
        var i := GetJumpControl(p);
        assert l[..j + 1] == l[..j] + [l[j]];
        if !code[i].TestSet? {
          assert l[j] in l && !(p > 0 && code[p - 1].TestSet?);
          return true;
        }
        p := GetJump(p);
        j := j + 1;
      }
      assert l[..j] == l;
      return false;
    }

    /** patchtestreg: gives the test before a jump its register; false if that is no TESTSET. */
    method PatchTestReg(node: nat, reg: nat) returns (b: bool)
      requires node < |code| && code[node].Jmp?
      modifies this`code
      ensures b <==> node > 0 && old(code)[node - 1].TestSet?
      ensures code ==
        if !b then old(code)
        else var i := old(code)[node - 1];
          old(code)[node - 1 := if reg != NO_REG && reg != i.b then TestSet(reg, i.b, i.cond) else Test(i.b, i.cond)]
    {
      var i := GetJumpControl(node);
      if !code[i].TestSet? { return false; }  // only a TESTSET can be turned into a TEST
      if reg != NO_REG && reg != code[i].b {
        code := code[i := TestSet(reg, code[i].b, code[i].cond)];
      } else {
        code := code[i := Test(code[i].b, code[i].cond)];
      }
      return true;
    }

    method RemoveValues(list: int, ghost l: seq<nat>)
      requires IsList(code, list, l)
      modifies this`code
      ensures code == Removed(old(code), l) && |code| == old(|code|)
    {
      var p := list;
      ghost var j := 0;
      ghost var c0 := code;
      NoneDone(c0, 0, 0, 0);
      while p != NO_JUMP
        invariant 0 <= j <= |l| && p == (if j < |l| then l[j] else NO_JUMP)
        invariant code == Removed(c0, l[..j]) && |code| == |c0|
        decreases |l| - j
      {
        ListRest(c0, list, l, j);
        RemoveOneMore(c0, list, l, j);
        var _ := PatchTestReg(p, NO_REG);
        RemoveKeepsLink(c0, l[..j + 1], p);
        p := GetJump(p);
        j := j + 1;
      }
      assert l[..j] == l;
    }

    /** One round of patchlistaux. */
    method PatchJump(p: nat, vtarget: nat, reg: nat, dtarget: int, ghost label': nat) returns (s: Status)
      requires p < |code| && code[p].Jmp? && (dtarget == label' || (p > 0 && code[p - 1].TestSet?))
      modifies this`code
      ensures s.Success? ==> code == PatchedOne(old(code), p, vtarget, label', reg)
      ensures |code| == old(|code|) && (s.Failure? ==>
        |code| > MAXARG_SBX || vtarget > MAXARG_SBX || dtarget > MAXARG_SBX)
    {
      var v := PatchTestReg(p, reg);
      if v {
        s := FixJump(p, vtarget);
      } else {
        s := FixJump(p, dtarget);  // no TESTSET before this jump: its list goes to dtarget
      }
    }

    /** patchlistaux: tests that bring a value go to vtarget, other jumps to dtarget. */
    method PatchListAux(list: int, vtarget: nat, reg: nat, dtarget: int, ghost l: seq<nat>, ghost label': nat)
      returns (s: Status)
      requires IsList(code, list, l)
      requires dtarget == label' || forall p :: p in l ==> p > 0 && code[p - 1].TestSet?
      modifies this`code
      ensures s.Success? ==> code == Patch(old(code), Dests(old(code), l, vtarget, label'), reg)
      ensures |code| == old(|code|) && (s.Failure? ==>
        |code| > MAXARG_SBX || vtarget > MAXARG_SBX || dtarget > MAXARG_SBX)
    {
      hide Patch, Dests, IsList, PatchedOne;
      var p := list;
      ghost var j := 0;
      ghost var c0 := code;
      NoneDone(c0, vtarget, label', reg);
      ListHead(c0, list, l);
      assert l[..0] == [];
      while p != NO_JUMP
        invariant 0 <= j <= |l| && p == (if j < |l| then l[j] else NO_JUMP)
        invariant code == Patch(c0, Dests(c0, l[..j], vtarget, label'), reg) && |code| == |c0|
        decreases |l| - j
      {
        ListRest(c0, list, l, j);
        PatchOneMore(c0, list, l, j, vtarget, label', reg);
        assert l[j] in l;
        var next := GetJump(p);
        :- PatchJump(p, vtarget, reg, dtarget, label');
        p := next;
        j := j + 1;
      }
      assert l[..j] == l;
      return Success;
    }

    /** dischargejpc */
    method DischargeJpc() returns (s: Status)
      requires Valid()
      modifies this`code, this`jpc, this`jumps
      ensures s.Success? ==> Snap() == old(Snap().(code := View(Snap()), jumps := [])) && Valid()
      ensures s.Failure? ==> Full()
      ensures Grown(old(|code|), old(|k|), old(freereg), 0, 0)
    {
      ghost var c0 := code;
      :- PatchListAux(jpc, |code|, NO_REG, |code|, jumps, |code|);
      DestsHere(c0, jumps, |c0|);
      jpc := NO_JUMP;
      jumps := [];
      return Success;
    }

    /** luaK_code */
    method Code(i: Instr) returns (s: Status, pc: nat)
      requires Valid()
      modifies this`code, this`jpc, this`jumps
      ensures s.Success? ==> Snap() == Emitted(old(Snap()), i) && Valid() && pc == old(|code|)
      ensures s.Failure? ==> Full()
      ensures Grown(old(|code|), old(|k|), old(freereg), 1, 0)
    {
      pc := |code|;
      :- DischargeJpc();
      code := code + [i];
      return Success, pc;
    }

    /** luaK_concat: list append. */
    method Concat(l1: int, l2: int, ghost s1: seq<nat>, ghost s2: seq<nat>) returns (s: Status, l: int)
      requires IsList(code, l1, s1) && IsList(code, l2, s2) && forall p :: p in s1 ==> p !in s2
      modifies this`code
      ensures s.Success? ==> code == Linked(old(code), s1, s2) && IsList(code, l, s1 + s2)
      ensures s.Success? ==> l == if s1 == [] then l2 else l1
      ensures s.Failure? ==> Full()
      ensures Grown(old(|code|), old(|k|), old(freereg), 0, 0)
    {
      l := l1;
      LinkedList(code, l1, s1, l2, s2);
      if l2 == NO_JUMP {
        return Success, l1;
      } else if l1 == NO_JUMP {
        return Success, l2;
      }
      var list := l1;
      ghost var j := 0;
      ListRest(code, l1, s1, 0);
      var next := GetJump(list);
      while next != NO_JUMP
        invariant code == old(code) && 0 <= j < |s1| && list == s1[j] && list < |code| && code[list].Jmp?
        invariant next == if j + 1 < |s1| then s1[j + 1] else NO_JUMP
        decreases |s1| - j
      {
        list := next;
        j := j + 1;
        ListRest(code, l1, s1, j);
        next := GetJump(list);
      }
      ListRest(code, l2, s2, 0);
      :- FixJump(list, l2);
      return Success, l1;
    }

    /** luaK_patchtohere */
    method PatchToHere(list: int, ghost l: seq<nat>) returns (s: Status)
      requires Valid() && IsList(code, list, l) && forall p :: p in jumps ==> p !in l
      modifies this`code, this`jpc, this`jumps, this`lasttarget, this`open
      ensures s.Success? ==> Snap() == Here(old(Snap()), l) && Valid()
      ensures s.Failure? ==> Full()
      ensures Grown(old(|code|), old(|k|), old(freereg), 0, 0)
    {
      var _ := GetLabel();
      var j :- Concat(jpc, list, jumps, l);
      jpc := j;
      jumps := jumps + l;
      open := open - SetOf(l);
      return Success;
    }

    /** luaK_jump: the jumps to here are kept on hold with the new one. */
    method Jump() returns (s: Status, j: int)
      requires Valid()
      modifies this`code, this`jpc, this`jumps, this`open
      ensures s.Success? ==>
        var n := old(|code|);
        && code == old(code) + [Jmp(if old(jumps) == [] then NO_JUMP else old(jumps)[0] as int - (n + 1))]
        && jumps == [] && open == old(open) + {n} + SetOf(old(jumps)) && Valid() && j == n &&
          IsList(code, j, [n] + old(jumps))
      ensures s.Failure? ==> Full()
      ensures Grown(old(|code|), old(|k|), old(freereg), 1, 0)
    {
      j := NO_JUMP;
      var saved := jpc;
      ghost var js, n := jumps, |code|;
      jpc := NO_JUMP;
      jumps := [];
      ListInside(code, saved, js);
      assert IsList(code, NO_JUMP, []);
      ghost var c0 := code;
      var pc :- Code(Jmp(NO_JUMP));
      assert code == c0 + [Jmp(NO_JUMP)] by { ViewNoJumps(FS(c0, [], open, lasttarget, freereg, k)); }
      OneList(code, n);
      SameList(c0, code, saved, js);
      ListNotHere(c0, saved, js);
      var l :- Concat(pc, saved, [n], js);
      open := open + {n} + SetOf(js);
      return Success, l;
    }

    /** condjump, with no jump to here left after the test is coded. */
    method CondJump(i: Instr) returns (s: Status, pc: nat)
      requires Valid() && i.IsTest()
      modifies this`code, this`jpc, this`jumps, this`open
      ensures s.Success? ==> Snap() == CondJumped(old(Snap()), i) && Valid() && pc == old(|code|) + 1
      ensures s.Failure? ==> Full()
      ensures Grown(old(|code|), old(|k|), old(freereg), 2, 0)
    {
      pc := 0;
      var _ :- Code(i);
      var j :- Jump();
      assert SetOf([]) == {};
      return Success, j;
    }

    // ---- registers and constants ----

    method CheckStack(n: nat) returns (s: Status)
      requires freereg <= maxstacksize < MAXSTACK
      modifies this`maxstacksize
      ensures s.Success? ==> freereg + n <= maxstacksize < MAXSTACK && maxstacksize >= old(maxstacksize)
      ensures s.Failure? ==> freereg + n >= MAXSTACK
    {
      var newstack := freereg + n;
      if newstack > maxstacksize {
        if newstack >= MAXSTACK {
          return Failure("function or expression too complex");
        }
        maxstacksize := newstack;
      }
      return Success;
    }

    method ReserveRegs(n: nat) returns (s: Status)
      requires Valid()
      modifies this`maxstacksize, this`freereg
      ensures s.Success? ==> freereg == old(freereg) + n && freereg < MAXSTACK && Valid()
      ensures s.Failure? ==> freereg + n >= MAXSTACK && (n <= 1 ==> Full())
      ensures Grown(old(|code|), old(|k|), old(freereg), 0, n)
    {
      s := CheckStack(n);
      if s.Success? { freereg := freereg + n; }
    }

    /** freereg: temporaries are released in the reverse order of their reservation. */
    method FreeReg(reg: nat)
      requires Valid() && (IsTemp(nactvar, reg) ==> reg + 1 == freereg)
      modifies this`freereg
      ensures freereg == (if IsTemp(nactvar, reg) then reg else old(freereg)) && Valid() && freereg <= old(freereg)
    {
      if reg < BITRK && reg >= nactvar {
        freereg := freereg - 1;
        assert reg == freereg;
      }
    }

    method FreeExp(e: Exp)
      requires Valid() && (e.k.VNonReloc? && IsTemp(nactvar, e.k.reg) ==> e.k.reg + 1 == freereg)
      modifies this`freereg
      ensures freereg == (if e.k.VNonReloc? && IsTemp(nactvar, e.k.reg) then e.k.reg else old(freereg)) && Valid()
      ensures freereg <= old(freereg)
    {
      if e.k.VNonReloc? { FreeReg(e.k.reg); }
    }

    /** addk: a constant has one place in the table. */
    method AddK(v: Value) returns (s: Status, i: nat)
      modifies this`k
      ensures s.Success? ==> old(k) <= k && i < |k| && k[i] == v && (v in old(k) ==> k == old(k)) && |k| <= old(|k|) + 1 && i <= old(|k|)
      ensures s.Failure? ==> Full()
      ensures Grown(old(|code|), old(|k|), old(freereg), 1, 0)
    {
      i := 0;
      while i < |k|
        invariant 0 <= i <= |k| && v !in k[..i]
      {
        if k[i] == v { return Success, i; }
        i := i + 1;
      }
      if |k| >= MAXARG_BX { return Failure("constant table overflow"), 0; }
      k := k + [v];
      return Success, |k| - 1;
    }

    // ---- luaK_nil ----

    method Nil(from: nat, n: nat) returns (s: Status)
      requires Valid() && n > 0 && (jumps != [] ==> lasttarget == |code|)
      modifies this`code, this`jpc, this`jumps
      ensures s.Success? ==> Snap() == NilDone(nactvar, old(Snap()), from, n) && Valid()
      ensures s.Failure? ==> Full()
      ensures Grown(old(|code|), old(|k|), old(freereg), 1, 0)
    {
      if |code| > lasttarget {  // merging is sound only if no jump lands between the two LOADNILs
        if |code| == 0 {
          if from >= nactvar { return Success; }
        } else {
          var previous := code[|code| - 1];
          if previous.LoadNil? {
            if previous.a <= from <= previous.to + 1 {
              ghost var c0 := code;
              if from + n - 1 > previous.to {
                code := code[|code| - 1 := LoadNil(previous.a, from + n - 1)];
              }
              assert code == NilsTo(old(Snap()), from + n - 1).code;
              assert IsList(code, jpc, []);
              return Success;
            }
          }
        }
      }
      var _ :- Code(LoadNil(from, from + n - 1));
      return Success;
    }

    // ---- discharging ----

    ghost predicate Has(b: FS, e: Exp, t: seq<nat>, f: seq<nat>, x: Expr)
      reads this
    {
      Valid() && Holds(m, nactvar, b, Snap(), e, t, f, x)
    }

    /** Only Core: some register has been reserved, or not released yet. */
    ghost predicate Has0(b: FS, e: Exp, t: seq<nat>, f: seq<nat>, x: Expr)
      reads this
    {
      Valid() && Core(m, nactvar, b, Snap(), e, t, f, x)
    }

    /** luaK_dischargevars */
    method DischargeVars(e: Exp, ghost b: FS, ghost t: seq<nat>, ghost f: seq<nat>, ghost x: Expr)
      returns (s: Status, e': Exp)
      requires if IsVar(e.k) then Has(b, e, t, f, x) else Valid()
      modifies this`code, this`jpc, this`jumps, this`freereg
      ensures !IsVar(e.k) ==> s.Success? && e' == e && Snap() == old(Snap()) && Valid()
      ensures s.Success? && IsVar(e.k) ==> Has(b, e', t, f, x) && (e'.k.VReloc? || e'.k.VNonReloc?) && e'.t == e.t && e'.f == e.f
      ensures s.Failure? ==> Full()
      ensures Grown(old(|code|), old(|k|), old(freereg), 1, 0)
    {
      hide Holds, Core, Ok, IsList, Delivers, Lists, Frame, Fragment, Emitted;
      e' := e;
      ghost var g := Snap();
      match e.k {
        case VLocal(r) =>
          LocalHolds(m, nactvar, b, g, e, t, f, x);
          e' := Exp(VNonReloc(r), e.t, e.f);
        case VUpval(up) =>
          var pc :- Code(GetUpval(0, up));
          VarHolds(m, nactvar, b, g, e, t, f, x, GetUpval(0, up));
          e' := Exp(VReloc(pc), e.t, e.f);
        case VGlobal(info) =>
          var pc :- Code(GetGlobal(0, info));
          VarHolds(m, nactvar, b, g, e, t, f, x, GetGlobal(0, info));
          e' := Exp(VReloc(pc), e.t, e.f);
        case VIndexed(r, aux) =>
          IndexTemps(m, nactvar, b, g, e, t, f, x);
          FreeReg(aux);
          FreeReg(r);
          var pc :- Code(GetTable(0, r, aux));
          VarHolds(m, nactvar, b, g, e, t, f, x, GetTable(0, r, aux));
          e' := Exp(VReloc(pc), e.t, e.f);
        case _ =>
      }
      return Success, e';
    }

    /** discharge2reg on a numeral */
    method LoadNumber(e: Exp, reg: nat, ghost b: FS, ghost t: seq<nat>, ghost f: seq<nat>, ghost x: Expr)
      returns (s: Status)
      requires Has0(b, e, t, f, x) && e.k.VKNum? && reg == b.fr
      modifies this`code, this`jpc, this`jumps, this`k
      ensures s.Success? ==> Has0(b, Exp(VNonReloc(reg), e.t, e.f), t, f, x) && old(k) <= k
      ensures s.Failure? ==> Full()
      ensures Grown(old(|code|), old(|k|), old(freereg), 1, 0)
    {
      hide Core, IsList, Emitted;
      ghost var g := Snap();
      var i :- AddK(Num(e.k.n));
      MoreConstants(m, nactvar, b, g, e, t, f, x, k);
      ghost var g1 := Snap();
      var _ :- Code(LoadK(reg, i));
      LoadHolds(m, nactvar, b, g1, e, t, f, x, LoadK(reg, i));
      return Success;
    }

    /** discharge2reg: a comparison is left as it is. */
    method Discharge2Reg(e: Exp, reg: nat, ghost b: FS, ghost t: seq<nat>, ghost f: seq<nat>, ghost x: Expr)
      returns (s: Status, e': Exp)
      requires Has0(b, e, t, f, x) && !IsVar(e.k) && reg == b.fr && (e.k.VK? ==> e.k.info < |k|)
      modifies this`code, this`jpc, this`jumps, this`k, this`freereg
      ensures s.Success? ==> Has0(b, e', t, f, x) && e'.t == e.t && e'.f == e.f && freereg == old(freereg) && old(k) <= k
      ensures s.Success? ==> if e.k.VJmp? then e' == e && Snap() == old(Snap()) else e'.k == VNonReloc(reg)
      ensures s.Failure? ==> Full()
      ensures Grown(old(|code|), old(|k|), old(freereg), 2, 0)
    {
      hide Holds, Core, Ok, IsList, Delivers, Lists, Frame, Fragment, Emitted, NilDone;
      s, e' := DischargeVars(e, b, t, f, x);
      ghost var g := Snap();
      e' := Exp(VNonReloc(reg), e.t, e.f);
      match e.k {
        case VNil =>
          LabelHere(m, nactvar, b, g, e, t, f, x);
          :- Nil(reg, 1);
          NilCases(m, nactvar, b, g, e, t, f, x);
        case VFalse =>
          var _ :- Code(LoadBool(reg, false, false));
          LoadHolds(m, nactvar, b, g, e, t, f, x, LoadBool(reg, false, false));
        case VTrue =>
          var _ :- Code(LoadBool(reg, true, false));
          LoadHolds(m, nactvar, b, g, e, t, f, x, LoadBool(reg, true, false));
        case VK(info) =>
          var _ :- Code(LoadK(reg, info));
          LoadHolds(m, nactvar, b, g, e, t, f, x, LoadK(reg, info));
        case VKNum(_) => :- LoadNumber(e, reg, b, t, f, x);
        case VReloc(p) =>
          RelocPlace(m, nactvar, b, g, e, t, f, x);
          RelocatedCore(m, nactvar, b, g, e, t, f, x);
          code := code[p := code[p].SetA(reg)];
          StillList(g.code, code, jpc, jumps);
        case VNonReloc(r) =>
          if reg != r {
            var _ :- Code(Move(reg, r));
            LoadHolds(m, nactvar, b, g, e, t, f, x, Move(reg, r));
          }
        case VJmp(_) => e' := e;
      }
      return Success, e';
    }

    /** discharge2anyreg */
    method Discharge2AnyReg(e: Exp, ghost b: FS, ghost t: seq<nat>, ghost f: seq<nat>, ghost x: Expr)
      returns (s: Status, e': Exp)
      requires Has(b, e, t, f, x) && !IsVar(e.k) && !e.k.VJmp?
      modifies this`code, this`jpc, this`jumps, this`k, this`freereg, this`maxstacksize
      ensures s.Success? ==> Has0(b, e', t, f, x) && e'.k.VNonReloc? && e'.t == e.t && e'.f == e.f && old(k) <= k
      ensures s.Success? ==> Temps(nactvar, b, Snap(), e'.k)
      ensures s.Failure? ==> Full()
      ensures Grown(old(|code|), old(|k|), old(freereg), 2, 1)
    {
      hide Core, Ok, IsList, Delivers, Lists, Frame, Fragment, Emitted, Constants;
      e' := e;
      if !e.k.VNonReloc? {
        ghost var g := Snap();
        KnownConstant(m, nactvar, b, g, e, t, f, x);
        BaseTemps(m, nactvar, b, g, e, t, f, x);
        :- ReserveRegs(1);
        MoreRegisters(m, nactvar, b, g, e, t, f, x, freereg);
        e' :- Discharge2Reg(e, freereg - 1, b, t, f, x);
      }
      return Success, e';
    }

    // ---- exp2reg ----

    /** code_label */
    method CodeLabel(a: nat, flag: bool, skip: bool) returns (s: Status, pc: nat)
      requires Valid()
      modifies this`code, this`jpc, this`jumps, this`lasttarget
      ensures s.Success? ==> Snap() == Emitted(old(Snap()).(lt := old(|code|)), LoadBool(a, flag, skip)) && Valid() && pc == old(|code|)
      ensures s.Failure? ==> Full()
      ensures Grown(old(|code|), old(|k|), old(freereg), 1, 0)
    {
      var _ := GetLabel();  // both labels are targets: nothing here may be merged with what was emitted before
      s, pc := Code(LoadBool(a, flag, skip));
    }

    /** The labels that load false and true. */
    method BothLabels(reg: nat) returns (s: Status, pf: nat, pt: nat)
      requires Valid() && jumps == []
      modifies this`code, this`jpc, this`jumps, this`lasttarget
      ensures s.Success? ==> Valid() && pf == old(|code|) && pt == pf + 1
      ensures s.Success? ==>
        Snap() == old(Snap()).(code := old(code) + [LoadBool(reg, false, true), LoadBool(reg, true, false)],
        lt := old(|code|) + 1)
      ensures s.Failure? ==> Full()
      ensures Grown(old(|code|), old(|k|), old(freereg), 2, 0)
    {
      pf, pt := 0, 0;
      ghost var c1 := code;
      pf :- CodeLabel(reg, false, true);
      assert code == c1 + [LoadBool(reg, false, true)] by { NoneHere(c1); }
      ghost var c2 := code;
      pt :- CodeLabel(reg, true, false);
      assert code == c2 + [LoadBool(reg, true, false)] by { NoneHere(c2); }
      assert code == c1 + [LoadBool(reg, false, true), LoadBool(reg, true, false)];
      return Success, pf, pt;
    }

    /** The labels that load a boolean, jumped over by a value that is in its register already. */
    method PastLabels(reg: nat, ghost b: FS) returns (s: Status, pf: nat, pt: nat)
      requires Valid() && Ok(nactvar, Snap())
      modifies this`code, this`jpc, this`jumps, this`open, this`lasttarget
      ensures s.Success? ==> Snap() == JumpedPast(old(Snap()), reg) && Valid() && pf == old(|code|) + 1 && pt == pf + 1
      ensures s.Failure? ==> Full()
      ensures Grown(old(|code|), old(|k|), old(freereg), 3, 0)
    {
      hide IsList, Linked, Here, JumpedPast, View, Ok, SetOf, Patch;
      pf, pt := 0, 0;
      ghost var g, n := Snap(), |code|;
      JumpsApart(nactvar, g);
      var fj :- Jump();
      ghost var jl := [n] + g.jumps;
      ghost var c1 := code;
      pf, pt :- BothLabels(reg);
      assert IsList(code, fj, jl) by { ListInside(c1, fj, jl); SameList(c1, code, fj, jl); }
      :- PatchToHere(fj, jl);
      PastIs(g, reg, Snap());
      return Success, pf, pt;
    }

    /** patchlistaux on one list of the expression, the end of the code being marked as a label. */
    method PatchFinal(list: int, reg: nat, dtarget: int, ghost l: seq<nat>, ghost label': nat) returns (s: Status)
      requires Valid() && IsList(code, list, l) && lasttarget == |code| && dtarget <= |code|
      requires dtarget == label' || forall p :: p in l ==> p > 0 && code[p - 1].TestSet?
      requires forall p :: p in jumps ==> p !in l
      modifies this`code, this`open
      ensures s.Success? ==> Snap() == PatchedList(old(Snap()), l, label', reg) && Valid()
      ensures s.Failure? ==> Full()
      ensures Grown(old(|code|), old(|k|), old(freereg), 0, 0)
    {
      ghost var c0 := code;
      :- PatchListAux(list, |code|, reg, dtarget, l, label');
      open := open - SetOf(l);
      PatchedJumps(c0, code, l, |c0|, label', reg, jpc, jumps);
      return Success;
    }

    /** exp2reg: the value, and every pending jump with one, ends in the register. */
    method Exp2Reg(e: Exp, reg: nat, ghost b: FS, ghost t: seq<nat>, ghost f: seq<nat>, ghost x: Expr)
      returns (s: Status, e': Exp)
      requires Has0(b, e, t, f, x) && !IsVar(e.k) && reg == b.fr && (e.k.VK? ==> e.k.info < |k|)
      modifies this`code, this`jpc, this`jumps, this`open, this`lasttarget, this`k, this`freereg
      ensures s.Success? ==> Has0(b, e', [], [], x) && e' == Exp(VNonReloc(reg), NO_JUMP, NO_JUMP) && freereg == old(freereg) && old(k) <= k
      ensures s.Failure? ==> Full()
      ensures Grown(old(|code|), old(|k|), old(freereg), 5, 0)
    {
      hide Core, Ok, IsList, Delivers, Lists, Frame, Fragment, Emitted, Constants, Labels, JumpedPast, PatchedList,
        View;
      e' := Exp(VNonReloc(reg), NO_JUMP, NO_JUMP);
      var e1 :- Discharge2Reg(e, reg, b, t, f, x);
      if e1.k.VJmp? {
        :- JmpToReg(e1, reg, b, t, f, x);
      } else {
        NoJumps(m, nactvar, b, Snap(), e1, t, f, x);
        if e1.t != e1.f { :- ValueToReg(e1, b, t, f, x); }
      }
      return Success, e';
    }

    /** exp2reg on a comparison: its jump is put in the true list, and the labels are needed. */
    method JmpToReg(e: Exp, reg: nat, ghost b: FS, ghost t: seq<nat>, ghost f: seq<nat>, ghost x: Expr)
      returns (s: Status)
      requires Has0(b, e, t, f, x) && e.k.VJmp? && reg == b.fr
      modifies this`code, this`jpc, this`jumps, this`open, this`lasttarget
      ensures s.Success? ==> Has0(b, Exp(VNonReloc(reg), NO_JUMP, NO_JUMP), [], [], x)
      ensures s.Failure? ==> Full()
      ensures Grown(old(|code|), old(|k|), old(freereg), 2, 0)
    {
      hide Core, Ok, IsList, Delivers, Lists, Frame, Labels, View;
      ghost var g := Snap();
      var th, pf, pt :- JmpLabels(e, reg, b, t, f, x);
      LabelsCore(m, nactvar, b, g, e, t, f, x);
      LabelsThere(m, nactvar, b, g, e, t, f, x);
      s := FinishReg(th, e.f, reg, pf, pt, b, t + [e.k.p], f, x);
    }

    /** exp2reg on a value that is in its register, but for the jumps. */
    method ValueToReg(e: Exp, ghost b: FS, ghost t: seq<nat>, ghost f: seq<nat>, ghost x: Expr) returns (s: Status)
      requires Has0(b, e, t, f, x) && e.k == VNonReloc(b.fr) && (t != [] || f != [])
      modifies this`code, this`jpc, this`jumps, this`open, this`lasttarget
      ensures s.Success? ==> Has0(b, Exp(VNonReloc(b.fr), NO_JUMP, NO_JUMP), [], [], x)
      ensures s.Failure? ==> Full()
      ensures Grown(old(|code|), old(|k|), old(freereg), 3, 0)
    {
      hide Core, Ok, IsList, Delivers, Lists, Frame, JumpedPast, View;
      ghost var g := Snap();
      var need := NeedLabels(e, b, t, f, x);
      if need {
        CoreOk(m, nactvar, b, g, e, t, f, x);
        var pf, pt :- PastLabels(e.k.reg, b);
        PastCore(m, nactvar, b, g, e, t, f, x);
        PastThere(m, nactvar, b, g, e, t, f, x);
        s := FinishReg(e.t, e.f, e.k.reg, pf, pt, b, t, f, x);
      } else {
        CoreLists(m, nactvar, b, g, e, t, f, x);
        s := FinishReg(e.t, e.f, e.k.reg, NO_JUMP, NO_JUMP, b, t, f, x);
      }
    }

    /** need_value on either list. */
    method NeedLabels(e: Exp, ghost b: FS, ghost t: seq<nat>, ghost f: seq<nat>, ghost x: Expr) returns (need: bool)
      requires Has0(b, e, t, f, x)
      ensures need || forall p :: p in t || p in f ==> p > 0 && code[p - 1].TestSet?
    {
      CoreLists(m, nactvar, b, Snap(), e, t, f, x);
      var nt := NeedValue(e.t, t);
      if nt { return true; }
      need := NeedValue(e.f, f);
    }

    /** The jump of a comparison joins the true list, and the two labels follow. */
    method JmpLabels(e: Exp, reg: nat, ghost b: FS, ghost t: seq<nat>, ghost f: seq<nat>, ghost x: Expr)
      returns (s: Status, th: int, pf: nat, pt: nat)
      requires Has0(b, e, t, f, x) && e.k.VJmp?
      modifies this`code, this`jpc, this`jumps, this`lasttarget
      ensures s.Success? ==> Snap() == Labels(old(Snap()), t, e.k.p, reg) && Valid() && pf == old(|code|) && pt == pf + 1
      ensures s.Success? ==> th == if t == [] then e.k.p else e.t
      ensures s.Failure? ==> Full()
      ensures Grown(old(|code|), old(|k|), old(freereg), 2, 0)
    {
      th, pf, pt := NO_JUMP, 0, 0;
      CoreLists(m, nactvar, b, Snap(), e, t, f, x);
      ghost var g := Snap();
      OneList(code, e.k.p);
      th :- Concat(e.t, e.k.p, t, [e.k.p]);
      ghost var c1 := code;
      StillList(g.code, c1, jpc, jumps);
      pf, pt :- BothLabels(reg);
      return Success, th, pf, pt;
    }

    /** All jumps of both lists meet at the end of the expression. */
    method FinishReg(th: int, fh: int, reg: nat, pf: int, pt: int, ghost b: FS, ghost t: seq<nat>, ghost f: seq<nat>,
      ghost x: Expr) returns (s: Status)
      requires Has0(b, Exp(VNonReloc(reg), th, fh), t, f, x) && reg == b.fr && pf <= |code| && pt <= |code|
      requires
        || (forall p :: p in t || p in f ==> p > 0 && p <= |code| && code[p - 1].TestSet?)
        || (|code| >= 2 && pf == |code| - 2 && pt == |code| - 1 && View(Snap())[pf] == LoadBool(reg, false, true) &&
          View(Snap())[pt] == LoadBool(reg, true, false) && forall p :: p in t || p in f ==> p < pf)
      modifies this`code, this`open, this`lasttarget
      ensures s.Success? ==> Has0(b, Exp(VNonReloc(reg), NO_JUMP, NO_JUMP), [], [], x)
      ensures s.Failure? ==> Full()
      ensures Grown(old(|code|), old(|k|), old(freereg), 0, 0)
    {
      hide Core, Ok, IsList, Delivers, Lists, Frame, Fragment, Emitted, Constants, Labels, JumpedPast, PatchedList,
        View, LabelOk;
      ghost var e := Exp(VNonReloc(reg), th, fh);
      ghost var g0 := Snap();
      var final := GetLabel();
      LabelHereToo(m, nactvar, b, g0, e, t, f, x);
      ghost var g1 := Snap();
      ghost var lf: nat := if pf >= 0 then pf else 0;
      ghost var lt: nat := if pt >= 0 then pt else 0;
      LabelsFit(m, nactvar, b, g1, e, t, f, x, reg, pf, pt);
      CoreLists(m, nactvar, b, g1, e, t, f, x);
      :- PatchFinal(fh, reg, pf, f, lf);
      PatchedCore(m, nactvar, b, g1, th, fh, t, f, x, lf, false);
      ghost var g2 := Snap();
      LabelStill(m, nactvar, b, g1, e, t, f, x, lf, lt, reg);
      CoreLists(m, nactvar, b, g2, Exp(VNonReloc(reg), th, NO_JUMP), t, [], x);
      :- PatchFinal(th, reg, pt, t, lt);
      PatchedCore(m, nactvar, b, g2, th, NO_JUMP, t, [], x, lt, true);
      return Success;
    }

    // ---- putting a value somewhere ----

    /** luaK_exp2nextreg: the value goes to the first free register, which is then in use. */
    method Exp2NextReg(e: Exp, ghost b: FS, ghost t: seq<nat>, ghost f: seq<nat>, ghost x: Expr)
      returns (s: Status, e': Exp)
      requires Has(b, e, t, f, x)
      modifies this`code, this`jpc, this`jumps, this`open, this`lasttarget, this`k, this`freereg, this`maxstacksize
      ensures s.Success? ==> Has(b, e', [], [], x) && e' == Exp(VNonReloc(b.fr), NO_JUMP, NO_JUMP) && freereg == b.fr + 1
      ensures s.Failure? ==> Full()
      ensures Grown(old(|code|), old(|k|), old(freereg), 6, 1)
    {
      hide Holds, Core, Ok, IsList, Delivers, Lists, Frame, Fragment, Constants, Temps, Full;
      e' := e;
      var e1 :- DischargeVars(e, b, t, f, x);
      ghost var g := Snap();
      HoldsParts(m, nactvar, b, g, e1, t, f, x);
      FreedTemps(m, nactvar, b, g, e1, t, f, x);
      FreeExp(e1);
      :- ReserveRegs(1);
      OtherRegisters(m, nactvar, b, g, e1, t, f, x, freereg);
      e' :- Exp2Reg(e1, freereg - 1, b, t, f, x);
      RegHolds(m, nactvar, b, Snap(), b.fr, x);
      return Success, e';
    }

    /** luaK_exp2anyreg */
    method Exp2AnyReg(e: Exp, ghost b: FS, ghost t: seq<nat>, ghost f: seq<nat>, ghost x: Expr)
      returns (s: Status, e': Exp)
      requires if Settled(e) && e.k.VNonReloc? then Valid() else Has(b, e, t, f, x)
      modifies this`code, this`jpc, this`jumps, this`open, this`lasttarget, this`k, this`freereg, this`maxstacksize
      ensures s.Success? ==> Settled(e') && e'.k.VNonReloc? && Valid()
      ensures Settled(e) && e.k.VNonReloc? ==> s.Success? && e' == e && Snap() == old(Snap())
      ensures s.Success? && old(Has(b, e, t, f, x)) ==> Has(b, e', [], [], x)
      ensures s.Failure? ==> Full()
      ensures Grown(old(|code|), old(|k|), old(freereg), 7, 1)
    {
      hide Holds, Core, Ok, IsList, Delivers, Lists, Frame, Fragment, Constants, Temps;
      e' := e;
      var e1 :- DischargeVars(e, b, t, f, x);
      ghost var g := Snap();
      if e1.k.VNonReloc? {
        if e1.t == e1.f {
          if Has(b, e1, t, f, x) { SettledHolds(m, nactvar, b, g, e1, t, f, x); }
          return Success, e1;
        }
        HoldsParts(m, nactvar, b, g, e1, t, f, x);
        if e1.k.reg >= nactvar {
          FreedTemps(m, nactvar, b, g, e1, t, f, x);
          e' :- Exp2Reg(e1, e1.k.reg, b, t, f, x);
          RegHolds(m, nactvar, b, Snap(), b.fr, x);
          return Success, e';
        }
      }
      e' :- Exp2NextReg(e1, b, t, f, x);
      return Success, e';
    }

    /** luaK_exp2val: no jump is left pending but the one of a comparison. */
    method Exp2Val(e: Exp, ghost b: FS, ghost t: seq<nat>, ghost f: seq<nat>, ghost x: Expr)
      returns (s: Status, e': Exp)
      requires if Settled(e) then Valid() else Has(b, e, t, f, x)
      modifies this`code, this`jpc, this`jumps, this`open, this`lasttarget, this`k, this`freereg, this`maxstacksize
      ensures s.Success? ==> e'.t == e'.f == NO_JUMP && !IsVar(e'.k) && Valid() && (IsConst(e'.k) ==>
        e' == e && Snap() == old(Snap()))
      ensures Settled(e) ==> s.Success? && e' == e && Snap() == old(Snap())
      ensures s.Success? && old(Has(b, e, t, f, x)) ==> Has(b, e', [], [], x)
      ensures s.Failure? ==> Full()
      ensures Grown(old(|code|), old(|k|), old(freereg), 7, 1)
    {
      hide Holds, Core, Ok, IsList, Delivers, Lists, Frame, Fragment, Constants, Temps;
      if e.t != e.f {
        s, e' := Exp2AnyReg(e, b, t, f, x);
      } else {
        if Has(b, e, t, f, x) { SettledHolds(m, nactvar, b, Snap(), e, t, f, x); }
        s, e' := DischargeVars(e, b, [], [], x);
      }
    }

    /** A constant as an operand, when the table has room for one more that an operand can name. */
    method ConstantRK(e: Exp, ghost b: FS, ghost x: Expr) returns (s: Status, i: nat)
      requires Has(b, e, [], [], x) && IsConst(e.k) && !e.k.VK? && |k| <= MAXINDEXRK
      modifies this`k
      ensures s.Success? ==> Valid() && Operand(m, nactvar, b, Snap(), BITRK + i, x) && i <= MAXINDEXRK
      ensures s.Failure? ==> Full()
      ensures Grown(old(|code|), old(|k|), old(freereg), 1, 0)
    {
      hide Operand, Core, Ok, IsList, Delivers, Lists, Frame, Fragment, Temps;
      ghost var g := Snap();
      i :- AddK(KindConstant(e.k));
      KindOperand(m, nactvar, b, g, e, x, k, i);
      return Success, i;
    }

    /** luaK_exp2RK: the value as an operand, a constant if its index fits. */
    method Exp2RK(e: Exp, ghost b: FS, ghost t: seq<nat>, ghost f: seq<nat>, ghost x: Expr)
      returns (s: Status, o: nat, e': Exp)
      requires if Settled(e) then Valid() else Has(b, e, t, f, x)
      modifies this`code, this`jpc, this`jumps, this`open, this`lasttarget, this`k, this`freereg, this`maxstacksize
      ensures s.Success? ==> Valid() && Settled(e') && o == OperandOf(e') && (o >= BITRK && e'.k.VK? ==> IsConst(e.k))
      ensures Settled(e) ==> s.Success? && e' == e && Snap() == old(Snap())
      ensures s.Success? && old(Has(b, e, t, f, x)) ==>
        Operand(m, nactvar, b, Snap(), o, x) && (o < BITRK <==> e'.k.VNonReloc?)
      ensures s.Failure? ==> Full()
      ensures Grown(old(|code|), old(|k|), old(freereg), 14, 2)
    {
      hide Holds, Core, Ok, IsList, Delivers, Lists, Frame, Fragment, Constants, Temps, Operand;
      o := 0;
      e' := e;
      var e1 :- Exp2Val(e, b, t, f, x);
      match e1.k {
        case VKNum(_) | VTrue | VFalse | VNil =>
          if |k| <= MAXINDEXRK {
            var i :- ConstantRK(e1, b, x);
            return Success, BITRK + i, Exp(VK(i), e1.t, e1.f);
          }
        case VK(info) =>
          if info <= MAXINDEXRK {
            if Has(b, e1, [], [], x) { TableOperand(m, nactvar, b, Snap(), e1, x); }
            return Success, BITRK + info, e1;
          }
        case _ =>
      }
      e' :- Exp2AnyReg(e1, b, [], [], x);
      if Has(b, e', [], [], x) { HeldOperand(m, nactvar, b, Snap(), e', x); }
      return Success, e'.k.reg, e';
    }

    // ---- conditions ----

    /** invertjump */
    method InvertJump(pc: nat)
      requires 0 < pc < |code| && code[pc - 1].CmpOp?
      modifies this`code
      ensures Snap() == Inverted(old(Snap()), pc) && |code| == old(|code|)
    {
      var i := GetJumpControl(pc);
      code := code[i := CmpOp(code[i].cmp, !code[i].cond, code[i].b, code[i].c)];
    }

    /** jumponcond: a jump pc taken when the value is true (cond) or false; a `not' is taken back for it. */
    method JumpOnCond(e: Exp, cond: bool, ghost b: FS, ghost t: seq<nat>, ghost f: seq<nat>, ghost x: Expr)
      returns (s: Status, pc: nat)
      requires Has(b, e, t, f, x) && !IsVar(e.k) && !e.k.VJmp?
      modifies this`code, this`jpc, this`jumps, this`open, this`k, this`freereg, this`maxstacksize
      ensures s.Success? ==> Valid() && Cut(m, nactvar, b, Snap(), e.t, e.f, t, f, pc, cond, x)
      ensures s.Failure? ==> Full()
      ensures Grown(old(|code|), old(|k|), old(freereg), 4, 1)
    {
      hide Holds, Core, Ok, IsList, Delivers, Lists, Frame, Fragment, Constants, Temps, Cut, CondJumped;
      pc := 0;
      ghost var g := Snap();
      HoldsParts(m, nactvar, b, g, e, t, f, x);
      if e.k.VReloc? {
        FreedTemps(m, nactvar, b, g, e, t, f, x);
        RelocPlace(m, nactvar, b, g, e, t, f, x);
        var ie := code[e.k.p];
        if ie.Not? {
          code := code[..|code| - 1];
          StillList(g.code, code, jpc, jumps);
          NotCut(m, nactvar, b, g, e, t, f, x, cond);
          s, pc := CondJump(Test(ie.b, !cond));
          return;
        }
      }
      s, pc := JumpOnReg(e, cond, b, t, f, x);
    }

    /** The same, with a TESTSET on the register of the value. */
    method JumpOnReg(e: Exp, cond: bool, ghost b: FS, ghost t: seq<nat>, ghost f: seq<nat>, ghost x: Expr)
      returns (s: Status, pc: nat)
      requires Has(b, e, t, f, x) && !IsVar(e.k) && !e.k.VJmp?
      modifies this`code, this`jpc, this`jumps, this`open, this`k, this`freereg, this`maxstacksize
      ensures s.Success? ==> Valid() && Cut(m, nactvar, b, Snap(), e.t, e.f, t, f, pc, cond, x)
      ensures s.Failure? ==> Full()
      ensures Grown(old(|code|), old(|k|), old(freereg), 4, 1)
    {
      hide Holds, Core, Ok, IsList, Delivers, Lists, Frame, Fragment, Constants, Temps, Cut, CondJumped;
      pc := 0;
      HoldsParts(m, nactvar, b, Snap(), e, t, f, x);
      var e1 :- Discharge2AnyReg(e, b, t, f, x);
      ghost var g1 := Snap();
      FreedTemps(m, nactvar, b, g1, e1, t, f, x);
      FreeExp(e1);
      OtherRegisters(m, nactvar, b, g1, e1, t, f, x, freereg);
      TestCut(m, nactvar, b, Snap(), e1, t, f, x, cond);
      s, pc := CondJump(TestSet(NO_REG, e1.k.reg, cond));
    }

    /** The end of goiftrue and goiffalse: the jump joins one list, the jumps of the other one come here. */
    method LeaveOn(gh: int, pc: nat, oh: int, ghost b: FS, ghost g: seq<nat>, ghost o: seq<nat>, ghost cond: bool,
      ghost x: Expr)
      returns (s: Status, h: int)
      requires Valid() && Cut(m, nactvar, b, Snap(), if cond then gh else oh, if cond then oh else gh,
        if cond then g else o, if cond then o else g, pc, cond, x)
      modifies this`code, this`jpc, this`jumps, this`open, this`lasttarget
      ensures s.Success? ==> Valid() && Branch(m, nactvar, b, Snap(), h, g + [pc], !cond, x) && h == if g == [] then pc
        else gh
      ensures s.Failure? ==> Full()
      ensures Grown(old(|code|), old(|k|), old(freereg), 0, 0)
    {
      hide Cut, Branch, IsList, Linked, Here;
      h := NO_JUMP;
      ghost var was := Snap();
      CutParts(m, nactvar, b, was, gh, oh, g, o, pc, cond, x);
      h :- Concat(gh, pc, g, [pc]);
      StillList(was.code, code, jpc, jumps);
      :- PatchToHere(oh, o);
      GoIf(m, nactvar, b, was, if cond then gh else oh, if cond then oh else gh,
        if cond then g else o, if cond then o else g, pc, cond, x);
      return Success, h;
    }

    /** luaK_goiftrue: falls through when the value is true, and leaves through the false list otherwise. */
    method GoIfTrue(e: Exp, ghost b: FS, ghost t: seq<nat>, ghost f: seq<nat>, ghost x: Expr)
      returns (s: Status, e': Exp, ghost l: seq<nat>)
      requires Has(b, e, t, f, x) && ConstOf(m, x) == NoConst
      modifies this`code, this`jpc, this`jumps, this`open, this`lasttarget, this`k, this`freereg, this`maxstacksize
      ensures s.Success? ==> Valid() && Branch(m, nactvar, b, Snap(), e'.f, l, true, x) && e'.t == NO_JUMP
      ensures s.Failure? ==> Full()
      ensures Grown(old(|code|), old(|k|), old(freereg), 5, 1)
    {
      hide Holds, Core, Ok, IsList, Delivers, Lists, Frame, Fragment, Temps, Constants, Cut, Branch;
      e', l := e, [];
      var pc;
      var e1 :- DischargeVars(e, b, t, f, x);
      ghost var g := Snap();
      HoldsParts(m, nactvar, b, g, e1, t, f, x);
      if e1.k.VJmp? {
        JmpPlace(m, nactvar, b, g, e1, t, f, x);
        InvertJump(e1.k.p);
        StillList(g.code, code, jpc, jumps);
        InvertedCut(m, nactvar, b, g, e1, t, f, x);
        pc := e1.k.p;
      } else {
        pc :- JumpOnCond(e1, false, b, t, f, x);
      }
      l := f + [pc];
      var fh :- LeaveOn(e1.f, pc, e1.t, b, f, t, false, x);
      return Success, Exp(e1.k, NO_JUMP, fh), l;
    }

    /** luaK_goiffalse */
    method GoIfFalse(e: Exp, ghost b: FS, ghost t: seq<nat>, ghost f: seq<nat>, ghost x: Expr)
      returns (s: Status, e': Exp, ghost l: seq<nat>)
      requires Has(b, e, t, f, x) && ConstOf(m, x) == NoConst
      modifies this`code, this`jpc, this`jumps, this`open, this`lasttarget, this`k, this`freereg, this`maxstacksize
      ensures s.Success? ==> Valid() && Branch(m, nactvar, b, Snap(), e'.t, l, false, x) && e'.f == NO_JUMP
      ensures s.Failure? ==> Full()
      ensures Grown(old(|code|), old(|k|), old(freereg), 5, 1)
    {
      hide Holds, Core, Ok, IsList, Delivers, Lists, Frame, Fragment, Temps, Constants, Cut, Branch;
      e', l := e, [];
      var pc;
      var e1 :- DischargeVars(e, b, t, f, x);
      ghost var g := Snap();
      HoldsParts(m, nactvar, b, g, e1, t, f, x);
      if e1.k.VJmp? {
        JmpPlace(m, nactvar, b, g, e1, t, f, x);
        JmpCut(m, nactvar, b, g, e1, t, f, x);
        pc := e1.k.p;
      } else {
        pc :- JumpOnCond(e1, true, b, t, f, x);
      }
      l := t + [pc];
      var th :- LeaveOn(e1.t, pc, e1.f, b, t, f, true, x);
      return Success, Exp(e1.k, th, NO_JUMP), l;
    }

    /** The end of codenot: the lists are exchanged, and no jump on them brings a value any more. */
    method SwapLists(e: Exp, ghost t: seq<nat>, ghost f: seq<nat>) returns (e': Exp)
      requires Valid() && IsList(code, e.t, t) && IsList(code, e.f, f) && (jumps == [] || (t == [] && f == []))
      modifies this`code
      ensures Valid() && Snap() == WithoutValues(old(Snap()), f + t) && e' == Exp(e.k, e.f, e.t)
      ensures |code| == old(|code|)
    {
      hide IsList, Removed;
      ghost var c0 := code;
      e' := Exp(e.k, e.f, e.t);
      RemoveValues(e'.f, t);
      RemovedList(c0, t, e.f, f);
      RemoveValues(e'.t, f);
      RemovedTwice(c0, t, f);
      if jumps == [] { StillList(c0, code, jpc, jumps); } else { RemovedList(c0, f + t, jpc, jumps); }
    }

    /** codenot on a value that needs an instruction */
    method NotInReg(e: Exp, ghost b: FS, ghost t: seq<nat>, ghost f: seq<nat>, ghost x: Expr)
      returns (s: Status, pc: nat)
      requires Has(b, e, t, f, x) && (e.k.VReloc? || e.k.VNonReloc?)
      modifies this`code, this`jpc, this`jumps, this`k, this`freereg, this`maxstacksize
      ensures s.Success? ==> Valid() && NotReady(m, nactvar, b, Snap(), Exp(VReloc(pc), e.t, e.f), t, f, x)
      ensures s.Failure? ==> Full()
      ensures Grown(old(|code|), old(|k|), old(freereg), 3, 1)
    {
      hide Holds, Core, Ok, IsList, Delivers, Lists, Frame, Fragment, Constants, Temps, Emitted, NotReady;
      pc := 0;
      HoldsParts(m, nactvar, b, Snap(), e, t, f, x);
      var e2 :- Discharge2AnyReg(e, b, t, f, x);
      ghost var g := Snap();
      FreedTemps(m, nactvar, b, g, e2, t, f, x);
      FreeExp(e2);
      OtherRegisters(m, nactvar, b, g, e2, t, f, x, freereg);
      NotCoded(m, nactvar, b, Snap(), e2, t, f, x);
      s, pc := Code(Not(0, e2.k.reg));
    }

    /** codenot */
    method CodeNot(e: Exp, ghost b: FS, ghost t: seq<nat>, ghost f: seq<nat>, ghost x: Expr)
      returns (s: Status, e': Exp)
      requires Has(b, e, t, f, x)
      modifies this`code, this`jpc, this`jumps, this`k, this`freereg, this`maxstacksize
      ensures s.Success? ==> Has(b, e', f, t, ENot(x))
      ensures s.Failure? ==> Full()
      ensures Grown(old(|code|), old(|k|), old(freereg), 4, 1)
    {
      hide Holds, Core, Ok, IsList, Delivers, Lists, Frame, Fragment, Constants, Temps, Inverted, WithoutValues,
        Emitted, NotReady;
      e' := e;
      var e1 :- DischargeVars(e, b, t, f, x);
      ghost var g := Snap();
      HoldsParts(m, nactvar, b, g, e1, t, f, x);
      var k' := e1.k;
      match e1.k {
        case VNil | VFalse =>
          k' := VTrue;
          NotConst(m, nactvar, b, g, e1, t, f, x, VTrue);
        case VK(_) | VKNum(_) | VTrue =>
          k' := VFalse;
          NotConst(m, nactvar, b, g, e1, t, f, x, VFalse);
        case VJmp(p) =>
          JmpPlace(m, nactvar, b, g, e1, t, f, x);
          NotInverted(m, nactvar, b, g, e1, t, f, x);
          InvertJump(p);
          StillList(g.code, code, jpc, jumps);
        case VReloc(_) | VNonReloc(_) =>
          var pc :- NotInReg(e1, b, t, f, x);
          k' := VReloc(pc);
      }
      e1 := Exp(k', e1.t, e1.f);
      NotParts(m, nactvar, b, Snap(), e1, t, f, x);
      e' := SwapLists(e1, t, f);
      return Success, e';
    }

    // ---- operators ----

    method IsNumeral(e: Exp) returns (b: bool)
      ensures b <==> e.k.VKNum? && e.t == NO_JUMP && e.f == NO_JUMP
    {
      return e.k.VKNum? && e.t == NO_JUMP && e.f == NO_JUMP;
    }

    /** constfolding on two numerals */
    method ConstFolding(op: ArithOp, e1: Exp, e2: Exp) returns (r: Option<int>)
      ensures r == if e1.k.VKNum? && e1.t == e1.f == NO_JUMP && e2.k.VKNum? && e2.t == e2.f == NO_JUMP
        then Folded(m, op, e1.k.n, e2.k.n) else None
    {
      var n1 := IsNumeral(e1);
      var n2 := IsNumeral(e2);
      if !n1 || !n2 { return None; }
      if (op == Div || op == Mod) && e2.k.n == 0 { return None; }  // the quotient is undefined: left to the VM
      var v := m.num(op, e1.k.n, e2.k.n);
      if m.isnan(v) { return None; }
      return Some(v);
    }

    /** luaK_infix on an arithmetic operator: a numeral is kept for folding. */
    method InfixArith(e: Exp, ghost b: FS, ghost t: seq<nat>, ghost f: seq<nat>, ghost x: Expr)
      returns (s: Status, e': Exp)
      requires Has(b, e, t, f, x)
      modifies this`code, this`jpc, this`jumps, this`open, this`lasttarget, this`k, this`freereg, this`maxstacksize
      ensures s.Success? ==> Valid() && First(m, nactvar, b, Snap(), e', x)
      ensures s.Failure? ==> Full()
      ensures Grown(old(|code|), old(|k|), old(freereg), 14, 2)
    {
      hide Holds, Operand, IsList;
      var numeral := IsNumeral(e);
      if numeral {
        SettledHolds(m, nactvar, b, Snap(), e, t, f, x);
        return Success, e;
      }
      s, e' := InfixOther(e, b, t, f, x);
    }

    /** luaK_infix on a comparison */
    method InfixOther(e: Exp, ghost b: FS, ghost t: seq<nat>, ghost f: seq<nat>, ghost x: Expr)
      returns (s: Status, e': Exp)
      requires Has(b, e, t, f, x)
      modifies this`code, this`jpc, this`jumps, this`open, this`lasttarget, this`k, this`freereg, this`maxstacksize
      ensures s.Success? ==> Valid() && First(m, nactvar, b, Snap(), e', x) && Settled(e')
      ensures s.Failure? ==> Full()
      ensures Grown(old(|code|), old(|k|), old(freereg), 14, 2)
    {
      hide Holds, Operand, IsList;
      e' := e;
      var o, e1 :- Exp2RK(e, b, t, f, x);
      return Success, e1;
    }

    /** Temporaries are released in the order opposite to their reservation. */
    method FreeBoth(e: Exp, e': Exp)
      requires Valid() && Settled(e) && Settled(e')
      requires LastTemp(nactvar, freereg, OperandOf(e)) && LastTemp(nactvar, Released(nactvar, freereg, OperandOf(e)),
        OperandOf(e'))
      modifies this`freereg
      ensures Valid() && freereg == Released(nactvar, Released(nactvar, old(freereg), OperandOf(e)), OperandOf(e'))
      ensures freereg <= old(freereg)
    {
      FreeExp(e);
      FreeExp(e');
    }

    /** codearith on two operands */
    method CodeArith(op: ArithOp, e1: Exp, e2: Exp, ghost b: FS, ghost s1: FS, ghost t: seq<nat>, ghost f: seq<nat>,
      ghost x1: Expr, ghost x2: Expr)
      returns (s: Status, e: Exp)
      requires First(m, nactvar, b, s1, e1, x1) && Has(s1, e2, t, f, x2)
      modifies this`code, this`jpc, this`jumps, this`open, this`lasttarget, this`k, this`freereg, this`maxstacksize
      ensures s.Success? ==> Has(b, e, [], [], EArith(op, x1, x2))
      ensures s.Failure? ==> Full()
      ensures Grown(old(|code|), old(|k|), old(freereg), 29, 4)
    {
      hide Holds, Operand, IsList, First, Both, Emitted, Released, LastTemp;
      e := e1;
      FirstSettled(m, nactvar, b, s1, e1, x1);
      var r := ConstFolding(op, e1, e2);
      if r.Some? {
        FoldHolds(m, nactvar, b, s1, Snap(), e1, e2, t, f, op, x1, x2);
        return Success, Exp(VKNum(r.value), e1.t, e1.f);
      }
      s, e := ArithOperands(op, e1, e2, b, s1, t, f, x1, x2);
    }

    /** Both operands of an operation that is not folded; the second one is brought to its place first. */
    method ArithOperands(op: ArithOp, e1: Exp, e2: Exp, ghost b: FS, ghost s1: FS, ghost t: seq<nat>,
      ghost f: seq<nat>, ghost x1: Expr, ghost x2: Expr)
      returns (s: Status, e: Exp)
      requires First(m, nactvar, b, s1, e1, x1) && Has(s1, e2, t, f, x2)
      modifies this`code, this`jpc, this`jumps, this`open, this`lasttarget, this`k, this`freereg, this`maxstacksize
      ensures s.Success? ==> Has(b, e, [], [], EArith(op, x1, x2))
      ensures s.Failure? ==> Full()
      ensures Grown(old(|code|), old(|k|), old(freereg), 29, 4)
    {
      hide Holds, Operand, IsList, First, Both, Emitted, Released, LastTemp, Full, Fragment, Settled, OperandOf,
        IsConst, ReadyToFree;
      e := e1;
      FirstSettled(m, nactvar, b, s1, e1, x1);
      var o2, e2' :- Exp2RK(e2, s1, t, f, x2);
      ghost var s2 := Snap();
      NumeralAgain(m, nactvar, b, s1, s2, e1, o2, x1, x2);
      var o1, e1' :- Exp2RK(e1, s2, [], [], x1);
      ArithReady(m, nactvar, b, s1, s2, Snap(), e1, o1, o2, x1, x2);
      s, e := FinishArith(op, e1', e2', o1, o2, b, x1, x2);
    }

    /** The operation over the two operands, the later temporary being released first. */
    method FinishArith(op: ArithOp, e1: Exp, e2: Exp, o1: nat, o2: nat, ghost b: FS, ghost x1: Expr, ghost x2: Expr)
      returns (s: Status, e: Exp)
      requires Valid() && ReadyToFree(m, nactvar, b, Snap(), o1, o2, x1, x2)
      requires Settled(e1) && o1 == OperandOf(e1) && Settled(e2) && o2 == OperandOf(e2)
      modifies this`code, this`jpc, this`jumps, this`freereg
      ensures s.Success? ==> Has(b, e, [], [], EArith(op, x1, x2))
      ensures s.Failure? ==> Full()
      ensures Grown(old(|code|), old(|k|), old(freereg), 1, 0)
    {
      hide Holds, Operand, IsList, First, Both, Emitted, Released, LastTemp;
      e := e1;
      ghost var g := Snap();
      if o1 > o2 {
        FreeBoth(e1, e2);
      } else {
        FreeBoth(e2, e1);
      }
      var pc :- Code(ArithOp(op, 0, o1, o2));
      ArithHolds(m, nactvar, b, g, o1, o2, x1, x2, op);
      return Success, Exp(VReloc(pc), e1.t, e1.f);
    }

    /** codearith on the one operand of `-' or `#' */
    method CodeUnary(minus: bool, e: Exp, ghost b: FS, ghost t: seq<nat>, ghost f: seq<nat>, ghost x: Expr)
      returns (s: Status, e': Exp)
      requires Has(b, e, t, f, x) && (if minus then MinusOk(m, ConstOf(m, x)) && !e.k.VK? else Settled(e) && e.k.VNonReloc?)
      modifies this`code, this`jpc, this`jumps, this`open, this`lasttarget, this`k, this`freereg, this`maxstacksize
      ensures s.Success? ==> Has(b, e', [], [], if minus then EUnm(x) else ELen(x))
      ensures s.Failure? ==> Full()
      ensures Grown(old(|code|), old(|k|), old(freereg), 15, 2)
    {
      hide Holds, Operand, IsList, Emitted, Released, LastTemp;
      e' := e;
      UnaryParts(m, nactvar, b, Snap(), e, t, f, x, minus);
      var numeral := IsNumeral(e);
      if minus && numeral && !m.isnan(m.neg(e.k.n)) {
        FoldMinus(m, nactvar, b, Snap(), e, t, f, x);
        return Success, Exp(VKNum(m.neg(e.k.n)), e.t, e.f);
      }
      var o1, e1 :- Exp2RK(e, b, t, f, x);
      ghost var g := Snap();
      OperandTemps(m, nactvar, b, g, o1, x);
      FreeExp(e1);
      var i := if minus then Unm(0, o1) else Len(0, o1);
      var pc :- Code(i);
      UnaryHolds(m, nactvar, b, g, o1, x, i, if minus then EUnm(x) else ELen(x));
      return Success, Exp(VReloc(pc), e1.t, e1.f);
    }

    /** luaK_prefix on `-' */
    method PrefixMinus(e: Exp, ghost b: FS, ghost t: seq<nat>, ghost f: seq<nat>, ghost x: Expr)
      returns (s: Status, e': Exp)
      requires Has(b, e, t, f, x) && MinusOk(m, ConstOf(m, x))
      modifies this`code, this`jpc, this`jumps, this`open, this`lasttarget, this`k, this`freereg, this`maxstacksize
      ensures s.Success? ==> Has(b, e', [], [], EUnm(x))
      ensures s.Failure? ==> Full()
      ensures Grown(old(|code|), old(|k|), old(freereg), 22, 3)
    {
      hide Holds, IsList, MinusOk;
      e' := e;
      if e.k.VK? {
        var e1 :- Exp2AnyReg(e, b, t, f, x);
        s, e' := CodeUnary(true, e1, b, [], [], x);
      } else {
        s, e' := CodeUnary(true, e, b, t, f, x);
      }
    }

    /** luaK_prefix on `#' */
    method PrefixLen(e: Exp, ghost b: FS, ghost t: seq<nat>, ghost f: seq<nat>, ghost x: Expr)
      returns (s: Status, e': Exp)
      requires Has(b, e, t, f, x)
      modifies this`code, this`jpc, this`jumps, this`open, this`lasttarget, this`k, this`freereg, this`maxstacksize
      ensures s.Success? ==> Has(b, e', [], [], ELen(x))
      ensures s.Failure? ==> Full()
      ensures Grown(old(|code|), old(|k|), old(freereg), 22, 3)
    {
      hide Holds, IsList;
      e' := e;
      var e1 :- Exp2AnyReg(e, b, t, f, x);
      s, e' := CodeUnary(false, e1, b, [], [], x);
    }

    /** The end of codecomp: `>' and `>=' exchange the operands of `<' and `<='. */
    method CompJump(rel: RelOp, o1: nat, o2: nat) returns (s: Status, pc: nat)
      requires Valid()
      modifies this`code, this`jpc, this`jumps, this`open
      ensures s.Success? ==> Snap() == CondJumped(old(Snap()), Comparison(rel, o1, o2)) && Valid() && pc == old(|code|) + 1
      ensures s.Failure? ==> Full()
      ensures Grown(old(|code|), old(|k|), old(freereg), 2, 0)
    {
      var op := if rel.EqRel? || rel.NeRel? then Eq else if rel.LtRel? || rel.GtRel? then Lt else Le;
      var cond := rel.EqRel? || rel.LtRel? || rel.LeRel?;
      var oa, ob := o1, o2;
      if !cond && op != Eq {  // a > b is b < a: Holds is stated for the exchanged operands
        oa, ob := o2, o1;
        cond := true;
      }
      s, pc := CondJump(CmpOp(op, cond, oa, ob));
    }

    /** codecomp */
    method CodeComp(rel: RelOp, e1: Exp, e2: Exp, ghost b: FS, ghost s1: FS, ghost t: seq<nat>, ghost f: seq<nat>,
      ghost x1: Expr, ghost x2: Expr)
      returns (s: Status, e: Exp)
      requires First(m, nactvar, b, s1, e1, x1) && Settled(e1) && Has(s1, e2, t, f, x2)
      modifies this`code, this`jpc, this`jumps, this`open, this`lasttarget, this`k, this`freereg, this`maxstacksize
      ensures s.Success? ==> Has(b, e, [], [], ERel(rel, x1, x2))
      ensures s.Failure? ==> Full()
      ensures Grown(old(|code|), old(|k|), old(freereg), 30, 4)
    {
      hide Holds, Operand, IsList, First;
      e := e1;
      FirstSettled(m, nactvar, b, s1, e1, x1);
      var settled, o1, e1' := Exp2RK(e1, b, [], [], x1);
      var o2, e2' :- Exp2RK(e2, s1, t, f, x2);
      s, e := FinishComp(rel, e1', e2', o1, o2, b, s1, x1, x2);
    }

    /** The comparison over the two operands. */
    method FinishComp(rel: RelOp, e1: Exp, e2: Exp, o1: nat, o2: nat, ghost b: FS, ghost s1: FS, ghost x1: Expr,
      ghost x2: Expr) returns (s: Status, e: Exp)
      requires Valid() && First(m, nactvar, b, s1, e1, x1) && Operand(m, nactvar, s1, Snap(), o2, x2)
      requires Settled(e1) && o1 == OperandOf(e1) && Settled(e2) && o2 == OperandOf(e2)
      modifies this`code, this`jpc, this`jumps, this`open, this`freereg
      ensures s.Success? ==> Has(b, e, [], [], ERel(rel, x1, x2))
      ensures s.Failure? ==> Full()
      ensures Grown(old(|code|), old(|k|), old(freereg), 2, 0)
    {
      hide Holds, Operand, IsList, First, Both, CondJumped, Comparison, Released, LastTemp;
      e := e1;
      ghost var g := Snap();
      BothReady(m, nactvar, b, s1, g, g, e1, o1, o2, x1, x2);
      CompFreeOrder(m, nactvar, b, s1, g, e1, o1, o2, x1, x2);
      FreeBoth(e2, e1);
      var pc :- CompJump(rel, o1, o2);
      CompHolds(m, nactvar, b, g, o1, o2, x1, x2, rel);
      return Success, Exp(VJmp(pc), e1.t, e1.f);
    }

    /** luaK_posfix on `and' and `or': the pending jumps of the first operand join those of the second. */
    method PosfixLogic(conj: bool, e1: Exp, e2: Exp, ghost b: FS, ghost s1: FS, ghost l: seq<nat>, ghost t: seq<nat>,
      ghost f: seq<nat>, ghost x1: Expr, ghost x2: Expr)
      returns (s: Status, e: Exp)
      requires Branch(m, nactvar, b, s1, if conj then e1.f else e1.t, l, conj, x1) && Has(s1, e2, t, f, x2)
      requires ConstOf(m, x1) == NoConst && ConstOf(m, x2) == NoConst && Fragment(m, nactvar, x1)
      modifies this`code, this`jpc, this`jumps, this`freereg
      ensures s.Success? ==> Has(b, e, if conj then t else t + l, if conj then f + l else f, if conj then EAnd(x1, x2)
        else EOr(x1, x2))
      ensures s.Failure? ==> Full()
      ensures Grown(old(|code|), old(|k|), old(freereg), 1, 0)
    {
      hide Holds, IsList, Branch, Linked, Fragment, ConstOf;
      e := e2;
      var e2' :- DischargeVars(e2, s1, t, f, x2);
      ghost var g, h := Snap(), if conj then e1.f else e1.t;
      LogicLists(m, nactvar, b, s1, g, h, l, conj, x1, e2', t, f, x2, jpc);
      AndOr(m, nactvar, b, s1, h, l, x1, conj, g, e2', t, f, x2);
      if conj {
        var fh :- Concat(e2'.f, e1.f, f, l);
        return Success, Exp(e2'.k, e2'.t, fh);
      } else {
        var th :- Concat(e2'.t, e1.t, t, l);
        return Success, Exp(e2'.k, th, e2'.f);
      }
    }

    /** luaK_indexed, the table being in a register */
    method Indexed(e1: Exp, e2: Exp, ghost b: FS, ghost s1: FS, ghost t: seq<nat>, ghost f: seq<nat>, ghost x1: Expr,
      ghost x2: Expr)
      returns (s: Status, e: Exp)
      requires First(m, nactvar, b, s1, e1, x1) && Settled(e1) && e1.k.VNonReloc? && Has(s1, e2, t, f, x2)
      modifies this`code, this`jpc, this`jumps, this`open, this`lasttarget, this`k, this`freereg, this`maxstacksize
      ensures s.Success? ==> Has(b, e, [], [], EIndex(x1, x2))
      ensures s.Failure? ==> Full()
      ensures Grown(old(|code|), old(|k|), old(freereg), 14, 2)
    {
      hide Holds, Operand, IsList, First, Both;
      e := e1;
      var o2, e2' :- Exp2RK(e2, s1, t, f, x2);
      ghost var g := Snap();
      FirstSettled(m, nactvar, b, s1, e1, x1);
      BothReady(m, nactvar, b, s1, g, g, e1, e1.k.reg, o2, x1, x2);
      IndexHolds(m, nactvar, b, s1, g, e1, o2, x1, x2);
      return Success, Exp(VIndexed(e1.k.reg, o2), e1.t, e1.f);
    }

    // ---- expressions ----

    /** The parts of simpleexp and singlevar that code nothing. */
    method CodeLeaf(x: Expr) returns (s: Status, e: Exp)
      requires Valid() && Ok(nactvar, Snap()) && Fragment(m, nactvar, x)
      requires x.ENil? || x.ETrue? || x.EFalse? || x.ENum? || x.EStr? || x.ELocal? || x.EUpval? || x.EGlobal?
      modifies this`k
      ensures s.Success? ==> Has(old(Snap()), e, [], [], x)
      ensures s.Failure? ==> Full()
      ensures Grown(old(|code|), old(|k|), old(freereg), 1, 0)
    {
      hide Holds, Ok, IsList, Fragment;
      ghost var b := Snap();
      var k' := VNil;
      e := Exp(k', NO_JUMP, NO_JUMP);
      match x {
        case ENil => k' := VNil;
        case ETrue => k' := VTrue;
        case EFalse => k' := VFalse;
        case ENum(n) => k' := VKNum(n);
        case EStr(v) => var i :- AddK(v); k' := VK(i);
        case ELocal(reg) => k' := VLocal(reg);
        case EUpval(up) => k' := VUpval(up);
        case EGlobal(name) => var i :- AddK(name); k' := VGlobal(i);
      }
      LeafHolds(m, nactvar, b, Snap(), k', x);
      return Success, Exp(k', NO_JUMP, NO_JUMP);
    }

    /** subexpr: an expression, as its tree, is compiled. */
    method CodeExpr(x: Expr) returns (s: Status, e: Exp, ghost t: seq<nat>, ghost f: seq<nat>)
      requires Valid() && Ok(nactvar, Snap()) && Fragment(m, nactvar, x)
      modifies this
      ensures s.Success? ==> Has(old(Snap()), e, t, f, x)
      ensures s.Failure? ==> Full()
      ensures Grown(old(|code|), old(|k|), old(freereg), 50 * Size(x), 4 * Height(x))
      decreases x, 1
    {
      hide Holds, Ok, IsList, First, Branch, Operand;
      ghost var b := Snap();
      e, t, f := Exp(VNil, NO_JUMP, NO_JUMP), [], [];
      match x {
        case EIndex(_, _) => s, e := CodeIndex(x);
        case EArith(_, _, _) => s, e := CodeOperation(x);
        case ERel(_, _, _) => s, e := CodeComparison(x);
        case EUnm(x1) =>
          var e1, t1, f1 :- CodeExpr(x1);
          TempsFew(m, nactvar, b, Snap(), e1, t1, f1, x1);
          s, e := PrefixMinus(e1, b, t1, f1, x1);
        case ELen(x1) =>
          var e1, t1, f1 :- CodeExpr(x1);
          TempsFew(m, nactvar, b, Snap(), e1, t1, f1, x1);
          s, e := PrefixLen(e1, b, t1, f1, x1);
        case ENot(x1) =>
          var e1, t1, f1 :- CodeExpr(x1);
          TempsFew(m, nactvar, b, Snap(), e1, t1, f1, x1);
          s, e := CodeNot(e1, b, t1, f1, x1);
          t, f := f1, t1;
        case EAnd(_, _) => s, e, t, f := CodeLogic(true, x);
        case EOr(_, _) => s, e, t, f := CodeLogic(false, x);
        case _ => s, e := CodeLeaf(x);
      }
    }

    /** An arithmetic operation: its first operand is brought to its place before the second is compiled. */
    method CodeOperation(x: Expr) returns (s: Status, e: Exp)
      requires Valid() && Ok(nactvar, Snap()) && Fragment(m, nactvar, x) && x.EArith?
      modifies this
      ensures s.Success? ==> Has(old(Snap()), e, [], [], x)
      ensures s.Failure? ==> Full()
      ensures Grown(old(|code|), old(|k|), old(freereg), 50 * Size(x), 4 * Height(x))
      decreases x, 0
    {
      hide Holds, Ok, IsList, First, Operand;
      ghost var b := Snap();
      var x1, x2 := x.x, x.y;
      e := Exp(VNil, NO_JUMP, NO_JUMP);
      var e1, t1, f1 :- CodeExpr(x1);
      TempsFew(m, nactvar, b, Snap(), e1, t1, f1, x1);
      e1 :- InfixArith(e1, b, t1, f1, x1);
      ghost var s1 := Snap();
      FirstOk(m, nactvar, b, s1, e1, x1);
      FirstFew(m, nactvar, b, s1, e1, x1);
      var e2, t2, f2 :- CodeExpr(x2);
      TempsFew(m, nactvar, s1, Snap(), e2, t2, f2, x2);
      s, e := CodeArith(x.op, e1, e2, b, s1, t2, f2, x1, x2);
    }

    /** A comparison. */
    method CodeComparison(x: Expr) returns (s: Status, e: Exp)
      requires Valid() && Ok(nactvar, Snap()) && Fragment(m, nactvar, x) && x.ERel?
      modifies this
      ensures s.Success? ==> Has(old(Snap()), e, [], [], x)
      ensures s.Failure? ==> Full()
      ensures Grown(old(|code|), old(|k|), old(freereg), 50 * Size(x), 4 * Height(x))
      decreases x, 0
    {
      hide Holds, Ok, IsList, First, Operand;
      ghost var b := Snap();
      var x1, x2 := x.x, x.y;
      e := Exp(VNil, NO_JUMP, NO_JUMP);
      var e1, t1, f1 :- CodeExpr(x1);
      TempsFew(m, nactvar, b, Snap(), e1, t1, f1, x1);
      e1 :- InfixOther(e1, b, t1, f1, x1);
      ghost var s1 := Snap();
      FirstOk(m, nactvar, b, s1, e1, x1);
      FirstFew(m, nactvar, b, s1, e1, x1);
      var e2, t2, f2 :- CodeExpr(x2);
      TempsFew(m, nactvar, s1, Snap(), e2, t2, f2, x2);
      s, e := CodeComp(x.rel, e1, e2, b, s1, t2, f2, x1, x2);
    }

    /** An indexed variable: the table goes to a register, the key stays an operand. */
    method CodeIndex(x: Expr) returns (s: Status, e: Exp)
      requires Valid() && Ok(nactvar, Snap()) && Fragment(m, nactvar, x) && x.EIndex?
      modifies this
      ensures s.Success? ==> Has(old(Snap()), e, [], [], x)
      ensures s.Failure? ==> Full()
      ensures Grown(old(|code|), old(|k|), old(freereg), 50 * Size(x), 4 * Height(x))
      decreases x, 0
    {
      hide Holds, Ok, IsList, First, Operand;
      ghost var b := Snap();
      var x1, x2 := x.t, x.key;
      e := Exp(VNil, NO_JUMP, NO_JUMP);
      var e1, t1, f1 :- CodeExpr(x1);
      TempsFew(m, nactvar, b, Snap(), e1, t1, f1, x1);
      e1 :- Exp2AnyReg(e1, b, t1, f1, x1);
      ghost var s1 := Snap();
      FirstReg(m, nactvar, b, s1, e1, x1);
      FirstOk(m, nactvar, b, s1, e1, x1);
      var e2, t2, f2 :- CodeExpr(x2);
      TempsFew(m, nactvar, s1, Snap(), e2, t2, f2, x2);
      e2 :- Exp2Val(e2, s1, t2, f2, x2);
      s, e := Indexed(e1, e2, b, s1, [], [], x1, x2);
    }

    /** `and' and `or' */
    method CodeLogic(conj: bool, x: Expr) returns (s: Status, e: Exp, ghost t: seq<nat>, ghost f: seq<nat>)
      requires Valid() && Ok(nactvar, Snap()) && Fragment(m, nactvar, x) && (if conj then x.EAnd? else x.EOr?)
      modifies this
      ensures s.Success? ==> Has(old(Snap()), e, t, f, x)
      ensures s.Failure? ==> Full()
      ensures Grown(old(|code|), old(|k|), old(freereg), 50 * Size(x), 4 * Height(x))
      decreases x, 0
    {
      hide Holds, Ok, IsList, Branch, ConstOf;
      ghost var b := Snap();
      var x1, x2 := x.x, x.y;
      e, t, f := Exp(VNil, NO_JUMP, NO_JUMP), [], [];
      var e1, t1, f1 :- CodeExpr(x1);
      TempsFew(m, nactvar, b, Snap(), e1, t1, f1, x1);
      ghost var l;
      if conj {
        e1, l :- GoIfTrue(e1, b, t1, f1, x1);
      } else {
        e1, l :- GoIfFalse(e1, b, t1, f1, x1);
      }
      ghost var s1 := Snap();
      BranchOk(m, nactvar, b, s1, if conj then e1.f else e1.t, l, conj, x1);
      var e2, t2, f2 :- CodeExpr(x2);
      TempsFew(m, nactvar, s1, Snap(), e2, t2, f2, x2);
      s, e := PosfixLogic(conj, e1, e2, b, s1, l, t2, f2, x1, x2);
      t, f := if conj then t2 else t2 + l, if conj then f2 + l else f2;
    }

    /**
     luaK_exp2nextreg on a compiled expression. When the code so far runs to its end, so does the new
     code: it leaves the value of the expression in the first free register and changes no register
     below it. That register, and no other, has been taken.
     */
    method ExprToNextReg(x: Expr) returns (s: Status)
      requires Valid() && Ok(nactvar, Snap()) && Fragment(m, nactvar, x)
      modifies this
      ensures s.Success? ==> Valid() && Ok(nactvar, Snap()) && freereg == old(freereg) + 1 && open == old(open) && old(k) <= k
      ensures s.Success? ==> forall kk, c, r0 :: k <= kk && Start(nactvar, old(Snap()), c, r0) ==>
        Computed(m, old(Snap()), Snap(), x, kk, c, r0)
      ensures s.Failure? ==> Full()
      ensures Grown(old(|code|), old(|k|), old(freereg), 50 * Size(x) + 6, 4 * Height(x))
    {
      hide Holds, IsList, Fragment, Ok, Start, Computed;
      ghost var b := Snap();
      var e, t, f :- CodeExpr(x);
      TempsFew(m, nactvar, b, Snap(), e, t, f, x);
      var e' :- Exp2NextReg(e, b, t, f, x);
      DeliversReg(m, nactvar, b, Snap(), x);
      return Success;
    }
  }

  /** The compiler and the interpreter together: the expression is compiled for a new function, and the code run. */
  method CompileAndRun(m: Machine, params: nat, x: Expr, regs: Regs) returns (s: Status, r: Regs)
    requires params < MAXSTACK && Fragment(m, params, x) && |regs| == MAXSTACK && Clean(regs, params)
    ensures s.Success? ==> Same(regs, r, params) && Reg(r, params) == Eval(m, x, regs)
    ensures 50 * Size(x) + 6 <= 131071 && params + 4 * Height(x) + 1 < 250 ==> s.Success?
    ensures s.Success? && x.EArith? ==>
      var u, w := Eval(m, x.x, regs), Eval(m, x.y, regs);
      Reg(r, params) == if u.Num? && w.Num? then Num(m.num(x.op, u.n, w.n)) else m.arith(x.op, u, w)
    ensures s.Success? && x.EUnm? ==>
      var u := Eval(m, x.x, regs); Reg(r, params) == if u.Num? then Num(m.neg(u.n)) else m.unm(u)
    ensures s.Success? && x.ERel? ==>
      var u, w := Eval(m, x.x, regs), Eval(m, x.y, regs);
      (x.rel == EqRel ==> Reg(r, params) == Bool(m.cmp(Eq, u, w))) &&
      (x.rel == NeRel ==> Reg(r, params) == Bool(!m.cmp(Eq, u, w))) &&
      (x.rel == LtRel ==> Reg(r, params) == Bool(m.cmp(Lt, u, w))) &&
      (x.rel == LeRel ==> Reg(r, params) == Bool(m.cmp(Le, u, w))) &&
      (x.rel == GtRel ==> Reg(r, params) == Bool(m.cmp(Lt, w, u))) &&
      (x.rel == GeRel ==> Reg(r, params) == Bool(m.cmp(Le, w, u)))
    ensures s.Success? && (x.EAnd? || x.EOr?) ==>
      var u, w := Eval(m, x.x, regs), Eval(m, x.y, regs);
      Reg(r, params) == if (u == Nil || u == Bool(false)) == x.EAnd? then u else w
    ensures s.Success? && x.ENot? ==>
      var u := Eval(m, x.x, regs); Reg(r, params) == Bool(u == Nil || u == Bool(false))
    ensures s.Success? && x.ELocal? ==> x.reg < |regs| && Reg(r, params) == regs[x.reg]
  {
    hide Run, Fragment, Ok, IsList, Eval;
    EvalLaws(m, x, regs);
    LocalIn(m, params, x);
    r := regs;
    var fs := new FuncState(m, params);
    ghost var b := fs.Snap();
    :- fs.ExprToNextReg(x);
    assert Computed(m, b, fs.Snap(), x, fs.k, 0, regs);
    RunNothing(m, fs.k, View(b), regs);
    :- fs.DischargeJpc();
    r := Execute(m, fs.k, fs.code, 0, |fs.code|, regs);
    return Success, r;
  }

  lemma LocalIn(m: Machine, params: nat, x: Expr)
    requires Fragment(m, params, x)
    ensures x.ELocal? ==> x.reg < params
  {
  }

  /** How many operators and operands an expression has, and how deeply they are nested. */
  function Size(x: Expr): (n: nat)
    ensures n >= 1
  {
    match x
    case EIndex(y, z) => 1 + Size(y) + Size(z)
    case EArith(_, y, z) => 1 + Size(y) + Size(z)
    case ERel(_, y, z) => 1 + Size(y) + Size(z)
    case EAnd(y, z) => 1 + Size(y) + Size(z)
    case EOr(y, z) => 1 + Size(y) + Size(z)
    case EUnm(y) => 1 + Size(y)
    case ELen(y) => 1 + Size(y)
    case ENot(y) => 1 + Size(y)
    case _ => 1
  }

  function Max(a: nat, b: nat): nat { if a > b then a else b }

  function Height(x: Expr): (n: nat)
    ensures n >= 1
  {
    match x
    case EIndex(y, z) => 1 + Max(Height(y), Height(z))
    case EArith(_, y, z) => 1 + Max(Height(y), Height(z))
    case ERel(_, y, z) => 1 + Max(Height(y), Height(z))
    case EAnd(y, z) => 1 + Max(Height(y), Height(z))
    case EOr(y, z) => 1 + Max(Height(y), Height(z))
    case EUnm(y) => 1 + Height(y)
    case ELen(y) => 1 + Height(y)
    case ENot(y) => 1 + Height(y)
    case _ => 1
  }

  /** A compiled expression holds at most two temporaries. */
  lemma TempsFew(m: Machine, nact: nat, b: FS, s: FS, e: Exp, t: seq<nat>, f: seq<nat>, x: Expr)
    requires Holds(m, nact, b, s, e, t, f, x)
    ensures s.fr <= b.fr + 2
  {
    hide Core, Fragment, Constants;
  }

  /** A first operand holds at most one. */
  lemma FirstFew(m: Machine, nact: nat, b: FS, s: FS, e: Exp, x: Expr)
    requires First(m, nact, b, s, e, x)
    ensures s.fr <= b.fr + 1
  {
    hide Core, Fragment, Constants, Ok, Frame, OperandAt;
  }

  lemma RunNothing(m: Machine, kk: seq<Value>, v: Code, r: Regs)
    ensures Run(m, kk, v, 0, 0, {}, r) == Fall(r)
  {
  }

  /** The code of state s goes on from where that of b ends, and puts the value of x in register b.fr. */
  ghost predicate Computed(m: Machine, b: FS, s: FS, x: Expr, kk: seq<Value>, c: nat, r0: Regs)
    requires c <= |b.code|
  {
    match Run(m, kk, View(b), c, |b.code|, b.open, r0)
    case Stuck => true
    case Exit(p, r) => Run(m, kk, View(s), c, |s.code|, s.open, r0) == Exit(p, r)
    case Fall(r) =>
      var out := Run(m, kk, View(s), c, |s.code|, s.open, r0);
      out.Fall? && Same(r, out.r, b.fr) && Reg(out.r, b.fr) == Eval(m, x, r)
  }

  lemma DeliversReg(m: Machine, nact: nat, b: FS, s: FS, x: Expr)
    requires Holds(m, nact, b, s, Exp(VNonReloc(b.fr), NO_JUMP, NO_JUMP), [], [], x)
    ensures forall kk, c, r0 :: s.k <= kk && Start(nact, b, c, r0) ==> Computed(m, b, s, x, kk, c, r0)
    ensures s.open == b.open && b.k <= s.k && Ok(nact, s)
  {
    hide View, Run, Eval, Paired, Targets, IsList;
    forall kk, c, r0 | s.k <= kk && Start(nact, b, c, r0) ensures Computed(m, b, s, x, kk, c, r0)
    {
      assert DeliversAt(m, b, s, VNonReloc(b.fr), [], [], x, kk, c, r0);
    }
  }

  lemma FirstOk(m: Machine, nact: nat, b: FS, s: FS, e: Exp, x: Expr)
    requires First(m, nact, b, s, e, x)
    ensures Ok(nact, s)
  {
  }

  lemma FirstReg(m: Machine, nact: nat, b: FS, s: FS, e: Exp, x: Expr)
    requires Holds(m, nact, b, s, e, [], [], x) && e.k.VNonReloc? && Settled(e)
    ensures First(m, nact, b, s, e, x)
  {
    hide Operand, Holds;
    HeldOperand(m, nact, b, s, e, x);
  }

  lemma BranchOk(m: Machine, nact: nat, b: FS, s: FS, h: int, l: seq<nat>, sense: bool, x: Expr)
    requires Branch(m, nact, b, s, h, l, sense, x)
    ensures Ok(nact, s)
  {
  }

  lemma LeafHolds(m: Machine, nact: nat, b: FS, s: FS, k: Kind, x: Expr)
    requires Ok(nact, b) && s == b.(k := s.k) && b.k <= s.k && Fragment(m, nact, x)
    requires match x
      case ENil => k == VNil
      case ETrue => k == VTrue
      case EFalse => k == VFalse
      case ENum(n) => k == VKNum(n)
      case EStr(v) => k.VK? && k.info < |s.k| && s.k[k.info] == v
      case ELocal(reg) => k == VLocal(reg)
      case EUpval(up) => k == VUpval(up)
      case EGlobal(name) => k.VGlobal? && k.info < |s.k| && s.k[k.info] == name
      case _ => false
    ensures Holds(m, nact, b, s, Exp(k, NO_JUMP, NO_JUMP), [], [], x)
  {
    hide View, Ok, Holds;
    forall kk, r | s.k <= kk ensures KindValue(m, kk, View(s), k, r) == Eval(m, x, r) {
      if k.VK? || k.VGlobal? { assert kk[k.info] == s.k[k.info]; }
    }
    PureHolds(m, nact, b, s, k, x);
  }

  /** What is left of codenot after the code: exchanging the lists and removing their values. */
  ghost predicate NotReady(m: Machine, nact: nat, b: FS, s: FS, e: Exp, t: seq<nat>, f: seq<nat>, x: Expr) {
    && IsList(s.code, e.t, t) && IsList(s.code, e.f, f) && (s.jumps == [] || (t == [] && f == []))
    && Holds(m, nact, b, WithoutValues(s, f + t), Exp(e.k, e.f, e.t), f, t, ENot(x))
  }

  lemma NotParts(m: Machine, nact: nat, b: FS, s: FS, e: Exp, t: seq<nat>, f: seq<nat>, x: Expr)
    requires NotReady(m, nact, b, s, e, t, f, x)
    ensures IsList(s.code, e.t, t) && IsList(s.code, e.f, f) && (s.jumps == [] || (t == [] && f == []))
    ensures Holds(m, nact, b, WithoutValues(s, f + t), Exp(e.k, e.f, e.t), f, t, ENot(x))
  {
  }

  lemma NotConst(m: Machine, nact: nat, b: FS, s: FS, e: Exp, t: seq<nat>, f: seq<nat>, x: Expr, k': Kind)
    requires Holds(m, nact, b, s, e, t, f, x) && IsConst(e.k) && k' == if e.k.VNil? || e.k.VFalse? then VTrue
      else VFalse
    ensures NotReady(m, nact, b, s, Exp(k', e.t, e.f), t, f, x)
  {
    hide View, Paired, Targets, Run, IsList, Before;
    NoJumps(m, nact, b, s, e, t, f, x);
    assert WithoutValues(s, []).code == s.code by { NoneDone(s.code, 0, 0, 0); }
    assert f + t == [] && f == t;
    var z := ENot(x);
    forall kk, c, r0 | s.k <= kk && Start(nact, b, c, r0) ensures DeliversAt(m, b, s, k', [], [], z, kk, c, r0)
    {
      assert DeliversAt(m, b, s, e.k, [], [], x, kk, c, r0);
      var start := Before(m, kk, b, c, r0);
      if start.Fall? { ConstEval(m, nact, x, start.r); }
    }
  }

  lemma NotInverted(m: Machine, nact: nat, b: FS, s: FS, e: Exp, t: seq<nat>, f: seq<nat>, x: Expr)
    requires Holds(m, nact, b, s, e, t, f, x) && e.k.VJmp? && 0 < e.k.p < |s.code| && s.code[e.k.p - 1].CmpOp?
    ensures NotReady(m, nact, b, Inverted(s, e.k.p), e, t, f, x)
  {
    hide View, Paired, Targets, Delivers, Frame, Ok, IsList, WithoutValues;
    NotJmp(m, nact, b, s, e, t, f, x);
    InvertedLists(b, s, e, t, f);
    JmpHolds(m, nact, b, WithoutValues(Inverted(s, e.k.p), f + t), Exp(e.k, e.f, e.t), f, t,
      ENot(x)) by { WithoutRest(Inverted(s, e.k.p), f + t); }
  }

  lemma NotCoded(m: Machine, nact: nat, b: FS, s: FS, e: Exp, t: seq<nat>, f: seq<nat>, x: Expr)
    requires Core(m, nact, b, s, e, t, f, x) && e.k.VNonReloc? && s.fr == b.fr && Fragment(m, nact, x)
    ensures NotReady(m, nact, b, Emitted(s, Not(0, e.k.reg)), Exp(VReloc(|s.code|), e.t, e.f), t, f, x)
  {
    hide View, Paired, Targets, Delivers, Frame, Ok, IsList, WithoutValues, Emitted;
    var i := Not(0, e.k.reg);
    var s1 := Emitted(s, i);
    NotReloc(m, nact, b, s, e, t, f, x);
    EmitLists(nact, b, s, e, t, f, i, VReloc(|s.code|)) by { CoreOk(m, nact, b, s, e, t, f, x); }
    WithoutRest(s1, f + t);
    EmittedRest(s, i);
    JmpHolds(m, nact, b, WithoutValues(s1, f + t), Exp(VReloc(|s.code|), e.f, e.t), f, t, ENot(x));
  }

  lemma WithoutRest(s: FS, l: seq<nat>)
    ensures WithoutValues(s, l).fr == s.fr && WithoutValues(s, l).jumps == s.jumps
  {
  }

  lemma EmittedRest(s: FS, i: Instr)
    ensures Emitted(s, i).fr == s.fr && Emitted(s, i).jumps == []
  {
  }

  /** A value that is in no register yet. */
  lemma JmpHolds(m: Machine, nact: nat, b: FS, s: FS, e: Exp, t: seq<nat>, f: seq<nat>, x: Expr)
    requires Core(m, nact, b, s, e, t, f, x) && (e.k.VJmp? || e.k.VReloc?) && s.fr == b.fr && Fragment(m, nact, x)
    ensures Holds(m, nact, b, s, e, t, f, x)
  {
    hide View, Paired, Targets, Delivers, Frame, Ok, IsList, Lists, Fragment;
  }

  lemma JmpPlace(m: Machine, nact: nat, b: FS, s: FS, e: Exp, t: seq<nat>, f: seq<nat>, x: Expr)
    requires Core(m, nact, b, s, e, t, f, x) && e.k.VJmp? && Temps(nact, b, s, e.k)
    ensures 0 < e.k.p < |s.code| && s.code[e.k.p - 1].CmpOp? && s.jumps == [] && s.fr == b.fr
  {
    hide View, Paired, Targets, Delivers, Frame, Ok, IsList;
  }

  lemma CutParts(m: Machine, nact: nat, b: FS, s: FS, gh: int, oh: int, g: seq<nat>, o: seq<nat>, pc: nat, cond: bool,
    x: Expr)
    requires Cut(m, nact, b, s, if cond then gh else oh, if cond then oh else gh,
      if cond then g else o, if cond then o else g, pc, cond, x)
    ensures IsList(s.code, gh, g) && IsList(s.code, pc, [pc]) && (forall p :: p in g ==> p !in [pc]) && s.jumps == []
    ensures IsList(Linked(s.code, g, [pc]), oh, o)
  {
    hide IsList, View, Paired, Targets, Linked;
    OneList(s.code, pc);
    LinkedOther(s.code, g, [pc], oh, o);
  }

  lemma RemovedList(c0: Code, l: seq<nat>, h: int, o: seq<nat>)
    requires IsList(c0, h, o)
    ensures IsList(Removed(c0, l), h, o)
  {
    hide IsList;
    var c := Removed(c0, l);
    ListInside(c0, h, o);
    forall p | p in o ensures c[p] == c0[p] { RemoveKeepsLink(c0, l, p); }
    SameList(c0, c, h, o);
  }

  lemma RemovedTwice(c0: Code, t: seq<nat>, f: seq<nat>)
    ensures Removed(Removed(c0, t), f) == Removed(c0, f + t)
  {
    var c1 := Removed(c0, t);
    forall i | 0 <= i < |c0| ensures Removed(c1, f)[i] == Removed(c0, f + t)[i]
    {
      assert c1[i] == RemovedAt(c0, t, i) && Removed(c1, f)[i] == RemovedAt(c1, f, i);
    }
  }

  // ---- the operands of an operator ----

  /** The first operand while the second is compiled: a numeral that may still be folded, or a register or constant. */
  ghost predicate First(m: Machine, nact: nat, b: FS, s: FS, e: Exp, x: Expr) {
    if e.k.VKNum? then Holds(m, nact, b, s, e, [], [], x)
    else Settled(e) && Operand(m, nact, b, s, OperandOf(e), x) && (OperandOf(e) < BITRK <==> e.k.VNonReloc?)
  }

  lemma FirstSettled(m: Machine, nact: nat, b: FS, s: FS, e: Exp, x: Expr)
    requires First(m, nact, b, s, e, x)
    ensures Settled(e) <==> !e.k.VKNum?
  {
  }

  predicate LastTemp(nact: nat, fr: nat, o: nat) { IsTemp(nact, o) ==> o + 1 == fr }

  function Released(nact: nat, fr: nat, o: nat): nat { if IsTemp(nact, o) then o else fr }

  /** A descriptor without code: its value is known from the registers. */
  lemma PureHolds(m: Machine, nact: nat, b: FS, s: FS, k: Kind, x: Expr)
    requires Ok(nact, b) && s == b.(k := s.k) && b.k <= s.k && Fragment(m, nact, x)
    requires Temps(nact, b, s, k) && Constants(m, b, s, Exp(k, NO_JUMP, NO_JUMP), x) && !k.VJmp? && !k.VReloc?
    requires forall kk, r :: s.k <= kk ==> KindValue(m, kk, View(s), k, r) == Eval(m, x, r)
    ensures Holds(m, nact, b, s, Exp(k, NO_JUMP, NO_JUMP), [], [], x)
  {
    hide Run, Eval, Fragment, View, Paired, Targets, Constants;
    SameView(b, s);
    OkSame(nact, b, s);
    assert s.open == b.open + SetOf([]) + SetOf([]) + JumpOf(k);
    forall kk, c, r0 | s.k <= kk && Start(nact, b, c, r0) ensures DeliversAt(m, b, s, k, [], [], x, kk, c, r0)
    {
    }
  }

  lemma NumeralHolds(m: Machine, nact: nat, b: FS, s: FS, n: int, x: Expr)
    requires Ok(nact, b) && s == b.(k := s.k) && b.k <= s.k && Fragment(m, nact, x) && ConstOf(m, x) == CNum(n)
    ensures Holds(m, nact, b, s, Exp(VKNum(n), NO_JUMP, NO_JUMP), [], [], x)
  {
    hide Eval, Fragment, View, Ok, Holds;
    forall kk, r | s.k <= kk ensures KindValue(m, kk, View(s), VKNum(n), r) == Eval(m, x,
      r) { ConstEval(m, nact, x, r); }
    PureHolds(m, nact, b, s, VKNum(n), x);
  }

  /** The numeral of a folded operation. */
  lemma FoldHolds(m: Machine, nact: nat, b: FS, s1: FS, s: FS, e1: Exp, e2: Exp, t: seq<nat>, f: seq<nat>, op: ArithOp,
    x1: Expr, x2: Expr)
    requires First(m, nact, b, s1, e1, x1) && Holds(m, nact, s1, s, e2, t, f, x2) && e1.k.VKNum? && e2.k.VKNum?
    requires Folded(m, op, e1.k.n, e2.k.n).Some?
    ensures e1.t == e1.f == NO_JUMP
    ensures Holds(m, nact, b, s, Exp(VKNum(Folded(m, op, e1.k.n, e2.k.n).value), NO_JUMP, NO_JUMP), [], [],
      EArith(op, x1, x2))
  {
    hide Eval, View, Ok, Paired, Targets, Lists, Delivers;
    assert b.k <= s1.k <= s.k;
    NumeralHolds(m, nact, b, s, Folded(m, op, e1.k.n, e2.k.n).value, EArith(op, x1, x2));
  }

  /** A numeral put off until now. */
  lemma NumeralAgain(m: Machine, nact: nat, b: FS, s1: FS, s2: FS, e1: Exp, o2: nat, x1: Expr, x2: Expr)
    requires First(m, nact, b, s1, e1, x1) && Operand(m, nact, s1, s2, o2, x2)
    ensures e1.k.VKNum? ==> Holds(m, nact, s2, s2, e1, [], [], x1)
  {
    hide Eval, View, Paired, Targets, Lists, Delivers, Frame;
    if e1.k.VKNum? { NumeralHolds(m, nact, s2, s2, e1.k.n, x1); }
  }

  lemma BothReady(m: Machine, nact: nat, b: FS, s1: FS, s2: FS, s3: FS, e1: Exp, o1: nat, o2: nat, x1: Expr, x2: Expr)
    requires First(m, nact, b, s1, e1, x1) && Operand(m, nact, s1, s2, o2, x2)
    requires if e1.k.VKNum? then Operand(m, nact, s2, s3, o1, x1) else s3 == s2 && o1 == OperandOf(e1)
    ensures Both(m, nact, b, s3, o1, o2, x1, x2) && Fragment(m, nact, x1) && Fragment(m, nact, x2)
  {
    OperandFragment(m, nact, s1, s2, o2, x2);
    if e1.k.VKNum? { OperandFragment(m, nact, s2, s3, o1, x1); } else { OperandFragment(m, nact, b, s1, o1, x1); }
    OperandsTogether(m, nact, b, s1, s2, s3, e1, o1, o2, x1, x2);
  }

  lemma OperandFragment(m: Machine, nact: nat, b: FS, s: FS, o: nat, x: Expr)
    requires Operand(m, nact, b, s, o, x)
    ensures Fragment(m, nact, x)
  {
  }

  lemma OperandsTogether(m: Machine, nact: nat, b: FS, s1: FS, s2: FS, s3: FS, e1: Exp, o1: nat, o2: nat, x1: Expr,
    x2: Expr)
    requires First(m, nact, b, s1, e1, x1) && Operand(m, nact, s1, s2, o2, x2)
    requires if e1.k.VKNum? then Operand(m, nact, s2, s3, o1, x1) else s3 == s2 && o1 == OperandOf(e1)
    ensures Both(m, nact, b, s3, o1, o2, x1, x2)
  {
    hide Eval, View, Paired, Targets, Lists, Delivers, Operand, Both, Fragment;
    if e1.k.VKNum? {
      assert Ok(nact, b) && s1 == b.(k := s1.k) && b.k <= s1.k;
      Rebase(m, nact, b, s1, s2, o2, x2);
      BothOperands(m, nact, b, s2, s3, o2, o1, x2, x1);
      BothSwap(m, nact, b, s3, o2, o1, x2, x1);
    } else {
      BothOperands(m, nact, b, s1, s2, o1, o2, x1, x2);
    }
  }

  lemma FreeOrder(m: Machine, nact: nat, b: FS, s1: FS, s2: FS, s3: FS, e1: Exp, o1: nat, o2: nat, x1: Expr, x2: Expr)
    requires First(m, nact, b, s1, e1, x1) && Operand(m, nact, s1, s2, o2, x2)
    requires if e1.k.VKNum? then Operand(m, nact, s2, s3, o1, x1) else s3 == s2 && o1 == OperandOf(e1)
    ensures var o, o' := if o1 > o2 then o1 else o2, if o1 > o2 then o2 else o1;
      LastTemp(nact, s3.fr, o) && LastTemp(nact, Released(nact, s3.fr, o), o') &&
        Released(nact, Released(nact, s3.fr, o), o') == b.fr
  {
    hide Eval, View, Paired, Targets, Lists, Delivers, Fragment, Frame, Constants, OperandAt;
    assert nact <= b.fr < MAXSTACK;
    assert nact <= s1.fr < MAXSTACK;
  }

  /** Both operands are in place, and the later one of the temporaries among them is the last one in use. */
  ghost predicate ReadyToFree(m: Machine, nact: nat, b: FS, s: FS, o1: nat, o2: nat, x1: Expr, x2: Expr) {
    var o, o' := if o1 > o2 then o1 else o2, if o1 > o2 then o2 else o1;
    Both(m, nact, b, s, o1, o2, x1, x2) && Fragment(m, nact, x1) && Fragment(m, nact, x2) &&
    LastTemp(nact, s.fr, o) && LastTemp(nact, Released(nact, s.fr, o), o') &&
    Released(nact, Released(nact, s.fr, o), o') == b.fr
  }

  lemma ArithReady(m: Machine, nact: nat, b: FS, s1: FS, s2: FS, s3: FS, e1: Exp, o1: nat, o2: nat, x1: Expr, x2: Expr)
    requires First(m, nact, b, s1, e1, x1) && Operand(m, nact, s1, s2, o2, x2)
    requires if e1.k.VKNum? then Operand(m, nact, s2, s3, o1, x1) else s3 == s2 && o1 == OperandOf(e1)
    ensures ReadyToFree(m, nact, b, s3, o1, o2, x1, x2)
  {
    hide First, Operand, Both, Fragment, LastTemp, Released;
    BothReady(m, nact, b, s1, s2, s3, e1, o1, o2, x1, x2);
    FreeOrder(m, nact, b, s1, s2, s3, e1, o1, o2, x1, x2);
  }

  lemma ArithHolds(m: Machine, nact: nat, b: FS, s: FS, o1: nat, o2: nat, x1: Expr, x2: Expr, op: ArithOp)
    requires Both(m, nact, b, s, o1, o2, x1, x2) && Fragment(m, nact, x1) && Fragment(m, nact, x2)
    ensures var s1 := s.(fr := b.fr);
      Holds(m, nact, b, Emitted(s1, ArithOp(op, 0, o1, o2)), Exp(VReloc(|s.code|), NO_JUMP, NO_JUMP), [], [],
        EArith(op, x1, x2))
  {
    hide Both, Core, Emitted;
    var s1, i := s.(fr := b.fr), ArithOp(op, 0, o1, o2);
    ArithCore(m, nact, b, s, o1, o2, x1, x2, op);
    EmittedRest(s1, i);
    JmpHolds(m, nact, b, Emitted(s1, i), Exp(VReloc(|s.code|), NO_JUMP, NO_JUMP), [], [], EArith(op, x1, x2));
  }

  // ---- what the operators deliver ----

  lemma UnaryParts(m: Machine, nact: nat, b: FS, s: FS, e: Exp, t: seq<nat>, f: seq<nat>, x: Expr, minus: bool)
    requires Holds(m, nact, b, s, e, t, f, x) && (if minus then MinusOk(m, ConstOf(m, x)) && !e.k.VK?
      else e.k.VNonReloc?)
    ensures IsConst(e.k) ==> minus && e.k.VKNum? && !m.isnan(m.neg(e.k.n)) && e.t == e.f == NO_JUMP
    ensures Fragment(m, nact, x)
  {
    hide View, Paired, Targets, Delivers, Frame, Ok, IsList, Lists, Fragment;
  }

  lemma FoldMinus(m: Machine, nact: nat, b: FS, s: FS, e: Exp, t: seq<nat>, f: seq<nat>, x: Expr)
    requires Holds(m, nact, b, s, e, t, f, x) && e.k.VKNum? && !m.isnan(m.neg(e.k.n))
    ensures e.t == e.f == NO_JUMP && Holds(m, nact, b, s, Exp(VKNum(m.neg(e.k.n)), NO_JUMP, NO_JUMP), [], [], EUnm(x))
  {
    hide Eval, View, Ok, Paired, Targets, Lists, Delivers;
    NumeralHolds(m, nact, b, s, m.neg(e.k.n), EUnm(x));
  }

  lemma OperandTemps(m: Machine, nact: nat, b: FS, s: FS, o: nat, x: Expr)
    requires Operand(m, nact, b, s, o, x)
    ensures (IsTemp(nact, o) ==> o + 1 == s.fr) && b.fr == (if IsTemp(nact, o) then o else s.fr) && Fragment(m, nact, x)
  {
    hide View, Paired, Targets, Delivers, Frame, Ok, IsList, Lists, Fragment;
  }

  lemma UnaryHolds(m: Machine, nact: nat, b: FS, s: FS, o: nat, x: Expr, i: Instr, z: Expr)
    requires Operand(m, nact, b, s, o, x) && o < BITRK && Fragment(m, nact, x)
    requires (i == Unm(0, o) && z == EUnm(x) && MinusOk(m, ConstOf(m, x))) || (i == Len(0, o) && z == ELen(x))
    ensures Holds(m, nact, b, Emitted(s.(fr := b.fr), i), Exp(VReloc(|s.code|), NO_JUMP, NO_JUMP), [], [], z)
  {
    hide Operand, Core, Emitted, MinusOk;
    UnaryCore(m, nact, b, s, o, x, i, z);
    EmittedRest(s.(fr := b.fr), i);
    JmpHolds(m, nact, b, Emitted(s.(fr := b.fr), i), Exp(VReloc(|s.code|), NO_JUMP, NO_JUMP), [], [], z);
  }

  lemma CompFreeOrder(m: Machine, nact: nat, b: FS, s1: FS, s2: FS, e1: Exp, o1: nat, o2: nat, x1: Expr, x2: Expr)
    requires First(m, nact, b, s1, e1, x1) && Operand(m, nact, s1, s2, o2, x2) && Settled(e1) && o1 == OperandOf(e1)
    ensures LastTemp(nact, s2.fr, o2) && LastTemp(nact, Released(nact, s2.fr, o2), o1) &&
      Released(nact, Released(nact, s2.fr, o2), o1) == b.fr
  {
    hide Eval, View, Paired, Targets, Lists, Delivers, Fragment, Frame, Constants, OperandAt;
    assert nact <= b.fr < MAXSTACK;
    assert nact <= s1.fr < MAXSTACK;
  }

  lemma CompHolds(m: Machine, nact: nat, b: FS, s: FS, o1: nat, o2: nat, x1: Expr, x2: Expr, rel: RelOp)
    requires Both(m, nact, b, s, o1, o2, x1, x2) && Fragment(m, nact, x1) && Fragment(m, nact, x2)
    ensures var s1 := s.(fr := b.fr);
      Holds(m, nact, b, CondJumped(s1, Comparison(rel, o1, o2)), Exp(VJmp(|s.code| + 1), NO_JUMP, NO_JUMP), [], [],
        ERel(rel, x1, x2))
  {
    hide Both, Core, CondJumped, Comparison;
    var s1, i := s.(fr := b.fr), Comparison(rel, o1, o2);
    ComparisonValue(m, rel, o1, o2, x1, x2);
    assert i.CmpOp? by { assert Compares(m, [], o1, o2, x1, x2, i, ERel(rel, x1, x2)); }
    CompareCore(m, nact, b, s, o1, o2, x1, x2, i, ERel(rel, x1, x2));
    JmpHolds(m, nact, b, CondJumped(s1, i), Exp(VJmp(|s.code| + 1), NO_JUMP, NO_JUMP), [], [],
      ERel(rel, x1, x2)) by { CondRest(s1, i); }
  }

  lemma CondRest(s: FS, i: Instr)
    ensures CondJumped(s, i).fr == s.fr
  {
  }

  lemma LogicLists(m: Machine, nact: nat, b: FS, s1: FS, s2: FS, h: int, l: seq<nat>, sense: bool, x1: Expr, e: Exp,
    t: seq<nat>, f: seq<nat>, x2: Expr, j: int)
    requires IsList(s2.code, j, s2.jumps)
    requires Branch(m, nact, b, s1, h, l, sense, x1) && Holds(m, nact, s1, s2, e, t, f, x2)
    ensures IsList(s2.code, e.t, t) && IsList(s2.code, e.f, f) && IsList(s2.code, h, l)
    ensures (forall p :: p in t || p in f ==> p !in l) && IsList(Linked(s2.code, if sense then f else t, l), j,
      s2.jumps)
  {
    hide IsList, View, Paired, Targets, Delivers;
    BranchTests(nact, b, s1, s2, h, l);
    CoreLists(m, nact, s1, s2, e, t, f, x2);
    LinkedOther(s2.code, if sense then f else t, l, j, s2.jumps);
  }

  lemma IndexHolds(m: Machine, nact: nat, b: FS, s1: FS, s2: FS, e1: Exp, o2: nat, x1: Expr, x2: Expr)
    requires First(m, nact, b, s1, e1, x1) && Settled(e1) && e1.k.VNonReloc? && Operand(m, nact, s1, s2, o2, x2)
    requires Both(m, nact, b, s2, e1.k.reg, o2, x1, x2)
    ensures Holds(m, nact, b, s2, Exp(VIndexed(e1.k.reg, o2), NO_JUMP, NO_JUMP), [], [], EIndex(x1, x2))
  {
    hide Eval, View, Paired, Targets, Lists, Delivers, Frame, OperandAt, Both;
    IndexCore(m, nact, b, s2, e1.k.reg, o2, x1, x2);
    assert nact <= b.fr < MAXSTACK;
    assert nact <= s1.fr < MAXSTACK;
  }

  /** The descriptor of an operand that needs nothing more. */
  predicate Settled(e: Exp) {
    e.t == e.f == NO_JUMP && (e.k.VNonReloc? || (e.k.VK? && e.k.info <= MAXINDEXRK))
  }

  /** The RK operand that e stands for. */
  function OperandOf(e: Exp): nat
    requires Settled(e)
  {
    if e.k.VK? then BITRK + e.k.info else e.k.reg
  }

  function KindConstant(k: Kind): Value
    requires IsConst(k) && !k.VK?
  {
    match k
    case VNil => Nil
    case VTrue => Bool(true)
    case VFalse => Bool(false)
    case VKNum(n) => Num(n)
  }

  lemma KindOperand(m: Machine, nact: nat, b: FS, s: FS, e: Exp, x: Expr, kk: seq<Value>, i: nat)
    requires Holds(m, nact, b, s, e, [], [], x) && IsConst(e.k) && !e.k.VK?
    requires s.k <= kk && i < |kk| && kk[i] == KindConstant(e.k)
    ensures Operand(m, nact, b, s.(k := kk), BITRK + i, x)
  {
    hide View, IsList, Paired, Targets, Delivers, Lists, Fragment, Operand;
    assert b.k <= s.k;
    ConstOperand(m, nact, b, s.(k := kk), i, x);
  }

  lemma TableOperand(m: Machine, nact: nat, b: FS, s: FS, e: Exp, x: Expr)
    requires Holds(m, nact, b, s, e, [], [], x) && e.k.VK?
    ensures Operand(m, nact, b, s, BITRK + e.k.info, x)
  {
    hide View, IsList, Paired, Targets, Delivers, Lists, Fragment, Operand;
    ConstOperand(m, nact, b, s, e.k.info, x);
  }

  lemma HeldOperand(m: Machine, nact: nat, b: FS, s: FS, e: Exp, x: Expr)
    requires Holds(m, nact, b, s, e, [], [], x) && e.k.VNonReloc? && e.t == e.f
    ensures Operand(m, nact, b, s, e.k.reg, x) && e.k.reg < BITRK
  {
    hide View, IsList, Paired, Targets, Delivers, Lists, Fragment, Operand;
    NoJumps(m, nact, b, s, e, [], [], x);
    FreedTemps(m, nact, b, s, e, [], [], x);
    RegOperand(m, nact, b, s, e.k.reg, x);
  }

  lemma HoldsParts(m: Machine, nact: nat, b: FS, s: FS, e: Exp, t: seq<nat>, f: seq<nat>, x: Expr)
    requires Holds(m, nact, b, s, e, t, f, x)
    ensures Core(m, nact, b, s, e, t, f, x) && Fragment(m, nact, x) && Temps(nact, b, s, e.k) &&
      Constants(m, b, s, e, x)
    ensures (e.k.VK? ==> e.k.info < |s.k|) && nact <= b.fr < MAXSTACK && nact <= s.fr < MAXSTACK
  {
    hide View, IsList, Paired, Targets, Delivers, Frame, Lists, Fragment;
    assert Ok(nact, b) && Ok(nact, s);
  }

  /** What freeexp releases. */
  lemma FreedTemps(m: Machine, nact: nat, b: FS, s: FS, e: Exp, t: seq<nat>, f: seq<nat>, x: Expr)
    requires Core(m, nact, b, s, e, t, f, x) && Temps(nact, b, s, e.k) && !IsVar(e.k)
    ensures e.k.VNonReloc? && IsTemp(nact, e.k.reg) ==> e.k.reg + 1 == s.fr
    ensures (if e.k.VNonReloc? && IsTemp(nact, e.k.reg) then e.k.reg else s.fr) == b.fr
    ensures e.k.VNonReloc? ==> (e.k.reg >= nact ==> e.k.reg == b.fr && s.fr == b.fr + 1) && e.k.reg < BITRK
  {
    hide View, IsList, Paired, Targets, Delivers, Frame, Lists;
    assert nact <= b.fr < MAXSTACK;
  }

  lemma RegHolds(m: Machine, nact: nat, b: FS, s: FS, r: nat, x: Expr)
    requires Core(m, nact, b, s, Exp(VNonReloc(r), NO_JUMP, NO_JUMP), [], [], x) && Fragment(m, nact, x)
    requires r == b.fr && s.fr == b.fr + 1
    ensures Holds(m, nact, b, s, Exp(VNonReloc(r), NO_JUMP, NO_JUMP), [], [], x)
  {
    hide View, IsList, Paired, Targets, Delivers, Frame, Lists, Fragment;
    assert nact <= b.fr;
  }

  lemma SettledHolds(m: Machine, nact: nat, b: FS, s: FS, e: Exp, t: seq<nat>, f: seq<nat>, x: Expr)
    requires Holds(m, nact, b, s, e, t, f, x) && e.t == e.f
    ensures t == [] && f == [] && e.t == NO_JUMP && Holds(m, nact, b, s, e, [], [], x)
  {
    hide View, IsList, Paired, Targets, Delivers, Frame, Lists, Fragment, Ok;
    NoJumps(m, nact, b, s, e, t, f, x);
  }

  lemma RemoveKeepsLink(c0: Code, l: seq<nat>, p: nat)
    requires p < |c0| && c0[p].Jmp?
    ensures Removed(c0, l)[p] == c0[p]
  {
    assert Removed(c0, l)[p] == RemovedAt(c0, l, p);
  }

  lemma ListNotHere(code: Code, h: int, l: seq<nat>)
    requires IsList(code, h, l)
    ensures forall p :: p in [|code|] ==> p !in l
  {
  }

  // ---- how the parts of Holds follow ----

  lemma LocalHolds(m: Machine, nact: nat, b: FS, s: FS, e: Exp, t: seq<nat>, f: seq<nat>, x: Expr)
    requires Holds(m, nact, b, s, e, t, f, x) && e.k.VLocal?
    ensures Holds(m, nact, b, s, Exp(VNonReloc(e.k.reg), e.t, e.f), t, f, x)
  {
    hide View, Run, IsList, Paired, Targets, Eval, Fragment;
    var k := VNonReloc(e.k.reg);
    forall kk, c, r0 | s.k <= kk && Start(nact, b, c, r0) ensures DeliversAt(m, b, s, k, t, f, x, kk, c, r0)
    {
      assert DeliversAt(m, b, s, e.k, t, f, x, kk, c, r0);
    }
  }

  /** A variable read by the instruction i, whose temporaries have been released. */
  lemma VarHolds(m: Machine, nact: nat, b: FS, s: FS, e: Exp, t: seq<nat>, f: seq<nat>, x: Expr, i: Instr)
    requires Holds(m, nact, b, s, e, t, f, x)
    requires (e.k.VUpval? && i == GetUpval(0, e.k.up)) || (e.k.VGlobal? && i == GetGlobal(0, e.k.info)) ||
      (e.k.VIndexed? && i == GetTable(0, e.k.t, e.k.aux))
    ensures Holds(m, nact, b, Emitted(s.(fr := b.fr), i), Exp(VReloc(|s.code|), e.t, e.f), t, f, x)
    ensures e.k.VUpval? || e.k.VGlobal? ==> s.(fr := b.fr) == s
  {
    hide View, Run, IsList, Paired, Targets, Eval, Fragment, Delivers;
    var s1 := s.(fr := b.fr);
    OtherRegisters(m, nact, b, s, e, t, f, x, b.fr);
    RelocNew(m, nact, b, s1, e, t, f, x, i);
  }

  lemma OtherRegisters(m: Machine, nact: nat, b: FS, s: FS, e: Exp, t: seq<nat>, f: seq<nat>, x: Expr, n: nat)
    requires Core(m, nact, b, s, e, t, f, x) && nact <= n < MAXSTACK
    ensures Core(m, nact, b, s.(fr := n), e, t, f, x)
  {
    hide Run, IsList, Paired, Targets, Eval, Patch;
    var s' := s.(fr := n);
    assert View(s') == View(s);
    forall kk, c, r0 | s'.k <= kk && Start(nact, b, c, r0) ensures DeliversAt(m, b, s', e.k, t, f, x, kk, c, r0)
    {
      assert DeliversAt(m, b, s, e.k, t, f, x, kk, c, r0);
    }
  }

  lemma MoreRegisters(m: Machine, nact: nat, b: FS, s: FS, e: Exp, t: seq<nat>, f: seq<nat>, x: Expr, n: nat)
    requires Core(m, nact, b, s, e, t, f, x) && s.fr <= n < MAXSTACK
    ensures Core(m, nact, b, s.(fr := n), e, t, f, x)
  {
    OtherRegisters(m, nact, b, s, e, t, f, x, n) by { assert Ok(nact, s); }
  }

  lemma MoreConstants(m: Machine, nact: nat, b: FS, s: FS, e: Exp, t: seq<nat>, f: seq<nat>, x: Expr, k': seq<Value>)
    requires Core(m, nact, b, s, e, t, f, x) && s.k <= k'
    ensures Core(m, nact, b, s.(k := k'), e, t, f, x)
  {
    hide Run, IsList, Paired, Targets, Eval, Patch;
    var s' := s.(k := k');
    assert View(s') == View(s);
    forall kk, c, r0 | s'.k <= kk && Start(nact, b, c, r0) ensures DeliversAt(m, b, s', e.k, t, f, x, kk, c, r0)
    {
      assert s.k <= kk;
      assert DeliversAt(m, b, s, e.k, t, f, x, kk, c, r0);
    }
  }

  lemma IndexTemps(m: Machine, nact: nat, b: FS, s: FS, e: Exp, t: seq<nat>, f: seq<nat>, x: Expr)
    requires Holds(m, nact, b, s, e, t, f, x) && e.k.VIndexed?
    ensures IsTemp(nact, e.k.aux) ==> e.k.aux + 1 == s.fr
    ensures IsTemp(nact, e.k.t) ==> e.k.t + 1 == if IsTemp(nact, e.k.aux) then e.k.aux else s.fr
    ensures b.fr == if IsTemp(nact, e.k.t) then e.k.t else if IsTemp(nact, e.k.aux) then e.k.aux else s.fr
  {
    hide View, Run, IsList, Paired, Targets, Eval, Fragment, Delivers, Frame, Lists;
    assert nact <= b.fr < MAXSTACK;
  }

  lemma LoadHolds(m: Machine, nact: nat, b: FS, s: FS, e: Exp, t: seq<nat>, f: seq<nat>, x: Expr, i: Instr)
    requires Core(m, nact, b, s, e, t, f, x)
    requires (e.k.VFalse? && i == LoadBool(b.fr, false, false)) || (e.k.VTrue? && i == LoadBool(b.fr, true, false))
          || (e.k.VK? && i == LoadK(b.fr, e.k.info)) || (e.k.VKNum? && i.LoadK? && i.a == b.fr && i.bx < |s.k| &&
            s.k[i.bx] == Num(e.k.n))
          || (e.k.VNonReloc? && i == Move(b.fr, e.k.reg))
    ensures Core(m, nact, b, Emitted(s, i), Exp(VNonReloc(b.fr), e.t, e.f), t, f, x)
  {
    hide View, Run, IsList, Paired, Targets, Eval, Delivers, Frame, Lists, Ok;
    forall kk | s.k <= kk ensures Loads(m, kk, View(s), e.k, i,
      b.fr) { if e.k.VKNum? { assert kk[i.bx] == s.k[i.bx]; } }
    ToReg(m, nact, b, s, e, t, f, x, i);
  }

  lemma LabelHere(m: Machine, nact: nat, b: FS, s: FS, e: Exp, t: seq<nat>, f: seq<nat>, x: Expr)
    requires Core(m, nact, b, s, e, t, f, x)
    ensures s.jumps != [] ==> s.lt == |s.code|
  {
  }

  /** The three ways luaK_nil sets a register. */
  lemma NilCases(m: Machine, nact: nat, b: FS, s: FS, e: Exp, t: seq<nat>, f: seq<nat>, x: Expr)
    requires Core(m, nact, b, s, e, t, f, x) && e.k.VNil?
    ensures Core(m, nact, b, NilDone(nact, s, b.fr, 1), Exp(VNonReloc(b.fr), e.t, e.f), t, f, x)
  {
    hide View, Run, IsList, Paired, Targets, Eval, Delivers, Frame, Lists, Emitted, NilsTo;
    if |s.code| > s.lt && |s.code| == 0 {
      NilCleanCore(m, nact, b, s, e, t, f, x);
    } else if |s.code| > s.lt && |s.code| > 0 && s.code[|s.code| - 1].LoadNil? &&
      s.code[|s.code| - 1].a <= b.fr <= s.code[|s.code| - 1].to + 1 {
      NilsCore(m, nact, b, s, e, t, f, x);
    } else {
      forall kk | s.k <= kk ensures Loads(m, kk, View(s), e.k, LoadNil(b.fr, b.fr), b.fr) {}
      ToReg(m, nact, b, s, e, t, f, x, LoadNil(b.fr, b.fr));
    }
  }

  lemma RelocPlace(m: Machine, nact: nat, b: FS, s: FS, e: Exp, t: seq<nat>, f: seq<nat>, x: Expr)
    requires Core(m, nact, b, s, e, t, f, x) && e.k.VReloc?
    ensures e.k.p == |s.code| - 1 && s.code[e.k.p].IsValue() && s.jumps == []
  {
  }

  lemma StillList(code: Code, code': Code, h: int, l: seq<nat>)
    requires IsList(code, h, l) && l == []
    ensures IsList(code', h, l)
  {
  }

  lemma KnownConstant(m: Machine, nact: nat, b: FS, s: FS, e: Exp, t: seq<nat>, f: seq<nat>, x: Expr)
    requires Holds(m, nact, b, s, e, t, f, x)
    ensures e.k.VK? ==> e.k.info < |s.k|
  {
  }

  lemma BaseTemps(m: Machine, nact: nat, b: FS, s: FS, e: Exp, t: seq<nat>, f: seq<nat>, x: Expr)
    requires Holds(m, nact, b, s, e, t, f, x) && !e.k.VNonReloc? && !e.k.VIndexed?
    ensures s.fr == b.fr && nact <= b.fr
  {
    assert Ok(nact, b);
  }

  // ---- facts for exp2reg ----

  lemma NoneHere(code: Code)
    ensures Patch(code, ToHere([], |code|), NO_REG) == code
  {
    assert forall i :: 0 <= i < |code| ==> Patch(code, ToHere([], |code|), NO_REG)[i] == PatchAt(code,
      ToHere([], |code|), NO_REG, i);
  }

  lemma JumpsApart(nact: nat, s: FS)
    requires Ok(nact, s)
    ensures (forall p :: p in s.jumps ==> p !in s.open) && |s.code| !in s.open
    ensures forall p :: p in [|s.code|] + s.jumps <==> p == |s.code| || p in s.jumps
  {
  }

  lemma PastIs(s: FS, reg: nat, s': FS)
    requires var n := |s.code|;
      var link := Jmp(if s.jumps == [] then NO_JUMP else s.jumps[0] as int - (n + 1));
      var c := s.code + [link] + [LoadBool(reg, false, true), LoadBool(reg, true, false)];
      s' == Here(FS(c, [], s.open + {n} + SetOf(s.jumps), n + 2, s.fr, s.k), [n] + s.jumps)
    requires (forall p :: p in s.jumps ==> p !in s.open) && |s.code| !in s.open
    ensures s' == JumpedPast(s, reg)
  {
    var n := |s.code|;
    assert SetOf([n] + s.jumps) == {n} + SetOf(s.jumps);
    assert s'.code == JumpedPast(s, reg).code;
    assert s'.open == s.open;
  }

  lemma PatchedJumps(c0: Code, c: Code, l: seq<nat>, vt: nat, label': nat, reg: nat, h: int, js: seq<nat>)
    requires IsList(c0, h, js) && c == Patch(c0, Dests(c0, l, vt, label'), reg) && forall p :: p in js ==> p !in l
    ensures IsList(c, h, js)
  {
    hide IsList, Dests;
    ListInside(c0, h, js);
    forall p | p in js ensures c[p] == c0[p] { assert c[p] == PatchAt(c0, Dests(c0, l, vt, label'), reg, p); }
    SameList(c0, c, h, js);
  }

  lemma CoreOk(m: Machine, nact: nat, b: FS, s: FS, e: Exp, t: seq<nat>, f: seq<nat>, x: Expr)
    requires Core(m, nact, b, s, e, t, f, x)
    ensures Ok(nact, s)
  {
  }

  lemma CoreLists(m: Machine, nact: nat, b: FS, s: FS, e: Exp, t: seq<nat>, f: seq<nat>, x: Expr)
    requires Core(m, nact, b, s, e, t, f, x)
    ensures IsList(s.code, e.t, t) && IsList(s.code, e.f, f)
    ensures forall p :: p in s.jumps ==> p !in t && p !in f
    ensures forall p :: p in t ==> p !in f
    ensures forall p :: p in t || p in f ==> 0 < p < |s.code| && s.code[p - 1].IsTest() && View(s)[p - 1].IsTest()
    ensures forall p :: p in t || p in f ==> (View(s)[p - 1].TestSet? <==> s.code[p - 1].TestSet?)
    ensures e.k.VJmp? ==> s.jumps == [] && e.k.p < |s.code| && s.code[e.k.p] == Jmp(NO_JUMP) && e.k.p !in t
  {
    hide IsList, Paired, Targets, View, Delivers;
    assert forall p :: p in t || p in f ==> p in s.open;
    forall p | p in t || p in f
      ensures View(s)[p - 1].IsTest() && (View(s)[p - 1].TestSet? <==> s.code[p - 1].TestSet?)
    {
      ViewAt(s, p - 1);
    }
  }

  lemma NoJumps(m: Machine, nact: nat, b: FS, s: FS, e: Exp, t: seq<nat>, f: seq<nat>, x: Expr)
    requires Core(m, nact, b, s, e, t, f, x)
    ensures e.t == e.f <==> t == [] && f == []
    ensures t == [] <==> e.t == NO_JUMP
    ensures f == [] <==> e.f == NO_JUMP
  {
    CoreLists(m, nact, b, s, e, t, f, x);
    if t != [] { assert t[0] in t; }
    if f != [] { assert f[0] in f; }
  }

  /** The two labels, as FinishReg looks for them: after a comparison, ... */
  lemma LabelsThere(m: Machine, nact: nat, b: FS, s: FS, e: Exp, t: seq<nat>, f: seq<nat>, x: Expr)
    requires Core(m, nact, b, s, e, t, f, x) && e.k.VJmp?
    ensures var s', n := Labels(s, t, e.k.p, b.fr), |s.code|;
      |s'.code| == n + 2 && View(s')[n] == LoadBool(b.fr, false, true) && View(s')[n + 1] == LoadBool(b.fr, true, false)
    ensures forall q :: q in t + [e.k.p] || q in f ==> q < |s.code|
  {
    hide View, Linked, Labels, IsList, Paired, Targets, Delivers;
    CoreLists(m, nact, b, s, e, t, f, x);
    ListsOpenToo(m, nact, b, s, e, t, f, x);
    LabelsOk(nact, s, t, e.k.p, b.fr);
  }

  /** ... or after the jump over them. */
  lemma PastThere(m: Machine, nact: nat, b: FS, s: FS, e: Exp, t: seq<nat>, f: seq<nat>, x: Expr)
    requires Core(m, nact, b, s, e, t, f, x) && e.k.VNonReloc? && (t != [] || f != [])
    ensures var s', n := JumpedPast(s, e.k.reg), |s.code|;
      |s'.code| == n + 3 && View(s')[n + 1] == LoadBool(e.k.reg, false, true) &&
        View(s')[n + 2] == LoadBool(e.k.reg, true, false)
    ensures forall q :: q in t || q in f ==> q < |s.code|
  {
    hide View, IsList, Paired, Targets, Delivers;
    CoreLists(m, nact, b, s, e, t, f, x);
    if t != [] { assert t[0] in t; } else { assert f[0] in f; }
    PastAt(nact, s, e.k.reg);
  }

  /** Marking a label changes nothing but lasttarget. */
  lemma LabelHereToo(m: Machine, nact: nat, b: FS, s: FS, e: Exp, t: seq<nat>, f: seq<nat>, x: Expr)
    requires Core(m, nact, b, s, e, t, f, x) && e.k.VNonReloc?
    ensures Core(m, nact, b, s.(lt := |s.code|), e, t, f, x) && View(s.(lt := |s.code|)) == View(s)
  {
    hide Run, IsList, Paired, Eval, Patch;
    var s' := s.(lt := |s.code|);
    assert View(s') == View(s);
    forall kk, c, r0 | s'.k <= kk && Start(nact, b, c, r0) ensures DeliversAt(m, b, s', e.k, t, f, x, kk, c, r0)
    {
      assert DeliversAt(m, b, s, e.k, t, f, x, kk, c, r0);
    }
  }

  lemma LabelsFit(m: Machine, nact: nat, b: FS, s: FS, e: Exp, t: seq<nat>, f: seq<nat>, x: Expr, reg: nat, pf: int,
    pt: int)
    requires Core(m, nact, b, s, e, t, f, x)
    requires
      || (forall p :: p in t || p in f ==> p > 0 && p <= |s.code| && s.code[p - 1].TestSet?)
      || (|s.code| >= 2 && pf == |s.code| - 2 && pt == |s.code| - 1 && View(s)[pf] == LoadBool(reg, false, true) &&
        View(s)[pt] == LoadBool(reg, true, false)
          && forall p :: p in t || p in f ==> p < pf)
    ensures LabelOk(View(s), f, if pf >= 0 then pf else 0, reg, false) &&
      LabelOk(View(s), t, if pt >= 0 then pt else 0, reg, true)
    ensures (pf == if pf >= 0 then pf else 0) || forall p :: p in f ==> p > 0 && s.code[p - 1].TestSet?
    ensures (pt == if pt >= 0 then pt else 0) || forall p :: p in t ==> p > 0 && s.code[p - 1].TestSet?
  {
    hide View;
    CoreLists(m, nact, b, s, e, t, f, x);
  }

  /** Patching the false list leaves what the true list needs. */
  lemma LabelStill(m: Machine, nact: nat, b: FS, s: FS, e: Exp, t: seq<nat>, f: seq<nat>, x: Expr, lf: nat, lt: nat,
    reg: nat)
    requires Core(m, nact, b, s, e, t, f, x) && LabelOk(View(s), t, lt, reg, true)
    ensures var s' := PatchedList(s, f, lf, reg);
      && |s'.code| == |s.code| && s'.lt == |s'.code| && s'.jumps == s.jumps && LabelOk(View(s'), t, lt, reg, true)
      && (forall p :: p in t ==> 0 < p < |s.code| && (s'.code[p - 1].TestSet? <==> s.code[p - 1].TestSet?))
  {
    hide View, Patch, Dests, IsList;
    CoreLists(m, nact, b, s, e, t, f, x);
    CoreOk(m, nact, b, s, e, t, f, x);
    ListsOpenToo(m, nact, b, s, e, t, f, x);
    var s', d := PatchedList(s, f, lf, reg), Dests(s.code, f, |s.code|, lf);
    PatchedView(nact, s, f, lf, reg);
    forall p | p in t
      ensures View(s')[p - 1] == View(s)[p - 1] && (s'.code[p - 1].TestSet? <==> s.code[p - 1].TestSet?)
    {
      TestKept(s.code, s'.code, View(s), View(s'), f, d, reg, p);
    }
    if lt < |s.code| { LabelKept(View(s), View(s'), d, reg, lt); }
  }

  lemma ListsOpenToo(m: Machine, nact: nat, b: FS, s: FS, e: Exp, t: seq<nat>, f: seq<nat>, x: Expr)
    requires Core(m, nact, b, s, e, t, f, x)
    ensures forall p :: p in t || p in f ==> p in s.open
  {
  }

  lemma TestKept(c: Code, c': Code, v: Code, v': Code, f: seq<nat>, d: map<nat, nat>, reg: nat, p: nat)
    requires 0 < p < |c| == |c'| == |v| == |v'| && c[p - 1].IsTest() && v[p - 1].IsTest() && p !in f &&
      d.Keys == SetOf(f)
    requires c' == Patch(c, d, reg) && PatchedTo(v, |v|, v', d, reg)
    ensures v'[p - 1] == v[p - 1] && c'[p - 1] == c[p - 1]
  {
    assert c'[p - 1] == PatchAt(c, d, reg, p - 1);
    assert v'[p - 1] == PatchAt(v, d, reg, p - 1);
  }

  lemma LabelKept(v: Code, v': Code, d: map<nat, nat>, reg: nat, i: nat)
    requires PatchedTo(v, |v|, v', d, reg) && i < |v|
    ensures v[i].LoadBool? ==> v'[i] == v[i]
  {
    assert v'[i] == PatchAt(v, d, reg, i);
  }
}
