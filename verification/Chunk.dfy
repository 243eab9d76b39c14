/** The format of precompiled chunks: how a function prototype is written as bytes, and read back. */
module Chunk {
  import opened Common

  // ---- prototypes ----

  /** A string the program may not have: NULL in the source. */
  type Name = Option<seq<Byte>>

  /** Numbers are kept as the bytes of their representation. */
  datatype Const = Nil | Bool(b: int) | Number(bytes: seq<Byte>) | Str(s: Name)

  datatype LocVar = LocVar(varname: Name, startpc: int, endpc: int)

  datatype Proto = Proto(
    source: Name, linedefined: int, lastlinedefined: int,
    nups: Byte, numparams: Byte, isVararg: Byte, maxstacksize: Byte,
    code: seq<int>, k: seq<Const>, p: seq<Proto>,
    lineinfo: seq<int>, locvars: seq<LocVar>, upvalues: seq<Name>)

  // ---- numbers as bytes, the lowest one first ----

  const INT := 4
  const SIZE := 8
  const NUMBER := 8
  const WORD := 0x1_0000_0000
  const INTMAX := 0x7FFF_FFFF

  function LE(x: nat, w: nat): (r: seq<Byte>)
    ensures |r| == w
  {
    if w == 0 then [] else [x % 256] + LE(x / 256, w - 1)
  }

  function Value(bs: seq<Byte>): nat { if bs == [] then 0 else bs[0] + 256 * Value(bs[1..]) }

  function Pow256(w: nat): nat { if w == 0 then 1 else 256 * Pow256(w - 1) }

  lemma {:induction false} ValueLE(x: nat, w: nat)
    requires x < Pow256(w)
    ensures Value(LE(x, w)) == x
    decreases w
  {
    if w > 0 { ValueLE(x / 256, w - 1); }
  }

  lemma Widths()
    ensures Pow256(4) == WORD && Pow256(8) == WORD * WORD
  {
    assert Pow256(1) == 256 && Pow256(2) == 0x1_0000 && Pow256(3) == 0x100_0000 && Pow256(4) == WORD;
    assert Pow256(5) == 256 * WORD && Pow256(6) == 0x1_0000 * WORD && Pow256(7) == 0x100_0000 * WORD;
  }

  /** An int or an instruction, as it lies in memory. */
  function Word(x: int): (r: seq<Byte>)
    ensures |r| == INT
  {
    LE(x % WORD, INT)
  }

  function Signed(v: nat): int { if v > INTMAX then v - WORD else v }

  predicate IntOk(x: int) { -INTMAX - 1 <= x <= INTMAX }

  lemma ValueWord(x: int)
    ensures Value(Word(x)) == x % WORD && (IntOk(x) ==> Signed(x % WORD) == x)
  {
    Widths();
    ValueLE(x % WORD, INT);
  }

  function SignedChar(c: Byte): int { if c > 127 then c - 256 else c }

  // ---- writing ----

  /** A size_t that counts the trailing NUL, then the text with it; 0 for no string at all. */
  function EncString(s: Name): seq<Byte> {
    match s
    case None => LE(0, SIZE)
    case Some(t) => LE(|t| + 1, SIZE) + t + [0]
  }

  function EncWords(s: seq<int>): (r: seq<Byte>)
    ensures |r| == INT * |s|
  {
    if s == [] then [] else Word(s[0]) + EncWords(s[1..])
  }

  function EncConst(c: Const): seq<Byte> {
    match c
    case Nil => [0]
    case Bool(b) => [1, b % 256]
    case Number(bytes) => [3] + bytes
    case Str(s) => [4] + EncString(s)
  }

  function EncConstList(s: seq<Const>): seq<Byte> { if s == [] then [] else EncConst(s[0]) + EncConstList(s[1..]) }

  function EncLocVar(v: LocVar): seq<Byte> { EncString(v.varname) + Word(v.startpc) + Word(v.endpc) }

  function EncLocVars(s: seq<LocVar>): seq<Byte> { if s == [] then [] else EncLocVar(s[0]) + EncLocVars(s[1..]) }

  function EncNames(s: seq<Name>): seq<Byte> { if s == [] then [] else EncString(s[0]) + EncNames(s[1..]) }

  /** The source is left out when it is the one of the enclosing function, or unwanted. */
  function SourceOf(f: Proto, parent: Name, strip: bool): Name { if f.source == parent || strip then None
    else f.source }

  function EncHead(f: Proto, parent: Name, strip: bool): seq<Byte> {
    EncString(SourceOf(f, parent, strip)) + Word(f.linedefined) + Word(f.lastlinedefined) +
    [f.nups, f.numparams, f.isVararg, f.maxstacksize]
  }

  function EncCode(f: Proto): seq<Byte> { Word(|f.code|) + EncWords(f.code) }

  function EncConsts(f: Proto): seq<Byte> { Word(|f.k|) + EncConstList(f.k) }

  /** What strip takes away. */
  function Stripped(f: Proto, strip: bool): Proto { if strip then f.(lineinfo := [], locvars := [], upvalues := [])
    else f }

  function EncDebug(f: Proto): seq<Byte> {
    Word(|f.lineinfo|) + EncWords(f.lineinfo) + (Word(|f.locvars|) + EncLocVars(f.locvars)) +
    (Word(|f.upvalues|) + EncNames(f.upvalues))
  }

  function EncFunction(f: Proto, parent: Name, strip: bool): seq<Byte>
    decreases f, |f.p| + 1
  {
    EncHead(f, parent, strip) + EncCode(f) + EncConsts(f) + (Word(|f.p|) + EncNested(f, 0,
      strip)) + EncDebug(Stripped(f, strip))
  }

  /** The functions inside f, from number i on. */
  function EncNested(f: Proto, i: nat, strip: bool): seq<Byte>
    requires i <= |f.p|
    decreases f, |f.p| - i
  {
    if i == |f.p| then [] else EncFunction(f.p[i], f.source, strip) + EncNested(f, i + 1, strip)
  }

  /** luaU_header, on a little-endian machine with a 64-bit size_t. */
  function Header(): (r: seq<Byte>)
    ensures |r| == 12
  {
    [27, 'L' as int, 'u' as int, 'a' as int, 0x51, 0, 1, INT, SIZE, 4, NUMBER, 0]
  }

  function Dumped(f: Proto, strip: bool): seq<Byte> { Header() + EncFunction(f, None, strip) }

  // ---- reading ----

  datatype Parsed<+T> = Ok(value: T, rest: seq<Byte>) | Err(msg: string)
  {
    predicate IsFailure() { Err? }
    function PropagateFailure<U>(): Parsed<U>
      requires Err?
    {
      Err(msg)
    }
    function Extract(): (T, seq<Byte>)
      requires Ok?
    {
      (value, rest)
    }
  }

  function ParseBlock(bs: seq<Byte>, n: nat): (r: Parsed<seq<Byte>>)
    ensures r.Ok? ==> |r.rest| == |bs| - n
  {
    if |bs| < n then Err("unexpected end") else Ok(bs[..n], bs[n..])
  }

  function ParseChar(bs: seq<Byte>): (r: Parsed<int>)
    ensures r.Ok? ==> |r.rest| < |bs|
  {
    var b :- ParseBlock(bs, 1);
    Ok(SignedChar(b.0[0]), b.1)
  }

  function ParseInt(bs: seq<Byte>): (r: Parsed<int>)
    ensures r.Ok? ==> |r.rest| < |bs| && 0 <= r.value
  {
    var b :- ParseBlock(bs, INT);
    var x := Signed(Value(b.0));
    if x < 0 then Err("bad integer") else Ok(x, b.1)
  }

  function ParseString(bs: seq<Byte>): (r: Parsed<Name>)
    ensures r.Ok? ==> |r.rest| < |bs|
  {
    var n :- ParseBlock(bs, SIZE);
    if Value(n.0) == 0 then Ok(None, n.1)
    else
      var t :- ParseBlock(n.1, Value(n.0));
      Ok(Some(t.0[..|t.0| - 1]), t.1)
  }

  function DecWords(bs: seq<Byte>): seq<nat>
    requires |bs| % INT == 0
  {
    if bs == [] then [] else [Value(bs[..INT])] + DecWords(bs[INT..])
  }

  function SignedAll(s: seq<nat>): seq<int> { if s == [] then [] else [Signed(s[0])] + SignedAll(s[1..]) }

  function ParseHead(bs: seq<Byte>, inherited: Name): (r: Parsed<Proto>)
    ensures r.Ok? ==> |r.rest| < |bs|
  {
    var s :- ParseString(bs);
    var first :- ParseInt(s.1);
    var last :- ParseInt(first.1);
    var b :- ParseBlock(last.1, 4);
    Ok(Proto(if s.0 == None then inherited else s.0, first.0, last.0, b.0[0], b.0[1], b.0[2], b.0[3], [], [], [], [],
      [], []), b.1)
  }

  function ParseCode(bs: seq<Byte>, f: Proto): (r: Parsed<Proto>)
    ensures r.Ok? ==> |r.rest| < |bs|
  {
    var n :- ParseInt(bs);
    var c :- ParseBlock(n.1, INT * n.0);
    Ok(f.(code := DecWords(c.0)), c.1)
  }

  function ParseConst(bs: seq<Byte>): (r: Parsed<Const>)
    ensures r.Ok? ==> |r.rest| < |bs|
  {
    var t :- ParseChar(bs);
    if t.0 == 0 then Ok(Nil, t.1)
    else if t.0 == 1 then
      var b :- ParseChar(t.1);
      Ok(Bool(b.0), b.1)
    else if t.0 == 3 then
      var n :- ParseBlock(t.1, NUMBER);
      Ok(Number(n.0), n.1)
    else if t.0 == 4 then
      var s :- ParseString(t.1);
      Ok(Str(s.0), s.1)
    else Err("bad constant")
  }

  function ParseConstList(bs: seq<Byte>, n: nat): (r: Parsed<seq<Const>>)
    ensures r.Ok? ==> |r.rest| <= |bs|
    decreases n
  {
    if n == 0 then Ok([], bs)
    else
      var c :- ParseConst(bs);
      var more :- ParseConstList(c.1, n - 1);
      Ok([c.0] + more.0, more.1)
  }

  function ParseConsts(bs: seq<Byte>, f: Proto): (r: Parsed<Proto>)
    ensures r.Ok? ==> |r.rest| < |bs|
  {
    var n :- ParseInt(bs);
    var k :- ParseConstList(n.1, n.0);
    Ok(f.(k := k.0), k.1)
  }

  function ParseLocVar(bs: seq<Byte>): (r: Parsed<LocVar>)
    ensures r.Ok? ==> |r.rest| < |bs|
  {
    var s :- ParseString(bs);
    var a :- ParseInt(s.1);
    var b :- ParseInt(a.1);
    Ok(LocVar(s.0, a.0, b.0), b.1)
  }

  function ParseLocVars(bs: seq<Byte>, n: nat): (r: Parsed<seq<LocVar>>)
    ensures r.Ok? ==> |r.rest| <= |bs|
    decreases n
  {
    if n == 0 then Ok([], bs)
    else
      var v :- ParseLocVar(bs);
      var more :- ParseLocVars(v.1, n - 1);
      Ok([v.0] + more.0, more.1)
  }

  function ParseNames(bs: seq<Byte>, n: nat): (r: Parsed<seq<Name>>)
    ensures r.Ok? ==> |r.rest| <= |bs|
    decreases n
  {
    if n == 0 then Ok([], bs)
    else
      var s :- ParseString(bs);
      var more :- ParseNames(s.1, n - 1);
      Ok([s.0] + more.0, more.1)
  }

  function ParseLines(bs: seq<Byte>): (r: Parsed<seq<int>>)
    ensures r.Ok? ==> |r.rest| < |bs|
  {
    var n :- ParseInt(bs);
    var c :- ParseBlock(n.1, INT * n.0);
    Ok(SignedAll(DecWords(c.0)), c.1)
  }

  function ParseDebug(bs: seq<Byte>, f: Proto): (r: Parsed<Proto>)
    ensures r.Ok? ==> |r.rest| < |bs|
  {
    var lines :- ParseLines(bs);
    var n :- ParseInt(lines.1);
    var vars :- ParseLocVars(n.1, n.0);
    var m :- ParseInt(vars.1);
    var ups :- ParseNames(m.1, m.0);
    Ok(f.(lineinfo := lines.0, locvars := vars.0, upvalues := ups.0), ups.1)
  }

  /** A function and what follows; check is the verifier of the code, not part of this model. */
  function ParseFunction(check: Proto -> bool, bs: seq<Byte>, inherited: Name): (r: Parsed<Proto>)
    ensures r.Ok? ==> |r.rest| < |bs|
    decreases |bs|, 0, 0
  {
    var h :- ParseHead(bs, inherited);
    var c :- ParseCode(h.1, h.0);
    var k :- ParseConsts(c.1, c.0);
    var n :- ParseInt(k.1);
    var p :- ParseNested(check, n.1, n.0, k.0.source);
    var d :- ParseDebug(p.1, k.0.(p := p.0));
    if check(d.0) then Ok(d.0, d.1) else Err("bad code")
  }

  function ParseNested(check: Proto -> bool, bs: seq<Byte>, n: nat, source: Name): (r: Parsed<seq<Proto>>)
    ensures r.Ok? ==> |r.rest| <= |bs|
    decreases |bs|, 1, n
  {
    if n == 0 then Ok([], bs)
    else
      var f :- ParseFunction(check, bs, source);
      var more :- ParseNested(check, f.1, n - 1, source);
      Ok([f.0] + more.0, more.1)
  }

  const NOSOURCE: Name := Some(['=' as int, '?' as int])

  /** luaU_undump, on the bytes of the stream. */
  function ParseChunk(check: Proto -> bool, bs: seq<Byte>): Parsed<Proto> {
    var h :- ParseBlock(bs, 12);
    if h.0 != Header() then Err("bad header") else ParseFunction(check, h.1, NOSOURCE)
  }
}
