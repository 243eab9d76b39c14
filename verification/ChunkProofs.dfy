/** Reading what was written gives the prototype back. */
module ChunkProofs {
  import opened Common
  import opened Chunk

  // ---- prototypes that fit the format ----

  predicate NatOk(x: int) { 0 <= x <= INTMAX }

  predicate StrOk(s: Name) { s.Some? ==> |s.value| + 1 < WORD * WORD }

  predicate ConstOk(c: Const) {
    match c
    case Nil => true
    case Bool(b) => -128 <= b <= 127
    case Number(bytes) => |bytes| == NUMBER
    case Str(s) => StrOk(s)
  }

  predicate LocVarOk(v: LocVar) { StrOk(v.varname) && NatOk(v.startpc) && NatOk(v.endpc) }

  /** The fields fit the types they have in the source, and what is read as a count or a line is not negative. */
  ghost predicate FieldsOk(f: Proto) {
    StrOk(f.source) && NatOk(f.linedefined) && NatOk(f.lastlinedefined) &&
    NatOk(|f.code|) && NatOk(|f.k|) && NatOk(|f.p|) && NatOk(|f.lineinfo|) && NatOk(|f.locvars|) &&
      NatOk(|f.upvalues|) &&
    (forall c :: c in f.code ==> 0 <= c < WORD) && (forall x :: x in f.lineinfo ==> IntOk(x)) &&
    (forall c :: c in f.k ==> ConstOk(c)) && (forall v :: v in f.locvars ==> LocVarOk(v)) &&
      forall s :: s in f.upvalues ==> StrOk(s)
  }

  ghost predicate Fits(f: Proto)
    decreases f
  {
    FieldsOk(f) && forall i :: 0 <= i < |f.p| ==> Fits(f.p[i])
  }

  // ---- what comes back ----

  /**
   * The prototype that loading gives. parent is the source of the enclosing function, and inherited the one
   * that it was loaded with: a function without a source of its own, or with its parent's, takes that.
   */
  function Loaded(f: Proto, parent: Name, inherited: Name, strip: bool): Proto
    decreases f, |f.p| + 1
  {
    var source := LoadedSource(f, parent, inherited, strip);
    Stripped(f, strip).(source := source, p := LoadedNested(f, 0, source, strip))
  }

  function LoadedSource(f: Proto, parent: Name, inherited: Name, strip: bool): Name {
    if SourceOf(f, parent, strip) == None then inherited else f.source
  }

  function LoadedNested(f: Proto, i: nat, source: Name, strip: bool): seq<Proto>
    requires i <= |f.p|
    decreases f, |f.p| - i
  {
    if i == |f.p| then [] else [Loaded(f.p[i], f.source, source, strip)] + LoadedNested(f, i + 1, source, strip)
  }

  /** The verifier of the code accepts all the functions that are loaded. */
  ghost predicate Accepted(check: Proto -> bool, f: Proto)
    decreases f
  {
    check(f) && forall i :: 0 <= i < |f.p| ==> Accepted(check, f.p[i])
  }

  // ---- round trips of the pieces ----

  lemma BlockBack(b: seq<Byte>, rest: seq<Byte>)
    ensures ParseBlock(b + rest, |b|) == Ok(b, rest)
  {
    assert (b + rest)[..|b|] == b && (b + rest)[|b|..] == rest;
  }

  lemma IntBack(x: int, rest: seq<Byte>)
    requires NatOk(x)
    ensures ParseInt(Word(x) + rest) == Ok(x, rest)
  {
    BlockBack(Word(x), rest);
    ValueWord(x);
  }

  lemma CharBack(x: int, rest: seq<Byte>)
    requires -128 <= x <= 127
    ensures ParseChar([x % 256] + rest) == Ok(x, rest)
  {
    BlockBack([x % 256], rest);
  }

  lemma StringBack(s: Name, rest: seq<Byte>)
    requires StrOk(s)
    ensures ParseString(EncString(s) + rest) == Ok(s, rest)
  {
    Widths();
    match s
    case None =>
      BlockBack(LE(0, SIZE), rest);
      ValueLE(0, SIZE);
    case Some(t) =>
      assert EncString(s) + rest == LE(|t| + 1, SIZE) + ((t + [0]) + rest);
      BlockBack(LE(|t| + 1, SIZE), (t + [0]) + rest);
      ValueLE(|t| + 1, SIZE);
      BlockBack(t + [0], rest);
      assert (t + [0])[..|t|] == t;
  }

  lemma {:induction false} WordsBack(s: seq<int>)
    ensures |DecWords(EncWords(s))| == |s| && forall i :: 0 <= i < |s| ==> DecWords(EncWords(s))[i] == s[i] % WORD
  {
    if s != [] {
      var bs := EncWords(s);
      assert bs[..INT] == Word(s[0]) && bs[INT..] == EncWords(s[1..]);
      ValueWord(s[0]);
      WordsBack(s[1..]);
    }
  }

  lemma {:induction false} SignedBack(v: seq<nat>, s: seq<int>)
    requires |v| == |s| && forall i :: 0 <= i < |s| ==> IntOk(s[i]) && v[i] == s[i] % WORD
    ensures SignedAll(v) == s
  {
    if s != [] {
      ValueWord(s[0]);
      SignedBack(v[1..], s[1..]);
    }
  }

  lemma ConstBack(c: Const, rest: seq<Byte>)
    requires ConstOk(c)
    ensures ParseConst(EncConst(c) + rest) == Ok(c, rest)
  {
    hide ParseChar, ParseBlock, ParseString, EncString;
    match c
    case Nil => CharBack(0, rest);
    case Bool(b) =>
      assert EncConst(c) + rest == [1 % 256] + ([b % 256] + rest);
      CharBack(1, [b % 256] + rest);
      CharBack(b, rest);
    case Number(bytes) =>
      assert EncConst(c) + rest == [3 % 256] + (bytes + rest);
      CharBack(3, bytes + rest);
      BlockBack(bytes, rest);
    case Str(s) =>
      assert EncConst(c) + rest == [4 % 256] + (EncString(s) + rest);
      CharBack(4, EncString(s) + rest);
      StringBack(s, rest);
  }

  lemma {:induction false} ConstListBack(s: seq<Const>, rest: seq<Byte>)
    requires forall c :: c in s ==> ConstOk(c)
    ensures ParseConstList(EncConstList(s) + rest, |s|) == Ok(s, rest)
  {
    hide EncConst, ParseConst, ConstOk;
    if s != [] {
      assert s == [s[0]] + s[1..];
      assert EncConstList(s) + rest == EncConst(s[0]) + (EncConstList(s[1..]) + rest);
      ConstBack(s[0], EncConstList(s[1..]) + rest);
      ConstListBack(s[1..], rest);
    } else {
      assert EncConstList(s) + rest == rest;
    }
  }

  lemma LocVarBack(v: LocVar, rest: seq<Byte>)
    requires LocVarOk(v)
    ensures ParseLocVar(EncLocVar(v) + rest) == Ok(v, rest)
  {
    assert EncLocVar(v) + rest == EncString(v.varname) + (Word(v.startpc) + (Word(v.endpc) + rest));
    StringBack(v.varname, Word(v.startpc) + (Word(v.endpc) + rest));
    IntBack(v.startpc, Word(v.endpc) + rest);
    IntBack(v.endpc, rest);
  }

  lemma {:induction false} LocVarsBack(s: seq<LocVar>, rest: seq<Byte>)
    requires forall v :: v in s ==> LocVarOk(v)
    ensures ParseLocVars(EncLocVars(s) + rest, |s|) == Ok(s, rest)
  {
    hide EncLocVar, ParseLocVar, LocVarOk;
    if s != [] {
      assert s == [s[0]] + s[1..];
      assert EncLocVars(s) + rest == EncLocVar(s[0]) + (EncLocVars(s[1..]) + rest);
      LocVarBack(s[0], EncLocVars(s[1..]) + rest);
      LocVarsBack(s[1..], rest);
    } else {
      assert EncLocVars(s) + rest == rest;
    }
  }

  lemma {:induction false} NamesBack(s: seq<Name>, rest: seq<Byte>)
    requires forall v :: v in s ==> StrOk(v)
    ensures ParseNames(EncNames(s) + rest, |s|) == Ok(s, rest)
  {
    hide EncString, ParseString, StrOk;
    if s != [] {
      assert s == [s[0]] + s[1..];
      assert EncNames(s) + rest == EncString(s[0]) + (EncNames(s[1..]) + rest);
      StringBack(s[0], EncNames(s[1..]) + rest);
      NamesBack(s[1..], rest);
    } else {
      assert EncNames(s) + rest == rest;
    }
  }

  // ---- round trips of the parts of a function ----

  lemma HeadBack(f: Proto, parent: Name, inherited: Name, strip: bool, rest: seq<Byte>)
    requires FieldsOk(f)
    ensures ParseHead(EncHead(f, parent, strip) + rest,
      inherited) == Ok(Proto(LoadedSource(f, parent, inherited, strip), f.linedefined, f.lastlinedefined, f.nups,
      f.numparams, f.isVararg, f.maxstacksize, [], [], [], [], [], []), rest)
  {
    hide EncString, Word;
    var s := SourceOf(f, parent, strip);
    var four := [f.nups, f.numparams, f.isVararg, f.maxstacksize];
    assert EncHead(f, parent,
      strip) + rest == EncString(s) + (Word(f.linedefined) + (Word(f.lastlinedefined) + (four + rest)));
    StringBack(s, Word(f.linedefined) + (Word(f.lastlinedefined) + (four + rest)));
    IntBack(f.linedefined, Word(f.lastlinedefined) + (four + rest));
    IntBack(f.lastlinedefined, four + rest);
    BlockBack(four, rest);
  }

  lemma CodeBack(f: Proto, g: Proto, rest: seq<Byte>)
    requires FieldsOk(f)
    ensures ParseCode(EncCode(f) + rest, g) == Ok(g.(code := f.code), rest)
  {
    hide Word, EncWords, DecWords, ParseInt, ConstOk, StrOk, LocVarOk;
    assert EncCode(f) + rest == Word(|f.code|) + (EncWords(f.code) + rest);
    IntBack(|f.code|, EncWords(f.code) + rest);
    BlockBack(EncWords(f.code), rest);
    WordsBack(f.code);
    forall i | 0 <= i < |f.code| ensures f.code[i] % WORD == f.code[i] { assert f.code[i] in f.code; }
    assert DecWords(EncWords(f.code)) == f.code;
  }

  lemma ConstsBack(f: Proto, g: Proto, rest: seq<Byte>)
    requires FieldsOk(f)
    ensures ParseConsts(EncConsts(f) + rest, g) == Ok(g.(k := f.k), rest)
  {
    hide Word, EncConstList, ParseInt, ParseConstList, ConstOk, StrOk, LocVarOk;
    assert EncConsts(f) + rest == Word(|f.k|) + (EncConstList(f.k) + rest);
    IntBack(|f.k|, EncConstList(f.k) + rest);
    ConstListBack(f.k, rest);
  }

  lemma LinesWords(lines: seq<int>)
    requires forall x :: x in lines ==> IntOk(x)
    ensures SignedAll(DecWords(EncWords(lines))) == lines
  {
    hide Word, EncWords, DecWords, SignedAll, Signed;
    WordsBack(lines);
    forall i | 0 <= i < |lines| ensures IntOk(lines[i]) { assert lines[i] in lines; }
    SignedBack(DecWords(EncWords(lines)), lines);
  }

  lemma LinesBack(lines: seq<int>, rest: seq<Byte>)
    requires NatOk(|lines|) && forall x :: x in lines ==> IntOk(x)
    ensures ParseLines(Word(|lines|) + EncWords(lines) + rest) == Ok(lines, rest)
  {
    hide Word, EncWords, DecWords, SignedAll, Signed, ParseInt;
    var w := EncWords(lines);
    assert Word(|lines|) + w + rest == Word(|lines|) + (w + rest);
    IntBack(|lines|, w + rest);
    BlockBack(w, rest);
    LinesWords(lines);
  }

  lemma DebugBack(f: Proto, g: Proto, rest: seq<Byte>)
    requires FieldsOk(f)
    ensures ParseDebug(EncDebug(f) + rest, g) == Ok(g.(lineinfo := f.lineinfo, locvars := f.locvars,
      upvalues := f.upvalues), rest)
  {
    hide Word, EncWords, EncLocVars, EncNames;
    var a, b, c, d := Word(|f.locvars|), EncLocVars(f.locvars), Word(|f.upvalues|), EncNames(f.upvalues);
    assert EncDebug(f) + rest == Word(|f.lineinfo|) + EncWords(f.lineinfo) + (a + (b + (c + (d + rest))));
    LinesBack(f.lineinfo, a + (b + (c + (d + rest))));
    IntBack(|f.locvars|, b + (c + (d + rest)));
    LocVarsBack(f.locvars, c + (d + rest));
    IntBack(|f.upvalues|, d + rest);
    NamesBack(f.upvalues, rest);
  }

  lemma StrippedOk(f: Proto, strip: bool)
    requires FieldsOk(f)
    ensures FieldsOk(Stripped(f, strip))
  {
  }

  // ---- round trip of a function ----

  /** The parts before the nested functions. */
  lemma FrontBack(f: Proto, parent: Name, inherited: Name, strip: bool, rest: seq<Byte>) returns (g: Proto)
    requires FieldsOk(f)
    ensures g == Proto(LoadedSource(f, parent, inherited, strip), f.linedefined, f.lastlinedefined, f.nups,
      f.numparams, f.isVararg, f.maxstacksize, f.code, f.k, [], [], [], [])
    ensures
      var bs := EncHead(f, parent, strip) + EncCode(f) + EncConsts(f) + rest;
      var h := ParseHead(bs, inherited);
      h.Ok? && ParseCode(h.rest, h.value).Ok? && var c := ParseCode(h.rest, h.value); ParseConsts(c.rest, c.value) == Ok(g, rest)
  {
    hide EncHead, EncCode, EncConsts, ParseHead, ParseCode, ParseConsts, FieldsOk, LoadedSource;
    g := Proto(LoadedSource(f, parent, inherited, strip), f.linedefined, f.lastlinedefined, f.nups, f.numparams,
      f.isVararg, f.maxstacksize, [], [], [], [], [], []);
    assert EncHead(f, parent, strip) + EncCode(f) + EncConsts(f) + rest == EncHead(f, parent,
      strip) + (EncCode(f) + (EncConsts(f) + rest));
    HeadBack(f, parent, inherited, strip, EncCode(f) + (EncConsts(f) + rest));
    CodeBack(f, g, EncConsts(f) + rest);
    g := g.(code := f.code);
    ConstsBack(f, g, rest);
    g := g.(k := f.k);
  }

  /** The nested functions, from number i on. */
  lemma {:induction false} NestedBack(check: Proto -> bool, f: Proto, i: nat, source: Name, strip: bool,
    rest: seq<Byte>)
    requires i <= |f.p| && Fits(f) && forall j :: i <= j < |f.p| ==>
      Accepted(check, Loaded(f.p[j], f.source, source, strip))
    ensures ParseNested(check, EncNested(f, i, strip) + rest, |f.p| - i,
      source) == Ok(LoadedNested(f, i, source, strip), rest)
    decreases f, |f.p| - i
  {
    hide FieldsOk, EncFunction, ParseFunction, Loaded, Accepted;
    if i == |f.p| {
      assert EncNested(f, i, strip) + rest == rest;
    } else {
      var more := EncNested(f, i + 1, strip) + rest;
      assert EncNested(f, i, strip) + rest == EncFunction(f.p[i], f.source, strip) + more;
      FunctionBack(check, f.p[i], f.source, source, strip, more);
      NestedBack(check, f, i + 1, source, strip, rest);
    }
  }

  lemma LoadedAt(f: Proto, i: nat, source: Name, strip: bool, j: nat)
    requires i <= j < |f.p|
    ensures |LoadedNested(f, i, source, strip)| == |f.p| - i
    ensures LoadedNested(f, i, source, strip)[j - i] == Loaded(f.p[j], f.source, source, strip)
    decreases j - i
  {
    if i < j { LoadedAt(f, i + 1, source, strip, j); }
    else { LoadedLength(f, i + 1, source, strip); }
  }

  lemma {:induction false} LoadedLength(f: Proto, i: nat, source: Name, strip: bool)
    requires i <= |f.p|
    ensures |LoadedNested(f, i, source, strip)| == |f.p| - i
    decreases |f.p| - i
  {
    if i < |f.p| { LoadedLength(f, i + 1, source, strip); }
  }

  /** Loading what was written for a function gives its loaded form, and stops where the writing stopped. */
  lemma {:induction false} FunctionBack(check: Proto -> bool, f: Proto, parent: Name, inherited: Name, strip: bool,
    rest: seq<Byte>)
    requires Fits(f) && Accepted(check, Loaded(f, parent, inherited, strip))
    ensures ParseFunction(check, EncFunction(f, parent, strip) + rest,
      inherited) == Ok(Loaded(f, parent, inherited, strip), rest)
    decreases f, |f.p| + 1
  {
    hide FieldsOk, EncHead, EncCode, EncConsts, EncDebug, ParseHead, ParseCode, ParseConsts, ParseDebug, ParseInt,
      Word, EncNested, ParseNested, LoadedNested;
    var source := LoadedSource(f, parent, inherited, strip);
    var nested, debug := EncNested(f, 0, strip), EncDebug(Stripped(f, strip));
    var tail := Word(|f.p|) + (nested + (debug + rest));
    assert EncFunction(f, parent, strip) + rest == EncHead(f, parent, strip) + EncCode(f) + EncConsts(f) + tail;
    var g := FrontBack(f, parent, inherited, strip, tail);
    assert NatOk(|f.p|) by { CountOk(f); }
    IntBack(|f.p|, nested + (debug + rest));
    forall j | 0 <= j < |f.p| ensures Accepted(check, Loaded(f.p[j], f.source, source, strip)) {
      LoadedAt(f, 0, source, strip, j);
      assert Loaded(f, parent, inherited, strip).p[j] == Loaded(f.p[j], f.source, source, strip);
    }
    NestedBack(check, f, 0, source, strip, debug + rest);
    g := g.(p := LoadedNested(f, 0, source, strip));
    StrippedOk(f, strip);
    DebugBack(Stripped(f, strip), g, rest);
  }

  lemma CountOk(f: Proto)
    requires FieldsOk(f)
    ensures NatOk(|f.p|)
  {
  }

  // ---- the bytes one by one ----

  /** Little-endian: the lowest byte first. */
  lemma WordBytes(a: Byte, b: Byte, c: Byte, d: Byte)
    ensures Word(a as int + 0x100 * b as int + 0x1_0000 * c as int + 0x100_0000 * d as int) == [a, b, c, d]
  {
    hide LE;
    var z: nat := c as int + 256 * d as int;
    var y: nat := b as int + 256 * z;
    var x: nat := a as int + 256 * y;
    assert x == a as int + 0x100 * b as int + 0x1_0000 * c as int + 0x100_0000 * d as int;
    assert z < 0x1_0000 && y < 0x100_0000 && x < WORD;
    Within(x);
    LEStep(a, y, 3);
    LEStep(b, z, 2);
    LEStep(c, d, 1);
    LEStep(d, 0, 0);
    LENone(0);
  }

  lemma Within(x: nat)
    requires x < WORD
    ensures x % WORD == x
  {
  }

  lemma LENone(x: nat)
    ensures LE(x, 0) == []
  {
  }

  lemma LEStep(a: Byte, x: nat, w: nat)
    ensures LE(a + 256 * x, w + 1) == [a] + LE(x, w)
  {
  }

  /** A text of one character: its size with the NUL in eight bytes, the character, the NUL. */
  lemma OneString(c: Byte)
    ensures EncString(Some([c])) == [2, 0, 0, 0, 0, 0, 0, 0, c, 0] && EncString(None) == [0, 0, 0, 0, 0, 0, 0, 0]
  {
    hide LE;
    forall a: Byte ensures LE(a, 8) == [a, 0, 0, 0, 0, 0, 0, 0] { ShortLE(a); }
  }

  /** The source of a function is left out, as no string at all, when the enclosing function has the same, or with strip. */
  lemma SharedSource(f: Proto, parent: Name, strip: bool, s: Byte)
    ensures f.source == parent || strip ==> EncHead(f, parent, strip)[..8] == [0, 0, 0, 0, 0, 0, 0, 0]
    ensures f.source == Some([s]) != parent && !strip ==>
      EncHead(f, parent, strip)[..10] == [2, 0, 0, 0, 0, 0, 0, 0, s, 0]
  {
    hide LE;
    OneString(s);
  }

  lemma ShortLE(a: Byte)
    ensures LE(a, 8) == [a, 0, 0, 0, 0, 0, 0, 0]
  {
    assert LE(0, 2) == [0, 0] && LE(0, 3) == [0, 0, 0] && LE(0, 4) == [0, 0, 0, 0];
    assert LE(0, 5) == [0, 0, 0, 0, 0] && LE(0, 6) == [0, 0, 0, 0, 0, 0] && LE(0, 7) == [0, 0, 0, 0, 0, 0, 0];
    LEStep(a, 0, 7);
  }

  lemma SmallWord(a: Byte)
    ensures Word(a) == [a, 0, 0, 0]
  {
    WordBytes(a, 0, 0, 0);
  }

  /**
   The whole chunk of a function with one instruction, a constant of each type, and one entry in each list of
   debug information: the header; the source, the lines and the four counts; the code; the constants; no
   functions inside; the debug information.
   */
  lemma Layout(f: Proto, s: Byte, a: Byte, z: Byte, i: seq<Byte>, n: seq<Byte>, c: Byte, l: Byte, e: Byte, u: Byte)
    requires f.source == Some([s]) && f.linedefined == a && f.lastlinedefined == z && f.p == [] && |i| == 4
    requires f.code == [i[0] as int + 0x100 * i[1] as int + 0x1_0000 * i[2] as int + 0x100_0000 * i[3] as int]
    requires f.k == [Const.Nil, Bool(1), Number(n), Str(Some([c]))]
    requires f.lineinfo == [l] && f.locvars == [LocVar(Some([c]), a, e)] && f.upvalues == [Some([u])]
    ensures Dumped(f, false) ==
      [27, 'L' as int, 'u' as int, 'a' as int, 0x51, 0, 1, 4, 8, 4, 8, 0] + (
      [2, 0, 0, 0, 0, 0, 0, 0, s, 0] + [a, 0, 0, 0] + [z, 0, 0, 0] + [f.nups, f.numparams, f.isVararg, f.maxstacksize] +
      ([1, 0, 0, 0] + i) +
      ([4, 0, 0, 0] + ([0] + [1, 1] + [3] + n + [4] + [2, 0, 0, 0, 0, 0, 0, 0, c, 0])) +
      ([0, 0, 0, 0] + []) +
      ([1, 0, 0, 0] + [l, 0, 0, 0] +
       ([1, 0, 0, 0] + ([2, 0, 0, 0, 0, 0, 0, 0, c, 0] + [a, 0, 0, 0] + [e, 0, 0, 0])) +
       ([1, 0, 0, 0] + [2, 0, 0, 0, 0, 0, 0, 0, u, 0])))
  {
    hide LE, Word, EncString, EncWords, EncConstList, EncLocVars, EncNames, EncConst;
    SmallWord(a);
    SmallWord(z);
    SmallWord(l);
    SmallWord(e);
    SmallWord(0);
    SmallWord(1);
    SmallWord(4);
    OneString(s);
    OneString(c);
    OneString(u);
    WordBytes(i[0], i[1], i[2], i[3]);
    OneWord(f.code[0]);
    OneWord(l);
    FourConsts(n, Some([c]));
    OneEntry(LocVar(Some([c]), a, e), Some([u]));
    assert i == [i[0], i[1], i[2], i[3]];
    assert f.code == [f.code[0]] && Stripped(f, false) == f && SourceOf(f, None, false) == Some([s]);
    assert EncNested(f, 0, false) == [] && EncHead(f, None, false) ==
      [2, 0, 0, 0, 0, 0, 0, 0, s, 0] + [a, 0, 0, 0] + [z, 0, 0, 0] + [f.nups, f.numparams, f.isVararg, f.maxstacksize];
    assert EncCode(f) == [1, 0, 0, 0] + i;
    assert EncConsts(f) == [4, 0, 0, 0] + ([0] + [1, 1] + [3] + n + [4] + [2, 0, 0, 0, 0, 0, 0, 0, c, 0]);
  }

  lemma OneWord(x: int)
    ensures EncWords([x]) == Word(x)
  {
    assert EncWords([x][1..]) == [];
  }

  lemma FourConsts(n: seq<Byte>, s: Name)
    ensures EncConstList([Const.Nil, Bool(1), Number(n), Str(s)]) == [0] + [1, 1] + [3] + n + [4] + EncString(s)
  {
    var k := [Const.Nil, Bool(1), Number(n), Str(s)];
    assert k[1..] == [Bool(1), Number(n), Str(s)] && k[1..][1..] == [Number(n), Str(s)] &&
      [Number(n), Str(s)][1..] == [Str(s)];
    assert EncConstList([Str(s)]) == [4] + EncString(s) by { assert [Str(s)][1..] == []; }
    assert EncConstList([Number(n), Str(s)]) == [3] + n + ([4] + EncString(s));
    assert EncConstList(k[1..]) == [1, 1] + ([3] + n + ([4] + EncString(s)));
  }

  lemma OneEntry(v: LocVar, s: Name)
    ensures EncLocVars([v]) == EncString(v.varname) + Word(v.startpc) + Word(v.endpc) && EncNames([s]) == EncString(s)
  {
    assert [v][1..] == [] && [s][1..] == [];
  }
}
