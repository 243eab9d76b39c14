/** ldump.c: a function written to a stream, block by block. */
module Dump {
  import opened Common
  import opened Chunk

  /** From out o0 and status s0 to o1 and s1: all of bs was taken, or some block of it was refused and nothing after it. */
  ghost predicate Wrote(o0: seq<Byte>, s0: int, o1: seq<Byte>, s1: int, bs: seq<Byte>) {
    o0 <= o1 <= o0 + bs && (s1 == 0 ==> s0 == 0 && o1 == o0 + bs) && (s0 != 0 ==> o1 == o0 && s1 == s0)
  }

  lemma WroteMore(o0: seq<Byte>, s0: int, o1: seq<Byte>, s1: int, o2: seq<Byte>, s2: int, a: seq<Byte>, b: seq<Byte>)
    requires Wrote(o0, s0, o1, s1, a) && Wrote(o1, s1, o2, s2, b)
    ensures Wrote(o0, s0, o2, s2, a + b)
  {
    assert o0 + (a + b) == o0 + a + b;
  }

  class DumpState {
    /** What the writer answers to its calls, one after the other: 0 when it takes the block. */
    const writer: nat -> int
    const strip: bool
    var calls: nat
    var out: seq<Byte>
    var status: int

    constructor (writer: nat -> int, strip: bool)
      ensures this.writer == writer && this.strip == strip && out == [] && status == 0
    {
      this.writer := writer;
      this.strip := strip;
      calls, out, status := 0, [], 0;
    }

    /** DumpBlock: the one place that writes; a writer that refused a block is not called again. */
    method DumpBlock(b: seq<Byte>)
      modifies this
      ensures Wrote(old(out), old(status), out, status, b)
    {
      if status == 0 {
        status := writer(calls);
        calls := calls + 1;
        if status == 0 { out := out + b; }
      }
    }

    method DumpChar(y: int)
      modifies this
      ensures Wrote(old(out), old(status), out, status, [y % 256])
    {
      DumpBlock([y % 256]);
    }

    method DumpInt(x: int)
      modifies this
      ensures Wrote(old(out), old(status), out, status, Word(x))
    {
      DumpBlock(Word(x));
    }

    method DumpString(s: Name)
      modifies this
      ensures Wrote(old(out), old(status), out, status, EncString(s))
    {
      match s {
        case None => DumpBlock(LE(0, SIZE));
        case Some(t) =>
          DumpBlock(LE(|t| + 1, SIZE));
          ghost var o, c := out, status;
          DumpBlock(t + [0]);
          WroteMore(old(out), old(status), o, c, out, status, LE(|t| + 1, SIZE), t + [0]);
          assert LE(|t| + 1, SIZE) + (t + [0]) == EncString(s);
      }
    }

    /** DumpVector, on ints or instructions: their number, and all of them as one block. */
    method DumpVector(s: seq<int>)
      modifies this
      ensures Wrote(old(out), old(status), out, status, Word(|s|) + EncWords(s))
    {
      DumpInt(|s|);
      ghost var o, c := out, status;
      DumpBlock(EncWords(s));
      WroteMore(old(out), old(status), o, c, out, status, Word(|s|), EncWords(s));
    }

    method DumpConstant(c: Const)
      modifies this
      ensures Wrote(old(out), old(status), out, status, EncConst(c))
    {
      DumpChar(match c case Nil => 0 case Bool(_) => 1 case Number(_) => 3 case Str(_) => 4);
      ghost var o, t := out, status;
      match c {
        case Nil =>
        case Bool(b) =>
          DumpChar(b);
          WroteMore(old(out), old(status), o, t, out, status, [1], [b % 256]);
          assert [1] + [b % 256] == EncConst(c);
        case Number(bytes) =>
          DumpBlock(bytes);
          WroteMore(old(out), old(status), o, t, out, status, [3], bytes);
        case Str(s) =>
          DumpString(s);
          WroteMore(old(out), old(status), o, t, out, status, [4], EncString(s));
      }
    }

    method DumpConstants(f: Proto)
      modifies this
      ensures Wrote(old(out), old(status), out, status, EncConsts(f))
    {
      hide Wrote, EncConst;
      DumpInt(|f.k|);
      ghost var o, t, done := out, status, Word(|f.k|);
      var i := 0;
      while i < |f.k|
        invariant 0 <= i <= |f.k| && Wrote(old(out), old(status), out, status, done)
        invariant done + EncConstList(f.k[i..]) == EncConsts(f)
      {
        o, t := out, status;
        DumpConstant(f.k[i]);
        WroteMore(old(out), old(status), o, t, out, status, done, EncConst(f.k[i]));
        assert EncConstList(f.k[i..]) == EncConst(f.k[i]) + EncConstList(f.k[i..][1..]) &&
          f.k[i..][1..] == f.k[i + 1..];
        assert done + (EncConst(f.k[i]) + EncConstList(f.k[i + 1..])) == done + EncConst(f.k[i]) + EncConstList(f.k[i + 1..]);
        done := done + EncConst(f.k[i]);
        i := i + 1;
      }
      assert done + [] == done;
    }

    method DumpLocVar(v: LocVar)
      modifies this
      ensures Wrote(old(out), old(status), out, status, EncLocVar(v))
    {
      hide Wrote, EncString;
      DumpString(v.varname);
      ghost var o, t := out, status;
      DumpInt(v.startpc);
      WroteMore(old(out), old(status), o, t, out, status, EncString(v.varname), Word(v.startpc));
      o, t := out, status;
      DumpInt(v.endpc);
      WroteMore(old(out), old(status), o, t, out, status, EncString(v.varname) + Word(v.startpc), Word(v.endpc));
    }

    method DumpLocVars(s: seq<LocVar>)
      modifies this
      ensures Wrote(old(out), old(status), out, status, Word(|s|) + EncLocVars(s))
    {
      hide Wrote, EncLocVar;
      DumpInt(|s|);
      ghost var o, t, done := out, status, Word(|s|);
      var i := 0;
      while i < |s|
        invariant 0 <= i <= |s| && Wrote(old(out), old(status), out, status, done)
        invariant done + EncLocVars(s[i..]) == Word(|s|) + EncLocVars(s)
      {
        o, t := out, status;
        DumpLocVar(s[i]);
        WroteMore(old(out), old(status), o, t, out, status, done, EncLocVar(s[i]));
        assert EncLocVars(s[i..]) == EncLocVar(s[i]) + EncLocVars(s[i..][1..]) && s[i..][1..] == s[i + 1..];
        assert done + (EncLocVar(s[i]) + EncLocVars(s[i + 1..])) == done + EncLocVar(s[i]) + EncLocVars(s[i + 1..]);
        done := done + EncLocVar(s[i]);
        i := i + 1;
      }
      assert done + [] == done;
    }

    method DumpNames(s: seq<Name>)
      modifies this
      ensures Wrote(old(out), old(status), out, status, Word(|s|) + EncNames(s))
    {
      hide Wrote, EncString;
      DumpInt(|s|);
      ghost var o, t, done := out, status, Word(|s|);
      var i := 0;
      while i < |s|
        invariant 0 <= i <= |s| && Wrote(old(out), old(status), out, status, done)
        invariant done + EncNames(s[i..]) == Word(|s|) + EncNames(s)
      {
        o, t := out, status;
        DumpString(s[i]);
        WroteMore(old(out), old(status), o, t, out, status, done, EncString(s[i]));
        assert EncNames(s[i..]) == EncString(s[i]) + EncNames(s[i..][1..]) && s[i..][1..] == s[i + 1..];
        assert done + (EncString(s[i]) + EncNames(s[i + 1..])) == done + EncString(s[i]) + EncNames(s[i + 1..]);
        done := done + EncString(s[i]);
        i := i + 1;
      }
      assert done + [] == done;
    }

    /** DumpDebug: with strip, three empty lists. */
    method DumpDebug(f: Proto)
      modifies this
      ensures Wrote(old(out), old(status), out, status, EncDebug(Stripped(f, strip)))
    {
      hide Wrote, EncWords, EncLocVars, EncNames;
      var lines := if strip then [] else f.lineinfo;
      var vars := if strip then [] else f.locvars;
      var names := if strip then [] else f.upvalues;
      DumpVector(lines);
      ghost var o, t := out, status;
      DumpLocVars(vars);
      WroteMore(old(out), old(status), o, t, out, status, Word(|lines|) + EncWords(lines),
        Word(|vars|) + EncLocVars(vars));
      o, t := out, status;
      DumpNames(names);
      WroteMore(old(out), old(status), o, t, out, status,
        Word(|lines|) + EncWords(lines) + (Word(|vars|) + EncLocVars(vars)), Word(|names|) + EncNames(names));
    }

    /** The first fields of a function, up to its code. */
    method DumpHead(f: Proto, p: Name)
      modifies this
      ensures Wrote(old(out), old(status), out, status, EncHead(f, p, strip))
    {
      hide Wrote, EncString;
      var s := if f.source == p || strip then None else f.source;
      DumpString(s);
      ghost var o, t, done := out, status, EncString(s);
      DumpInt(f.linedefined);
      WroteMore(old(out), old(status), o, t, out, status, done, Word(f.linedefined));
      o, t, done := out, status, done + Word(f.linedefined);
      DumpInt(f.lastlinedefined);
      WroteMore(old(out), old(status), o, t, out, status, done, Word(f.lastlinedefined));
      o, t, done := out, status, done + Word(f.lastlinedefined);
      DumpFour(f.nups, f.numparams, f.isVararg, f.maxstacksize);
      WroteMore(old(out), old(status), o, t, out, status, done, [f.nups, f.numparams, f.isVararg, f.maxstacksize]);
    }

    method DumpFour(a: Byte, b: Byte, c: Byte, d: Byte)
      modifies this
      ensures Wrote(old(out), old(status), out, status, [a, b, c, d])
    {
      DumpChar(a);
      ghost var o, t := out, status;
      DumpChar(b);
      WroteMore(old(out), old(status), o, t, out, status, [a], [b]);
      o, t := out, status;
      DumpChar(c);
      WroteMore(old(out), old(status), o, t, out, status, [a] + [b], [c]);
      o, t := out, status;
      DumpChar(d);
      WroteMore(old(out), old(status), o, t, out, status, [a] + [b] + [c], [d]);
      assert [a] + [b] + [c] + [d] == [a, b, c, d];
    }

    /** The functions inside f. */
    method DumpNested(f: Proto)
      modifies this
      ensures Wrote(old(out), old(status), out, status, Word(|f.p|) + EncNested(f, 0, strip))
      decreases f, 0
    {
      hide Wrote, EncFunction;
      DumpInt(|f.p|);
      ghost var o, t, done := out, status, Word(|f.p|);
      var i := 0;
      while i < |f.p|
        invariant 0 <= i <= |f.p| && Wrote(old(out), old(status), out, status, done)
        invariant done + EncNested(f, i, strip) == Word(|f.p|) + EncNested(f, 0, strip)
      {
        o, t := out, status;
        DumpFunction(f.p[i], f.source);
        ghost var one := EncFunction(f.p[i], f.source, strip);
        WroteMore(old(out), old(status), o, t, out, status, done, one);
        assert done + (one + EncNested(f, i + 1, strip)) == done + one + EncNested(f, i + 1, strip);
        done := done + one;
        i := i + 1;
      }
      assert done + [] == done;
    }

    method DumpFunction(f: Proto, p: Name)
      modifies this
      ensures Wrote(old(out), old(status), out, status, EncFunction(f, p, strip))
      decreases f, 1
    {
      hide Wrote, EncHead, EncNested, EncDebug, Stripped, EncConsts, EncWords, Word;
      DumpHead(f, p);
      ghost var o, t, done := out, status, EncHead(f, p, strip);
      DumpVector(f.code);
      WroteMore(old(out), old(status), o, t, out, status, done, EncCode(f));
      o, t, done := out, status, done + EncCode(f);
      DumpConstants(f);
      WroteMore(old(out), old(status), o, t, out, status, done, EncConsts(f));
      o, t, done := out, status, done + EncConsts(f);
      DumpNested(f);
      WroteMore(old(out), old(status), o, t, out, status, done, Word(|f.p|) + EncNested(f, 0, strip));
      o, t, done := out, status, done + (Word(|f.p|) + EncNested(f, 0, strip));
      DumpDebug(f);
      WroteMore(old(out), old(status), o, t, out, status, done, EncDebug(Stripped(f, strip)));
    }

    /** luaU_dump */
    method DumpChunk(f: Proto)
      modifies this
      ensures Wrote(old(out), old(status), out, status, Dumped(f, strip))
    {
      hide Wrote, EncFunction, Header;
      DumpBlock(Header());
      ghost var o, t := out, status;
      DumpFunction(f, None);
      WroteMore(old(out), old(status), o, t, out, status, Header(), EncFunction(f, None, strip));
    }
  }
}
