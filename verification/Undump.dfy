/** lundump.c: a function read back from a stream, and what a round trip through both gives. */
module Undump {
  import opened Common
  import opened Chunk
  import opened ChunkProofs
  import opened Zio
  import opened Dump

  datatype Res<+T> = Good(value: T) | Raised(msg: string)
  {
    predicate IsFailure() { Raised? }
    function PropagateFailure<U>(): Res<U>
      requires Raised?
    {
      Raised(msg)
    }
    function Extract(): T
      requires Good?
    {
      value
    }
  }

  /** The loader did what reading the bytes of the stream says: the same value, the same rest, the same error. */
  ghost predicate Reads<T>(spec: Parsed<T>, r: Res<T>, rest: seq<Byte>) {
    match spec
    case Err(msg) => r == Raised(msg)
    case Ok(v, left) => r == Good(v) && rest == left
  }

  /** The list read so far is k, and more is what reading on will say. */
  ghost predicate After<T>(spec: Parsed<seq<T>>, k: seq<T>, more: Parsed<seq<T>>) {
    match more
    case Err(msg) => spec == Err(msg)
    case Ok(v, rest) => spec == Ok(k + v, rest)
  }

  lemma AfterNone<T>(spec: Parsed<seq<T>>)
    ensures After(spec, [], spec)
  {
    if spec.Ok? { assert [] + spec.value == spec.value; }
  }

  lemma AfterOne<T>(spec: Parsed<seq<T>>, k: seq<T>, now: Parsed<seq<T>>, c: T, more: Parsed<seq<T>>)
    requires After(spec, k, now) && now == if more.Err? then Err(more.msg) else Ok([c] + more.value, more.rest)
    ensures After(spec, k + [c], more)
  {
    if more.Ok? { assert k + ([c] + more.value) == k + [c] + more.value; }
  }

  lemma AfterAll<T>(spec: Parsed<seq<T>>, k: seq<T>, rest: seq<Byte>)
    requires After(spec, k, Ok([], rest))
    ensures spec == Ok(k, rest)
  {
    assert k + [] == k;
  }

  class LoadState {
    const z: ZIO
    /** The verifier of the code, not part of this model. */
    const check: Proto -> bool

    constructor (z: ZIO, check: Proto -> bool)
      ensures this.z == z && this.check == check
    {
      this.z := z;
      this.check := check;
    }

    method LoadBlock(size: nat) returns (r: Res<seq<Byte>>)
      requires z.Valid()
      modifies z
      ensures z.Valid() && Reads(ParseBlock(old(z.Rest()), size), r, z.Rest())
      ensures r.Good? ==> |z.Rest()| + size == |old(z.Rest())|
    {
      var b, missing := z.Read(size);
      r := if missing != 0 then Raised("unexpected end") else Good(b);
    }

    method LoadChar() returns (r: Res<int>)
      requires z.Valid()
      modifies z
      ensures z.Valid() && Reads(ParseChar(old(z.Rest())), r, z.Rest())
    {
      r := Raised("");
      var b :- LoadBlock(1);
      r := Good(SignedChar(b[0]));
    }

    method LoadInt() returns (r: Res<int>)
      requires z.Valid()
      modifies z
      ensures z.Valid() && Reads(ParseInt(old(z.Rest())), r, z.Rest())
    {
      hide Value;
      r := Raised("");
      var b :- LoadBlock(INT);
      var x := Signed(Value(b));
      r := if x < 0 then Raised("bad integer") else Good(x);
    }

    method LoadString() returns (r: Res<Name>)
      requires z.Valid()
      modifies z
      ensures z.Valid() && Reads(ParseString(old(z.Rest())), r, z.Rest())
    {
      hide Value;
      r := Raised("");
      var b :- LoadBlock(SIZE);
      var size := Value(b);
      if size == 0 { return Good(None); }
      var s :- LoadBlock(size);
      r := Good(Some(s[..size - 1]));
    }

    method LoadCode(f: Proto) returns (r: Res<Proto>)
      requires z.Valid()
      modifies z
      ensures z.Valid() && Reads(ParseCode(old(z.Rest()), f), r, z.Rest())
    {
      hide ParseInt, DecWords;
      r := Raised("");
      var n :- LoadInt();
      var c :- LoadBlock(INT * n);
      r := Good(f.(code := DecWords(c)));
    }

    method LoadConstant() returns (r: Res<Const>)
      requires z.Valid()
      modifies z
      ensures z.Valid() && Reads(ParseConst(old(z.Rest())), r, z.Rest())
    {
      hide ParseChar, ParseString;
      r := Raised("");
      var t :- LoadChar();
      if t == 0 {
        r := Good(Nil);
      } else if t == 1 {
        var b :- LoadChar();
        r := Good(Bool(b));
      } else if t == 3 {
        var n :- LoadBlock(NUMBER);
        r := Good(Number(n));
      } else if t == 4 {
        var s :- LoadString();
        r := Good(Str(s));
      } else {
        r := Raised("bad constant");
      }
    }

    method LoadConstants(f: Proto) returns (r: Res<Proto>)
      requires z.Valid()
      modifies z
      ensures z.Valid() && Reads(ParseConsts(old(z.Rest()), f), r, z.Rest())
    {
      hide ParseInt, ParseConst;
      r := Raised("");
      var n :- LoadInt();
      ghost var spec := ParseConstList(z.Rest(), n);
      AfterNone(spec);
      var k, i := [], 0;
      while i < n
        invariant 0 <= i <= n && z.Valid()
        invariant After(spec, k, ParseConstList(z.Rest(), n - i))
      {
        ghost var now := ParseConstList(z.Rest(), n - i);
        var c :- LoadConstant();
        AfterOne(spec, k, now, c, ParseConstList(z.Rest(), n - i - 1));
        k := k + [c];
        i := i + 1;
      }
      AfterAll(spec, k, z.Rest());
      r := Good(f.(k := k));
    }

    method LoadLocVar() returns (r: Res<LocVar>)
      requires z.Valid()
      modifies z
      ensures z.Valid() && Reads(ParseLocVar(old(z.Rest())), r, z.Rest())
    {
      hide ParseInt, ParseString;
      r := Raised("");
      var s :- LoadString();
      var a :- LoadInt();
      var b :- LoadInt();
      r := Good(LocVar(s, a, b));
    }

    method LoadLocVars(n: nat) returns (r: Res<seq<LocVar>>)
      requires z.Valid()
      modifies z
      ensures z.Valid() && Reads(ParseLocVars(old(z.Rest()), n), r, z.Rest())
    {
      hide ParseLocVar;
      r := Raised("");
      ghost var spec := ParseLocVars(z.Rest(), n);
      AfterNone(spec);
      var k, i := [], 0;
      while i < n
        invariant 0 <= i <= n && z.Valid()
        invariant After(spec, k, ParseLocVars(z.Rest(), n - i))
      {
        ghost var now := ParseLocVars(z.Rest(), n - i);
        var c :- LoadLocVar();
        AfterOne(spec, k, now, c, ParseLocVars(z.Rest(), n - i - 1));
        k := k + [c];
        i := i + 1;
      }
      AfterAll(spec, k, z.Rest());
      r := Good(k);
    }

    method LoadNames(n: nat) returns (r: Res<seq<Name>>)
      requires z.Valid()
      modifies z
      ensures z.Valid() && Reads(ParseNames(old(z.Rest()), n), r, z.Rest())
    {
      hide ParseString;
      r := Raised("");
      ghost var spec := ParseNames(z.Rest(), n);
      AfterNone(spec);
      var k, i := [], 0;
      while i < n
        invariant 0 <= i <= n && z.Valid()
        invariant After(spec, k, ParseNames(z.Rest(), n - i))
      {
        ghost var now := ParseNames(z.Rest(), n - i);
        var c :- LoadString();
        AfterOne(spec, k, now, c, ParseNames(z.Rest(), n - i - 1));
        k := k + [c];
        i := i + 1;
      }
      AfterAll(spec, k, z.Rest());
      r := Good(k);
    }

    method LoadLines() returns (r: Res<seq<int>>)
      requires z.Valid()
      modifies z
      ensures z.Valid() && Reads(ParseLines(old(z.Rest())), r, z.Rest())
    {
      hide ParseInt, DecWords, SignedAll;
      r := Raised("");
      var n :- LoadInt();
      var c :- LoadBlock(INT * n);
      r := Good(SignedAll(DecWords(c)));
    }

    method LoadDebug(f: Proto) returns (r: Res<Proto>)
      requires z.Valid()
      modifies z
      ensures z.Valid() && Reads(ParseDebug(old(z.Rest()), f), r, z.Rest())
    {
      hide ParseInt, ParseLines, ParseLocVars, ParseNames;
      r := Raised("");
      var lines :- LoadLines();
      var n :- LoadInt();
      var vars :- LoadLocVars(n);
      var m :- LoadInt();
      var names :- LoadNames(m);
      r := Good(f.(lineinfo := lines, locvars := vars, upvalues := names));
    }

    /** The first fields of a function, up to its code. */
    method LoadHead(p: Name) returns (r: Res<Proto>)
      requires z.Valid()
      modifies z
      ensures z.Valid() && Reads(ParseHead(old(z.Rest()), p), r, z.Rest())
    {
      hide ParseInt, ParseString;
      r := Raised("");
      var source :- LoadString();
      if source == None { source := p; }
      var first :- LoadInt();
      var last :- LoadInt();
      var b :- LoadBlock(4);
      r := Good(Proto(source, first, last, b[0], b[1], b[2], b[3], [], [], [], [], [], []));
    }

    /** The functions inside one whose source is p. */
    method LoadNested(n: nat, p: Name) returns (r: Res<seq<Proto>>)
      requires z.Valid()
      modifies z
      ensures z.Valid() && Reads(ParseNested(check, old(z.Rest()), n, p), r, z.Rest())
      decreases |z.Rest()|, 1
    {
      hide ParseFunction;
      r := Raised("");
      ghost var spec := ParseNested(check, z.Rest(), n, p);
      AfterNone(spec);
      var k, i := [], 0;
      while i < n
        invariant 0 <= i <= n && z.Valid() && |z.Rest()| <= |old(z.Rest())|
        invariant After(spec, k, ParseNested(check, z.Rest(), n - i, p))
      {
        ghost var now := ParseNested(check, z.Rest(), n - i, p);
        var f :- LoadFunction(p);
        AfterOne(spec, k, now, f, ParseNested(check, z.Rest(), n - i - 1, p));
        k := k + [f];
        i := i + 1;
      }
      AfterAll(spec, k, z.Rest());
      r := Good(k);
    }

    method LoadFunction(p: Name) returns (r: Res<Proto>)
      requires z.Valid()
      modifies z
      ensures z.Valid() && Reads(ParseFunction(check, old(z.Rest()), p), r, z.Rest())
      decreases |z.Rest()|, 0
    {
      hide ParseInt, ParseHead, ParseCode, ParseConsts, ParseDebug, ParseNested;
      r := Raised("");
      var f :- LoadHead(p);
      f :- LoadCode(f);
      f :- LoadConstants(f);
      var n :- LoadInt();
      var nested :- LoadNested(n, f.source);
      f :- LoadDebug(f.(p := nested));
      r := if check(f) then Good(f) else Raised("bad code");
    }

    /** luaU_undump */
    method LoadChunk() returns (r: Res<Proto>)
      requires z.Valid()
      modifies z
      ensures z.Valid() && Reads(ParseChunk(check, old(z.Rest())), r, z.Rest())
    {
      hide ParseFunction, Header;
      r := Raised("");
      var h :- LoadBlock(12);
      if h != Header() { return Raised("bad header"); }
      r := LoadFunction(NOSOURCE);
    }
  }

  // ---- the round trip ----

  lemma ChunkBack(check: Proto -> bool, f: Proto, strip: bool, rest: seq<Byte>)
    requires Fits(f) && Accepted(check, Loaded(f, None, NOSOURCE, strip))
    ensures ParseChunk(check, Dumped(f, strip) + rest) == Ok(Loaded(f, None, NOSOURCE, strip), rest)
  {
    hide ParseFunction, EncFunction, Loaded;
    assert Dumped(f, strip) + rest == Header() + (EncFunction(f, None, strip) + rest);
    BlockBack(Header(), EncFunction(f, None, strip) + rest);
    FunctionBack(check, f, None, NOSOURCE, strip, rest);
  }

  /** A function of the tree has a source of its own. */
  ghost predicate Sourced(f: Proto)
    decreases f
  {
    f.source.Some? && forall i :: 0 <= i < |f.p| ==> Sourced(f.p[i])
  }

  lemma {:induction false} LoadedSourced(f: Proto, parent: Name, inherited: Name, strip: bool)
    requires inherited.Some?
    ensures Sourced(Loaded(f, parent, inherited, strip))
    decreases f
  {
    var source := LoadedSource(f, parent, inherited, strip);
    forall i | 0 <= i < |LoadedNested(f, 0, source, strip)| ensures Sourced(LoadedNested(f, 0, source, strip)[i]) {
      LoadedLength(f, 0, source, strip);
      LoadedAt(f, 0, source, strip, i);
      LoadedSourced(f.p[i], f.source, source, strip);
    }
  }

  lemma {:induction false} LoadedSame(f: Proto, parent: Name, inherited: Name)
    requires Sourced(f) && (f.source == parent ==> inherited == parent)
    ensures Loaded(f, parent, inherited, false) == f
    decreases f
  {
    var nested := LoadedNested(f, 0, f.source, false);
    LoadedLength(f, 0, f.source, false);
    forall i | 0 <= i < |f.p| ensures nested[i] == f.p[i] {
      LoadedAt(f, 0, f.source, false, i);
      LoadedSame(f.p[i], f.source, f.source);
    }
    assert nested == f.p;
  }

  /** Without strip the tree comes back equal exactly when each of its functions has a source. */
  lemma SameTree(f: Proto)
    ensures Loaded(f, None, NOSOURCE, false) == f <==> Sourced(f)
  {
    if Sourced(f) { LoadedSame(f, None, NOSOURCE); }
    LoadedSourced(f, None, NOSOURCE, false);
  }

  /** g is the tree f without debug data: no lines, no names, and the source of a chunk that has none. */
  ghost predicate Bare(f: Proto, g: Proto)
    decreases f
  {
    g == f.(source := Some(['=' as int, '?' as int]), lineinfo := [], locvars := [], upvalues := [], p := g.p) &&
    |g.p| == |f.p| && forall i :: 0 <= i < |f.p| ==> Bare(f.p[i], g.p[i])
  }

  /** With strip exactly the debug data is gone. */
  lemma {:induction false} BareTree(f: Proto, parent: Name)
    ensures Bare(f, Loaded(f, parent, NOSOURCE, true))
    decreases f
  {
    LoadedLength(f, 0, NOSOURCE, true);
    forall i | 0 <= i < |f.p| ensures Bare(f.p[i], LoadedNested(f, 0, NOSOURCE, true)[i]) {
      LoadedAt(f, 0, NOSOURCE, true, i);
      BareTree(f.p[i], f.source);
    }
  }

  /** All bytes of the pieces of a reader that has no empty ones. */
  function Flat(pieces: seq<seq<Byte>>): seq<Byte> { if pieces == [] then [] else pieces[0] + Flat(pieces[1..]) }

  lemma {:induction false} StreamFlat(pieces: seq<seq<Byte>>)
    requires forall i :: 0 <= i < |pieces| ==> pieces[i] != []
    ensures Stream(pieces) == Flat(pieces)
  {
    if pieces != [] { StreamFlat(pieces[1..]); }
  }

  /**
   * A chunk dumped without a refused block, cut into non-empty pieces in any way, and loaded: without strip
   * the same tree, with strip the tree without its debug data.
   */
  method RoundTrip(f: Proto, strip: bool, writer: nat -> int, check: Proto -> bool, cut: seq<Byte> -> seq<seq<Byte>>)
    returns (status: int, r: Res<Proto>)
    requires Fits(f) && Accepted(check, Loaded(f, None, NOSOURCE, strip))
    requires forall bs :: Flat(cut(bs)) == bs && forall i :: 0 <= i < |cut(bs)| ==> cut(bs)[i] != []
    ensures status == 0 ==> r == Good(Loaded(f, None, NOSOURCE, strip))
    ensures status == 0 && !strip && Sourced(f) ==> r == Good(f)
    ensures status == 0 && strip ==> r.Good? && Bare(f, r.value)
  {
    hide Fits, Accepted, Loaded, Dumped, Bare, Sourced, ParseChunk;
    var d := new DumpState(writer, strip);
    d.DumpChunk(f);
    status := d.status;
    r := Raised("");
    if status == 0 {
      var out := d.out;
      assert out == Dumped(f, strip);
      var z := new ZIO(cut(out));
      StreamFlat(cut(out));
      var l := new LoadState(z, check);
      r := l.LoadChunk();
      ChunkBack(check, f, strip, []);
      assert Dumped(f, strip) + [] == out;
      SameTree(f);
      if strip { BareTree(f, None); }
    }
  }
}
