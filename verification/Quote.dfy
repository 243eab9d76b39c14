/** The %q format of string.format, and the lexer that reads its output back as a string literal. */
module Quote {
  import opened Common

  const EOZ := -1
  const QUOTE: Byte := '"' as int
  const BACKSLASH: Byte := '\\' as int
  const NEWLINE: Byte := 10
  const RETURN: Byte := 13

  // ---- writing ----

  function Quoted(c: Byte): seq<Byte> {
    if c == QUOTE || c == BACKSLASH || c == NEWLINE then [BACKSLASH, c]
    else if c == RETURN then [BACKSLASH, 'r' as int]
    else if c == 0 then [BACKSLASH, '0' as int, '0' as int, '0' as int]
    else [c]
  }

  function QuotedAll(s: seq<Byte>): seq<Byte> { if s == [] then [] else Quoted(s[0]) + QuotedAll(s[1..]) }

  /** The literal for s. */
  function Literal(s: seq<Byte>): seq<Byte> { [QUOTE] + QuotedAll(s) + [QUOTE] }

  method AddOne(b: seq<Byte>, c: Byte) returns (r: seq<Byte>)
    ensures r == b + Quoted(c)
  {
    if c == QUOTE || c == BACKSLASH || c == NEWLINE {
      r := b + [BACKSLASH];
      r := r + [c];
    } else if c == RETURN {
      r := b + [BACKSLASH, 'r' as int];
    } else if c == 0 {
      r := b + [BACKSLASH, '0' as int, '0' as int, '0' as int];
    } else {
      r := b + [c];
    }
  }

  /** addquoted, on a buffer that already holds b. */
  method AddQuoted(b: seq<Byte>, s: seq<Byte>) returns (r: seq<Byte>)
    ensures r == b + Literal(s)
  {
    hide Quoted;
    r := b + [QUOTE];
    var i := 0;
    while i < |s|
      invariant 0 <= i <= |s| && r + QuotedAll(s[i..]) == b + [QUOTE] + QuotedAll(s)
    {
      assert s[i..][1..] == s[i + 1..];
      assert r + (Quoted(s[i]) + QuotedAll(s[i + 1..])) == r + Quoted(s[i]) + QuotedAll(s[i + 1..]);
      r := AddOne(r, s[i]);
      i := i + 1;
    }
    assert r + [] == r;
    r := r + [QUOTE];
  }

  // ---- reading ----

  /** The text of a literal, what follows it, and the line the lexer is on then. */
  datatype Lexed = Done(text: seq<Byte>, rest: seq<Byte>, line: int) | Err(msg: string)

  predicate IsNewline(c: int) { c == NEWLINE || c == RETURN }

  predicate IsDigit(c: int) { '0' as int <= c <= '9' as int }

  /** The escapes of one letter. */
  function Simple(c: int): Option<Byte> {
    if c == 'a' as int then Some(7) else if c == 'b' as int then Some(8) else if c == 'f' as int then Some(12)
    else if c == 'n' as int then Some(10) else if c == 'r' as int then Some(13) else if c == 't' as int then Some(9)
    else if c == 'v' as int then Some(11) else None
  }

  /** How many digits, three at most, start bs. */
  function Digits(bs: seq<Byte>): (n: nat)
    ensures n <= 3 && n <= |bs| && AllDigits(bs[..n])
  {
    if |bs| == 0 || !IsDigit(bs[0]) then 0
    else if |bs| == 1 || !IsDigit(bs[1]) then 1
    else if |bs| == 2 || !IsDigit(bs[2]) then 2
    else 3
  }

  predicate AllDigits(bs: seq<Byte>) { forall k :: 0 <= k < |bs| ==> IsDigit(bs[k]) }

  function DecimalOf(bs: seq<Byte>): nat
    requires AllDigits(bs)
  {
    if bs == [] then 0
    else
      var d := bs[|bs| - 1];
      assert IsDigit(d);
      10 * DecimalOf(bs[..|bs| - 1]) + (d - '0' as int)
  }

  /** A line break is one character, or two different ones. */
  function BreakLength(bs: seq<Byte>): (n: nat)
    requires |bs| > 0
    ensures 1 <= n <= 2 && n <= |bs|
  {
    if |bs| > 1 && IsNewline(bs[1]) && bs[1] != bs[0] then 2 else 1
  }

  function Cons(c: int, more: Lexed): Lexed
    requires 0 <= c < 256
  {
    match more case Err(msg) => Err(msg) case Done(text, rest, line) => Done([c] + text, rest, line)
  }

  /** What bs is as the inside and the end of a literal with the delimiter del. */
  function Lex(bs: seq<Byte>, del: Byte, line: int): Lexed
    decreases |bs|
  {
    if bs == [] then Err("unfinished string")
    else if bs[0] == del then Done([], bs[1..], line)
    else if IsNewline(bs[0]) then Err("unfinished string")
    else if bs[0] != BACKSLASH then Cons(bs[0], Lex(bs[1..], del, line))
    else LexEscape(bs[1..], del, line)
  }

  /** The same, after a backslash. */
  function LexEscape(bs: seq<Byte>, del: Byte, line: int): Lexed
    decreases |bs|
  {
    if bs == [] then Err("unfinished string")
    else if Simple(bs[0]).Some? then Cons(Simple(bs[0]).value, Lex(bs[1..], del, line))
    else if IsNewline(bs[0]) then
      if line + 1 >= MAXINT then Err("chunk has too many lines")
        else Cons(NEWLINE, Lex(bs[BreakLength(bs)..], del, line + 1))
    else if !IsDigit(bs[0]) then Cons(bs[0], Lex(bs[1..], del, line))
    else
      var n := Digits(bs);
      var c := DecimalOf(bs[..n]);
      if c > 255 then Err("escape sequence too large") else Cons(c, Lex(bs[n..], del, line))
  }

  datatype Res = Good(text: seq<Byte>) | Raised(msg: string)

  class LexState {
    var current: int
    var input: seq<Byte>
    var linenumber: int
    var buff: seq<Byte>

    ghost predicate Valid()
      reads this
    {
      if current == EOZ then input == [] else 0 <= current < 256
    }

    /** The character looked at and all that follow. */
    ghost function Rest(): seq<Byte>
      requires Valid()
      reads this
    {
      if current == EOZ then [] else [current] + input
    }

    constructor (input: seq<Byte>, linenumber: int)
      ensures Valid() && Rest() == input && (current == EOZ <==> input == []) && this.linenumber == linenumber &&
        buff == []
    {
      this.linenumber := linenumber;
      buff := [];
      if |input| == 0 {
        current, this.input := EOZ, [];
      } else {
        current, this.input := input[0], input[1..];
      }
    }

    method Next()
      requires Valid() && current != EOZ
      modifies this`current, this`input
      ensures Valid() && Rest() == old(Rest())[1..]
    {
      if |input| == 0 {
        current := EOZ;
      } else {
        current, input := input[0], input[1..];
      }
    }

    method Save(c: Byte)
      modifies this`buff
      ensures buff == old(buff) + [c]
    {
      buff := buff + [c];
    }

    method SaveAndNext()
      requires Valid() && current != EOZ
      modifies this`buff, this`current, this`input
      ensures Valid() && Rest() == old(Rest())[1..] && buff == old(buff) + [old(current)]
    {
      Save(current);
      Next();
    }

    /** inclinenumber: a line break is skipped; false when there have been too many. */
    method IncLineNumber() returns (ok: bool)
      requires Valid() && IsNewline(current)
      modifies this`current, this`input, this`linenumber
      ensures Valid() && Rest() == old(Rest())[BreakLength(old(Rest()))..]
      ensures linenumber == old(linenumber) + 1 && ok == (linenumber < 0x7FFF_FFFD)
    {
      var before := current;
      Next();
      if IsNewline(current) && current != before { Next(); }
      linenumber := linenumber + 1;
      ok := linenumber < MAXINT;
    }

    /** A decimal escape: at most three digits. */
    method ReadDigits() returns (c: int)
      requires Valid() && IsDigit(current)
      modifies this`current, this`input
      ensures Valid() && c == DecimalOf(old(Rest())[..Digits(old(Rest()))]) && c >= 0
      ensures Rest() == old(Rest())[Digits(old(Rest()))..]
    {
      ghost var bs := Rest();
      var i := 0;
      c := 0;
      while true
        invariant 0 <= i < 3 && i < |bs| && Valid() && Rest() == bs[i..] && IsDigit(current) && c >= 0
        invariant AllDigits(bs[..i]) && c == DecimalOf(bs[..i]) && Digits(bs) > i
        decreases 3 - i
      {
        assert current == bs[i] && bs[..i + 1][..i] == bs[..i] && AllDigits(bs[..i + 1]);
        c := 10 * c + (current - '0' as int);
        Next();
        i := i + 1;
        if !(i < 3 && IsDigit(current)) { break; }
        assert current == bs[i];
      }
    }

    /** What a backslash starts; the backslash itself has been skipped. */
    method ReadEscape(del: Byte) returns (r: Res)
      requires Valid()
      modifies this
      ensures r.Raised? ==> LexEscape(old(Rest()), del, old(linenumber)) == Err(r.msg)
      ensures r.Good? ==> Valid() && |Rest()| <= |old(Rest())|
      ensures r.Good? && old(Rest()) == [] ==> Rest() == [] && buff == old(buff) && r.text == []
      ensures r.Good? && old(Rest()) != [] ==> |r.text| == 1 && buff == old(buff) + r.text
      ensures r.Good? && old(Rest()) != [] ==>
        LexEscape(old(Rest()), del, old(linenumber)) == Cons(r.text[0], Lex(Rest(), del, linenumber))
    {
      hide Lex, DecimalOf;
      r := Good([]);
      if current == EOZ { return; }
      var simple := Simple(current);
      if simple.Some? {
        Save(simple.value);
        Next();
        r := Good([simple.value]);
      } else if IsNewline(current) {
        Save(NEWLINE);
        var ok := IncLineNumber();
        r := if ok then Good([NEWLINE]) else Raised("chunk has too many lines");
      } else if !IsDigit(current) {
        r := Good([current]);
        SaveAndNext();
      } else {
        var c := ReadDigits();
        if c > 255 { return Raised("escape sequence too large"); }
        Save(c);
        r := Good([c]);
      }
    }

    /** read_string, at an opening delimiter. */
    method ReadString(del: Byte) returns (r: Res)
      requires Valid() && current == del && buff == []
      modifies this
      ensures match Lex(old(Rest())[1..], del, old(linenumber)) case Err(msg) => r == Raised(msg) case Done(text, rest,
        line) => r == Good(text) && Valid() && Rest() == rest && linenumber == line
    {
      hide LexEscape;
      ghost var spec := Lex(Rest()[1..], del, linenumber);
      SaveAndNext();
      ghost var text: seq<Byte> := [];
      assert spec == Before(text, spec) by { if spec.Done? { assert [] + spec.text == spec.text; } }
      while current != del
        invariant Valid() && buff == [del] + text && spec == Before(text, Lex(Rest(), del, linenumber))
        decreases |Rest()|
      {
        ghost var now := Lex(Rest(), del, linenumber);
        if current == EOZ { return Raised("unfinished string"); }
        if IsNewline(current) { return Raised("unfinished string"); }
        if current == BACKSLASH {
          Next();
          EscapeEnd(del, linenumber);
          var one := ReadEscape(del);
          if one.Raised? { return one; }
          if |one.text| > 0 {
            BeforeCons(text, one.text[0], Lex(Rest(), del, linenumber));
            assert one.text == [one.text[0]];
            text := text + one.text;
          } else {
            EscapeEnd(del, linenumber);
          }
        } else {
          ghost var c := current;
          SaveAndNext();
          BeforeCons(text, c, Lex(Rest(), del, linenumber));
          text := text + [c];
        }
      }
      SaveAndNext();
      assert text + [] == text;
      r := Good(buff[1..|buff| - 1]);
      assert buff[1..|buff| - 1] == text;
    }
  }

  /** A literal whose text starts with what has been read already. */
  ghost function Before(text: seq<Byte>, more: Lexed): Lexed {
    match more case Err(msg) => Err(msg) case Done(t, rest, line) => Done(text + t, rest, line)
  }

  lemma BeforeCons(text: seq<Byte>, c: Byte, more: Lexed)
    ensures Before(text, Cons(c, more)) == Before(text + [c], more)
  {
    if more.Done? { assert text + ([c] + more.text) == text + [c] + more.text; }
  }

  lemma EscapeEnd(del: Byte, line: int)
    ensures LexEscape([], del, line) == Err("unfinished string") && Lex([], del, line) == Err("unfinished string")
  {
  }

  // ---- the literal, escape by escape ----

  /** The letter escapes and the characters they stand for. */
  const ESCAPES: map<char, Byte> := map['a' := 7, 'b' := 8, 't' := 9, 'n' := 10, 'v' := 11, 'f' := 12, 'r' := 13]

  /** The literal adds the characters cs, and then goes on as the rest does, on the line given. */
  ghost predicate Adds(bs: seq<Byte>, cs: seq<Byte>, more: seq<Byte>, del: Byte, line: int, next: int) {
    match Lex(more, del, next)
    case Err(msg) => Lex(bs, del, line) == Err(msg)
    case Done(text, rest, last) => Lex(bs, del, line) == Done(cs + text, rest, last)
  }

  /** A letter escape stands for its character, and a character that is no such letter and no digit for itself. */
  lemma LetterEscape(x: char, more: seq<Byte>, del: Byte, line: int)
    requires x as int < 256 && del in {34, 39}
    ensures x in ESCAPES ==> Adds([92, x as int] + more, [ESCAPES[x]], more, del, line, line)
    ensures x !in ESCAPES && x as int !in {10, 13} && !('0' <= x <= '9') ==>
      Adds([92, x as int] + more, [x as int], more, del, line, line)
  {
    hide Lex;
    EscapeStep([x as int] + more, del, line);
    assert ([x as int] + more)[1..] == more;
  }

  lemma EscapeStep(bs: seq<Byte>, del: Byte, line: int)
    requires del != 92
    ensures Lex([92] + bs, del, line) == LexEscape(bs, del, line)
    ensures forall x: Byte, more: seq<Byte> :: [92] + ([x] + more) == [92, x] + more
  {
    assert ([92] + bs)[1..] == bs;
  }

  /** A backslash with a, b and c, the digits of a number up to 255, stands for the character with that code. */
  lemma DecimalEscape(a: nat, b: nat, c: nat, more: seq<Byte>, del: Byte, line: int)
    requires a <= 9 && b <= 9 && c <= 9 && del in {34, 39}
    ensures var code, bs := 100 * a + 10 * b + c, [92, 48 + a, 48 + b, 48 + c] + more;
      if code <= 255 then Adds(bs, [code], more, del, line, line)
        else Lex(bs, del, line) == Err("escape sequence too large")
    ensures more == [] || !(48 <= more[0] <= 57) ==>
      Adds([92, 48 + a, 48 + b] + more, [10 * a + b], more, del, line, line) &&
      Adds([92, 48 + a] + more, [a], more, del, line, line)
  {
    hide Lex;
    var one, two, three: seq<Byte> := [48 + a], [48 + a, 48 + b], [48 + a, 48 + b, 48 + c];
    assert [92] + one == [92, 48 + a] && [92] + two == [92, 48 + a, 48 + b] &&
      [92] + three == [92, 48 + a, 48 + b, 48 + c];
    CodeOf(three, 100 * a + 10 * b + c, more, del, line);
    if more == [] || !(48 <= more[0] <= 57) {
      CodeOf(one, a, more, del, line);
      CodeOf(two, 10 * a + b, more, del, line);
    }
  }

  lemma CodeOf(ds: seq<Byte>, code: nat, more: seq<Byte>, del: Byte, line: int)
    requires 1 <= |ds| <= 3 && AllDigits(ds) && del != 92
    requires |ds| == 3 || more == [] || !(48 <= more[0] <= 57)
    requires code == if |ds| == 1 then ds[0] as int - 48
      else if |ds| == 2 then 10 * (ds[0] as int - 48) + (ds[1] as int - 48)
      else 100 * (ds[0] as int - 48) + 10 * (ds[1] as int - 48) + (ds[2] as int - 48)
    ensures var bs := [92] + ds + more;
      if code <= 255 then Adds(bs, [code], more, del, line, line)
        else Lex(bs, del, line) == Err("escape sequence too large")
  {
    hide Lex;
    var bs := ds + more;
    EscapeStep(bs, del, line);
    assert [92] + ds + more == [92] + bs;
    assert bs[..|ds|] == ds && bs[|ds|..] == more && Digits(bs) == |ds|;
    assert ds[..1] == [ds[0]] && DecimalOf(ds[..1]) == ds[0] as int - 48 by { assert ds[..1][..0] == []; }
    if |ds| > 1 { assert DecimalOf(ds[..2]) == 10 * DecimalOf(ds[..1]) + (ds[1] as int - 48) by { assert ds[..2][..1] == ds[..1]; } }
    if |ds| > 2 { assert DecimalOf(ds) == 10 * DecimalOf(ds[..2]) + (ds[2] as int - 48); }
    assert ds == ds[..|ds|];
  }

  /**
   A backslash before a line break, or before the two different characters of one, adds a newline and counts one
   line; a break without a backslash, and the end of the input, leave the literal unfinished.
   */
  lemma BreakEscape(x: Byte, y: Byte, more: seq<Byte>, del: Byte, line: int)
    requires x in {10, 13} && y in {10, 13} && del in {34, 39} && line + 1 < 0x7FFF_FFFD
    ensures x != y ==> Adds([92, x, y] + more, [10], more, del, line, line + 1)
    ensures more == [] || more[0] == x || more[0] !in {10, 13} ==> Adds([92, x] + more, [10], more, del, line, line + 1)
    ensures Lex([x] + more, del, line) == Err("unfinished string")
    ensures Lex([], del, line) == Err("unfinished string") && Lex([92], del, line) == Err("unfinished string")
  {
    assert ([92, x, y] + more)[1..] == [x, y] + more && ([x, y] + more)[2..] == more;
    assert ([92, x] + more)[1..] == [x] + more && ([x] + more)[1..] == more;
    assert [92][1..] == [];
  }

  /** Any other character stands for itself, up to the delimiter, which ends the literal. */
  lemma PlainCharacter(x: Byte, more: seq<Byte>, del: Byte, line: int)
    requires del in {34, 39}
    ensures x !in {10, 13, 92} && x != del ==> Adds([x] + more, [x], more, del, line, line)
    ensures Lex([del] + more, del, line) == Done([], more, line)
  {
    assert ([x] + more)[1..] == more && ([del] + more)[1..] == more;
  }

  /** What %q writes for a character. */
  lemma QuotedForms(c: Byte)
    ensures c in {34, 92, 10} ==> Quoted(c) == [92, c]
    ensures Quoted(13) == [92, 'r' as int] && Quoted(0) == [92, '0' as int, '0' as int, '0' as int]
    ensures c !in {0, 10, 13, 34, 92} ==> Quoted(c) == [c]
  {
  }

  // ---- round trip ----

  function Newlines(s: seq<Byte>): nat { if s == [] then 0 else (if s[0] == NEWLINE then 1 else 0) + Newlines(s[1..]) }

  lemma NulDigits()
    ensures var z := ['0' as int, '0' as int, '0' as int]; AllDigits(z) && DecimalOf(z) == 0
  {
    var z: seq<Byte> := ['0' as int, '0' as int, '0' as int];
    assert AllDigits(z) && AllDigits(z[..2]) && AllDigits(z[..1]);
    assert z[..2][..1] == z[..1] && z[..1][..0] == [];
    assert DecimalOf(z[..1]) == 0;
    assert DecimalOf(z[..2]) == 0;
  }

  /** The quoted form of one character is read as that character, whatever comes next. */
  lemma QuotedOne(c: Byte, more: seq<Byte>, line: int)
    requires |more| > 0 && !IsNewline(more[0])
    ensures Lex(Quoted(c) + more, QUOTE, line) == if c == NEWLINE && line + 1 >= MAXINT
      then Err("chunk has too many lines") else Cons(c, Lex(more, QUOTE, if c == NEWLINE then line + 1 else line))
  {
    var q := Quoted(c);
    var bs := q + more;
    assert bs[|q|..] == more;
    if c == 0 {
      var e := bs[1..];
      assert e[..3] == ['0' as int, '0' as int, '0' as int] && e[3..] == more;
      NulDigits();
    } else if q[0] == BACKSLASH {
      assert bs[1..][0] == q[1] && bs[1..][1..] == more;
    }
  }

  lemma {:induction false} QuotedStart(s: seq<Byte>, more: seq<Byte>)
    ensures var bs := QuotedAll(s) + [QUOTE] + more; |bs| > 0 && !IsNewline(bs[0])
  {
    if s != [] {
      assert QuotedAll(s)[0] == Quoted(s[0])[0];
    }
  }

  /**
   * Reading the literal for s gives s back and consumes exactly the literal; only the count of lines, when
   * it would pass the largest one allowed, can stop it.
   */
  lemma {:induction false} ReadQuoted(s: seq<Byte>, more: seq<Byte>, line: int)
    ensures Lex(QuotedAll(s) + [QUOTE] + more, QUOTE, line) == if Newlines(s) > 0 && line + Newlines(s) >= MAXINT
      then Err("chunk has too many lines") else Done(s, more, line + Newlines(s))
    decreases |s|
  {
    if s == [] {
      assert QuotedAll(s) + [QUOTE] + more == [QUOTE] + more;
    } else {
      var next := QuotedAll(s[1..]) + [QUOTE] + more;
      assert QuotedAll(s) + [QUOTE] + more == Quoted(s[0]) + next;
      QuotedStart(s[1..], more);
      QuotedOne(s[0], next, line);
      ReadQuoted(s[1..], more, if s[0] == NEWLINE then line + 1 else line);
      assert s == [s[0]] + s[1..];
    }
  }

  /** The two ends together: a string, written with %q between other text, and read. */
  method RoundTrip(s: seq<Byte>, more: seq<Byte>, line: int) returns (r: Res, rest: seq<Byte>)
    ensures Newlines(s) == 0 || line + Newlines(s) < 0x7FFF_FFFD <==> r.Good?
    ensures r.Good? ==> r.text == s && rest == more
    ensures r.Raised? ==> r.msg == "chunk has too many lines"
  {
    var b := AddQuoted([], s);
    var ls := new LexState(b + more, line);
    assert (b + more)[1..] == QuotedAll(s) + [QUOTE] + more;
    ReadQuoted(s, more, line);
    assert ls.Rest()[0] == QUOTE;
    r := ls.ReadString(QUOTE);
    rest := if r.Good? && ls.current != EOZ then [ls.current] + ls.input else [];
  }
}
