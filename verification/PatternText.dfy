/** What the texts of patterns stand for: classes, sets, suffixes, captures and the malformed ones. */
module PatternText {
  import opened Common
  import opened Pattern
  import opened Matcher
  import opened Finder

  // ---- classes ----

  /** A stretch of characters, both ends included. */
  predicate In(c: int, lo: char, hi: char) { lo as int <= c <= hi as int }

  /** Whether a class letter x, after `%`, takes c in the C locale; None when x is no class letter. */
  function LetterTakes(x: char, c: int): Option<bool> {
    if x == 'a' then Some(In(c, 'A', 'Z') || In(c, 'a', 'z'))
    else if x == 'c' then Some(0 <= c <= 31 || c == 127)
    else if x == 'd' then Some(In(c, '0', '9'))
    else if x == 'l' then Some(In(c, 'a', 'z'))
    else if x == 'p' then Some(In(c, '!', '/') || In(c, ':', '@') || In(c, '[', '`') || In(c, '{', '~'))
    else if x == 's' then Some(c in {9, 10, 11, 12, 13, 32})
    else if x == 'u' then Some(In(c, 'A', 'Z'))
    else if x == 'w' then Some(In(c, '0', '9') || In(c, 'A', 'Z') || In(c, 'a', 'z'))
    else if x == 'x' then Some(In(c, '0', '9') || In(c, 'A', 'F') || In(c, 'a', 'f'))
    else if x == 'z' then Some(c == 0)
    else None
  }

  /** Class letters, their capitals for the complements, and the other characters, which stand for themselves. */
  lemma ClassLetters(c: Byte, x: char)
    requires x as int < 256
    ensures LetterTakes(x, c).Some? ==> (MatchClass(c, x as int) <==> LetterTakes(x, c).value)
    ensures LetterTakes(x, c).Some? ==> (MatchClass(c, x as int - 32) <==> !LetterTakes(x, c).value)
    ensures !IsAlpha(x as int) ==> (MatchClass(c, x as int) <==> c == x as int)
  {
  }

  /** The classes one by one, and how they are composed. */
  lemma Classes(c: Byte)
    ensures MatchClass(c, 'd' as int) <==> 48 <= c <= 57
    ensures MatchClass(c, 'l' as int) <==> 97 <= c <= 122
    ensures MatchClass(c, 'u' as int) <==> 65 <= c <= 90
    ensures MatchClass(c, 'a' as int) <==> MatchClass(c, 'l' as int) || MatchClass(c, 'u' as int)
    ensures MatchClass(c, 'w' as int) <==> MatchClass(c, 'a' as int) || MatchClass(c, 'd' as int)
    ensures MatchClass(c, 'x' as int) <==> MatchClass(c, 'd' as int) || 97 <= c <= 102 || 65 <= c <= 70
    ensures MatchClass(c, 's' as int) <==> c == 32 || 9 <= c <= 13
    ensures MatchClass(c, 'c' as int) <==> c < 32 || c == 127
    ensures MatchClass(c, 'p' as int) <==> 33 <= c <= 126 && !MatchClass(c, 'w' as int)
    ensures MatchClass(c, 'z' as int) <==> c == 0
  {
  }

  // ---- one item ----

  /** A character that stands for itself wherever it is: no character of this list, and not NUL. */
  predicate Ordinary(c: Byte) {
    c != 0 && c as char !in {'^', '$', '*', '+', '?', '.', '(', ')', '[', ']', '%', '-'}
  }

  /** What the one item of a pattern that takes one character gives at i, when `takes` says if it takes the character there. */
  ghost predicate TakesOne(s: seq<Byte>, pat: seq<Byte>, i: nat, takes: bool) {
    Outs(s, Items(pat, 0), i, []) == if i < |s| && takes then [Match(i + 1, [])] else []
  }

  lemma ExactlyOne(s: seq<Byte>, pat: seq<Byte>, one: Single, i: nat)
    requires pat != [] && pat[0] != 0 && ItemAt(pat, 0) == Parsed(Exactly(one), |pat|)
    ensures Items(pat, 0) == [Exactly(one)] && TakesOne(s, pat, i, i < |s| && one.Has(s[i]))
  {
    assert Items(pat, |pat|) == [];
    var items := [Exactly(one)];
    assert Items(pat, 0) == items && items[1..] == [];
    assert forall j: nat :: Outs(s, [], j, []) == [Match(j, [])];
  }

  /** A character for itself. */
  lemma PlainText(s: seq<Byte>, c: Byte, i: nat)
    requires Ordinary(c)
    ensures TakesOne(s, [c], i, i < |s| && s[i] == c)
  {
    ExactlyOne(s, [c], One(Char(c)), i);
  }

  /** A dot takes every character. */
  lemma DotText(s: seq<Byte>, i: nat)
    ensures TakesOne(s, ['.' as int], i, true)
  {
    ExactlyOne(s, ['.' as int], Any, i);
  }

  /** `%x` takes the characters of the class x, or for a capital those outside the class. */
  lemma ClassText(s: seq<Byte>, x: char, i: nat)
    requires LetterTakes(x, 0).Some? && i < |s|
    ensures TakesOne(s, ['%' as int, x as int], i, LetterTakes(x, s[i]).value)
    ensures TakesOne(s, ['%' as int, x as int - 32], i, !LetterTakes(x, s[i]).value)
  {
    hide MatchClass;
    ClassLetters(s[i], x);
    ExactlyOne(s, ['%' as int, x as int], One(Class(x as int)), i);
    ExactlyOne(s, ['%' as int, x as int - 32], One(Class(x as int - 32)), i);
  }

  /** `%` before any character that is no letter and no digit takes that character. */
  lemma EscapedText(s: seq<Byte>, x: char, i: nat)
    requires 0 < x as int < 256 && !IsAlpha(x as int) && !IsDigit(x as int) && i < |s|
    ensures TakesOne(s, ['%' as int, x as int], i, s[i] == x as int)
  {
    hide MatchClass;
    ClassLetters(s[i], x);
    ExactlyOne(s, ['%' as int, x as int], One(Class(x as int)), i);
  }

  /** What the matcher answers for one class: found, one character further on, exactly when the character is in it. */
  lemma ClassVerdict(s: seq<Byte>, x: char, i: nat, r: Res, after: seq<Capture>)
    requires LetterTakes(x, 0).Some? && i < |s|
    requires Verdict(Outs(s, Items(['%' as int, x as int], 0), i, []), r, [], after)
    ensures r == if LetterTakes(x, s[i]).value then Found(i + 1) else NotFound
  {
    hide Outs, Items;
    ClassText(s, x, i);
  }

  /** A search for a class finds its first character from init on, or nothing when there is none. */
  lemma FindsClass(s: seq<Byte>, x: char, init: nat, whole: bool, a: Answer)
    requires LetterTakes(x, 0).Some? && init <= |s|
    requires PatternAnswer(s, Items(['%' as int, x as int], 0), init, false, whole, a)
    ensures a.Nothing? <==> forall k :: init <= k < |s| ==> !LetterTakes(x, s[k]).value
    ensures a.Span? ==>
      init <= a.start < |s| && a.end == a.start + 1 && LetterTakes(x, s[a.start]).value &&
      forall k :: init <= k < a.start ==> !LetterTakes(x, s[k]).value
    ensures !a.Oops?
  {
    hide Outs, Items, LetterTakes;
    LetterKnown(x);
    var items := Items(['%' as int, x as int], 0);
    forall k: nat | k <= |s|
      ensures Outs(s, items, k, []) == if k < |s| && LetterTakes(x, s[k]).value then [Match(k + 1, [])] else []
    {
      ClassAt(s, x, k);
    }
    match a {
      case Nothing =>
        forall k | init <= k < |s| ensures !LetterTakes(x, s[k]).value { assert Outs(s, items, k, []) == []; }
      case Span(start, end, _) =>
        assert Outs(s, items, start, []) == [Match(start + 1, [])];
        forall k | init <= k < start ensures !LetterTakes(x, s[k]).value { assert Outs(s, items, k, []) == []; }
      case Oops(msg) =>
        assert false;
    }
  }

  lemma LetterKnown(x: char)
    requires LetterTakes(x, 0).Some?
    ensures x as int < 256 && forall c: int :: LetterTakes(x, c).Some?
  {
  }

  lemma ClassAt(s: seq<Byte>, x: char, k: nat)
    requires LetterTakes(x, 0).Some? && k <= |s|
    ensures Outs(s, Items(['%' as int, x as int], 0), k, []) ==
      if k < |s| && LetterTakes(x, s[k]).value then [Match(k + 1, [])] else []
  {
    hide MatchClass;
    if k < |s| { ClassText(s, x, k); } else { ExactlyOne(s, ['%' as int, x as int], One(Class(x as int)), k); }
  }

  // ---- sets ----

  predicate Writable(e: Elem) {
    match e
    case Class(cl) => 0 < cl < 256
    case Range(lo, hi) => 0 < lo < 256 && 0 < hi < 256 && Ordinary(lo) && Ordinary(hi)
    case Char(c) => 0 < c < 256 && Ordinary(c)
  }

  /** How an element of a set is written. */
  function ElemText(e: Elem): (t: seq<Byte>)
    requires Writable(e)
    ensures |t| > 0
  {
    match e
    case Class(cl) => ['%' as int, cl]
    case Range(lo, hi) => [lo, '-' as int, hi]
    case Char(c) => [c]
  }

  function SetText(es: seq<Elem>): (t: seq<Byte>)
    requires forall e :: e in es ==> Writable(e)
    ensures |t| >= |es|
  {
    if es == [] then [] else ElemText(es[0]) + SetText(es[1..])
  }

  /** The elements are read as they were written, up to the bracket at ec. */
  lemma {:induction false} ElemsText(pat: seq<Byte>, p: nat, ec: nat, es: seq<Elem>)
    requires (forall e :: e in es ==> Writable(e)) && p <= ec < |pat| && pat[p..ec] == SetText(es) &&
      pat[ec] == ']' as int
    ensures Elems(pat, p, ec) == es && (es != [] ==> SetEnd(pat, p) == EndAt(ec + 1))
    decreases |es|
  {
    hide Elems, SetEnd;
    if es == [] {
      ElemsEnd(pat, p, ec);
    } else {
      var t, q := ElemText(es[0]), p + |ElemText(es[0])|;
      assert forall k :: 0 <= k < |t| ==> pat[p + k] == pat[p..ec][k] == t[k];
      assert pat[q..ec] == pat[p..ec][|t|..] == SetText(es[1..]);
      ElemsText(pat, q, ec, es[1..]);
      NextStart(pat, q, ec, es[1..]);
      ElemRead(pat, p, ec, es[0], es[1..] == []);
    }
  }

  lemma ElemsEnd(pat: seq<Byte>, p: nat, ec: nat)
    requires p >= ec
    ensures Elems(pat, p, ec) == []
  {
  }

  /** One element, and what the scan for the closing bracket does with it. */
  lemma ElemRead(pat: seq<Byte>, p: nat, ec: nat, e: Elem, last: bool)
    requires Writable(e) && p + |ElemText(e)| <= ec < |pat|
    requires forall k :: 0 <= k < |ElemText(e)| ==> pat[p + k] == ElemText(e)[k]
    requires var q := p + |ElemText(e)|;
      pat[q] != '-' as int && (if last then q == ec && pat[q] == ']' as int else q < ec && pat[q] != ']' as int)
    ensures var q := p + |ElemText(e)|;
      Elems(pat, p, ec) == [e] + Elems(pat, q, ec) && SetEnd(pat, p) == if last then EndAt(ec + 1) else SetEnd(pat, q)
  {
    assert pat[p] == ElemText(e)[0];
    match e
    case Class(cl) => assert pat[p + 1] == ElemText(e)[1];
    case Range(lo, hi) => assert pat[p + 1] == ElemText(e)[1] && pat[p + 2] == ElemText(e)[2]; RangeEnd(pat, p, lo, hi);
    case Char(c) =>
  }

  lemma RangeEnd(pat: seq<Byte>, p: nat, lo: Byte, hi: Byte)
    requires p + 3 < |pat| && pat[p] == lo && pat[p + 1] == '-' as int && pat[p + 2] == hi && Ordinary(lo) &&
      Ordinary(hi)
    ensures SetEnd(pat, p) == if pat[p + 3] == ']' as int then EndAt(p + 4) else SetEnd(pat, p + 3)
  {
    assert SetEnd(pat, p) == SetEnd(pat, p + 1);
    assert SetEnd(pat, p + 1) == SetEnd(pat, p + 2);
  }

  /** What stands after an element: the closing bracket, or the start of the next, which is no bracket and no dash. */
  lemma NextStart(pat: seq<Byte>, q: nat, ec: nat, es: seq<Elem>)
    requires (forall e :: e in es ==> Writable(e)) && q <= ec < |pat| && pat[q..ec] == SetText(es) &&
      pat[ec] == ']' as int
    ensures pat[q] != '-' as int && (es != [] ==> q < ec && pat[q] != ']' as int && pat[q] != 0) &&
      (es == [] ==> q == ec)
  {
    if es != [] { assert pat[q] == pat[q..ec][0] == ElemText(es[0])[0]; }
  }

  lemma SetHas(neg: bool, es: seq<Elem>, c: int)
    ensures Set(neg, es).Has(c) <==> neg != exists k :: 0 <= k < |es| && es[k].Has(c)
    ensures forall e: Elem :: e.Has(c) <==>
      (e.Class? && MatchClass(c, e.cl)) || (e.Range? && e.lo <= c <= e.hi) || (e.Char? && c == e.c)
  {
  }

  lemma SetItem(neg: bool, es: seq<Elem>)
    requires es != [] && forall e :: e in es ==> Writable(e)
    ensures var pat := ['[' as int] + (if neg then ['^' as int] else []) + SetText(es) + [']' as int];
      ItemAt(pat, 0) == Parsed(Exactly(Set(neg, es)), |pat|)
  {
    hide Items;
    var head := ['[' as int] + if neg then ['^' as int] else [];
    var pat := head + SetText(es) + [']' as int];
    var ec := |head| + |SetText(es)|;
    assert pat[|head|..ec] == SetText(es) && pat[ec] == ']' as int && ec + 1 == |pat|;
    ElemsText(pat, |head|, ec, es);
    NextStart(pat, |head|, ec, es);
    FirstInSet(pat, |head|, ec, es, neg);
  }

  /** A set takes the characters of its classes, ranges and single characters; with `^` in front, the others. */
  lemma SetVerdict(s: seq<Byte>, neg: bool, es: seq<Elem>, i: nat, r: Res, after: seq<Capture>)
    requires es != [] && (forall e :: e in es ==> Writable(e)) && i < |s|
    requires var pat := ['[' as int] + (if neg then ['^' as int] else []) + SetText(es) + [']' as int];
      Verdict(Outs(s, Items(pat, 0), i, []), r, [], after)
    ensures (exists e :: e in es && e.Class? && MatchClass(s[i], e.cl)) || (exists e ::
      e in es && e.Range? && e.lo <= s[i] <= e.hi) || (exists e :: e in es && e.Char? && s[i] == e.c) ==>
      r == if neg then NotFound else Found(i + 1)
    ensures (forall e :: e in es ==> (e.Class? ==> !MatchClass(s[i], e.cl)) && (e.Range? ==> !(e.lo <= s[i] <= e.hi)) && (e.Char? ==> s[i] != e.c)) ==>
      r == if neg then Found(i + 1) else NotFound
  {
    hide Outs, Items, MatchClass, SetText, ItemAt;
    SetItem(neg, es);
    var pat := ['[' as int] + (if neg then ['^' as int] else []) + SetText(es) + [']' as int];
    SetHas(neg, es, s[i]);
    ExactlyOne(s, pat, Set(neg, es), i);
  }

  lemma FirstInSet(pat: seq<Byte>, q: nat, ec: nat, es: seq<Elem>, neg: bool)
    requires q == (if neg then 2 else 1) && q < ec && ec + 1 == |pat| && pat[0] == '[' as int &&
      (neg ==> pat[1] == '^' as int)
    requires es != [] && (forall e :: e in es ==> Writable(e)) && pat[q..ec] == SetText(es) && pat[ec] == ']' as int
    requires Elems(pat, q, ec) == es && SetEnd(pat, q) == EndAt(ec + 1)
    ensures ItemAt(pat, 0) == Parsed(Exactly(Set(neg, es)), |pat|)
  {
    hide Elems, SetEnd;
    assert pat[q] == pat[q..ec][0] == ElemText(es[0])[0];
  }

  // ---- suffixes ----

  lemma {:induction false} AllLongest(s: seq<Byte>, i: nat, n: nat)
    ensures Longest(s, [], i, n, []) == seq(n + 1, k requires 0 <= k <= n => Match(i + n - k, []))
  {
    hide Outs;
    OutsDone(s);
    if n > 0 { AllLongest(s, i, n - 1); }
  }

  lemma {:induction false} AllShortest(s: seq<Byte>, i: nat, n: nat)
    ensures Shortest(s, [], i, n, []) == seq(n + 1, k requires 0 <= k <= n => Match(i + k, []))
    decreases n
  {
    hide Outs;
    OutsDone(s);
    if n > 0 { AllShortest(s, i + 1, n - 1); }
  }

  lemma TwoText(pat: seq<Byte>, item: Item)
    requires |pat| == 2 && pat[0] != 0 && ItemAt(pat, 0) == Parsed(item, 2) && !item.Malformed?
    ensures Items(pat, 0) == [item] && [item][1..] == []
  {
    assert Items(pat, 2) == [];
  }

  /** A run of n times c starts at i, and no longer one. */
  ghost predicate RunOf(s: seq<Byte>, c: Byte, i: nat, n: nat) {
    (n > 0 ==> i + n <= |s|) && (forall k :: i <= k < i + n ==> s[k] == c) && (i + n < |s| ==> s[i + n] != c)
  }

  lemma {:induction false} RunIs(s: seq<Byte>, c: Byte, i: nat, n: nat)
    requires RunOf(s, c, i, n)
    ensures MaxRun(s, One(Char(c)), i) == n && (Fits(s, One(Char(c)), i) <==> n > 0)
    decreases n
  {
    if n > 0 { RunIs(s, c, i + 1, n - 1); }
  }

  /**
   The suffixes, where n times c stand at i: `?` takes one or none, `*` from n down to none, `+` from n down to
   one, `-` from none up to n; what is tried first comes first.
   */
  lemma SuffixText(s: seq<Byte>, c: Byte, i: nat, n: nat)
    requires Ordinary(c) && RunOf(s, c, i, n)
    ensures Outs(s, Items([c, '?' as int], 0), i, []) == (if n > 0 then [Match(i + 1, [])] else []) + [Match(i, [])]
    ensures Outs(s, Items([c, '*' as int], 0), i, []) == seq(n + 1, k requires 0 <= k <= n => Match(i + n - k, []))
    ensures Outs(s, Items([c, '+' as int], 0), i, []) == seq(n, k requires 0 <= k < n => Match(i + n - k, []))
    ensures Outs(s, Items([c, '-' as int], 0), i, []) == seq(n + 1, k requires 0 <= k <= n => Match(i + k, []))
  {
    var one := One(Char(c));
    RunIs(s, c, i, n);
    OptionalText(s, c, i);
    StarText(s, c, i, n);
    PlusText(s, c, i, n);
    MinusText(s, c, i, n);
  }

  lemma OptionalText(s: seq<Byte>, c: Byte, i: nat)
    requires Ordinary(c)
    ensures Outs(s, Items([c, '?' as int], 0), i, []) ==
      (if Fits(s, One(Char(c)), i) then [Match(i + 1, [])] else []) + [Match(i, [])]
  {
    TwoText([c, '?' as int], Optional(One(Char(c))));
    assert forall j: nat :: Outs(s, [], j, []) == [Match(j, [])];
  }

  lemma StarText(s: seq<Byte>, c: Byte, i: nat, n: nat)
    requires Ordinary(c) && MaxRun(s, One(Char(c)), i) == n
    ensures Outs(s, Items([c, '*' as int], 0), i, []) == seq(n + 1, k requires 0 <= k <= n => Match(i + n - k, []))
  {
    hide MaxRun;
    TwoText([c, '*' as int], Star(One(Char(c))));
    AllLongest(s, i, n);
  }

  lemma PlusText(s: seq<Byte>, c: Byte, i: nat, n: nat)
    requires Ordinary(c) && MaxRun(s, One(Char(c)), i) == n && (Fits(s, One(Char(c)), i) <==> n > 0)
    ensures Outs(s, Items([c, '+' as int], 0), i, []) == seq(n, k requires 0 <= k < n => Match(i + n - k, []))
  {
    TwoText([c, '+' as int], Plus(One(Char(c))));
    if n > 0 {
      assert MaxRun(s, One(Char(c)), i + 1) == n - 1;
      AllLongest(s, i + 1, n - 1);
    }
  }

  lemma MinusText(s: seq<Byte>, c: Byte, i: nat, n: nat)
    requires Ordinary(c) && MaxRun(s, One(Char(c)), i) == n
    ensures Outs(s, Items([c, '-' as int], 0), i, []) == seq(n + 1, k requires 0 <= k <= n => Match(i + k, []))
  {
    hide MaxRun;
    TwoText([c, '-' as int], Minus(One(Char(c))));
    AllShortest(s, i, n);
  }

  // ---- captures, anchors and the other items ----

  lemma ItemsStep(pat: seq<Byte>, p: nat, item: Item, next: nat)
    requires p < |pat| && pat[p] != 0 && ItemAt(pat, p) == Parsed(item, next) && !item.Malformed?
    ensures Items(pat, p) == [item] + Items(pat, next)
  {
  }

  lemma ItemsEnd(pat: seq<Byte>)
    ensures Items(pat, |pat|) == []
  {
  }

  /** `()` captures the place, `(c)` the text it matched; a bracket left open leaves the capture open. */
  lemma CaptureText(s: seq<Byte>, c: Byte, i: nat)
    requires Ordinary(c)
    ensures Outs(s, Items(['(' as int, ')' as int], 0), i, []) == [Match(i, [Capture(i, -2)])]
    ensures Outs(s, Items(['(' as int, c, ')' as int], 0), i, []) ==
      if i < |s| && s[i] == c then [Match(i + 1, [Capture(i, 1)])] else []
    ensures Outs(s, Items(['(' as int, c], 0), i, []) == if i < |s| && s[i] == c then [Match(i + 1, [Capture(i, -1)])]
      else []
  {
    PlaceText(s, i);
    GroupText(s, c, i);
    OpenText(s, c, i);
  }

  lemma PlaceText(s: seq<Byte>, i: nat)
    ensures Outs(s, Items(['(' as int, ')' as int], 0), i, []) == [Match(i, [Capture(i, -2)])]
  {
    hide Items;
    TwoText(['(' as int, ')' as int], Position);
    OutsDone(s);
    assert [] + [Capture(i, POSITION)] == [Capture(i, -2)];
  }

  lemma OutsDone(s: seq<Byte>)
    ensures forall j: nat, caps :: Outs(s, [], j, caps) == [Match(j, caps)]
  {
  }

  lemma GroupText(s: seq<Byte>, c: Byte, i: nat)
    requires Ordinary(c)
    ensures Outs(s, Items(['(' as int, c, ')' as int], 0), i, []) ==
      if i < |s| && s[i] == c then [Match(i + 1, [Capture(i, 1)])] else []
  {
    var pat, one := ['(' as int, c, ')' as int], One(Char(c));
    ItemsStep(pat, 0, Open, 1);
    ItemsStep(pat, 1, Exactly(one), 2);
    ItemsStep(pat, 2, Close, 3);
    ItemsEnd(pat);
    hide Items;
    assert Items(pat, 0) == [Open, Exactly(one), Close];
    CloseOne(s, i, 1);
    OutsOpen(s, [Open, Exactly(one), Close], i);
    assert [Open, Exactly(one), Close][1..] == [Exactly(one), Close] && [Exactly(one), Close][1..] == [Close];
  }

  lemma OutsOpen(s: seq<Byte>, items: seq<Item>, i: nat)
    requires |items| > 0 && items[0] == Open
    ensures Outs(s, items, i, []) == Outs(s, items[1..], i, [Capture(i, -1)])
  {
    assert [] + [Capture(i, UNFINISHED)] == [Capture(i, -1)];
  }

  /** Closing the one capture, opened at i, n characters further on. */
  lemma CloseOne(s: seq<Byte>, i: nat, n: nat)
    ensures Outs(s, [Close], i + n, [Capture(i, -1)]) == [Match(i + n, [Capture(i, n)])]
  {
    assert [Close][1..] == [];
    assert LastOpen([Capture(i, -1)]) == 0;
    assert [Capture(i, -1)][0 := Capture(i, n)] == [Capture(i, n)];
  }

  lemma OpenText(s: seq<Byte>, c: Byte, i: nat)
    requires Ordinary(c)
    ensures Outs(s, Items(['(' as int, c], 0), i, []) == if i < |s| && s[i] == c then [Match(i + 1, [Capture(i, -1)])]
      else []
  {
    var pat, one := ['(' as int, c], One(Char(c));
    ItemsStep(pat, 0, Open, 1);
    ItemsStep(pat, 1, Exactly(one), 2);
    ItemsEnd(pat);
    hide Items;
    assert Items(pat, 0) == [Open, Exactly(one)];
    OutsOpen(s, [Open, Exactly(one)], i);
    OutsDone(s);
    assert [Open, Exactly(one)][1..] == [Exactly(one)] && [Exactly(one)][1..] == [];
  }

  /** `(.)%1` takes the same character twice. */
  lemma BackText(s: seq<Byte>, i: nat)
    ensures Outs(s, Items(['(' as int, '.' as int, ')' as int, '%' as int, '1' as int], 0), i, []) ==
      if i + 1 < |s| && s[i] == s[i + 1] then [Match(i + 2, [Capture(i, 1)])] else []
  {
    var pat := ['(' as int, '.' as int, ')' as int, '%' as int, '1' as int];
    ItemsStep(pat, 0, Open, 1);
    ItemsStep(pat, 1, Exactly(Any), 2);
    ItemsStep(pat, 2, Close, 3);
    ItemsStep(pat, 3, Back(0), 5);
    ItemsEnd(pat);
    hide Items;
    var items := [Open, Exactly(Any), Close, Back(0)];
    assert Items(pat, 0) == items;
    OutsOpen(s, items, i);
    assert items[1..] == [Exactly(Any), Close, Back(0)] && [Exactly(Any), Close, Back(0)][1..] == [Close, Back(0)];
    if i < |s| { BackOne(s, i); }
  }

  lemma BackOne(s: seq<Byte>, i: nat)
    requires i < |s|
    ensures Outs(s, [Close, Back(0)], i + 1, [Capture(i, -1)]) ==
      if i + 1 < |s| && s[i] == s[i + 1] then [Match(i + 2, [Capture(i, 1)])] else []
  {
    assert [Close, Back(0)][1..] == [Back(0)] && [Back(0)][1..] == [];
    assert LastOpen([Capture(i, -1)]) == 0 && [Capture(i, -1)][0 := Capture(i, 1)] == [Capture(i, 1)];
    OutsDone(s);
    if i + 1 < |s| { assert s[i + 1..i + 2] == [s[i + 1]] && s[i..i + 1] == [s[i]]; }
  }

  /** `$` at the end of the pattern is the end of the subject; before anything else it is a dollar. */
  lemma DollarText(s: seq<Byte>, c: Byte, i: nat)
    requires Ordinary(c)
    ensures Outs(s, Items(['$' as int], 0), i, []) == if i == |s| then [Match(i, [])] else []
    ensures Outs(s, Items(['$' as int, c], 0), i, []) ==
      if i + 1 < |s| && s[i] == '$' as int && s[i + 1] == c then [Match(i + 2, [])] else []
  {
    var dollar, one := One(Char('$' as int)), One(Char(c));
    ItemsStep(['$' as int], 0, EndOfString, 1);
    ItemsEnd(['$' as int]);
    var pat := ['$' as int, c];
    ItemsStep(pat, 0, Exactly(dollar), 1);
    ItemsStep(pat, 1, Exactly(one), 2);
    ItemsEnd(pat);
    hide Items;
    assert Items(pat, 0) == [Exactly(dollar), Exactly(one)] && Items(['$' as int], 0) == [EndOfString];
    assert [Exactly(dollar), Exactly(one)][1..] == [Exactly(one)] && [Exactly(one)][1..] == [];
    OutsDone(s);
  }

  /** `%bxy` takes x, then on to the y that closes it. */
  lemma BalanceText(s: seq<Byte>, x: Byte, y: Byte, i: nat)
    requires x != 0 && y != 0
    ensures Items(['%' as int, 'b' as int, x, y], 0) == [Balance(x, y)]
    ensures i < |s| && s[i] != x ==> Outs(s, [Balance(x, y)], i, []) == []
    ensures x != y && i + 1 < |s| && s[i] == x && s[i + 1] == y ==>
      Outs(s, [Balance(x, y)], i, []) == [Match(i + 2, [])]
    ensures x != y && i + 3 < |s| && s[i..i + 4] == [x, x, y, y] ==>
      Outs(s, [Balance(x, y)], i, []) == [Match(i + 4, [])]
  {
    var pat := ['%' as int, 'b' as int, x, y];
    ItemsStep(pat, 0, Balance(x, y), 4);
    ItemsEnd(pat);
    assert [Balance(x, y)][1..] == [];
    OutsDone(s);
    if x != y && i + 3 < |s| && s[i..i + 4] == [x, x, y, y] {
      assert s[i] == s[i..i + 4][0] && s[i + 1] == s[i..i + 4][1] && s[i + 2] == s[i..i + 4][2] &&
        s[i + 3] == s[i..i + 4][3];
      assert BalanceEnd(s, i + 3, x, y, 1) == Some(i + 4);
      assert BalanceEnd(s, i + 2, x, y, 2) == Some(i + 4);
      assert BalanceEnd(s, i + 1, x, y, 1) == Some(i + 4);
    }
  }

  /** `%f[c]` takes nothing, where c starts. */
  lemma FrontierText(s: seq<Byte>, c: Byte, i: nat)
    requires Ordinary(c) && i <= |s|
    ensures Outs(s, Items(['%' as int, 'f' as int, '[' as int, c, ']' as int], 0), i, []) ==
      if i < |s| && s[i] == c && (i == 0 || s[i - 1] != c) then [Match(i, [])] else []
  {
    var pat := ['%' as int, 'f' as int, '[' as int, c, ']' as int];
    assert SetEnd(pat, 3) == EndAt(5);
    assert Elems(pat, 4, 4) == [];
    assert Elems(pat, 3, 4) == [Char(c)];
    ItemsStep(pat, 0, Frontier(Set(false, [Char(c)])), 5);
    ItemsEnd(pat);
    assert forall x :: Set(false, [Char(c)]).Has(x) <==> [Char(c)][0].Has(x);
    OutsDone(s);
  }

  /** The malformed patterns, and the error each raises. */
  lemma MalformedText(s: seq<Byte>, c: Byte, i: nat)
    requires Ordinary(c)
    ensures Outs(s, Items(['%' as int], 0), i, []) == [Error("malformed pattern (ends with '%')")]
    ensures Outs(s, Items(['[' as int, c], 0), i, []) == [Error("malformed pattern (missing ']')")]
    ensures Outs(s, Items(['%' as int, 'b' as int], 0), i, []) == [Error("unbalanced pattern")]
    ensures Outs(s, Items(['%' as int, 'f' as int, c], 0), i, []) == [Error("missing '[' after '%f' in pattern")]
  {
    hide Outs, Items;
    assert SetEnd(['[' as int, c], 2) == Bad("malformed pattern (missing ']')");
    BadText(s, ['%' as int], "malformed pattern (ends with '%')", i);
    BadText(s, ['[' as int, c], "malformed pattern (missing ']')", i);
    BadText(s, ['%' as int, 'b' as int], "unbalanced pattern", i);
    BadText(s, ['%' as int, 'f' as int, c], "missing '[' after '%f' in pattern", i);
  }

  /** The errors about captures; a pattern has at most 32. */
  lemma CaptureErrors(s: seq<Byte>, i: nat, caps: seq<Capture>)
    ensures Outs(s, Items([')' as int], 0), i, []) == [Error("invalid pattern capture")]
    ensures Outs(s, Items(['%' as int, '1' as int], 0), i, []) == [Error("invalid capture index")]
    ensures |caps| == 32 ==> Outs(s, Items(['(' as int], 0), i, caps) == [Error("too many captures")]
    ensures |caps| == 32 ==> Outs(s, Items(['(' as int, ')' as int], 0), i, caps) == [Error("too many captures")]
  {
    ItemsStep([')' as int], 0, Close, 1);
    ItemsStep(['%' as int, '1' as int], 0, Back(0), 2);
    ItemsStep(['(' as int], 0, Open, 1);
    ItemsStep(['(' as int, ')' as int], 0, Position, 2);
  }

  lemma BadText(s: seq<Byte>, pat: seq<Byte>, msg: string, i: nat)
    requires pat != [] && pat[0] != 0 && ItemAt(pat, 0).item == Malformed(msg)
    ensures Outs(s, Items(pat, 0), i, []) == [Error(msg)]
  {
  }

  // ---- the anchor ----

  lemma AtShift(x: Byte, pat: seq<Byte>)
    ensures forall p: int :: p >= 0 ==> At([x] + pat, p + 1) == At(pat, p)
  {
  }

  lemma {:induction false} SetEndShift(x: Byte, pat: seq<Byte>, p: nat)
    ensures SetEnd([x] + pat, p + 1) == match SetEnd(pat, p) case EndAt(ep) => EndAt(ep + 1) case Bad(msg) => Bad(msg)
    decreases |pat| - p
  {
    AtShift(x, pat);
    if At(pat, p) != 0 {
      SetEndShift(x, pat, if At(pat, p) == ESC && At(pat, p + 1) != 0 then p + 2 else p + 1);
    }
  }

  lemma {:induction false} ElemsShift(x: Byte, pat: seq<Byte>, p: nat, ec: nat)
    ensures Elems([x] + pat, p + 1, ec + 1) == Elems(pat, p, ec)
    decreases ec - p
  {
    AtShift(x, pat);
    if p < ec {
      ElemsShift(x, pat, p + 1, ec);
      ElemsShift(x, pat, p + 2, ec);
      if p + 2 < ec { ElemsShift(x, pat, p + 3, ec); }
    }
  }

  /** A set read one place further on. */
  lemma SetShift(x: Byte, pat: seq<Byte>, p: nat, ec: nat)
    ensures SetAt([x] + pat, p + 1, ec + 1) == SetAt(pat, p, ec)
  {
    hide Elems;
    AtShift(x, pat);
    ElemsShift(x, pat, p + 1, ec);
    ElemsShift(x, pat, p + 2, ec);
  }

  lemma ClassEndShift(x: Byte, pat: seq<Byte>, p: nat)
    requires At(pat, p) != 0 && At([x] + pat, p + 1) != 0
    ensures ClassEnd([x] + pat, p + 1) == match ClassEnd(pat,
      p) case EndAt(ep) => EndAt(ep + 1) case Bad(msg) => Bad(msg)
  {
    hide SetEnd;
    AtShift(x, pat);
    SetEndShift(x, pat, p + 1);
    SetEndShift(x, pat, p + 2);
  }

  lemma ItemShift(x: Byte, pat: seq<Byte>, p: nat)
    requires At(pat, p) != 0 && At([x] + pat, p + 1) != 0
    ensures ItemAt([x] + pat, p + 1) == Parsed(ItemAt(pat, p).item, ItemAt(pat, p).next + 1)
  {
    hide ClassEnd, SetAt;
    AtShift(x, pat);
    ClassEndShift(x, pat, p);
    var ep := ClassEnd(pat, p);
    if ep.EndAt? { SetShift(x, pat, p, ep.ep - 1); }
    if At(pat, p + 2) != 0 {
      ClassEndShift(x, pat, p + 2);
      var fp := ClassEnd(pat, p + 2);
      if fp.EndAt? { SetShift(x, pat, p + 2, fp.ep - 1); }
    }
  }

  lemma {:induction false} ItemsShift(x: Byte, pat: seq<Byte>, p: nat)
    ensures Items([x] + pat, p + 1) == Items(pat, p)
    decreases |pat| - p
  {
    hide ItemAt;
    AtShift(x, pat);
    if At(pat, p) != 0 {
      ItemShift(x, pat, p);
      if !ItemAt(pat, p).item.Malformed? { ItemsShift(x, pat, ItemAt(pat, p).next); }
    }
  }

  /** A `^` in front is no part of what is matched, and it alone makes a search start at one place only. */
  lemma AnchorText(pat: seq<Byte>)
    ensures Body(['^' as int] + pat) == Items(pat, 0) && Anchored(['^' as int] + pat)
    ensures (pat == [] || pat[0] != '^' as int) ==> Body(pat) == Items(pat, 0) && !Anchored(pat)
  {
    ItemsShift('^' as int, pat, 0);
  }
}
