/** string.find, string.match and string.gsub over the matcher. */
module Finder {
  import opened Common
  import opened Pattern
  import opened PatternMeaning
  import opened Matcher

  // ---- plain search ----

  ghost predicate Occurs(s: seq<Byte>, t: seq<Byte>, k: nat) { k + |t| <= |s| && s[k..k + |t|] == t }

  /** memchr: the first c among the n bytes from i on. */
  method MemChr(s: seq<Byte>, i: nat, c: Byte, n: nat) returns (r: Option<nat>)
    requires i + n <= |s|
    ensures r.Some? ==> i <= r.value < i + n && s[r.value] == c && forall k :: i <= k < r.value ==> s[k] != c
    ensures r.None? ==> forall k :: i <= k < i + n ==> s[k] != c
  {
    var k := i;
    while k < i + n
      invariant i <= k <= i + n && forall h :: i <= h < k ==> s[h] != c
    {
      if s[k] == c { return Some(k); }
      k := k + 1;
    }
    r := None;
  }

  /** An occurrence is the first character, and then the rest. */
  lemma OccursHead(s: seq<Byte>, t: seq<Byte>, k: nat)
    requires |t| > 0
    ensures Occurs(s, t, k) <==> k + |t| <= |s| && s[k] == t[0] && s[k + 1..k + |t|] == t[1..]
  {
    if k + |t| <= |s| {
      assert s[k..k + |t|] == [s[k]] + s[k + 1..k + |t|];
      assert t == [t[0]] + t[1..];
    }
  }

  /** lmemfind: the first occurrence of t in s. */
  method MemFind(s: seq<Byte>, t: seq<Byte>) returns (r: Option<nat>)
    ensures r.Some? ==> Occurs(s, t, r.value) && forall k: nat :: k < r.value ==> !Occurs(s, t, k)
    ensures r.None? ==> forall k: nat :: !Occurs(s, t, k)
  {
    if |t| == 0 { return Some(0); }
    if |t| > |s| { return None; }
    forall k: nat ensures Occurs(s, t, k) <==> k + |t| <= |s| && s[k] == t[0] && s[k + 1..k + |t|] == t[1..] {
      OccursHead(s, t, k);
    }
    var left, from := |s| - (|t| - 1), 0;
    while left > 0
      invariant left >= 0 && from + left == |s| - (|t| - 1)
      invariant forall k: nat :: k < from ==> !Occurs(s, t, k)
    {
      var first := MemChr(s, from, t[0], left);
      if first.None? { return None; }
      var init := first.value + 1;
      if s[init..init + |t| - 1] == t[1..] { return Some(init - 1); }
      left := left - (init - from);
      from := init;
    }
    r := None;
  }

  // ---- captures as values ----

  datatype Value = Text(text: seq<Byte>) | Place(pos: nat)

  datatype Pushed = Values(values: seq<Value>) | Fault(msg: string)

  /** What capture i of a match from s to e is worth. */
  function CaptureValue(src: seq<Byte>, caps: seq<Capture>, i: nat, s: nat, e: nat): Pushed
    requires s <= e <= |src| && Inside(caps, e)
  {
    if i >= |caps| then (if i == 0 then Values([Text(src[s..e])]) else Fault("invalid capture index"))
    else if caps[i].len == UNFINISHED then Fault("unfinished capture")
    else if caps[i].len == POSITION then Values([Place(caps[i].init + 1)])
    else Values([Text(src[caps[i].init..caps[i].init + caps[i].len])])
  }

  /** How many values a match leaves: the captures, or the whole match when there are none and it is asked for. */
  function Levels(caps: seq<Capture>, whole: bool): nat { if |caps| == 0 && whole then 1 else |caps| }

  /** What a value is worth, from the record of its capture. */
  ghost predicate Worth(src: seq<Byte>, c: Capture, v: Value) {
    if c.len == POSITION then v == Place(c.init + 1)
    else 0 <= c.len && c.init + c.len <= |src| && v == Text(src[c.init..c.init + c.len])
  }

  /** All captures as values, in order, or the match when there are none; one left open is an error. */
  ghost predicate AllCaptures(src: seq<Byte>, caps: seq<Capture>, s: nat, e: nat, whole: bool, r: Pushed)
    requires s <= e <= |src| && Inside(caps, e)
  {
    match r
    case Values(vs) =>
      if caps == [] && whole then vs == [Text(src[s..e])]
      else |vs| == |caps| && forall i: nat :: i < |vs| ==> Worth(src, caps[i], vs[i])
    case Fault(msg) =>
      msg == "unfinished capture" && exists i: nat :: i < |caps| && caps[i].len == UNFINISHED
  }

  /** push_captures */
  method PushCaptures(src: seq<Byte>, caps: seq<Capture>, s: nat, e: nat, whole: bool) returns (r: Pushed)
    requires s <= e <= |src| && Inside(caps, e)
    ensures AllCaptures(src, caps, s, e, whole, r)
  {
    var vs, i := [], 0;
    while i < Levels(caps, whole)
      invariant i == |vs| <= Levels(caps, whole)
      invariant caps == [] && i == 1 ==> vs == [Text(src[s..e])]
      invariant forall k: nat :: k < i && k < |caps| ==> Worth(src, caps[k], vs[k])
    {
      var v := CaptureValue(src, caps, i, s, e);
      if v.Fault? { return v; }
      vs := vs + v.values;
      i := i + 1;
    }
    r := Values(vs);
  }

  // ---- searching ----

  /** The first position from init on where the pattern has an outcome; an anchored one is tried at init only. */
  ghost predicate Leftmost(s: seq<Byte>, items: seq<Item>, init: nat, anchor: bool, k: nat) {
    init <= k <= |s| && (anchor ==> k == init) && Outs(s, items, k, []) != [] &&
    forall h: nat :: init <= h < k ==> Outs(s, items, h, []) == []
  }

  ghost predicate Absent(s: seq<Byte>, items: seq<Item>, init: nat, anchor: bool) {
    forall k: nat :: init <= k <= |s| && (anchor ==> k == init) ==> Outs(s, items, k, []) == []
  }

  /** One start: the captures are forgotten, and the matcher is called. */
  method TryAt(ms: MatchState, p: nat, k: nat) returns (r: Res)
    requires ms.Valid() && p <= |ms.pat| && k <= |ms.src|
    modifies ms`level, ms.capture
    ensures ms.Valid()
    ensures r == NotFound <==> Outs(ms.src, Items(ms.pat, p), k, []) == []
    ensures r.Found? ==> Outs(ms.src, Items(ms.pat, p), k, [])[0] == Match(r.e, ms.Caps())
    ensures r.Found? ==> k <= r.e <= |ms.src| && Inside(ms.Caps(), r.e)
    ensures r.Raised? ==> Outs(ms.src, Items(ms.pat, p), k, [])[0] == Error(r.msg)
  {
    hide Outs, Items;
    ms.level := 0;
    assert ms.Caps() == [];
    r := ms.Match(k, p);
    MatchInside(ms.src, Items(ms.pat, p), k, []);
  }

  /** The loop of str_find_aux: start after start until the matcher answers. */
  method Search(ms: MatchState, p: nat, init: nat, anchor: bool) returns (r: Res, k: nat)
    requires ms.Valid() && p <= |ms.pat| && init <= |ms.src|
    modifies ms`level, ms.capture
    ensures ms.Valid()
    ensures r == NotFound ==> Absent(ms.src, Items(ms.pat, p), init, anchor)
    ensures r != NotFound ==> Leftmost(ms.src, Items(ms.pat, p), init, anchor, k)
    ensures r.Found? ==> Outs(ms.src, Items(ms.pat, p), k, [])[0] == Match(r.e, ms.Caps())
    ensures r.Found? ==> init <= k <= r.e <= |ms.src| && Inside(ms.Caps(), r.e)
    ensures r.Raised? ==> Outs(ms.src, Items(ms.pat, p), k, [])[0] == Error(r.msg)
  {
    hide Outs, Items;
    k := init;
    while true
      invariant ms.Valid() && init <= k <= |ms.src| && (anchor ==> k == init)
      invariant forall h: nat :: init <= h < k ==> Outs(ms.src, Items(ms.pat, p), h, []) == []
      decreases |ms.src| - k
    {
      r := TryAt(ms, p, k);
      if r != NotFound { return; }
      if k == |ms.src| || anchor { return; }
      k := k + 1;
    }
  }

  // ---- string.find and string.match ----

  datatype Answer = Nothing | Span(start: nat, end: nat, captures: seq<Value>) | Oops(msg: string)

  function PosRelat(pos: int, len: nat): int { if pos >= 0 then pos else len + pos + 1 }

  /** Where a search that is asked to start at pos starts. */
  function Start(pos: int, len: nat): (i: nat)
    ensures 1 <= pos <= len + 1 ==> i == pos - 1
    ensures pos < 0 <= len + pos ==> i == len + pos
    ensures pos == 0 || len + pos < 0 ==> i == 0
    ensures pos > len + 1 ==> i == len
  {
    var i := PosRelat(pos, len) - 1;
    if i < 0 then 0 else if i > len then len else i
  }

  predicate Special(c: int) {
    c == '^' as int || c == '$' as int || c == '*' as int || c == '+' as int || c == '?' as int ||
    c == '.' as int || c == '(' as int || c == '[' as int || c == '%' as int || c == '-' as int
  }

  /** strpbrk finds nothing: no special character up to the end, or to the first NUL, of the pattern. */
  ghost predicate NoSpecials(pat: seq<Byte>) {
    forall k: nat :: k < |pat| && Special(pat[k]) ==> exists z: nat :: z < k && pat[z] == 0
  }

  method HasSpecials(pat: seq<Byte>) returns (r: bool)
    ensures r == !NoSpecials(pat)
  {
    var k := 0;
    while k < |pat| && pat[k] != 0
      invariant k <= |pat| && forall h: nat :: h < k ==> pat[h] != 0 && !Special(pat[h])
    {
      if Special(pat[k]) { return true; }
      k := k + 1;
    }
    r := false;
  }

  /** The answer to a search for a text as it stands. */
  ghost predicate PlainAnswer(s: seq<Byte>, pat: seq<Byte>, init: nat, a: Answer) {
    match a
    case Nothing => forall k: nat :: k >= init ==> !Occurs(s, pat, k)
    case Span(start, end, captures) =>
      init <= start && end == start + |pat| && captures == [] && Occurs(s, pat, start) &&
      forall k: nat :: init <= k < start ==> !Occurs(s, pat, k)
    case Oops(msg) => false
  }

  /** The outcome is an error, or a match whose captures cannot be had. */
  ghost predicate Fails(s: seq<Byte>, o: Out, k: nat, whole: bool, msg: string) {
    match o
    case Error(m) => msg == m
    case Match(e, caps) => k <= e <= |s| && Inside(caps, e) && AllCaptures(s, caps, k, e, whole, Fault(msg))
  }

  /** The answer to a search for a pattern: the preferred match at the leftmost start, with its captures. */
  ghost predicate PatternAnswer(s: seq<Byte>, items: seq<Item>, init: nat, anchor: bool, whole: bool, a: Answer) {
    match a
    case Nothing => Absent(s, items, init, anchor)
    case Span(start, end, captures) =>
      Leftmost(s, items, init, anchor, start) && start <= end <= |s| && Outs(s, items, start, [])[0].Match? &&
      var o := Outs(s, items, start, [])[0];
      o.e == end && Inside(o.caps, end) && AllCaptures(s, o.caps, start, end, whole, Values(captures))
    case Oops(msg) =>
      exists k: nat :: Leftmost(s, items, init, anchor, k) && Fails(s, Outs(s, items, k, [])[0], k, whole, msg)
  }

  predicate Anchored(pat: seq<Byte>) { At(pat, 0) == '^' as int }

  /** The pattern without its anchor. */
  function Body(pat: seq<Byte>): seq<Item> { Items(pat, if Anchored(pat) then 1 else 0) }

  method FindPlain(s: seq<Byte>, pat: seq<Byte>, init: nat) returns (a: Answer)
    requires init <= |s|
    ensures PlainAnswer(s, pat, init, a)
  {
    var r := MemFind(s[init..], pat);
    forall k: nat ensures Occurs(s[init..], pat, k) <==> Occurs(s, pat, init + k) {
      if k + |pat| <= |s| - init { assert s[init..][k..k + |pat|] == s[init + k..init + k + |pat|]; }
    }
    forall k: nat | k >= init ensures Occurs(s, pat, k) <==>
      Occurs(s[init..], pat, k - init) { assert init + (k - init) == k; }
    if r.None? { return Nothing; }
    return Span(init + r.value, init + r.value + |pat|, []);
  }

  method FindPattern(s: seq<Byte>, pat: seq<Byte>, init: nat, whole: bool) returns (a: Answer)
    requires init <= |s|
    ensures PatternAnswer(s, Body(pat), init, Anchored(pat), whole, a)
  {
    hide Outs, Items, AllCaptures;
    var ms := new MatchState(s, pat);
    var anchor := Anchored(pat);
    var r, k := Search(ms, if anchor then 1 else 0, init, anchor);
    match r {
      case NotFound => a := Nothing;
      case Raised(msg) => a := Oops(msg);
      case Found(e) =>
        var vs := PushCaptures(s, ms.Caps(), k, e, whole);
        a := match vs case Values(v) => Span(k, e, v) case Fault(msg) => Oops(msg);
    }
  }

  /** What string.match and string.find return for each capture of the match they found. */
  lemma SpanRead(s: seq<Byte>, items: seq<Item>, init: nat, anchor: bool, whole: bool, a: Answer)
    requires PatternAnswer(s, items, init, anchor, whole, a) && a.Span?
    ensures a.start <= a.end <= |s| && Outs(s, items, a.start, []) != [] && Outs(s, items, a.start, [])[0].Match?
    ensures var caps := Outs(s, items, a.start, [])[0].caps;
      if caps == [] then a.captures == if whole then [Text(s[a.start..a.end])] else [] else |a.captures| == |caps|
    ensures var caps := Outs(s, items, a.start, [])[0].caps;
      forall i: nat :: i < |caps| && i < |a.captures| ==>
        (caps[i].len == -2 && a.captures[i] == Place(caps[i].init + 1)) ||
        (caps[i].len >= 0 && caps[i].init + caps[i].len <= |s| &&
          a.captures[i] == Text(s[caps[i].init..caps[i].init + caps[i].len]))
  {
    hide Outs;
  }

  /** str_find_aux */
  method FindAux(s: seq<Byte>, pat: seq<Byte>, pos: int, plain: bool, find: bool) returns (a: Answer)
    ensures find && (plain || NoSpecials(pat)) ==> PlainAnswer(s, pat, Start(pos, |s|), a)
    ensures !(find && (plain || NoSpecials(pat))) ==> PatternAnswer(s, Body(pat), Start(pos, |s|), Anchored(pat),
      !find, a)
    ensures a.Span? && !(find && (plain || NoSpecials(pat))) ==>
      a.start <= a.end <= |s| && Outs(s, Body(pat), a.start, []) != [] && Outs(s, Body(pat), a.start, [])[0].Match? &&
      var caps := Outs(s, Body(pat), a.start, [])[0].caps;
      (if caps == [] then a.captures == if find then [] else [Text(s[a.start..a.end])] else |a.captures| == |caps|) &&
      forall i: nat :: i < |caps| && i < |a.captures| ==>
        (caps[i].len == -2 && a.captures[i] == Place(caps[i].init + 1)) ||
        (caps[i].len >= 0 && caps[i].init + caps[i].len <= |s| &&
          a.captures[i] == Text(s[caps[i].init..caps[i].init + caps[i].len]))
  {
    hide Outs, PlainAnswer, PatternAnswer, NoSpecials, Items, Special;
    var init := Start(pos, |s|);
    var special := HasSpecials(pat);
    if find && (plain || !special) {
      a := FindPlain(s, pat, init);
    } else {
      a := FindPattern(s, pat, init, !find);
      if a.Span? { SpanRead(s, Body(pat), init, Anchored(pat), !find, a); }
    }
  }
}
