/** Lua patterns: their items, and what they match, as a list of outcomes in order of preference. */
module Pattern {
  import opened Common

  const ESC: Byte := '%' as int

  // ---- single characters (the C locale) ----

  predicate IsLower(c: int) { 'a' as int <= c <= 'z' as int }
  predicate IsUpper(c: int) { 'A' as int <= c <= 'Z' as int }
  predicate IsAlpha(c: int) { IsLower(c) || IsUpper(c) }
  predicate IsDigit(c: int) { '0' as int <= c <= '9' as int }
  predicate IsCntrl(c: int) { 0 <= c < 32 || c == 127 }
  predicate IsSpace(c: int) { c == 32 || 9 <= c <= 13 }
  predicate IsPunct(c: int) { 32 < c < 127 && !IsAlpha(c) && !IsDigit(c) }
  predicate IsXDigit(c: int) { IsDigit(c) || 'a' as int <= c <= 'f' as int || 'A' as int <= c <= 'F' as int }
  function ToLower(c: int): int { if IsUpper(c) then c + 32 else c }

  /** match_class: a letter stands for a class, its capital for the complement; anything else for itself. */
  function MatchClass(c: int, cl: int): bool {
    var l := ToLower(cl);
    if l == 'a' as int then IsAlpha(c) == IsLower(cl)
    else if l == 'c' as int then IsCntrl(c) == IsLower(cl)
    else if l == 'd' as int then IsDigit(c) == IsLower(cl)
    else if l == 'l' as int then IsLower(c) == IsLower(cl)
    else if l == 'p' as int then IsPunct(c) == IsLower(cl)
    else if l == 's' as int then IsSpace(c) == IsLower(cl)
    else if l == 'u' as int then IsUpper(c) == IsLower(cl)
    else if l == 'w' as int then (IsAlpha(c) || IsDigit(c)) == IsLower(cl)
    else if l == 'x' as int then IsXDigit(c) == IsLower(cl)
    else if l == 'z' as int then (c == 0) == IsLower(cl)
    else cl == c
  }

  // ---- sets ----

  datatype Elem = Class(cl: int) | Range(lo: int, hi: int) | Char(c: int)
  {
    predicate Has(x: int) {
      match this
      case Class(cl) => MatchClass(x, cl)
      case Range(lo, hi) => lo <= x <= hi
      case Char(c) => x == c
    }
  }

  /** What one pattern item of length one accepts. */
  datatype Single = Any | One(e: Elem) | Set(neg: bool, elems: seq<Elem>)
  {
    predicate Has(x: int) {
      match this
      case Any => true
      case One(e) => e.Has(x)
      case Set(neg, elems) => neg != exists i :: 0 <= i < |elems| && elems[i].Has(x)
    }
  }

  /** The pattern text, as a string that ends with NUL. */
  function At(pat: seq<Byte>, p: int): (c: Byte)
    ensures c != 0 ==> 0 <= p < |pat|
  {
    if 0 <= p < |pat| then pat[p] else 0
  }

  /** The elements of a set, from p up to its closing bracket at ec. */
  function Elems(pat: seq<Byte>, p: nat, ec: nat): seq<Elem>
    decreases ec - p
  {
    if p >= ec then []
    else if At(pat, p) == ESC then [Class(At(pat, p + 1))] + Elems(pat, p + 2, ec)
    else if At(pat, p + 1) == '-' as int && p + 2 < ec then [Range(At(pat, p), At(pat, p + 2))] + Elems(pat, p + 3, ec)
    else [Char(At(pat, p))] + Elems(pat, p + 1, ec)
  }

  /** The set that starts with the bracket at p and ends with the one at ec. */
  function SetAt(pat: seq<Byte>, p: nat, ec: nat): Single {
    if At(pat, p + 1) == '^' as int then Set(true, Elems(pat, p + 2, ec)) else Set(false, Elems(pat, p + 1, ec))
  }

  function SingleAt(pat: seq<Byte>, p: nat, ep: nat): Single {
    if At(pat, p) == '.' as int then Any
    else if At(pat, p) == ESC then One(Class(At(pat, p + 1)))
    else if At(pat, p) == '[' as int then SetAt(pat, p, if ep > 0 then ep - 1 else 0)
    else One(Char(At(pat, p)))
  }

  // ---- the extent of a single-character item ----

  datatype Extent = EndAt(ep: nat) | Bad(msg: string)

  /** The loop of classend on a set: from p to past its closing bracket. */
  function SetEnd(pat: seq<Byte>, p: nat): (r: Extent)
    ensures r.EndAt? ==> p < r.ep - 1 && r.ep <= |pat|
    decreases |pat| - p
  {
    if At(pat, p) == 0 then Bad("malformed pattern (missing ']')")
    else
      var q := if At(pat, p) == ESC && At(pat, p + 1) != 0 then p + 2 else p + 1;
      if At(pat, q) == ']' as int then EndAt(q + 1) else SetEnd(pat, q)
  }

  /** classend */
  function ClassEnd(pat: seq<Byte>, p: nat): (r: Extent)
    requires At(pat, p) != 0
    ensures r.EndAt? ==> p < r.ep <= |pat|
  {
    if At(pat, p) == ESC then
      if At(pat, p + 1) == 0 then Bad("malformed pattern (ends with '%')") else EndAt(p + 2)
    else if At(pat, p) == '[' as int then SetEnd(pat, if At(pat, p + 1) == '^' as int then p + 2 else p + 1)
    else EndAt(p + 1)
  }

  // ---- items ----

  datatype Item =
    | Exactly(one: Single)
    | Optional(one: Single)
    | Star(one: Single)
    | Plus(one: Single)
    | Minus(one: Single)
    | Open
    | Position
    | Close
    | Balance(b: Byte, e: Byte)
    | Frontier(one: Single)
    | Back(l: int)
    | EndOfString
    | Malformed(msg: string)

  /** An item and where the next one starts. */
  datatype Parsed = Parsed(item: Item, next: nat)

  function Suffixed(one: Single, suffix: Byte, ep: nat): Parsed {
    if suffix == '?' as int then Parsed(Optional(one), ep + 1)
    else if suffix == '*' as int then Parsed(Star(one), ep + 1)
    else if suffix == '+' as int then Parsed(Plus(one), ep + 1)
    else if suffix == '-' as int then Parsed(Minus(one), ep + 1)
    else Parsed(Exactly(one), ep)
  }

  function PlainItem(pat: seq<Byte>, p: nat): (r: Parsed)
    requires At(pat, p) != 0
    ensures !r.item.Malformed? ==> p < r.next <= |pat|
  {
    match ClassEnd(pat, p)
    case Bad(msg) => Parsed(Malformed(msg), p)
    case EndAt(ep) => Suffixed(SingleAt(pat, p, ep), At(pat, ep), ep)
  }

  /** The item at p of a pattern that does not end there. */
  function ItemAt(pat: seq<Byte>, p: nat): (r: Parsed)
    requires At(pat, p) != 0
    ensures !r.item.Malformed? ==> p < r.next <= |pat|
  {
    var c, d := At(pat, p), At(pat, p + 1);
    if c == '(' as int then (if d == ')' as int then Parsed(Position, p + 2) else Parsed(Open, p + 1))
    else if c == ')' as int then Parsed(Close, p + 1)
    else if c == ESC && d == 'b' as int then
      (if At(pat, p + 2) == 0 || At(pat, p + 3) == 0 then Parsed(Malformed("unbalanced pattern"), p)
       else Parsed(Balance(At(pat, p + 2), At(pat, p + 3)), p + 4))
    else if c == ESC && d == 'f' as int then
      if At(pat, p + 2) != '[' as int then Parsed(Malformed("missing '[' after '%f' in pattern"), p)
      else
        match ClassEnd(pat, p + 2)
        case Bad(msg) => Parsed(Malformed(msg), p)
        case EndAt(ep) => Parsed(Frontier(SetAt(pat, p + 2, ep - 1)), ep)
    else if c == ESC && IsDigit(d) then Parsed(Back(d - '1' as int), p + 2)
    else if c == '$' as int && d == 0 then Parsed(EndOfString, p + 1)
    else PlainItem(pat, p)
  }

  /** The pattern from p on; what follows a malformed item, or a `$` at the end, is never looked at. */
  function Items(pat: seq<Byte>, p: nat): (r: seq<Item>)
    decreases if p <= |pat| then |pat| - p else 0
  {
    if At(pat, p) == 0 then []
    else
      var i := ItemAt(pat, p);
      if i.item.Malformed? then [i.item] else [i.item] + Items(pat, i.next)
  }

  // ---- captures ----

  const MAXCAPTURES := 32
  const UNFINISHED := -1
  const POSITION := -2

  datatype Capture = Capture(init: nat, len: int)

  /** The last capture still open; -1 for none. */
  function LastOpen(caps: seq<Capture>): (l: int)
    ensures -1 <= l < |caps| && (l >= 0 ==> caps[l].len == UNFINISHED) && forall i :: l < i < |caps| ==>
      caps[i].len != UNFINISHED
  {
    if caps == [] then -1
    else if caps[|caps| - 1].len == UNFINISHED then |caps| - 1
    else LastOpen(caps[..|caps| - 1])
  }

  /** The innermost open capture closed at i. */
  function Closed(caps: seq<Capture>, i: nat): (r: seq<Capture>)
    requires LastOpen(caps) >= 0
    ensures |r| == |caps|
  {
    var l := LastOpen(caps);
    caps[l := Capture(caps[l].init, i - caps[l].init)]
  }

  /** The text of a capture; the one of a position capture is as long as a size_t can tell, and matches nothing. */
  predicate Repeats(s: seq<Byte>, i: nat, c: Capture) {
    c.len >= 0 && i + c.len <= |s| && c.init + c.len <= |s| && s[i..i + c.len] == s[c.init..c.init + c.len]
  }

  // ---- balance ----

  /** Where the balanced text that starts at i ends. */
  function Balanced(s: seq<Byte>, i: nat, b: Byte, e: Byte): (r: Option<nat>)
    ensures r.Some? ==> i < r.value <= |s|
  {
    if SAt(s, i) != b || i >= |s| then None else BalanceEnd(s, i + 1, b, e, 1)
  }

  /** Where the balanced text that starts before i with cont open brackets ends. */
  function BalanceEnd(s: seq<Byte>, i: nat, b: Byte, e: Byte, cont: nat): (r: Option<nat>)
    requires cont > 0
    ensures r.Some? ==> i < r.value <= |s|
    decreases |s| - i
  {
    if i >= |s| then None
    else if s[i] == e then (if cont == 1 then Some(i + 1) else BalanceEnd(s, i + 1, b, e, cont - 1))
    else if s[i] == b then BalanceEnd(s, i + 1, b, e, cont + 1)
    else BalanceEnd(s, i + 1, b, e, cont)
  }

  // ---- outcomes ----

  /** A match that ends at e, or an error raised on the way. */
  datatype Out = Match(e: nat, caps: seq<Capture>) | Error(msg: string)

  /** How often the item fits in a row from i on. */
  function MaxRun(s: seq<Byte>, one: Single, i: nat): (n: nat)
    ensures i + n <= |s| || n == 0
    ensures forall j :: i <= j < i + n ==> one.Has(s[j])
    ensures i + n < |s| ==> !one.Has(s[i + n])
    decreases |s| - i
  {
    if i < |s| && one.Has(s[i]) then 1 + MaxRun(s, one, i + 1) else 0
  }

  predicate Fits(s: seq<Byte>, one: Single, i: nat) { i < |s| && one.Has(s[i]) }

  /** The subject as a string that ends with NUL. */
  function SAt(s: seq<Byte>, i: int): Byte { if 0 <= i < |s| then s[i] else 0 }

  predicate AtFrontier(s: seq<Byte>, one: Single, i: nat) { !one.Has(SAt(s, i - 1)) && one.Has(SAt(s, i)) }

  /** All outcomes of matching the items at i, the preferred ones first. */
  function Outs(s: seq<Byte>, items: seq<Item>, i: nat, caps: seq<Capture>): seq<Out>
    decreases |items|, 0, 0
  {
    if items == [] then [Match(i, caps)]
    else
      var rest := items[1..];
      match items[0]
      case Exactly(one) => if Fits(s, one, i) then Outs(s, rest, i + 1, caps) else []
      case Optional(one) => (if Fits(s, one, i) then Outs(s, rest, i + 1, caps) else []) + Outs(s, rest, i, caps)
      case Star(one) => Longest(s, rest, i, MaxRun(s, one, i), caps)
      case Plus(one) => if Fits(s, one, i) then Longest(s, rest, i + 1, MaxRun(s, one, i + 1), caps) else []
      case Minus(one) => Shortest(s, rest, i, MaxRun(s, one, i), caps)
      case Open =>
        if |caps| >= MAXCAPTURES then [Error("too many captures")]
        else Outs(s, rest, i, caps + [Capture(i, UNFINISHED)])
      case Position =>
        if |caps| >= MAXCAPTURES then [Error("too many captures")]
        else Outs(s, rest, i, caps + [Capture(i, POSITION)])
      case Close =>
        if LastOpen(caps) < 0 then [Error("invalid pattern capture")] else Outs(s, rest, i, Closed(caps, i))
      case Balance(b, e) => (match Balanced(s, i, b, e) case None => [] case Some(j) => Outs(s, rest, j, caps))
      case Frontier(one) => if AtFrontier(s, one, i) then Outs(s, rest, i, caps) else []
      case Back(l) =>
        if l < 0 || l >= |caps| || caps[l].len == UNFINISHED then [Error("invalid capture index")]
        else if Repeats(s, i, caps[l]) then Outs(s, rest, i + caps[l].len, caps) else []
      case EndOfString => if i == |s| then [Match(i, caps)] else []
      case Malformed(msg) => [Error(msg)]
  }

  /** The rest after n, n - 1, .., 0 repetitions. */
  function Longest(s: seq<Byte>, rest: seq<Item>, i: nat, n: nat, caps: seq<Capture>): seq<Out>
    decreases |rest|, 1, n
  {
    Outs(s, rest, i + n, caps) + if n == 0 then [] else Longest(s, rest, i, n - 1, caps)
  }

  /** The rest after 0, 1, .., n repetitions. */
  function Shortest(s: seq<Byte>, rest: seq<Item>, i: nat, n: nat, caps: seq<Capture>): seq<Out>
    decreases |rest|, 1, n
  {
    Outs(s, rest, i, caps) + if n == 0 then [] else Shortest(s, rest, i + 1, n - 1, caps)
  }
}
