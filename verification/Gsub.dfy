/** string.gsub with a replacement string. */
module Gsub {
  import opened Common
  import opened Pattern
  import opened PatternMeaning
  import opened Matcher
  import opened Finder

  // ---- the replacement ----

  function Decimal(n: nat): seq<Byte> {
    if n < 10 then ['0' as int + n] else Decimal(n / 10) + ['0' as int + n % 10]
  }

  /** The number a text of digits shows. */
  ghost function NumberOf(t: seq<Byte>): int {
    if t == [] then 0 else 10 * NumberOf(t[..|t| - 1]) + (t[|t| - 1] as int - 48)
  }

  /** Decimal digits of the number itself, without leading zeros. */
  lemma {:induction false} DecimalReads(n: nat)
    ensures var t := Decimal(n);
      NumberOf(t) == n && |t| > 0 && (n > 0 ==> t[0] != 48) && forall k :: 0 <= k < |t| ==> 48 <= t[k] <= 57
  {
    var t := Decimal(n);
    assert t == t[..|t| - 1] + [t[|t| - 1]];
    if n < 10 {
      assert NumberOf([]) == 0 && t[..0] == [];
    } else {
      DecimalReads(n / 10);
      assert t[..|t| - 1] == Decimal(n / 10);
    }
  }

  datatype Piece = Piece(text: seq<Byte>) | Broken(msg: string)

  function Shown(v: Pushed): Piece
    requires v.Values? ==> |v.values| == 1
  {
    match v
    case Fault(msg) => Broken(msg)
    case Values(vs) => match vs[0] case Text(t) => Piece(t) case Place(p) => Piece(Decimal(p))
  }

  /** What the character after a `%` stands for. */
  function Escape(d: Byte, src: seq<Byte>, caps: seq<Capture>, s: nat, e: nat): Piece
    requires s <= e <= |src| && Inside(caps, e)
  {
    if !IsDigit(d) then Piece([d])
    else if d == '0' as int then Piece(src[s..e])
    else Shown(CaptureValue(src, caps, d - '1' as int, s, e))
  }

  /** The replacement string read from i on. A `%` at its end stands for the NUL that ends the string. */
  function Expand(news: seq<Byte>, i: nat, src: seq<Byte>, caps: seq<Capture>, s: nat, e: nat): Piece
    requires s <= e <= |src| && Inside(caps, e)
    decreases |news| - i
  {
    if i >= |news| then Piece([])
    else
      var here := if news[i] == ESC then Escape(SAt(news, i + 1), src, caps, s, e) else Piece([news[i]]);
      if here.Broken? then here
      else
        match Expand(news, if news[i] == ESC then i + 2 else i + 1, src, caps, s, e)
        case Broken(msg) => Broken(msg)
        case Piece(rest) => Piece(here.text + rest)
  }

  /** The expansion of the whole replacement, when done is what has been expanded and rest is still to come. */
  ghost function Joined(done: seq<Byte>, rest: Piece): Piece {
    if rest.Broken? then rest else Piece(done + rest.text)
  }

  lemma ExpandOne(
    news: seq<Byte>, i: nat, src: seq<Byte>, caps: seq<Capture>, s: nat, e: nat, done: seq<Byte>, here: Piece)
    requires s <= e <= |src| && Inside(caps, e) && i < |news|
    requires here == if news[i] == ESC then Escape(SAt(news, i + 1), src, caps, s, e) else Piece([news[i]])
    ensures here.Broken? ==> Joined(done, Expand(news, i, src, caps, s, e)) == here
    ensures var next := if news[i] == ESC then i + 2 else i + 1;
      var more := Expand(news, next, src, caps, s, e);
      here.Piece? ==> Joined(done, Expand(news, i, src, caps, s, e)) == Joined(done + here.text, more)
  {
    hide Escape, Inside;
    var rest := Expand(news, if news[i] == ESC then i + 2 else i + 1, src, caps, s, e);
    if here.Piece? && rest.Piece? { assert done + (here.text + rest.text) == done + here.text + rest.text; }
  }

  /** add_s, on a buffer that already holds b. */
  method AddS(b: seq<Byte>, news: seq<Byte>, src: seq<Byte>, caps: seq<Capture>, s: nat, e: nat) returns (r: Piece)
    requires s <= e <= |src| && Inside(caps, e)
    ensures r.Broken? ==> r == Expand(news, 0, src, caps, s, e)
    ensures r.Piece? ==> Expand(news, 0, src, caps, s, e).Piece?
    ensures r.Piece? ==> r.text == b + Expand(news, 0, src, caps, s, e).text
  {
    hide Expand, Escape, Inside;
    ghost var whole := Expand(news, 0, src, caps, s, e);
    var out, i := b, 0;
    ghost var done: seq<Byte> := [];
    assert whole == Joined(done, whole) by { if whole.Piece? { assert [] + whole.text == whole.text; } }
    while i < |news|
      invariant out == b + done && whole == Joined(done, Expand(news, i, src, caps, s, e))
      decreases |news| - i
    {
      var here;
      if news[i] != ESC {
        here := Piece([news[i]]);
      } else {
        here := Escape(SAt(news, i + 1), src, caps, s, e);
      }
      ExpandOne(news, i, src, caps, s, e, done, here);
      if here.Broken? { return here; }
      assert out + here.text == b + (done + here.text);
      out, done := out + here.text, done + here.text;
      i := if news[i] == ESC then i + 2 else i + 1;
    }
    ExpandEnd(news, i, src, caps, s, e);
    assert done + [] == done;
    r := Piece(out);
  }

  lemma ExpandEnd(news: seq<Byte>, i: nat, src: seq<Byte>, caps: seq<Capture>, s: nat, e: nat)
    requires s <= e <= |src| && Inside(caps, e) && i >= |news|
    ensures Expand(news, i, src, caps, s, e) == Piece([])
  {
  }

  /**
   The replacement unit by unit. Outside a `%` each character stands for itself, and so does a `%`-escaped one
   that is no digit; `%0` is the match, `%1` to `%9` the captures, and `%1` the match when there are none.
   */
  lemma UnitLaws(news: seq<Byte>, i: nat, src: seq<Byte>, caps: seq<Capture>, s: nat, e: nat)
    requires s <= e <= |src| && Inside(caps, e) && i < |news|
    ensures var all, rest := Expand(news, i, src, caps, s, e), Expand(news, i + 1, src, caps, s, e);
      news[i] != 37 ==> all == if rest.Piece? then Piece([news[i]] + rest.text) else rest
    ensures i + 1 == |news| && news[i] == 37 ==> Expand(news, i, src, caps, s, e) == Piece([0])
    ensures i + 1 < |news| && news[i] == 37 ==>
      var all, rest, d := Expand(news, i, src, caps, s, e), Expand(news, i + 2, src, caps, s, e),
        news[i + 1] as int - 48;
      (!(0 <= d <= 9) ==> all == if rest.Piece? then Piece([news[i + 1]] + rest.text) else rest) &&
      (d == 0 || (d == 1 && caps == []) ==> all == if rest.Piece? then Piece(src[s..e] + rest.text) else rest) &&
      (|caps| < d <= 9 && (caps != [] || d > 1) ==> all == Broken("invalid capture index")) &&
      (1 <= d <= 9 && d <= |caps| ==>
        var c := caps[d - 1];
        (c.len == -1 && all == Broken("unfinished capture")) ||
        (c.len == -2 && all == if rest.Piece? then Piece(Decimal(c.init + 1) + rest.text) else rest) ||
        (c.len >= 0 && c.init + c.len <= |src| &&
          all == if rest.Piece? then Piece(src[c.init..c.init + c.len] + rest.text) else rest))
  {
    if i + 1 == |news| { ExpandEnd(news, i + 2, src, caps, s, e); }
    assert forall x: Byte :: [x] + [] == [x];
  }

  // ---- the places that are replaced ----

  datatype Cut = Cut(start: nat, end: nat, caps: seq<Capture>, text: seq<Byte>)
  {
    /** Where matching goes on: an empty match is left by copying a character. */
    function Next(): nat { if end > start then end else start + 1 }
  }

  /** A preferred match, with the text its replacement expands to. */
  ghost predicate CutOk(src: seq<Byte>, items: seq<Item>, news: seq<Byte>, c: Cut) {
    c.start <= c.end <= |src| && Inside(c.caps, c.end) &&
    Outs(src, items, c.start, []) != [] && Outs(src, items, c.start, [])[0] == Match(c.end, c.caps) &&
    Expand(news, 0, src, c.caps, c.start, c.end) == Piece(c.text)
  }

  /** At k the matcher raises the error, or the match there cannot be replaced. */
  ghost predicate FailsAt(src: seq<Byte>, items: seq<Item>, news: seq<Byte>, k: nat, msg: string) {
    Outs(src, items, k, []) != [] &&
    var o := Outs(src, items, k, [])[0];
    o == Error(msg) || (o.Match? && k <= o.e <= |src| && Inside(o.caps, o.e) &&
      Expand(news, 0, src, o.caps, k, o.e) == Broken(msg))
  }

  /** Nothing matches from a up to b. */
  ghost predicate Barren(src: seq<Byte>, items: seq<Item>, a: nat, b: nat) {
    forall k: nat :: a <= k < b ==> Outs(src, items, k, []) == []
  }

  /** The cuts lie before pos, one after the other, and between them there is no match. */
  ghost predicate Cuts(src: seq<Byte>, items: seq<Item>, news: seq<Byte>, cuts: seq<Cut>, pos: nat) {
    if cuts == [] then Barren(src, items, 0, pos)
    else
      var last := cuts[|cuts| - 1];
      CutOk(src, items, news, last) && last.Next() <= pos && Barren(src, items, last.Next(), pos) &&
      Cuts(src, items, news, cuts[..|cuts| - 1], last.start)
  }

  /** The subject up to pos, with each cut replaced. */
  function Rebuilt(src: seq<Byte>, cuts: seq<Cut>, pos: nat): seq<Byte>
  {
    if cuts == [] then (if pos <= |src| then src[..pos] else src)
    else
      var last := cuts[|cuts| - 1];
      Rebuilt(src, cuts[..|cuts| - 1], last.start) + last.text +
        (if last.end <= pos <= |src| then src[last.end..pos] else if last.end <= |src| then src[last.end..] else [])
  }

  lemma {:induction false} CutsOk(src: seq<Byte>, items: seq<Item>, news: seq<Byte>, cuts: seq<Cut>, pos: nat)
    requires Cuts(src, items, news, cuts, pos)
    ensures forall c :: c in cuts ==> CutOk(src, items, news, c)
    decreases |cuts|
  {
    hide CutOk, Barren;
    if cuts != [] {
      var last := cuts[|cuts| - 1];
      CutsOk(src, items, news, cuts[..|cuts| - 1], last.start);
      assert cuts == cuts[..|cuts| - 1] + [last];
    }
  }

  /** What a cut is replaced by, for replacements of one unit. */
  lemma CutText(src: seq<Byte>, items: seq<Item>, news: seq<Byte>, c: Cut)
    requires CutOk(src, items, news, c) && |news| == 2 && news[0] == 37
    ensures c.start <= c.end <= |src|
    ensures !(48 <= news[1] <= 57) ==> c.text == [news[1]]
    ensures news[1] == 48 || (news[1] == 49 && c.caps == []) ==> c.text == src[c.start..c.end]
    ensures 49 <= news[1] <= 57 && c.caps != [] ==>
      news[1] - 49 < |c.caps| &&
      var cap := c.caps[news[1] - 49];
      (cap.len == -2 && c.text == Decimal(cap.init + 1)) ||
      (cap.len >= 0 && cap.init + cap.len <= |src| && c.text == src[cap.init..cap.init + cap.len])
  {
    hide Outs, Expand, Escape;
    UnitLaws(news, 0, src, c.caps, c.start, c.end);
    ExpandEnd(news, 2, src, c.caps, c.start, c.end);
  }

  /** Distinct starts: no more cuts than positions. */
  lemma {:induction false} CutsFew(src: seq<Byte>, items: seq<Item>, news: seq<Byte>, cuts: seq<Cut>, pos: nat)
    requires Cuts(src, items, news, cuts, pos)
    ensures |cuts| <= pos
    decreases |cuts|
  {
    if cuts != [] { CutsFew(src, items, news, cuts[..|cuts| - 1], cuts[|cuts| - 1].start); }
  }

  lemma CutWhole(src: seq<Byte>, items: seq<Item>, c: Cut)
    requires CutOk(src, items, [ESC, '0' as int], c)
    ensures c.start <= c.end <= |src| && c.text == src[c.start..c.end]
  {
    hide Outs, Expand;
    WholeExpands(src, c.caps, c.start, c.end);
  }

  /** Replacing every match by itself changes nothing. */
  lemma {:induction false} SameText(src: seq<Byte>, items: seq<Item>, cuts: seq<Cut>, pos: nat)
    requires Cuts(src, items, [ESC, '0' as int], cuts, pos) && pos <= |src| + 1
    ensures Rebuilt(src, cuts, pos) == src[..if pos <= |src| then pos else |src|]
    decreases |cuts|
  {
    hide CutOk, Barren;
    if cuts != [] {
      var last, to := cuts[|cuts| - 1], if pos <= |src| then pos else |src|;
      SameText(src, items, cuts[..|cuts| - 1], last.start);
      CutWhole(src, items, last);
      assert src[..last.start] + src[last.start..last.end] + src[last.end..to] == src[..to];
    }
  }

  datatype Replaced = Replaced(text: seq<Byte>, n: nat) | Failed(msg: string)

  lemma CopyOne(src: seq<Byte>, items: seq<Item>, news: seq<Byte>, cuts: seq<Cut>, pos: nat, out: seq<Byte>)
    requires Cuts(src, items, news, cuts, pos) && Outs(src, items, pos, []) == []
    ensures Cuts(src, items, news, cuts, pos + 1)
    ensures pos < |src| ==> Rebuilt(src, cuts, pos + 1) == Rebuilt(src, cuts, pos) + [src[pos]]
    ensures pos >= |src| ==> Rebuilt(src, cuts, pos + 1) == Rebuilt(src, cuts, pos)
  {
    if cuts != [] {
      var last := cuts[|cuts| - 1];
      if pos < |src| { assert src[last.end..pos + 1] == src[last.end..pos] + [src[pos]]; }
      if pos == |src| { assert src[last.end..pos] == src[last.end..]; }
    } else {
      if pos < |src| { assert src[..pos + 1] == src[..pos] + [src[pos]]; }
      if pos == |src| { assert src[..pos] == src; }
    }
  }

  lemma CutOne(src: seq<Byte>, items: seq<Item>, news: seq<Byte>, cuts: seq<Cut>, pos: nat, c: Cut)
    requires Cuts(src, items, news, cuts, pos) && CutOk(src, items, news, c) && c.start == pos
    ensures Cuts(src, items, news, cuts + [c], c.Next())
    ensures c.end > pos ==> Rebuilt(src, cuts + [c], c.Next()) == Rebuilt(src, cuts, pos) + c.text
    ensures c.end == pos < |src| ==> Rebuilt(src, cuts + [c], c.Next()) == Rebuilt(src, cuts, pos) + c.text + [src[pos]]
    ensures c.end == pos == |src| ==> Rebuilt(src, cuts + [c], c.Next()) == Rebuilt(src, cuts, pos) + c.text
  {
    assert (cuts + [c])[..|cuts|] == cuts;
  }

  /** One round of the loop of gsub: what it cuts out, and where it goes on. */
  method Round(ms: MatchState, p: nat, pos: nat, news: seq<Byte>, b: seq<Byte>)
    returns (r: Res, out: Piece, ghost cut: Option<Cut>)
    requires ms.Valid() && p <= |ms.pat| && pos <= |ms.src|
    modifies ms`level, ms.capture
    ensures ms.Valid()
    ensures r == NotFound ==> cut == None && out == Piece(b) && Outs(ms.src, Items(ms.pat, p), pos, []) == []
    ensures r.Found? ==> pos <= r.e <= |ms.src|
    ensures r.Found? && out.Piece? ==> cut.Some? && CutOk(ms.src, Items(ms.pat, p), news, cut.value)
    ensures r.Found? && out.Piece? ==> cut.value.start == pos && cut.value.end == r.e
    ensures r.Found? && out.Piece? ==> out.text == b + cut.value.text
    ensures r.Raised? ==> FailsAt(ms.src, Items(ms.pat, p), news, pos, r.msg)
    ensures out.Broken? ==> FailsAt(ms.src, Items(ms.pat, p), news, pos, out.msg)
  {
    hide Outs, Items, Inside, Expand;
    r := TryAt(ms, p, pos);
    out, cut := Piece(b), None;
    if r.Found? {
      out := AddS(b, news, ms.src, ms.Caps(), pos, r.e);
      if out.Piece? { cut := Some(Cut(pos, r.e, ms.Caps(), out.text[|b|..])); }
    }
  }

  /**
   str_gsub: at most max matches, each replaced, the rest of the subject copied. It fails only at a place it
   comes to before it has max matches, with the error that matching or replacing there gives.
   */
  method StrGsub(src: seq<Byte>, pat: seq<Byte>, news: seq<Byte>, max: int)
    returns (r: Replaced, ghost cuts: seq<Cut>, ghost pos: nat)
    ensures Cuts(src, Body(pat), news, cuts, pos) && pos <= |src| + 1
    ensures r.Failed? ==> |cuts| < max && FailsAt(src, Body(pat), news, pos, r.msg)
    ensures r.Replaced? ==> r.n <= |src| + 1
    ensures r.Replaced? ==> r.text == Rebuilt(src, cuts, |src| + 1) && r.n == |cuts|
    ensures r.Replaced? ==> |cuts| <= max || cuts == []
    ensures r.Replaced? && |cuts| < max && !Anchored(pat) ==> pos == |src| + 1
    ensures r.Replaced? && Anchored(pat) && max > 0 ==>
      (|cuts| == 1 && cuts[0].start == 0) || (cuts == [] && Outs(src, Body(pat), 0, []) == [])
    ensures r.Replaced? && cuts == [] ==> r.text == src
    ensures r.Replaced? && |cuts| == 1 ==>
      cuts[0].start <= cuts[0].end <= |src| && r.text == src[..cuts[0].start] + cuts[0].text + src[cuts[0].end..]
    ensures forall c :: r.Replaced? && c in cuts && |news| == 2 && news[0] == 37 ==>
      c.start <= c.end <= |src| && (!(48 <= news[1] <= 57) ==> c.text == [news[1]]) &&
      (news[1] == 48 || (news[1] == 49 && c.caps == []) ==> c.text == src[c.start..c.end])
    ensures forall c :: r.Replaced? && c in cuts && |news| == 2 && news[0] == 37 && 49 <= news[1] <= 57 && c.caps != [] ==>
      news[1] - 49 < |c.caps| &&
      var cap := c.caps[news[1] - 49];
      (cap.len == -2 && c.text == Decimal(cap.init + 1)) ||
      (cap.len >= 0 && cap.init + cap.len <= |src| && c.text == src[cap.init..cap.init + cap.len])
  {
    hide Outs, Items, Cuts, CutOk, Rebuilt, FailsAt;
    var ms := new MatchState(src, pat);
    var anchor := Anchored(pat);
    var p := if anchor then 1 else 0;
    var n: nat, at: nat := 0, 0;
    var b: seq<Byte> := [];
    cuts, pos := [], 0;
    r := Failed("");
    assert Cuts(src, Body(pat), news, cuts, pos) && Rebuilt(src, cuts, 0) == [] by { NoCuts(src, Body(pat), news); }
    while n < max
      invariant ms.Valid() && n == |cuts| && (n <= max || n == 0)
      invariant pos == at <= |src| && b == Rebuilt(src, cuts, pos)
      invariant Cuts(src, Body(pat), news, cuts, pos)
      invariant anchor ==> pos == 0 && cuts == []
      decreases |src| - at
    {
      var e, piece;
      ghost var cut;
      e, piece, cut := Round(ms, p, at, news, b);
      if e.Raised? { return Failed(e.msg), cuts, pos; }
      if piece.Broken? { return Failed(piece.msg), cuts, pos; }
      b := piece.text;
      if e.Found? {
        n := n + 1;
        CutOne(src, Body(pat), news, cuts, pos, cut.value);
        cuts, pos := cuts + [cut.value], cut.value.Next();
      } else {
        CopyOne(src, Body(pat), news, cuts, pos, b);
        pos := pos + 1;
      }
      if e.Found? && e.e > at {
        at := e.e;
      } else if at < |src| {
        b := b + [src[at]];
        at := at + 1;
      } else {
        break;
      }
      if anchor { break; }
    }
    RestCopied(src, Body(pat), news, cuts, pos);
    CutsFew(src, Body(pat), news, cuts, pos);
    CutsOk(src, Body(pat), news, cuts, pos);
    FewCuts(src, Body(pat), news, cuts);
    forall c | c in cuts && |news| == 2 && news[0] == 37 { CutText(src, Body(pat), news, c); }
    r := Replaced(b + src[at..], n);
  }

  lemma NoCuts(src: seq<Byte>, items: seq<Item>, news: seq<Byte>)
    ensures Cuts(src, items, news, [], 0) && Rebuilt(src, [], 0) == []
  {
  }

  lemma RestCopied(src: seq<Byte>, items: seq<Item>, news: seq<Byte>, cuts: seq<Cut>, pos: nat)
    requires Cuts(src, items, news, cuts, pos) && pos <= |src| + 1
    ensures Rebuilt(src, cuts, |src| + 1) == Rebuilt(src, cuts, pos) + if pos <= |src| then src[pos..] else []
  {
    hide Barren, CutOk, Outs, Expand;
    if cuts != [] {
      var last := cuts[|cuts| - 1];
      CutRange(src, items, news, last);
      if pos <= |src| {
        var head := Rebuilt(src, cuts[..|cuts| - 1], last.start) + last.text;
        assert src[last.end..] == src[last.end..pos] + src[pos..];
        assert Rebuilt(src, cuts, |src| + 1) == head + src[last.end..];
        assert Rebuilt(src, cuts, pos) == head + src[last.end..pos];
      }
    } else if pos <= |src| {
      assert src == src[..pos] + src[pos..];
    }
  }

  /** The whole text with no cut and with one. */
  lemma FewCuts(src: seq<Byte>, items: seq<Item>, news: seq<Byte>, cuts: seq<Cut>)
    requires forall c :: c in cuts ==> CutOk(src, items, news, c)
    ensures cuts == [] ==> Rebuilt(src, cuts, |src| + 1) == src
    ensures |cuts| == 1 ==> cuts[0].start <= cuts[0].end <= |src|
    ensures |cuts| == 1 ==>
      Rebuilt(src, cuts, |src| + 1) == src[..cuts[0].start] + cuts[0].text + src[cuts[0].end..]
  {
    hide Outs, Expand;
    if |cuts| == 1 {
      CutRange(src, items, news, cuts[0]);
      assert cuts[..0] == [];
    }
  }

  lemma CutRange(src: seq<Byte>, items: seq<Item>, news: seq<Byte>, c: Cut)
    requires CutOk(src, items, news, c)
    ensures c.start <= c.end <= |src| && c.end <= c.Next()
  {
  }

  lemma WholeExpands(src: seq<Byte>, caps: seq<Capture>, s: nat, e: nat)
    requires s <= e <= |src| && Inside(caps, e)
    ensures Expand([ESC, '0' as int], 0, src, caps, s, e) == Piece(src[s..e])
  {
    assert Expand([ESC, '0' as int], 2, src, caps, s, e) == Piece([]);
  }

  /** `%0` can always be replaced. */
  lemma WholeMatch(src: seq<Byte>, items: seq<Item>, k: nat, msg: string)
    requires FailsAt(src, items, [ESC, '0' as int], k, msg)
    ensures Outs(src, items, k, [])[0] == Error(msg)
  {
    hide Outs, Expand;
    var o := Outs(src, items, k, [])[0];
    if o.Match? && k <= o.e <= |src| && Inside(o.caps, o.e) { WholeExpands(src, o.caps, k, o.e); }
  }

  /** gsub(s, p, "%0") gives s back, for every pattern that raises no error at any start. */
  method Identity(src: seq<Byte>, pat: seq<Byte>) returns (r: Replaced)
    ensures r.Replaced? ==> r.text == src
    ensures r.Failed? ==> exists k: nat :: k <= |src| + 1 && Outs(src, Body(pat), k, []) != [] && Outs(src, Body(pat), k, [])[0] == Error(r.msg)
  {
    hide Items, Cuts, CutOk, Rebuilt, Expand, Anchored;
    ghost var cuts, pos;
    r, cuts, pos := StrGsub(src, pat, [ESC, '0' as int], |src| + 1);
    if r.Failed? { WholeMatch(src, Body(pat), pos, r.msg); }
    if r.Replaced? {
      SameText(src, Body(pat), cuts, pos);
      RestCopied(src, Body(pat), [ESC, '0' as int], cuts, pos);
      if pos <= |src| { assert src[..pos] + src[pos..] == src; }
    }
  }
}
