/** The backtracking matcher of lstrlib.c, proved against the outcomes of module Pattern. */
module Matcher {
  import opened Common
  import opened Pattern

  datatype Res = Found(e: nat) | NotFound | Raised(msg: string)

  /** The matcher reports the preferred outcome; when there is none, the captures are as they were. */
  ghost predicate Verdict(outs: seq<Out>, r: Res, before: seq<Capture>, after: seq<Capture>) {
    if outs == [] then r == NotFound && after == before
    else match outs[0]
      case Match(e, caps) => r == Found(e) && after == caps
      case Error(msg) => r == Raised(msg)
  }

  /** One round of the matcher at p: a verdict, or an equivalent match further on in the pattern. */
  ghost predicate Round(src: seq<Byte>, pat: seq<Byte>, s: nat, p: nat, before: seq<Capture>, next: Option<(nat, nat)>,
    r: Res, after: seq<Capture>) {
    match next
    case None => Verdict(Outs(src, Items(pat, p), s, before), r, before, after)
    case Some((t, q)) =>
      after == before && t <= |src| && p < q <= |pat| &&
      Outs(src, Items(pat, p), s, before) == Outs(src, Items(pat, q), t, before)
  }

  /** The choice between two lists of outcomes: the second one counts only when the first is empty. */
  lemma VerdictFirst(a: seq<Out>, b: seq<Out>, r: Res, before: seq<Capture>, after: seq<Capture>)
    requires Verdict(a, r, before, after) && r != NotFound
    ensures Verdict(a + b, r, before, after)
  {
  }

  lemma NoVerdict(a: seq<Out>, r: Res, before: seq<Capture>, after: seq<Capture>)
    requires Verdict(a, r, before, after) && r == NotFound
    ensures a == [] && after == before && forall b: seq<Out> :: a + b == b
    ensures Verdict([], r, before, after)
  {
  }

  /** The shortest run first, then the runs that start with one more character. */
  lemma MinStep(src: seq<Byte>, rest: seq<Item>, s: nat, one: Single, caps: seq<Capture>)
    requires s <= |src|
    ensures Shortest(src, rest, s, MaxRun(src, one, s), caps) == Outs(src, rest, s, caps) +
      if Fits(src, one, s) then Shortest(src, rest, s + 1, MaxRun(src, one, s + 1), caps) else []
  {
    hide Outs;
  }

  lemma ItemsUnfold(pat: seq<Byte>, p: nat)
    requires At(pat, p) != 0
    ensures |Items(pat, p)| > 0 && Items(pat, p)[0] == ItemAt(pat, p).item
    ensures !ItemAt(pat, p).item.Malformed? ==> Items(pat, p)[1..] == Items(pat, ItemAt(pat, p).next)
  {
  }

  lemma ItemsDone(src: seq<Byte>, pat: seq<Byte>, s: nat, p: nat, caps: seq<Capture>)
    requires At(pat, p) == 0
    ensures Outs(src, Items(pat, p), s, caps) == [Match(s, caps)]
  {
  }

  lemma OpenOuts(src: seq<Byte>, pat: seq<Byte>, s: nat, p: nat, caps: seq<Capture>)
    requires At(pat, p) == '(' as int
    ensures |caps| >= MAXCAPTURES ==> Outs(src, Items(pat, p), s, caps) == [Error("too many captures")]
    ensures |caps| < MAXCAPTURES && At(pat, p + 1) == ')' as int ==>
      Outs(src, Items(pat, p), s, caps) == Outs(src, Items(pat, p + 2), s, caps + [Capture(s, POSITION)])
    ensures |caps| < MAXCAPTURES && At(pat, p + 1) != ')' as int ==>
      Outs(src, Items(pat, p), s, caps) == Outs(src, Items(pat, p + 1), s, caps + [Capture(s, UNFINISHED)])
  {
    ItemsUnfold(pat, p);
  }

  lemma CloseOuts(src: seq<Byte>, pat: seq<Byte>, s: nat, p: nat, caps: seq<Capture>)
    requires At(pat, p) == ')' as int
    ensures LastOpen(caps) < 0 ==> Outs(src, Items(pat, p), s, caps) == [Error("invalid pattern capture")]
    ensures LastOpen(caps) >= 0 ==> Outs(src, Items(pat, p), s, caps) == Outs(src, Items(pat, p + 1), s,
      Closed(caps, s))
  {
    ItemsUnfold(pat, p);
  }

  lemma DollarOuts(src: seq<Byte>, pat: seq<Byte>, s: nat, p: nat, caps: seq<Capture>)
    requires At(pat, p) == '$' as int && At(pat, p + 1) == 0
    ensures Outs(src, Items(pat, p), s, caps) == if s == |src| then [Match(s, caps)] else []
  {
    ItemsUnfold(pat, p);
  }

  /** What a frontier means. */
  lemma FrontierOuts(src: seq<Byte>, pat: seq<Byte>, s: nat, p: nat, caps: seq<Capture>)
    requires At(pat, p) == ESC && At(pat, p + 1) == 'f' as int
    ensures At(pat, p + 2) != '[' as int ==>
      Outs(src, Items(pat, p), s, caps) == [Error("missing '[' after '%f' in pattern")]
    ensures At(pat, p + 2) == '[' as int && ClassEnd(pat, p + 2).Bad? ==>
      Outs(src, Items(pat, p), s, caps) == [Error(ClassEnd(pat, p + 2).msg)]
    ensures At(pat, p + 2) == '[' as int && ClassEnd(pat, p + 2).EndAt? ==>
      var ep := ClassEnd(pat, p + 2).ep;
      Outs(src, Items(pat, p), s, caps) ==
        if AtFrontier(src, SetAt(pat, p + 2, ep - 1), s) then Outs(src, Items(pat, ep), s, caps) else []
  {
    ItemsUnfold(pat, p);
  }

  /** What an item of one character means, by its suffix. */
  lemma PlainOuts(src: seq<Byte>, pat: seq<Byte>, s: nat, p: nat, ep: nat, caps: seq<Capture>)
    requires At(pat, p) != 0 && ItemAt(pat, p) == PlainItem(pat, p) && ClassEnd(pat, p) == EndAt(ep)
    ensures
      var one, suffix, all := SingleAt(pat, p, ep), At(pat, ep), Outs(src, Items(pat, p), s, caps);
      var next := Items(pat, ep + 1);
      && (suffix == '?' as int && Fits(src, one, s) ==> all == Outs(src, next, s + 1, caps) + Outs(src, next, s, caps))
      && (suffix == '?' as int && !Fits(src, one, s) ==> all == Outs(src, next, s, caps))
      && (suffix == '*' as int ==> all == Longest(src, next, s, MaxRun(src, one, s), caps))
      && (suffix == '+' as int && Fits(src, one, s) ==> all == Longest(src, next, s + 1, MaxRun(src, one, s + 1), caps))
      && (suffix == '-' as int ==> all == Shortest(src, next, s, MaxRun(src, one, s), caps))
      && (suffix == '+' as int && !Fits(src, one, s) ==> all == [])
      && (suffix !in {'?' as int, '*' as int, '+' as int, '-' as int} ==> all == if Fits(src, one, s)
        then Outs(src, Items(pat, ep), s + 1, caps) else [])
  {
    hide Longest, Shortest, MaxRun, SingleAt, ClassEnd;
    ItemsUnfold(pat, p);
    var one, next := SingleAt(pat, p, ep), Items(pat, ep + 1);
    assert At(pat, ep) == '?' as int && !Fits(src, one, s) ==>
      [] + Outs(src, next, s, caps) == Outs(src, next, s, caps);
  }

  /** The two characters that start an item other than one of a single character. */
  predicate Meta(c: Byte, d: Byte) {
    c == '(' as int || c == ')' as int || (c == ESC && (d == 'b' as int || d == 'f' as int || IsDigit(d))) ||
    (c == '$' as int && d == 0)
  }

  lemma PlainThere(pat: seq<Byte>, p: nat)
    requires At(pat, p) != 0
    ensures !Meta(At(pat, p), At(pat, p + 1)) ==> ItemAt(pat, p) == PlainItem(pat, p)
  {
  }

  lemma PlainBad(src: seq<Byte>, pat: seq<Byte>, s: nat, p: nat, caps: seq<Capture>)
    requires At(pat, p) != 0 && ItemAt(pat, p) == PlainItem(pat, p) && ClassEnd(pat, p).Bad?
    ensures Outs(src, Items(pat, p), s, caps) == [Error(ClassEnd(pat, p).msg)]
  {
  }

  lemma ElemsCons(e: Elem, rest: seq<Elem>, c: int, neg: bool)
    ensures e.Has(c) ==> Set(neg, [e] + rest).Has(c) == !neg
    ensures !e.Has(c) ==> Set(neg, [e] + rest).Has(c) == Set(neg, rest).Has(c)
  {
    var all := [e] + rest;
    if e.Has(c) { assert all[0].Has(c); }
    else {
      forall i | 0 <= i < |rest| && rest[i].Has(c) ensures exists k ::
        0 <= k < |all| && all[k].Has(c) { assert all[i + 1].Has(c); }
      forall k | 0 <= k < |all| && all[k].Has(c) ensures exists i ::
        0 <= i < |rest| && rest[i].Has(c) { assert rest[k - 1].Has(c); }
    }
  }

  class MatchState {
    const src: seq<Byte>
    const pat: seq<Byte>
    var level: nat
    const capture: array<Capture>

    ghost predicate Valid()
      reads this
    {
      capture.Length == MAXCAPTURES && level <= MAXCAPTURES
    }

    function Caps(): (r: seq<Capture>)
      requires Valid()
      reads this, capture
    {
      capture[..level]
    }

    constructor (src: seq<Byte>, pat: seq<Byte>)
      ensures Valid() && this.src == src && this.pat == pat && level == 0 && fresh(capture)
    {
      this.src := src;
      this.pat := pat;
      level := 0;
      capture := new Capture[MAXCAPTURES](_ => Capture(0, 0));
    }

    /** check_capture: the capture a `%1`..`%9` names. */
    method CheckCapture(l: int) returns (r: Option<nat>)
      requires Valid()
      ensures r.Some? <==> 0 <= l - '1' as int < level && Caps()[l - '1' as int].len != UNFINISHED
      ensures r.Some? ==> r.value == l - '1' as int
    {
      var k := l - '1' as int;
      if k < 0 || k >= level || capture[k].len == UNFINISHED { return None; }
      return Some(k);
    }

    /** capture_to_close: the innermost capture still open. */
    method CaptureToClose() returns (l: int)
      requires Valid()
      ensures l == LastOpen(Caps())
    {
      l := level - 1;
      while l >= 0
        invariant -1 <= l < level
        invariant LastOpen(capture[..l + 1]) == LastOpen(Caps())
      {
        assert capture[..l + 1][..l] == capture[..l];
        if capture[l].len == UNFINISHED { return; }
        l := l - 1;
      }
    }

    /** classend */
    method FindClassEnd(p: nat) returns (r: Extent)
      requires At(pat, p) != 0
      ensures r == ClassEnd(pat, p)
    {
      if At(pat, p) == ESC {
        if At(pat, p + 1) == 0 { return Bad("malformed pattern (ends with '%')"); }
        return EndAt(p + 2);
      }
      if At(pat, p) == '[' as int {
        var q := p + 1;
        if At(pat, q) == '^' as int { q := q + 1; }
        while true
          invariant p < q && ClassEnd(pat, p) == SetEnd(pat, q)
          decreases |pat| - q
        {
          if At(pat, q) == 0 { return Bad("malformed pattern (missing ']')"); }
          q := q + 1;
          if At(pat, q - 1) == ESC && At(pat, q) != 0 { q := q + 1; }
          if At(pat, q) == ']' as int { return EndAt(q + 1); }
        }
      }
      return EndAt(p + 1);
    }

    /** matchbracketclass: is c in the set between the brackets at p and ec? */
    method MatchBracketClass(c: int, p: nat, ec: nat) returns (r: bool)
      ensures r == SetAt(pat, p, ec).Has(c)
    {
      var sig, q := true, p;
      if At(pat, p + 1) == '^' as int { sig, q := false, p + 1; }
      q := q + 1;
      while q < ec
        invariant SetAt(pat, p, ec).Has(c) == Set(!sig, Elems(pat, q, ec)).Has(c)
      {
        if At(pat, q) == ESC {
          ElemsCons(Class(At(pat, q + 1)), Elems(pat, q + 2, ec), c, !sig);
          q := q + 1;
          if MatchClass(c, At(pat, q)) { return sig; }
        } else if At(pat, q + 1) == '-' as int && q + 2 < ec {
          ElemsCons(Range(At(pat, q), At(pat, q + 2)), Elems(pat, q + 3, ec), c, !sig);
          q := q + 2;
          if At(pat, q - 2) <= c <= At(pat, q) { return sig; }
        } else {
          ElemsCons(Char(At(pat, q)), Elems(pat, q + 1, ec), c, !sig);
          if At(pat, q) == c { return sig; }
        }
        q := q + 1;
      }
      r := !sig;
    }

    /** singlematch */
    method SingleMatch(c: int, p: nat, ep: nat) returns (r: bool)
      requires ep > 0
      ensures r == SingleAt(pat, p, ep).Has(c)
    {
      var x := At(pat, p);
      if x == '.' as int { return true; }
      if x == ESC { return MatchClass(c, At(pat, p + 1)); }
      if x == '[' as int { r := MatchBracketClass(c, p, ep - 1); return; }
      return x == c;
    }

    /** matchbalance, on the two brackets at p. */
    method MatchBalance(s: nat, p: nat) returns (r: Option<nat>)
      requires s <= |src| && At(pat, p) != 0
      ensures r == Balanced(src, s, At(pat, p), At(pat, p + 1))
    {
      if SAt(src, s) != At(pat, p) { return None; }
      var b, e, cont, q := At(pat, p), At(pat, p + 1), 1, s + 1;
      while q < |src|
        invariant cont > 0 && BalanceEnd(src, q, b, e, cont) == BalanceEnd(src, s + 1, b, e, 1)
      {
        if src[q] == e {
          cont := cont - 1;
          if cont == 0 { return Some(q + 1); }
        } else if src[q] == b {
          cont := cont + 1;
        }
        q := q + 1;
      }
      r := None;
    }

    /** match_capture: the text of a closed capture again. */
    method MatchCapture(s: nat, l: nat) returns (r: Option<nat>)
      requires Valid() && s <= |src| && l < level && Caps()[l].len != UNFINISHED
      ensures r == if Repeats(src, s, Caps()[l]) then Some(s + Caps()[l].len) else None
    {
      var c := capture[l];
      if 0 <= c.len <= |src| - s && c.init + c.len <= |src| && src[c.init..c.init + c.len] == src[s..s + c.len] {
        return Some(s + c.len);
      }
      r := None;
    }

    /** max_expand: as many repetitions as fit, then one less at a time. */
    method MaxExpand(s: nat, p: nat, ep: nat) returns (r: Res)
      requires Valid() && s <= |src| && p < ep < |pat|
      modifies this`level, capture
      ensures Valid()
      ensures Verdict(Longest(src, Items(pat, ep + 1), s, MaxRun(src, SingleAt(pat, p, ep), s), old(Caps())), r,
        old(Caps()), Caps())
      decreases |pat| - p, 1
    {
      hide Items, Outs, Longest, SingleAt;
      ghost var one := SingleAt(pat, p, ep);
      var i := 0;
      while s + i < |src|
        modifies {}
        invariant s + i <= |src| && MaxRun(src, one, s) == i + MaxRun(src, one, s + i)
      {
        var m := SingleMatch(src[s + i], p, ep);
        if !m { break; }
        i := i + 1;
      }
      r := TryFewer(s, p, ep, i);
    }

    /** The second loop of max_expand. */
    method TryFewer(s: nat, p: nat, ep: nat, n: nat) returns (r: Res)
      requires Valid() && s + n <= |src| && p < ep < |pat|
      modifies this`level, capture
      ensures Valid()
      ensures Verdict(Longest(src, Items(pat, ep + 1), s, n, old(Caps())), r, old(Caps()), Caps())
      decreases |pat| - p, 0
    {
      hide Items, Outs;
      ghost var items, caps := Items(pat, ep + 1), Caps();
      var i := n;
      while i >= 0
        invariant -1 <= i <= n && Valid() && Caps() == caps
        invariant i >= 0 ==> Longest(src, items, s, n, caps) == Longest(src, items, s, i, caps)
        invariant i < 0 ==> Longest(src, items, s, n, caps) == []
      {
        r := Match(s + i, ep + 1);
        if r != NotFound { return; }
        i := i - 1;
      }
      r := NotFound;
    }

    /** min_expand: no repetition, then one more at a time. */
    method MinExpand(s0: nat, p: nat, ep: nat) returns (r: Res)
      requires Valid() && s0 <= |src| && p < ep < |pat|
      modifies this`level, capture
      ensures Valid()
      ensures Verdict(Shortest(src, Items(pat, ep + 1), s0, MaxRun(src, SingleAt(pat, p, ep), s0), old(Caps())), r,
        old(Caps()), Caps())
      decreases |pat| - p, 0
    {
      hide Items, Outs, SingleAt, Shortest, MaxRun, Verdict;
      ghost var one, items, caps := SingleAt(pat, p, ep), Items(pat, ep + 1), Caps();
      ghost var goal := Shortest(src, items, s0, MaxRun(src, one, s0), caps);
      var s := s0;
      while true
        invariant s <= |src| && Valid() && Caps() == caps
        invariant goal == Shortest(src, items, s, MaxRun(src, one, s), caps)
        decreases |src| - s
      {
        MinStep(src, items, s, one, caps);
        r := Match(s, ep + 1);
        if r != NotFound {
          ghost var more := if Fits(src, one, s) then Shortest(src, items, s + 1, MaxRun(src, one, s + 1), caps)
            else [];
          VerdictFirst(Outs(src, items, s, caps), more, r, caps, Caps());
          return;
        }
        NoVerdict(Outs(src, items, s, caps), r, caps, Caps());
        var m := false;
        if s < |src| { m := SingleMatch(src[s], p, ep); }
        if !m { return NotFound; }
        s := s + 1;
      }
    }

    /** start_capture: on failure the level is what it was. */
    method StartCapture(s: nat, p: nat, what: int) returns (r: Res)
      requires Valid() && s <= |src| && p <= |pat|
      modifies this`level, capture
      ensures Valid()
      ensures old(level) >= MAXCAPTURES ==> r == Raised("too many captures")
      ensures old(level) < MAXCAPTURES ==> Verdict(Outs(src, Items(pat, p), s, old(Caps()) + [Capture(s, what)]), r,
        old(Caps()), Caps())
      decreases |pat| - p, 5
    {
      if level >= MAXCAPTURES { return Raised("too many captures"); }
      capture[level] := Capture(s, what);
      level := level + 1;
      assert Caps() == old(Caps()) + [Capture(s, what)];
      ghost var caps := Caps();
      r := Match(s, p);
      if r == NotFound {
        assert Caps() == caps;
        level := level - 1;
        assert Caps() == caps[..|caps| - 1] == old(Caps());
      }
    }

    /** end_capture: on failure the capture is open again. */
    method EndCapture(s: nat, p: nat) returns (r: Res)
      requires Valid() && s <= |src| && p <= |pat|
      modifies this`level, capture
      ensures Valid()
      ensures LastOpen(old(Caps())) < 0 ==> r == Raised("invalid pattern capture")
      ensures LastOpen(old(Caps())) >= 0 ==> Verdict(Outs(src, Items(pat, p), s, Closed(old(Caps()), s)), r,
        old(Caps()), Caps())
      decreases |pat| - p, 5
    {
      ghost var caps := Caps();
      var l := CaptureToClose();
      if l < 0 { return Raised("invalid pattern capture"); }
      capture[l] := Capture(capture[l].init, s - capture[l].init);
      ghost var closed := caps[l := Capture(caps[l].init, s - caps[l].init)];
      assert Caps() == closed;
      r := Match(s, p);
      if r == NotFound {
        assert Caps() == closed;
        assert capture[l] == Caps()[l];
        capture[l] := Capture(capture[l].init, UNFINISHED);
        assert Caps() == closed[l := caps[l]] == caps;
      }
    }

    /** `%b`, at p of the pattern. */
    method StepBalance(s: nat, p: nat) returns (next: Option<(nat, nat)>, r: Res)
      requires Valid() && s <= |src| && p < |pat| && At(pat, p) == ESC && At(pat, p + 1) == 'b' as int
      ensures Round(src, pat, s, p, Caps(), next, r, Caps())
    {
      ItemsUnfold(pat, p);
      hide Items, Outs, ItemAt;
      if At(pat, p + 2) == 0 || At(pat, p + 3) == 0 { return None, Raised("unbalanced pattern"); }
      var q := MatchBalance(s, p + 2);
      if q.None? { return None, NotFound; }
      return Some((q.value, p + 4)), NotFound;
    }

    /** `%f` */
    method StepFrontier(s: nat, p: nat) returns (next: Option<(nat, nat)>, r: Res)
      requires Valid() && s <= |src| && p < |pat| && At(pat, p) == ESC && At(pat, p + 1) == 'f' as int
      ensures Round(src, pat, s, p, Caps(), next, r, Caps())
    {
      FrontierOuts(src, pat, s, p, Caps());
      hide Items, Outs, ItemAt, SetAt, ClassEnd;
      if At(pat, p + 2) != '[' as int { return None, Raised("missing '[' after '%f' in pattern"); }
      var end := FindClassEnd(p + 2);
      if end.Bad? { return None, Raised(end.msg); }
      var previous := if s == 0 then 0 else src[s - 1];
      var before := MatchBracketClass(previous, p + 2, end.ep - 1);
      var after := MatchBracketClass(SAt(src, s), p + 2, end.ep - 1);
      if before || !after { return None, NotFound; }
      return Some((s, end.ep)), NotFound;
    }

    /** `%1` .. `%9` */
    method StepBack(s: nat, p: nat) returns (next: Option<(nat, nat)>, r: Res)
      requires Valid() && s <= |src| && p < |pat| && At(pat, p) == ESC && IsDigit(At(pat, p + 1))
      ensures Round(src, pat, s, p, Caps(), next, r, Caps())
    {
      ItemsUnfold(pat, p);
      var l := CheckCapture(At(pat, p + 1));
      if l.None? { return None, Raised("invalid capture index"); }
      var q := MatchCapture(s, l.value);
      if q.None? { return None, NotFound; }
      return Some((q.value, p + 2)), NotFound;
    }

    /** An item of one character, with its suffix. */
    method StepPlain(s: nat, p: nat) returns (next: Option<(nat, nat)>, r: Res)
      requires Valid() && s <= |src| && p < |pat| && At(pat, p) != 0 && ItemAt(pat, p) == PlainItem(pat, p)
      modifies this`level, capture
      ensures Valid() && Round(src, pat, s, p, old(Caps()), next, r, Caps())
      decreases |pat| - p, 2
    {
      hide Items, Outs, Longest, Shortest, ItemAt, PlainItem, SingleAt, MaxRun;
      next, r := None, NotFound;
      ghost var caps := Caps();
      var end := FindClassEnd(p);
      if end.Bad? {
        PlainBad(src, pat, s, p, caps);
        return None, Raised(end.msg);
      }
      var ep := end.ep;
      PlainOuts(src, pat, s, p, ep, caps);
      var m := false;
      if s < |src| { m := SingleMatch(src[s], p, ep); }
      assert m == Fits(src, SingleAt(pat, p, ep), s);
      var suffix := At(pat, ep);
      if suffix == '?' as int {
        if m {
          r := Match(s + 1, ep + 1);
          if r != NotFound { return; }
        }
        next := Some((s, ep + 1));
      } else if suffix == '*' as int {
        r := MaxExpand(s, p, ep);
      } else if suffix == '+' as int {
        if m { r := MaxExpand(s + 1, p, ep); }
      } else if suffix == '-' as int {
        r := MinExpand(s, p, ep);
      } else if m {
        next := Some((s + 1, ep));
      }
    }

    /** The round for the item at p. */
    method Step(s: nat, p: nat) returns (next: Option<(nat, nat)>, r: Res)
      requires Valid() && s <= |src| && p < |pat| && At(pat, p) != 0
      modifies this`level, capture
      ensures Valid() && Round(src, pat, s, p, old(Caps()), next, r, Caps())
      decreases |pat| - p, 3
    {
      hide Items, Outs, ItemAt, Closed, LastOpen;
      next, r := None, NotFound;
      var c, d := At(pat, p), At(pat, p + 1);
      PlainThere(pat, p);
      if c == '(' as int {
        OpenOuts(src, pat, s, p, Caps());
        if d == ')' as int { r := StartCapture(s, p + 2, POSITION); } else { r := StartCapture(s, p + 1, UNFINISHED); }
      } else if c == ')' as int {
        CloseOuts(src, pat, s, p, Caps());
        r := EndCapture(s, p + 1);
      } else if c == ESC && d == 'b' as int {
        next, r := StepBalance(s, p);
      } else if c == ESC && d == 'f' as int {
        next, r := StepFrontier(s, p);
      } else if c == ESC && IsDigit(d) {
        next, r := StepBack(s, p);
      } else if c == '$' as int && d == 0 {
        DollarOuts(src, pat, s, p, Caps());
        r := if s == |src| then Found(s) else NotFound;
      } else {
        next, r := StepPlain(s, p);
      }
    }

    /** match: rounds until one gives a verdict. */
    method Match(s0: nat, p0: nat) returns (r: Res)
      requires Valid() && s0 <= |src| && p0 <= |pat|
      modifies this`level, capture
      ensures Valid()
      ensures Verdict(Outs(src, Items(pat, p0), s0, old(Caps())), r, old(Caps()), Caps())
      decreases |pat| - p0, 4
    {
      hide Items, Outs;
      var s: nat, p: nat := s0, p0;
      ghost var caps := Caps();
      while true
        invariant s <= |src| && p0 <= p <= |pat| && Valid() && Caps() == caps
        invariant Outs(src, Items(pat, p), s, caps) == Outs(src, Items(pat, p0), s0, caps)
        decreases |pat| - p
      {
        if At(pat, p) == 0 { ItemsDone(src, pat, s, p, caps); return Found(s); }
        var next;
        next, r := Step(s, p);
        if next.None? { return; }
        s, p := next.value.0, next.value.1;
      }
    }
  }
}
