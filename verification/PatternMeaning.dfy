/** What a pattern means, said without an order of search, and that the outcomes of Pattern say the same. */
module PatternMeaning {
  import opened Common
  import opened Pattern

  /** All characters from i up to j fit the item. */
  ghost predicate RunTo(s: seq<Byte>, one: Single, i: nat, j: nat) {
    i <= j && (i < j ==> j <= |s|) && forall h :: i <= h < j ==> one.Has(s[h])
  }

  lemma RunMax(s: seq<Byte>, one: Single, i: nat, j: nat)
    ensures RunTo(s, one, i, j) <==> i <= j <= i + MaxRun(s, one, i)
  {
    if i + MaxRun(s, one, i) < j <= |s| {
      var h := i + MaxRun(s, one, i);
      assert !one.Has(s[h]);
    }
  }

  /** How many brackets are open in s[i..j], the one at i included. */
  ghost function Depth(s: seq<Byte>, i: nat, j: nat, b: Byte, e: Byte): int
    requires i < j <= |s|
    decreases j
  {
    if j == i + 1 then 1
    else Depth(s, i, j - 1, b, e) + if s[j - 1] == e then -1 else if s[j - 1] == b then 1 else 0
  }

  /** From an opening bracket to the bracket that closes it. */
  ghost predicate BalancedText(s: seq<Byte>, i: nat, j: nat, b: Byte, e: Byte) {
    i < j <= |s| && s[i] == b && Depth(s, i, j, b, e) == 0 && forall k :: i < k < j ==> Depth(s, i, k, b, e) > 0
  }

  lemma {:induction false} BalanceEndMeans(s: seq<Byte>, i: nat, k: nat, b: Byte, e: Byte)
    requires i < k <= |s| && s[i] == b && forall h :: i < h <= k ==> Depth(s, i, h, b, e) > 0
    ensures var r := BalanceEnd(s, k, b, e, Depth(s, i, k, b, e)); forall j: nat :: BalancedText(s, i, j, b, e) <==>
      r == Some(j)
    decreases |s| - k
  {
    var d := Depth(s, i, k, b, e);
    if k < |s| {
      assert Depth(s, i, k + 1, b, e) == d + if s[k] == e then -1 else if s[k] == b then 1 else 0;
      if s[k] == e && d == 1 {
        assert BalancedText(s, i, k + 1, b, e);
      } else {
        BalanceEndMeans(s, i, k + 1, b, e);
      }
    }
  }

  lemma BalanceMeans(s: seq<Byte>, i: nat, b: Byte, e: Byte, j: nat)
    ensures BalancedText(s, i, j, b, e) <==> Balanced(s, i, b, e) == Some(j)
  {
    if i < |s| && s[i] == b { BalanceEndMeans(s, i, i + 1, b, e); }
  }

  /** The text from i to e, taken with the captures caps, matches the items and leaves the captures out. */
  ghost predicate Means(s: seq<Byte>, items: seq<Item>, i: nat, caps: seq<Capture>, e: nat, out: seq<Capture>)
    decreases |items|
  {
    if items == [] then e == i && out == caps
    else
      var rest := items[1..];
      match items[0]
      case Exactly(one) => RunTo(s, one, i, i + 1) && Means(s, rest, i + 1, caps, e, out)
      case Optional(one) => Means(s, rest, i, caps, e, out) ||
        (RunTo(s, one, i, i + 1) && Means(s, rest, i + 1, caps, e, out))
      case Star(one) => exists j: nat :: RunTo(s, one, i, j) && Means(s, rest, j, caps, e, out)
      case Plus(one) => exists j: nat :: i < j && RunTo(s, one, i, j) && Means(s, rest, j, caps, e, out)
      case Minus(one) => exists j: nat :: RunTo(s, one, i, j) && Means(s, rest, j, caps, e, out)
      case Open => |caps| < MAXCAPTURES && Means(s, rest, i, caps + [Capture(i, UNFINISHED)], e, out)
      case Position => |caps| < MAXCAPTURES && Means(s, rest, i, caps + [Capture(i, POSITION)], e, out)
      case Close => LastOpen(caps) >= 0 && Means(s, rest, i, Closed(caps, i), e, out)
      case Balance(b, c) => exists j: nat :: BalancedText(s, i, j, b, c) && Means(s, rest, j, caps, e, out)
      case Frontier(one) => !one.Has(SAt(s, i - 1)) && one.Has(SAt(s, i)) && Means(s, rest, i, caps, e, out)
      case Back(l) =>
        0 <= l < |caps| && caps[l].len != UNFINISHED && Repeats(s, i, caps[l]) &&
          Means(s, rest, i + caps[l].len, caps, e, out)
      case EndOfString => i == |s| && e == i && out == caps
      case Malformed(msg) => false
  }

  /** The rest, tried from j on, has the outcome o. */
  ghost predicate From(s: seq<Byte>, rest: seq<Item>, j: nat, caps: seq<Capture>,
    o: Out) { o in Outs(s, rest, j, caps) }

  lemma {:induction false} InLongest(s: seq<Byte>, rest: seq<Item>, i: nat, n: nat, caps: seq<Capture>, o: Out)
    ensures o in Longest(s, rest, i, n, caps) <==> exists j: nat :: i <= j <= i + n && From(s, rest, j, caps, o)
    decreases n
  {
    hide Outs;
    if n > 0 { InLongest(s, rest, i, n - 1, caps, o); }
    assert o in Outs(s, rest, i + n, caps) <==> From(s, rest, i + n, caps, o);
  }

  lemma ShortestStep(s: seq<Byte>, rest: seq<Item>, i: nat, n: nat, caps: seq<Capture>, o: Out)
    ensures o in Shortest(s, rest, i, n, caps) <==>
      From(s, rest, i, caps, o) || (n > 0 && o in Shortest(s, rest, i + 1, n - 1, caps))
  {
    hide Outs;
  }

  lemma {:induction false} InShortest(s: seq<Byte>, rest: seq<Item>, i: nat, n: nat, caps: seq<Capture>, o: Out)
    ensures o in Shortest(s, rest, i, n, caps) <==> exists j: nat :: i <= j <= i + n && From(s, rest, j, caps, o)
    decreases n
  {
    hide Outs, Shortest, From;
    if n > 0 { InShortest(s, rest, i + 1, n - 1, caps, o); }
    ShortestStep(s, rest, i, n, caps, o);
  }

  /** The rest can be read from every j as its outcomes say. */
  ghost predicate RestMeans(s: seq<Byte>, rest: seq<Item>, caps: seq<Capture>, e: nat, out: seq<Capture>) {
    forall j: nat :: From(s, rest, j, caps, Match(e, out)) <==> Means(s, rest, j, caps, e, out)
  }

  lemma StarMeans(s: seq<Byte>, items: seq<Item>, i: nat, caps: seq<Capture>, e: nat, out: seq<Capture>)
    requires |items| > 0 && items[0].Star? && RestMeans(s, items[1..], caps, e, out)
    ensures Match(e, out) in Outs(s, items, i, caps) <==> Means(s, items, i, caps, e, out)
  {
    var one, rest := items[0].one, items[1..];
    InLongest(s, rest, i, MaxRun(s, one, i), caps, Match(e, out));
    forall j: nat ensures RunTo(s, one, i, j) <==> i <= j <= i + MaxRun(s, one, i) { RunMax(s, one, i, j); }
  }

  lemma MinusMeans(s: seq<Byte>, items: seq<Item>, i: nat, caps: seq<Capture>, e: nat, out: seq<Capture>)
    requires |items| > 0 && items[0].Minus? && RestMeans(s, items[1..], caps, e, out)
    ensures Match(e, out) in Outs(s, items, i, caps) <==> Means(s, items, i, caps, e, out)
  {
    var one, rest := items[0].one, items[1..];
    InShortest(s, rest, i, MaxRun(s, one, i), caps, Match(e, out));
    forall j: nat ensures RunTo(s, one, i, j) <==> i <= j <= i + MaxRun(s, one, i) { RunMax(s, one, i, j); }
  }

  lemma PlusMeans(s: seq<Byte>, items: seq<Item>, i: nat, caps: seq<Capture>, e: nat, out: seq<Capture>)
    requires |items| > 0 && items[0].Plus? && RestMeans(s, items[1..], caps, e, out)
    ensures Match(e, out) in Outs(s, items, i, caps) <==> Means(s, items, i, caps, e, out)
  {
    var one, rest := items[0].one, items[1..];
    InLongest(s, rest, i + 1, MaxRun(s, one, i + 1), caps, Match(e, out));
    forall j: nat ensures i < j && RunTo(s, one, i, j) <==>
      Fits(s, one, i) && i + 1 <= j <= i + 1 + MaxRun(s, one, i + 1) {
      RunMax(s, one, i, j);
      RunMax(s, one, i + 1, j);
    }
  }

  lemma BalancedMeans(s: seq<Byte>, items: seq<Item>, i: nat, caps: seq<Capture>, e: nat, out: seq<Capture>)
    requires |items| > 0 && items[0].Balance? && RestMeans(s, items[1..], caps, e, out)
    ensures Match(e, out) in Outs(s, items, i, caps) <==> Means(s, items, i, caps, e, out)
  {
    var b, c, rest := items[0].b, items[0].e, items[1..];
    forall j: nat ensures BalancedText(s, i, j, b, c) <==>
      Balanced(s, i, b, c) == Some(j) { BalanceMeans(s, i, b, c, j); }
    if Balanced(s, i, b, c).Some? {
      var j := Balanced(s, i, b, c).value;
      assert BalancedText(s, i, j, b, c) && (From(s, rest, j, caps, Match(e, out)) <==>
        Means(s, rest, j, caps, e, out));
    }
  }

  /** The items that choose nothing. */
  lemma PlainMeans(s: seq<Byte>, items: seq<Item>, i: nat, caps: seq<Capture>, e: nat, out: seq<Capture>)
    requires |items| > 0 && !items[0].Star? && !items[0].Plus? && !items[0].Minus? && !items[0].Balance?
    requires forall k: nat, before: seq<Capture> :: From(s, items[1..], k, before, Match(e, out)) <==>
      Means(s, items[1..], k, before, e, out)
    ensures Match(e, out) in Outs(s, items, i, caps) <==> Means(s, items, i, caps, e, out)
  {
    var rest := items[1..];
    assert From(s, rest, i, caps, Match(e, out)) <==> Match(e, out) in Outs(s, rest, i, caps);
    assert From(s, rest, i + 1, caps, Match(e, out)) <==> Match(e, out) in Outs(s, rest, i + 1, caps);
    match items[0]
    case Open => assert From(s, rest, i, caps + [Capture(i, UNFINISHED)], Match(e, out)) <==>
      Match(e, out) in Outs(s, rest, i, caps + [Capture(i, UNFINISHED)]);
    case Position => assert From(s, rest, i, caps + [Capture(i, POSITION)], Match(e, out)) <==>
      Match(e, out) in Outs(s, rest, i, caps + [Capture(i, POSITION)]);
    case Close => if LastOpen(caps) >= 0 { assert From(s, rest, i, Closed(caps, i), Match(e, out)) <==>
      Match(e, out) in Outs(s, rest, i, Closed(caps, i)); }
    case Back(l) =>
      if 0 <= l < |caps| && Repeats(s, i, caps[l]) { assert From(s, rest, i + caps[l].len, caps, Match(e, out)) <==>
        Match(e, out) in Outs(s, rest, i + caps[l].len, caps); }
    case _ =>
  }

  /** The outcomes that are matches are exactly the ways the pattern can be read: none invented, none missed. */
  lemma {:induction false} OutsMean(s: seq<Byte>, items: seq<Item>, i: nat, caps: seq<Capture>, e: nat,
    out: seq<Capture>)
    ensures Match(e, out) in Outs(s, items, i, caps) <==> Means(s, items, i, caps, e, out)
    decreases |items|
  {
    if items == [] { return; }
    var rest := items[1..];
    forall k: nat, before: seq<Capture> ensures From(s, rest, k, before, Match(e, out)) <==>
      Means(s, rest, k, before, e, out) {
      hide Outs, Means;
      OutsMean(s, rest, k, before, e, out);
    }
    hide Outs, Means;
    if items[0].Star? { StarMeans(s, items, i, caps, e, out); }
    else if items[0].Plus? { PlusMeans(s, items, i, caps, e, out); }
    else if items[0].Minus? { MinusMeans(s, items, i, caps, e, out); }
    else if items[0].Balance? { BalancedMeans(s, items, i, caps, e, out); }
    else { PlainMeans(s, items, i, caps, e, out); }
  }

  /** No outcome at all: then no way to read the pattern. */
  lemma NoMatch(s: seq<Byte>, items: seq<Item>, i: nat, caps: seq<Capture>)
    requires Outs(s, items, i, caps) == []
    ensures forall e: nat, out: seq<Capture> :: !Means(s, items, i, caps, e, out)
  {
    forall e: nat, out: seq<Capture> ensures !Means(s, items, i, caps, e, out) { OutsMean(s, items, i, caps, e, out); }
  }

  // ---- which of the matches is preferred ----

  /** A run up to j after which the rest has an outcome. */
  ghost predicate Feasible(s: seq<Byte>, one: Single, rest: seq<Item>, i: nat, j: nat, caps: seq<Capture>) {
    RunTo(s, one, i, j) && Outs(s, rest, j, caps) != []
  }

  lemma {:induction false} LongestFirst(s: seq<Byte>, rest: seq<Item>, i: nat, n: nat, j: nat, caps: seq<Capture>)
    requires i <= j <= i + n && Outs(s, rest, j, caps) != []
    requires forall k: nat :: j < k <= i + n ==> Outs(s, rest, k, caps) == []
    ensures Longest(s, rest, i, n, caps) != [] && Longest(s, rest, i, n, caps)[0] == Outs(s, rest, j, caps)[0]
    decreases n
  {
    if j < i + n { LongestFirst(s, rest, i, n - 1, j, caps); }
  }

  lemma {:induction false} ShortestFirst(s: seq<Byte>, rest: seq<Item>, i: nat, n: nat, j: nat, caps: seq<Capture>)
    requires i <= j <= i + n && Outs(s, rest, j, caps) != []
    requires forall k: nat :: i <= k < j ==> Outs(s, rest, k, caps) == []
    ensures Shortest(s, rest, i, n, caps) != [] && Shortest(s, rest, i, n, caps)[0] == Outs(s, rest, j, caps)[0]
    decreases n
  {
    if i < j { ShortestFirst(s, rest, i + 1, n - 1, j, caps); }
  }

  /** `*` takes the longest run after which the rest can go on at all. */
  lemma StarLongest(s: seq<Byte>, items: seq<Item>, i: nat, j: nat, caps: seq<Capture>)
    requires |items| > 0 && items[0].Star? && Feasible(s, items[0].one, items[1..], i, j, caps)
    requires forall k: nat :: k > j ==> !Feasible(s, items[0].one, items[1..], i, k, caps)
    ensures Outs(s, items, i, caps) != [] && Outs(s, items, i, caps)[0] == Outs(s, items[1..], j, caps)[0]
  {
    var one, rest := items[0].one, items[1..];
    RunMax(s, one, i, j);
    forall k: nat | j < k <= i + MaxRun(s, one, i) ensures Outs(s, rest, k, caps) == [] {
      RunMax(s, one, i, k);
      assert !Feasible(s, one, rest, i, k, caps);
    }
    LongestFirst(s, rest, i, MaxRun(s, one, i), j, caps);
  }

  /** `+` does so among the runs that are not empty. */
  lemma PlusLongest(s: seq<Byte>, items: seq<Item>, i: nat, j: nat, caps: seq<Capture>)
    requires |items| > 0 && items[0].Plus? && i < j && Feasible(s, items[0].one, items[1..], i, j, caps)
    requires forall k: nat :: k > j ==> !Feasible(s, items[0].one, items[1..], i, k, caps)
    ensures Outs(s, items, i, caps) != [] && Outs(s, items, i, caps)[0] == Outs(s, items[1..], j, caps)[0]
  {
    var one, rest := items[0].one, items[1..];
    assert one.Has(s[i]);
    RunMax(s, one, i + 1, j);
    forall k: nat | j < k <= i + 1 + MaxRun(s, one, i + 1) ensures Outs(s, rest, k, caps) == [] {
      RunMax(s, one, i + 1, k);
      assert !Feasible(s, one, rest, i, k, caps);
    }
    LongestFirst(s, rest, i + 1, MaxRun(s, one, i + 1), j, caps);
  }

  /** `-` takes the shortest. */
  lemma MinusShortest(s: seq<Byte>, items: seq<Item>, i: nat, j: nat, caps: seq<Capture>)
    requires |items| > 0 && items[0].Minus? && Feasible(s, items[0].one, items[1..], i, j, caps)
    requires forall k: nat :: k < j ==> !Feasible(s, items[0].one, items[1..], i, k, caps)
    ensures Outs(s, items, i, caps) != [] && Outs(s, items, i, caps)[0] == Outs(s, items[1..], j, caps)[0]
  {
    var one, rest := items[0].one, items[1..];
    RunMax(s, one, i, j);
    forall k: nat | i <= k < j ensures Outs(s, rest, k, caps) == [] {
      RunMax(s, one, i, k);
      assert !Feasible(s, one, rest, i, k, caps);
    }
    ShortestFirst(s, rest, i, MaxRun(s, one, i), j, caps);
  }

  // ---- captures stay inside the subject ----

  /** Every capture is open, a position, or a piece of the text read so far. */
  ghost predicate Inside(caps: seq<Capture>, i: nat) {
    |caps| <= MAXCAPTURES &&
    forall k :: 0 <= k < |caps| ==>
      caps[k].init <= i && (caps[k].len == UNFINISHED || caps[k].len == POSITION ||
        (caps[k].len >= 0 && caps[k].init + caps[k].len <= i))
  }

  ghost predicate OutsInside(outs: seq<Out>, s: seq<Byte>, i: nat) {
    forall o :: o in outs && o.Match? ==> i <= o.e <= |s| && Inside(o.caps, o.e)
  }

  /** What follows keeps to the subject, from wherever it starts. */
  ghost predicate RestInside(s: seq<Byte>, rest: seq<Item>) {
    forall k: nat, caps: seq<Capture> :: k <= |s| && Inside(caps, k) ==> OutsInside(Outs(s, rest, k, caps), s, k)
  }

  lemma InsideLater(caps: seq<Capture>, i: nat, j: nat)
    requires i <= j && Inside(caps, i)
    ensures Inside(caps, j)
  {
  }

  lemma LongestInside(s: seq<Byte>, rest: seq<Item>, i: nat, n: nat, caps: seq<Capture>)
    requires RestInside(s, rest) && i + n <= |s| && Inside(caps, i)
    ensures OutsInside(Longest(s, rest, i, n, caps), s, i)
  {
    forall o | o in Longest(s, rest, i, n, caps) && o.Match? ensures i <= o.e <= |s| && Inside(o.caps, o.e) {
      hide Outs, Inside;
      InLongest(s, rest, i, n, caps, o);
      var j: nat :| i <= j <= i + n && From(s, rest, j, caps, o);
      InsideLater(caps, i, j);
    }
  }

  lemma ShortestInside(s: seq<Byte>, rest: seq<Item>, i: nat, n: nat, caps: seq<Capture>)
    requires RestInside(s, rest) && i + n <= |s| && Inside(caps, i)
    ensures OutsInside(Shortest(s, rest, i, n, caps), s, i)
  {
    forall o | o in Shortest(s, rest, i, n, caps) && o.Match? ensures i <= o.e <= |s| && Inside(o.caps, o.e) {
      hide Outs, Inside;
      InShortest(s, rest, i, n, caps, o);
      var j: nat :| i <= j <= i + n && From(s, rest, j, caps, o);
      InsideLater(caps, i, j);
    }
  }

  lemma RestAt(s: seq<Byte>, rest: seq<Item>, i: nat, k: nat, caps: seq<Capture>)
    requires RestInside(s, rest) && i <= k <= |s| && Inside(caps, i)
    ensures OutsInside(Outs(s, rest, k, caps), s, i)
  {
    InsideLater(caps, i, k);
    hide Inside, Outs;
  }

  lemma BothInside(a: seq<Out>, b: seq<Out>, s: seq<Byte>, i: nat)
    requires OutsInside(a, s, i) && OutsInside(b, s, i)
    ensures OutsInside(a + b, s, i)
  {
    hide Inside;
  }

  lemma LaterInside(a: seq<Out>, s: seq<Byte>, i: nat, j: nat)
    requires OutsInside(a, s, j) && i <= j
    ensures OutsInside(a, s, i)
  {
    hide Inside;
  }

  lemma NoneInside(s: seq<Byte>, i: nat, msg: string)
    ensures OutsInside([], s, i) && OutsInside([Error(msg)], s, i)
  {
  }

  /** Repetitions keep to the subject. */
  lemma RunsInside(s: seq<Byte>, items: seq<Item>, i: nat, caps: seq<Capture>)
    requires |items| > 0 && RestInside(s, items[1..]) && i <= |s| && Inside(caps, i)
    requires items[0].Star? || items[0].Minus? || items[0].Plus?
    ensures OutsInside(Outs(s, items, i, caps), s, i)
  {
    hide Inside, RestInside, OutsInside, Longest, Shortest, MaxRun;
    var one, rest := items[0].one, items[1..];
    NoneInside(s, i, "");
    if items[0].Star? { LongestInside(s, rest, i, MaxRun(s, one, i), caps); }
    else if items[0].Minus? { ShortestInside(s, rest, i, MaxRun(s, one, i), caps); }
    else if Fits(s, one, i) {
      InsideLater(caps, i, i + 1);
      LongestInside(s, rest, i + 1, MaxRun(s, one, i + 1), caps);
      LaterInside(Longest(s, rest, i + 1, MaxRun(s, one, i + 1), caps), s, i, i + 1);
    }
  }

  /** One item that neither repeats nor changes the captures keeps to the subject when the rest does. */
  lemma TextInside(s: seq<Byte>, items: seq<Item>, i: nat, caps: seq<Capture>)
    requires |items| > 0 && RestInside(s, items[1..]) && i <= |s| && Inside(caps, i)
    requires !items[0].Open? && !items[0].Position? && !items[0].Close?
    requires !items[0].Star? && !items[0].Minus? && !items[0].Plus?
    ensures OutsInside(Outs(s, items, i, caps), s, i)
  {
    var rest := items[1..];
    if items[0].EndOfString? { assert OutsInside([Match(i, caps)], s, i); }
    hide Inside, RestInside, OutsInside;
    NoneInside(s, i, if items[0].Malformed? then items[0].msg else "invalid capture index");
    RestAt(s, rest, i, i, caps);
    match items[0]
    case Exactly(one) => if Fits(s, one, i) { RestAt(s, rest, i, i + 1, caps); }
    case Optional(one) =>
      if Fits(s, one, i) {
        RestAt(s, rest, i, i + 1, caps);
        BothInside(Outs(s, rest, i + 1, caps), Outs(s, rest, i, caps), s, i);
      } else {
        assert [] + Outs(s, rest, i, caps) == Outs(s, rest, i, caps);
      }
    case Balance(b, c) => if Balanced(s, i, b, c).Some? { RestAt(s, rest, i, Balanced(s, i, b, c).value, caps); }
    case Back(l) => if 0 <= l < |caps| && Repeats(s, i, caps[l]) { RestAt(s, rest, i, i + caps[l].len, caps); }
    case _ =>
  }

  lemma CaptureInside(s: seq<Byte>, items: seq<Item>, i: nat, caps: seq<Capture>)
    requires |items| > 0 && RestInside(s, items[1..]) && i <= |s| && Inside(caps, i)
    requires items[0].Open? || items[0].Position? || items[0].Close?
    ensures OutsInside(Outs(s, items, i, caps), s, i)
  {
    assert |caps| < MAXCAPTURES ==> Inside(caps + [Capture(i, UNFINISHED)], i) && Inside(caps + [Capture(i, POSITION)], i);
    assert LastOpen(caps) >= 0 ==> Inside(Closed(caps, i), i);
    hide Inside;
  }

  /** One item keeps to the subject when the rest does. */
  lemma ItemInside(s: seq<Byte>, items: seq<Item>, i: nat, caps: seq<Capture>)
    requires |items| > 0 && RestInside(s, items[1..]) && i <= |s| && Inside(caps, i)
    ensures OutsInside(Outs(s, items, i, caps), s, i)
  {
    hide Outs, Inside, RestInside, OutsInside;
    if items[0].Open? || items[0].Position? || items[0].Close? {
      CaptureInside(s, items, i, caps);
    } else if items[0].Star? || items[0].Minus? || items[0].Plus? {
      RunsInside(s, items, i, caps);
    } else {
      TextInside(s, items, i, caps);
    }
  }

  /** A match goes forward and its captures are pieces of the text it covers, whatever the pattern. */
  lemma {:induction false} MatchInside(s: seq<Byte>, items: seq<Item>, i: nat, caps: seq<Capture>)
    requires i <= |s| && Inside(caps, i)
    ensures OutsInside(Outs(s, items, i, caps), s, i)
    decreases |items|
  {
    hide Inside;
    if items != [] {
      var rest := items[1..];
      forall k: nat, before: seq<Capture> | k <= |s| && Inside(before, k)
        ensures OutsInside(Outs(s, rest, k, before), s, k) {
        MatchInside(s, rest, k, before);
      }
      ItemInside(s, items, i, caps);
    }
  }
}
