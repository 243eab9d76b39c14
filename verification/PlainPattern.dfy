/** When a search for a text and a search for the same text as a pattern give the same answer. */
module PlainPattern {
  import opened Common
  import opened Pattern
  import opened Finder

  predicate Plain(c: int) { c != 0 && !Special(c) && c != ')' as int }

  /** Nothing in the pattern has a meaning of its own, the closing parenthesis and NUL included. */
  ghost predicate Literal(pat: seq<Byte>) { forall k :: 0 <= k < |pat| ==> Plain(pat[k]) }

  lemma PlainItem(pat: seq<Byte>, p: nat)
    requires p < |pat| && Plain(pat[p]) && (p + 1 < |pat| ==> !Special(pat[p + 1]))
    ensures Items(pat, p) == [Exactly(One(Char(pat[p])))] + Items(pat, p + 1)
  {
  }

  /** A plain character matches itself. */
  lemma PlainStep(s: seq<Byte>, pat: seq<Byte>, p: nat, k: nat, caps: seq<Capture>)
    requires p < |pat| && Plain(pat[p]) && (p + 1 < |pat| ==> !Special(pat[p + 1]))
    ensures Outs(s, Items(pat, p), k, caps) ==
      if k < |s| && s[k] == pat[p] then Outs(s, Items(pat, p + 1), k + 1, caps) else []
  {
    PlainItem(pat, p);
    var items := Items(pat, p);
    hide Items;
    assert items[1..] == Items(pat, p + 1);
  }

  /** A text occurs at k when its first character is there, and the rest after it. */
  lemma OccursStep(s: seq<Byte>, pat: seq<Byte>, p: nat, n: nat, k: nat)
    requires p < n <= |pat|
    ensures Occurs(s, pat[p..n], k) <==>
      k < |s| && s[k] == pat[p] && (p + 1 == n || Occurs(s, pat[p + 1..n], k + 1))
  {
    OccursHead(s, pat[p..n], k);
    assert pat[p..n][1..] == pat[p + 1..n];
    if p + 1 == n && k < |s| { assert s[k + 1..k + 1] == pat[p + 1..n]; }
  }

  /** A stretch of plain characters has to occur; then the rest of the pattern goes on after it. */
  lemma {:induction false} PlainPrefix(s: seq<Byte>, pat: seq<Byte>, p: nat, n: nat, k: nat, caps: seq<Capture>)
    requires p <= n <= |pat| && (n < |pat| ==> !Special(pat[n])) && forall h :: p <= h < n ==> Plain(pat[h])
    ensures Outs(s, Items(pat, p), k, caps) ==
      if p == n || Occurs(s, pat[p..n], k) then Outs(s, Items(pat, n), k + n - p, caps) else []
    decreases n - p
  {
    hide Outs, Items, Occurs;
    if p < n {
      PlainStep(s, pat, p, k, caps);
      PlainPrefix(s, pat, p + 1, n, k + 1, caps);
      OccursStep(s, pat, p, n, k);
    }
  }

  lemma LiteralOuts(s: seq<Byte>, pat: seq<Byte>, k: nat)
    requires Literal(pat) && k <= |s|
    ensures Outs(s, Items(pat, 0), k, []) == if Occurs(s, pat, k) then [Match(k + |pat|, [])] else []
  {
    PlainPrefix(s, pat, 0, |pat|, k, []);
    assert pat[0..|pat|] == pat;
  }

  /** On a literal pattern the two searches agree, whatever the subject and the start. */
  lemma LiteralAgrees(s: seq<Byte>, pat: seq<Byte>, init: nat, a: Answer)
    requires Literal(pat) && init <= |s|
    ensures PlainAnswer(s, pat, init, a) <==> PatternAnswer(s, Body(pat), init, Anchored(pat), false, a)
  {
    hide Items, Outs;
    forall k: nat | k <= |s| ensures Outs(s, Items(pat, 0), k, []) == if Occurs(s, pat, k) then [Match(k + |pat|, [])]
      else [] { LiteralOuts(s, pat, k); }
    assert !Anchored(pat);
  }

  ghost predicate Agree(pat: seq<Byte>) {
    forall s: seq<Byte>, init: nat, a: Answer :: init <= |s| ==>
      (PlainAnswer(s, pat, init, a) <==> PatternAnswer(s, Body(pat), init, Anchored(pat), false, a))
  }

  /** A NUL cuts the pattern short, but not the plain text. */
  lemma NulDiffers(pat: seq<Byte>, n: nat)
    requires n < |pat| && pat[n] == 0 && forall h :: 0 <= h < n ==> Plain(pat[h])
    ensures !Agree(pat)
  {
    var s := pat[..n];
    PlainPrefix(s, pat, 0, n, 0, []);
    assert s[0..0 + n] == pat[0..n];
    assert Outs(s, Body(pat), 0, []) == [Match(n, [])];
    var a := Nothing;
    assert PlainAnswer(s, pat, 0, a) && !PatternAnswer(s, Body(pat), 0, Anchored(pat), false, a);
  }

  /** A closing parenthesis is found as a text, and is an error as a pattern. */
  lemma ParenDiffers(pat: seq<Byte>, n: nat)
    requires n < |pat| && pat[n] == ')' as int && forall h :: 0 <= h < n ==> Plain(pat[h])
    ensures !Agree(pat)
  {
    PlainPrefix(pat, pat, 0, n, 0, []);
    assert pat[0..0 + n] == pat[0..n];
    assert Items(pat, n)[0] == Close;
    assert Outs(pat, Body(pat), 0, []) == [Error("invalid pattern capture")];
    var a := Span(0, |pat|, []);
    assert pat[0..0 + |pat|] == pat;
    assert PlainAnswer(pat, pat, 0, a) && !PatternAnswer(pat, Body(pat), 0, Anchored(pat), false, a);
  }

  /** The first character that is not plain. */
  lemma {:induction false} FirstOdd(pat: seq<Byte>) returns (n: nat)
    requires !Literal(pat)
    ensures n < |pat| && !Plain(pat[n]) && forall h :: 0 <= h < n ==> Plain(pat[h])
  {
    n := 0;
    while n < |pat| && Plain(pat[n])
      invariant n <= |pat| && forall h :: 0 <= h < n ==> Plain(pat[h])
    {
      n := n + 1;
    }
  }

  /**
   * string.find skips the matcher when the pattern has no special character up to its first NUL. The
   * shortcut gives the matcher's answers exactly when the pattern has no `)` and no NUL either.
   */
  lemma ShortcutAgrees(pat: seq<Byte>)
    requires NoSpecials(pat)
    ensures Agree(pat) <==> Literal(pat)
  {
    if Literal(pat) {
      forall s: seq<Byte>, init: nat, a: Answer | init <= |s|
        ensures PlainAnswer(s, pat, init, a) <==> PatternAnswer(s, Body(pat), init, Anchored(pat), false, a)
      {
        LiteralAgrees(s, pat, init, a);
      }
    } else {
      var n := FirstOdd(pat);
      if pat[n] == 0 { NulDiffers(pat, n); } else { ParenDiffers(pat, n); }
    }
  }
}
