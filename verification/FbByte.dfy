/** The floating point byte of lobject.c: sizes of table constructors, rounded up to three significant bits. */
module FbByte {
  import opened Common

  const UINT := 0x1_0000_0000

  /** luaO_fb2int: eeeeexxx stands for 1xxx shifted by eeeee - 1, or for xxx when eeeee is 0. */
  function Fb2Int(b: nat): nat {
    var e := b / 8 % 32;
    if e == 0 then b else (b % 8 + 8) * Pow2(e - 1)
  }

  /** The values that the bytes stand for. */
  ghost predicate Representable(v: nat) { exists b: nat :: b < 256 && Fb2Int(b) == v }

  /** x halved e times, each time rounded up. */
  function Halved(x: nat, e: nat): nat { if e == 0 then x else (Halved(x, e - 1) + 1) / 2 }

  lemma {:induction false} HalvedCeil(x: nat, e: nat)
    ensures Halved(x, e) * Pow2(e) >= x && (x > 0 ==> Halved(x, e) > 0 && (Halved(x, e) - 1) * Pow2(e) < x)
    ensures x == 0 ==> Halved(x, e) == 0
    decreases e
  {
    if e > 0 {
      HalvedCeil(x, e - 1);
      var y, p := Halved(x, e - 1), Pow2(e - 1);
      var h := (y + 1) / 2;
      Doubled(h, y, p, x);
    }
  }

  lemma Doubled(h: int, y: int, p: nat, x: int)
    requires y <= 2 * h <= y + 1 && y * p >= x && (x > 0 ==> (y - 1) * p < x) && p > 0
    ensures h * (2 * p) >= x && (x > 0 ==> (h - 1) * (2 * p) < x)
  {
    assert h * (2 * p) == (2 * h) * p;
    Scaled(y, 2 * h, p);
    assert (h - 1) * (2 * p) == (2 * h - 2) * p;
    Scaled(2 * h - 2, y - 1, p);
  }

  lemma Scaled(a: int, b: int, p: nat)
    requires a <= b
    ensures a * p <= b * p
  {
  }

  /** luaO_int2fb. The addition is one on unsigned ints, and would wrap for the largest of them. */
  method Int2Fb(x: nat) returns (b: nat)
    requires x < UINT - 1
    ensures b < 256 && IsFb(x, b)
  {
    hide Pow2;
    var e, y := 0, x;
    while y >= 16
      invariant y == Halved(x, e) <= x && (e > 0 ==> y >= 8 && Halved(x, e - 1) >= 16)
      decreases y
    {
      y := (y + 1) % UINT / 2;
      e := e + 1;
    }
    Small(x, e);
    if y < 8 { return y; }
    b := 8 * (e + 1) + (y - 8);
  }

  /** b is the byte for x: xxx itself, or x divided by a power of two, rounded up, to between 8 and 15. */
  ghost predicate IsFb(x: nat, b: nat) {
    if b < 8 then x == b
    else
      var e := b / 8 - 1;
      Halved(x, e) == b % 8 + 8 && (e > 0 ==> Halved(x, e - 1) >= 16)
  }

  /** A number below 2^32 is halved at most 28 times. */
  lemma Small(x: nat, e: nat)
    requires x < UINT && (e > 0 ==> Halved(x, e - 1) >= 16)
    ensures e <= 29
  {
    if e >= 30 {
      HalvedCeil(x, e - 1);
      Pow2From29(e - 1);
      TooLarge(Halved(x, e - 1), Pow2(e - 1), x);
    }
  }

  lemma TooLarge(h: int, p: nat, x: int)
    requires h >= 16 && p >= 0x2000_0000 && (h - 1) * p < x
    ensures x >= UINT
  {
    Scaled(15, h - 1, p);
  }

  lemma {:induction false} Pow2From29(k: nat)
    requires k >= 29
    ensures Pow2(k) >= 0x2000_0000
    decreases k
  {
    if k > 29 {
      Pow2From29(k - 1);
    } else {
      assert Pow2(8) == 256;
      assert Pow2(16) == 0x1_0000;
      assert Pow2(24) == 0x100_0000;
    }
  }

  lemma {:induction false} Pow2Mono(a: nat, b: nat)
    requires a <= b
    ensures Pow2(a) <= Pow2(b)
    decreases b
  {
    if a < b { Pow2Mono(a, b - 1); }
  }

  // ---- what the byte stands for ----

  lemma FbValue(x: nat, b: nat)
    requires IsFb(x, b) && b < 256
    ensures Fb2Int(b) == if b < 8 then x else Halved(x, b / 8 - 1) * Pow2(b / 8 - 1)
  {
  }

  lemma CloseAbove(m: int, p: nat, x: int)
    requires m >= 9 && (m - 1) * p < x
    ensures 8 * (m * p - x) < x
  {
    Scaled(8, m - 1, p);
    assert (m - 1) * p == m * p - p;
  }

  lemma CloseAtEight(y: int, q: nat, x: int)
    requires y >= 16 && (y - 1) * q < x
    ensures 8 * (8 * (2 * q) - x) < x
  {
    Scaled(15, y - 1, q);
  }

  /** Rounded up, by less than an eighth. */
  lemma FbClose(x: nat, b: nat)
    requires IsFb(x, b) && b < 256 && x > 0
    ensures x <= Fb2Int(b) && 8 * (Fb2Int(b) - x) < x
  {
    FbValue(x, b);
    hide Fb2Int;
    if b >= 8 {
      var e := b / 8 - 1;
      HalvedCeil(x, e);
      if Halved(x, e) >= 9 {
        CloseAbove(Halved(x, e), Pow2(e), x);
      } else if e > 0 {
        HalvedCeil(x, e - 1);
        CloseAtEight(Halved(x, e - 1), Pow2(e - 1), x);
      } else {
        assert Pow2(0) == 1;
      }
    }
  }

  /** A byte of the long form: between 8 and 15, shifted. */
  lemma LongForm(b: nat)
    requires 8 <= b < 256
    ensures Fb2Int(b) == (b % 8 + 8) * Pow2(b / 8 - 1)
  {
  }

  /** A byte with a smaller exponent stands for less than x. */
  lemma Lower(x: nat, e: nat, c: nat)
    requires e > 0 && Halved(x, e - 1) >= 16 && x > 0 && 8 <= c < 256 && c / 8 - 1 < e
    ensures Fb2Int(c) < x
  {
    LongForm(c);
    HalvedCeil(x, e - 1);
    Pow2Mono(c / 8 - 1, e - 1);
    hide Pow2, Fb2Int, Halved;
    Scaled(15, Halved(x, e - 1) - 1, Pow2(e - 1));
    Product(c % 8 + 8, 15, Pow2(c / 8 - 1), Pow2(e - 1));
  }

  /** A byte with at least the same exponent stands for a multiple of the same power of two. */
  lemma Higher(x: nat, e: nat, c: nat)
    requires x > 0 && 8 <= c < 256 && c / 8 - 1 >= e && Fb2Int(c) >= x
    ensures Halved(x, e) * Pow2(e) <= Fb2Int(c)
  {
    var d := c / 8 - 1 - e;
    LongForm(c);
    Pow2Sum(d, e);
    HalvedCeil(x, e);
    MultipleOf(c % 8 + 8, Pow2(d), Pow2(e), Pow2(d + e), Halved(x, e), x);
  }

  lemma MultipleOf(k: nat, p: nat, q: nat, pq: nat, m: int, x: int)
    requires q > 0 && pq == p * q && k * pq >= x && (m - 1) * q < x
    ensures m * q <= k * pq
  {
    assert k * pq == k * p * q;
    Multiple(k * p, m, q, x);
  }

  lemma AtLeastEight(h: int, p: nat, x: int)
    requires h >= 8 && p > 0 && (h - 1) * p < x
    ensures x >= 8
  {
    Scaled(7, h - 1, p);
  }

  /** A byte below 8 stands for less than any number with a larger byte. */
  lemma Tiny(x: nat, e: nat, c: nat)
    requires c < 8 <= Halved(x, e) && x > 0
    ensures Fb2Int(c) < x
  {
    hide Pow2, Halved;
    HalvedCeil(x, e);
    AtLeastEight(Halved(x, e), Pow2(e), x);
  }

  /** No number that can be represented lies between x and the value of its byte. */
  lemma FbLeast(x: nat, b: nat, v: nat)
    requires IsFb(x, b) && b < 256 && x > 0 && Representable(v) && v >= x
    ensures Fb2Int(b) <= v
  {
    hide Pow2, Halved, Fb2Int;
    FbValue(x, b);
    var c: nat :| c < 256 && Fb2Int(c) == v;
    if b >= 8 {
      var e := b / 8 - 1;
      if c < 8 { Tiny(x, e, c); } else if c / 8 - 1 >= e { Higher(x, e, c); } else { Lower(x, e, c); }
    }
  }

  lemma Product(a: nat, b: nat, p: nat, q: nat)
    requires a <= b && p <= q
    ensures a * p <= b * q
  {
    Scaled(a, b, p);
    assert b * p <= b * q;
  }

  /** A multiple of p that is at least x is at least x rounded up. */
  lemma Multiple(k: nat, m: int, p: nat, x: int)
    requires p > 0 && k * p >= x && (m - 1) * p < x
    ensures m * p <= k * p
  {
    if k <= m - 1 { Scaled(k, m - 1, p); }
    if m <= k { Scaled(m, k, p); }
  }

  lemma {:induction false} Pow2Sum(a: nat, b: nat)
    ensures Pow2(a + b) == Pow2(a) * Pow2(b)
    decreases a
  {
    if a > 0 {
      Pow2Sum(a - 1, b);
      assert 2 * (Pow2(a - 1) * Pow2(b)) == 2 * Pow2(a - 1) * Pow2(b);
    }
  }

  lemma LongAt(e: nat, r: nat)
    requires 1 <= e < 32 && r < 8
    ensures Fb2Int(8 * e + r) == (r + 8) * Pow2(e - 1)
  {
  }

  lemma SameRow(e: nat, r: nat)
    requires 1 <= e < 32 && 1 <= r < 8
    ensures Fb2Int(8 * e + r - 1) < Fb2Int(8 * e + r)
  {
    LongAt(e, r);
    LongAt(e, r - 1);
    assert 8 * e + (r - 1) == 8 * e + r - 1;
    OneMore(r + 7, Pow2(e - 1));
  }

  lemma OneMore(k: nat, p: nat)
    requires p > 0
    ensures k * p < (k + 1) * p
  {
  }

  lemma NextRow(e: nat)
    requires 2 <= e < 32
    ensures Fb2Int(8 * e - 1) < Fb2Int(8 * e)
  {
    LongAt(e, 0);
    LongAt(e - 1, 7);
    assert 8 * (e - 1) + 7 == 8 * e - 1 && 8 * e + 0 == 8 * e;
  }

  lemma NextRises(c: nat)
    requires 0 < c < 256
    ensures Fb2Int(c - 1) < Fb2Int(c)
  {
    if c >= 16 && c % 8 == 0 {
      NextRow(c / 8);
    } else if c > 8 {
      SameRow(c / 8, c % 8);
    } else if c == 8 {
      LongAt(1, 0);
    }
  }

  /** Larger bytes stand for larger numbers. */
  lemma {:induction false} ValuesRise(b: nat, c: nat)
    requires b < c < 256
    ensures Fb2Int(b) < Fb2Int(c)
    decreases c
  {
    NextRises(c);
    if b < c - 1 { ValuesRise(b, c - 1); }
  }

  /** The encoding keeps the order. */
  lemma FbMonotone(x: nat, b: nat, y: nat, c: nat)
    requires 0 < x <= y && IsFb(x, b) && IsFb(y, c) && b < 256 && c < 256
    ensures b <= c
  {
    FbClose(y, c);
    FbLeast(x, b, Fb2Int(c));
    if c < b { ValuesRise(c, b); }
  }
}
