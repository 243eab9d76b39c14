/** Buffered input: a reader hands out its bytes piece by piece. */
module Zio {
  import opened Common

  const EOZ := -1

  /** The bytes up to the end the reader signals, with its first empty piece or by having no more. */
  function Stream(pieces: seq<seq<Byte>>): seq<Byte> {
    if pieces == [] || pieces[0] == [] then [] else pieces[0] + Stream(pieces[1..])
  }

  lemma Appended(all: seq<Byte>, b: seq<Byte>, before: seq<Byte>, piece: seq<Byte>, rest: seq<Byte>)
    requires all == b + before && before == piece + rest
    ensures all == b + piece + rest
  {
  }

  lemma Whole(all: seq<Byte>, b: seq<Byte>, rest: seq<Byte>)
    requires all == b + rest
    ensures b == all[..|b|] && rest == all[|b|..] && |all| == |b| + |rest|
  {
  }

  class ZIO {
    var n: nat
    var p: nat
    var buff: seq<Byte>
    var pieces: seq<seq<Byte>>

    predicate Valid()
      reads this
    {
      p + n <= |buff|
    }

    /** All the bytes that can still be read. */
    function Rest(): seq<Byte>
      requires Valid()
      reads this
    {
      buff[p..p + n] + Stream(pieces)
    }

    constructor (pieces: seq<seq<Byte>>)
      ensures Valid() && Rest() == Stream(pieces)
    {
      n, p, buff := 0, 0, [];
      this.pieces := pieces;
    }

    /** luaZ_fill: the next piece, and its first byte. */
    method Fill() returns (c: int)
      requires Valid() && n == 0
      modifies this
      ensures Valid()
      ensures old(Rest()) == [] ==> c == EOZ
      ensures old(Rest()) != [] ==> c == old(Rest())[0] && Rest() == old(Rest())[1..] && p > 0 && buff[p - 1] == c
    {
      if pieces == [] { return EOZ; }
      var b := pieces[0];
      pieces := pieces[1..];
      if |b| == 0 { return EOZ; }
      n, p, buff := |b| - 1, 1, b;
      c := b[0];
      assert b[1..1 + n] == b[1..];
    }

    /** luaZ_lookahead: the next byte, left where it is. */
    method Lookahead() returns (c: int)
      requires Valid()
      modifies this
      ensures Valid()
      ensures old(Rest()) == [] ==> c == EOZ
      ensures old(Rest()) != [] ==> c == old(Rest())[0] && Rest() == old(Rest()) && n > 0
    {
      if n == 0 {
        ghost var all := Rest();
        c := Fill();
        if c == EOZ { return; }
        ghost var tail := Rest();
        n, p := n + 1, p - 1;
        assert buff[p..p + n] == [buff[p]] + buff[p + 1..p + n];
        assert Rest() == [all[0]] + tail == all;
      }
      c := buff[p];
    }

    /** The copy in the loop of luaZ_read: m bytes of the current piece. */
    method Take(m: nat) returns (b: seq<Byte>)
      requires Valid() && m <= n
      modifies this`n, this`p
      ensures Valid() && |b| == m && old(Rest()) == b + Rest()
    {
      b := buff[p..p + m];
      assert buff[p..p + n] == b + buff[p + m..p + n];
      n, p := n - m, p + m;
    }

    /** luaZ_read: the next size bytes, wherever the pieces end; missing counts those that are not there. */
    method Read(size: nat) returns (b: seq<Byte>, missing: nat)
      requires Valid()
      modifies this
      ensures Valid()
      ensures |old(Rest())| >= size ==> missing == 0 && b == old(Rest())[..size] && Rest() == old(Rest())[size..]
      ensures |old(Rest())| < size ==> missing == size - |old(Rest())|
    {
      ghost var all := Rest();
      b, missing := [], size;
      while missing > 0
        invariant Valid() && |b| + missing == size && all == b + Rest()
      {
        hide Rest;
        ghost var before := Rest();
        var c := Lookahead();
        if c == EOZ {
          Whole(all, b, before);
          return;
        }
        var m := if missing <= n then missing else n;
        var piece := Take(m);
        Appended(all, b, before, piece, Rest());
        b := b + piece;
        missing := missing - m;
      }
      Whole(all, b, Rest());
    }
  }
}
