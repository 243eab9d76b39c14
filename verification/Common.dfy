/** Small vocabulary shared by the models. */
module Common {
  type Byte = c: int | 0 <= c < 256

  /** MAX_INT: the largest value of an int, less two to be safe. */
  const MAXINT := 0x7FFF_FFFD

  function Pow2(n: nat): (p: nat)
    ensures p > 0
  {
    if n == 0 then 1 else 2 * Pow2(n - 1)
  }

  datatype Option<+T> = None | Some(value: T)

  /** Errors are raised by a longjmp in the source: after one, nothing is said about the state. */
  datatype Status = Success | Failure(msg: string)
  {
    predicate IsFailure() { Failure? }
    function PropagateFailure(): Status
      requires Failure?
    {
      this
    }
  }

  /** No element occurs twice. */
  ghost predicate NoDup<T>(s: seq<T>) {
    forall i, j :: 0 <= i < j < |s| ==> s[i] != s[j]
  }

  lemma NoDupTail<T>(s: seq<T>)
    requires NoDup(s) && |s| > 0
    ensures NoDup(s[1..]) && s[0] !in s[1..]
    ensures forall x :: x in s <==> x == s[0] || x in s[1..]
  {
    assert s == [s[0]] + s[1..];
  }

  lemma NoDupCons<T>(x: T, s: seq<T>)
    requires NoDup(s) && x !in s
    ensures NoDup([x] + s)
  {
  }

  lemma NoDupConcat<T>(a: seq<T>, b: seq<T>)
    requires NoDup(a) && NoDup(b) && forall x :: x in b ==> x !in a
    ensures NoDup(a + b)
  {
    var s := a + b;
    forall i, j | 0 <= i < j < |s| ensures s[i] != s[j]
    {
      if i < |a| <= j { assert s[j] == b[j - |a|] && s[j] in b && s[i] in a; }
      else if |a| <= i { assert s[i] == b[i - |a|] && s[j] == b[j - |a|]; }
    }
  }

  lemma NoDupSplit<T>(s: seq<T>, n: nat)
    requires NoDup(s) && n <= |s|
    ensures NoDup(s[..n]) && NoDup(s[n..]) && forall x :: x in s[n..] ==> x !in s[..n]
    ensures s == s[..n] + s[n..]
  {
  }
}
