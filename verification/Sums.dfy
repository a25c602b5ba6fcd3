/** Sums over sequences of records. */
module Sums {

  function Sum<T>(f: T -> real, s: seq<T>): real {
    if s == [] then 0.0 else Sum(f, s[..|s| - 1]) + f(s[|s| - 1])
  }

  function Count<T>(f: T -> int, s: seq<T>): int {
    if s == [] then 0 else Count(f, s[..|s| - 1]) + f(s[|s| - 1])
  }

  /** `x`, `n` times over. */
  function Scaled(n: int, x: real): real {
    n as real * x
  }

  function Repeat<T>(x: T, n: nat): (s: seq<T>)
    ensures |s| == n
    ensures forall i :: 0 <= i < n ==> s[i] == x
  {
    seq(n, _ => x)
  }

  lemma SplitLast<T>(s: seq<T>)
    requires s != []
    ensures s == s[..|s| - 1] + [s[|s| - 1]]
  {}

  lemma TakeOneMore<T>(s: seq<T>, i: nat)
    requires i < |s|
    ensures s[..i + 1] == s[..i] + [s[i]]
  {}

  lemma Regrouped<T>(a: seq<T>, b: seq<T>, c: seq<T>)
    ensures (a + b) + c == a + (b + c)
  {}

  lemma SumSnoc<T>(f: T -> real, s: seq<T>, x: T)
    ensures Sum(f, s + [x]) == Sum(f, s) + f(x)
  {
    assert (s + [x])[..|s + [x]| - 1] == s;
  }

  lemma {:induction false} SumAppend<T>(f: T -> real, a: seq<T>, b: seq<T>)
    ensures Sum(f, a + b) == Sum(f, a) + Sum(f, b)
  {
    if b == [] {
      assert a + b == a;
    } else {
      SumAppend(f, a, b[..|b| - 1]);
      assert a + b == (a + b[..|b| - 1]) + [b[|b| - 1]];
      SumSnoc(f, a + b[..|b| - 1], b[|b| - 1]);
    }
  }

  lemma OneMore(n: int, y: real)
    ensures (n + 1) as real * y == n as real * y + y
  {}

  lemma {:induction false} SumRepeat<T>(f: T -> real, x: T, n: nat)
    ensures Sum(f, Repeat(x, n)) == n as real * f(x)
  {
    if n > 0 {
      SumRepeat(f, x, n - 1);
      var y := f(x);
      assert Sum(f, Repeat(x, n)) == Sum(f, Repeat(x, n - 1)) + y by {
        assert Repeat(x, n) == Repeat(x, n - 1) + [x];
        SumSnoc(f, Repeat(x, n - 1), x);
      }
      OneMore(n - 1, y);
    }
  }

  lemma CountSnoc<T>(f: T -> int, s: seq<T>, x: T)
    ensures Count(f, s + [x]) == Count(f, s) + f(x)
  {
    assert (s + [x])[..|s + [x]| - 1] == s;
  }

  lemma {:induction false} CountAppend<T>(f: T -> int, a: seq<T>, b: seq<T>)
    ensures Count(f, a + b) == Count(f, a) + Count(f, b)
  {
    if b == [] {
      assert a + b == a;
    } else {
      CountAppend(f, a, b[..|b| - 1]);
      assert a + b == (a + b[..|b| - 1]) + [b[|b| - 1]];
      CountSnoc(f, a + b[..|b| - 1], b[|b| - 1]);
    }
  }
}
