/** The two failure-carrying shapes the model uses in place of Python's `None` and exceptions. */
module Wrappers {
  datatype Option<+T> = None | Some(value: T)

  datatype Result<+T, +E> = Ok(value: T) | Err(error: E)

  type pos = n: int | 1 <= n witness 1

  function Min(a: int, b: int): int {
    if a <= b then a else b
  }

  function Max(a: int, b: int): int {
    if a >= b then a else b
  }

  function MaxReal(a: real, b: real): real {
    if a >= b then a else b
  }

  function MinReal(a: real, b: real): real {
    if a <= b then a else b
  }

  /** Python's `s[-n:]`: the last `n` elements, all of them when `n` is zero, all but the first `-n` below it. */
  function FromEnd<T>(s: seq<T>, n: int): (t: seq<T>)
    ensures |t| == if n > 0 then Min(n, |s|) else |s| - Min(-n, |s|)
    ensures forall i :: 0 <= i < |t| ==> t[i] == s[|s| - |t| + i]
  {
    if n <= 0 then s[Min(-n, |s|)..]
    else if n >= |s| then s
    else s[|s| - n..]
  }
}
