/**
 The JavaScript built-ins the scroll logger leans on, over exact values:
 `Array.prototype.slice` with one (possibly negative) argument,
 `Array.prototype.shift`, and `Math.round`.
 */
module Js {

  /** `undefined` versus a value, as `shift()` on an empty array returns. */
  datatype Option<T> = None | Some(value: T)

  function Min(a: int, b: int): int { if a <= b then a else b }

  function Max(a: int, b: int): int { if a >= b then a else b }

  /** `s.slice(start)`: a negative start counts back from the end and is
      clamped at the front; a non-negative one is clamped at the end.
      The result is always a suffix of `s`, and its length is fixed by `start`. */
  function SliceFrom<T>(s: seq<T>, start: int): (r: seq<T>)
    ensures |r| <= |s| && r == s[|s| - |r|..]
    ensures start < 0 ==> |r| == Min(-start, |s|)
    ensures 0 <= start ==> |r| == Max(|s| - start, 0)
  {
    var from := if start < 0 then Max(|s| + start, 0) else Min(start, |s|);
    s[from..]
  }

  /** `s.shift()`: the array that remains and the element removed, if any. */
  function Shift<T>(s: seq<T>): (r: (seq<T>, Option<T>))
    ensures s == [] ==> r == ([], None)
    ensures s != [] ==> r.1 == Some(s[0]) && [s[0]] + r.0 == s
  {
    if s == [] then ([], None) else (s[1..], Some(s[0]))
  }

  /** `n` is the integer nearest to `x`, a tie going to the larger one. */
  predicate Nearest(n: int, x: real)
  {
    n as real - 0.5 <= x < n as real + 0.5
  }

  /** `Math.round` in exact arithmetic. */
  function Round(x: real): (n: int)
    ensures Nearest(n, x)
  {
    (x + 0.5).Floor
  }

  /** Only one integer is nearest, so `Round` is pinned down by `Nearest`. */
  lemma RoundUnique(x: real, m: int)
    requires Nearest(m, x)
    ensures Round(x) == m
  {
  }
}
