/** Shared vocabulary: optional values, results, and rounding as Go does it. */
module Prelude {

  datatype Option<+T> = None | Some(value: T)

  /** An operation's outcome; `:-` passes an `Err` on to the caller. */
  datatype Result<+T, +E> = Ok(value: T) | Err(error: E) {
    predicate IsFailure() {
      Err?
    }

    function PropagateFailure<U>(): Result<U, E>
      requires Err?
    {
      Err(error)
    }

    function Extract(): T
      requires Ok?
    {
      value
    }
  }

  function Min(a: int, b: int): int {
    if a <= b then a else b
  }

  function Max(a: int, b: int): int {
    if a >= b then a else b
  }

  /** Go's float-to-integer conversion: rounds toward zero. */
  function Trunc(x: real): int {
    if x >= 0.0 then x.Floor else -((-x).Floor)
  }

  /** The integer next to x on the side of zero, or x itself. */
  lemma TruncIsTowardZero(x: real, n: int)
    ensures n == Trunc(x) <==>
      if x >= 0.0 then n as real <= x < n as real + 1.0 else n as real - 1.0 < x <= n as real
  {
  }

  function Ceil(x: real): int {
    -((-x).Floor)
  }

  function Sum(xs: seq<int>): int {
    if xs == [] then 0 else Sum(xs[..|xs| - 1]) + xs[|xs| - 1]
  }

  /** Text is cut at the first separator in one way only. */
  lemma FirstSeparator(sep: char, a: string, x: string, b: string, y: string)
    requires sep !in a && sep !in b
    requires a + ([sep] + x) == b + ([sep] + y)
    ensures a == b && x == y
  {
    var s := a + ([sep] + x);
    assert s[|a|] == sep && s[|b|] == sep;
    assert forall i | 0 <= i < |a| :: s[i] == a[i] != sep;
    assert forall i | 0 <= i < |b| :: s[i] == b[i] != sep;
    assert |a| == |b|;
    assert a == s[..|a|] && b == s[..|b|];
    assert x == s[|a| + 1..] && y == s[|b| + 1..];
  }

  /** Three names joined by slashes are told apart, if only the last may hold one. */
  lemma SlashedNames(a: string, b: string, c: string, a': string, b': string, c': string)
    requires '/' !in a && '/' !in b && '/' !in a' && '/' !in b'
    ensures a + "/" + b + "/" + c == a' + "/" + b' + "/" + c' <==> a == a' && b == b' && c == c'
  {
    assert a + "/" + b + "/" + c == a + ("/" + (b + ("/" + c)));
    assert a' + "/" + b' + "/" + c' == a' + ("/" + (b' + ("/" + c')));
    if a + "/" + b + "/" + c == a' + "/" + b' + "/" + c' {
      FirstSeparator('/', a, b + ("/" + c), a', b' + ("/" + c'));
      FirstSeparator('/', b, c, b', c');
    }
  }
}
