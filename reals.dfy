/** Real-number helpers. Java's `double` arithmetic is modelled by exact real
    arithmetic; `Math.exp`, `Math.log` and `Math.sqrt` are passed in as
    functions, and only the few laws a proof needs are assumed of them, as
    hypotheses of the lemmas that need them. */
module Reals {

  /** A mathematical primitive such as `Math.exp` or `Math.log`. */
  type RealFn = real -> real

  /** `Math.abs` */
  function Abs(x: real): real
  {
    if x < 0.0 then -x else x
  }

  /** `Math.signum`: -1, 0 or 1 according to the sign of `x`. */
  function Signum(x: real): real
  {
    if x > 0.0 then 1.0 else if x < 0.0 then -1.0 else 0.0
  }

  /** The sum of `s`, accumulated from the left as a Java `for` loop does. */
  function Sum(s: seq<real>): real
    decreases |s|
  {
    if s == [] then 0.0 else Sum(s[..|s| - 1]) + s[|s| - 1]
  }

  /** A function that is positive everywhere, as `Math.exp` is. */
  ghost predicate Positive(f: RealFn)
  {
    forall x :: f(x) > 0.0
  }

  /** A non-decreasing function, as `Math.exp` is. */
  ghost predicate Monotone(f: RealFn)
  {
    forall x, y :: x <= y ==> f(x) <= f(y)
  }

  /** A function negative on the open interval (0, 1), as `Math.log` is. */
  ghost predicate NegativeBelowOne(f: RealFn)
  {
    forall x :: 0.0 < x < 1.0 ==> f(x) < 0.0
  }

  /** Extending a prefix by one element adds that element to its sum. */
  lemma SumOfLongerPrefix(s: seq<real>, i: nat)
    requires i < |s|
    ensures Sum(s[..i + 1]) == Sum(s[..i]) + s[i]
  {
    assert s[..i + 1][..i] == s[..i];
  }
}
