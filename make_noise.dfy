/** `MakeNoise.java`: the bounds of a dataset, the Laplace and Gaussian
    noise draws, and the in-place perturbation of a list of ratings. The
    static `RANDOM` is replaced by the uniform or standard-normal draws it
    would have produced, passed in as parameters. */
module MakeNoise {
  import opened Reals
  import opened Entities

  /** `getMin`: the smallest element, or 0.0 for an empty list. */
  function GetMin(data: seq<real>): (r: real)
    ensures data == [] ==> r == 0.0
    ensures data != [] ==> r in data && forall x :: x in data ==> r <= x
    decreases |data|
  {
    if data == [] then 0.0
    else if |data| == 1 then data[0]
    else
      var rest := GetMin(data[1..]);
      assert forall x :: x in data ==> x == data[0] || x in data[1..];
      if data[0] <= rest then data[0] else rest
  }

  /** `getMax`: the largest element, or 0.0 for an empty list. */
  function GetMax(data: seq<real>): (r: real)
    ensures data == [] ==> r == 0.0
    ensures data != [] ==> r in data && forall x :: x in data ==> x <= r
    decreases |data|
  {
    if data == [] then 0.0
    else if |data| == 1 then data[0]
    else
      var rest := GetMax(data[1..]);
      assert forall x :: x in data ==> x == data[0] || x in data[1..];
      if rest <= data[0] then data[0] else rest
  }

  /** The standard deviation `generateGaussianNoise` uses: √2·S/ε, positive
      for positive ε and sensitivity (and √2 > 0). */
  function GaussianSigma(epsilon: real, sensitivity: real, sqrt: RealFn): (sigma: real)
    requires epsilon != 0.0
    ensures epsilon > 0.0 && sensitivity > 0.0 && sqrt(2.0) > 0.0 ==> sigma > 0.0
  {
    if epsilon > 0.0 && sensitivity > 0.0 && sqrt(2.0) > 0.0 then
      PositiveQuotient(sqrt(2.0) * sensitivity, epsilon);
      (sqrt(2.0) * sensitivity) / epsilon
    else
      (sqrt(2.0) * sensitivity) / epsilon
  }

  /** `generateGaussianNoise`, given the standard-normal draw `gaussian`
      that `RANDOM.nextGaussian()` returns. For positive ε and sensitivity
      the noise is the draw scaled by a positive σ: it keeps the draw's sign
      and is zero only for a zero draw. */
  function GaussianNoise(epsilon: real, sensitivity: real, gaussian: real, sqrt: RealFn): (n: real)
    requires epsilon != 0.0
    ensures epsilon > 0.0 && sensitivity > 0.0 && sqrt(2.0) > 0.0 ==>
      (n > 0.0 <==> gaussian > 0.0) && (n == 0.0 <==> gaussian == 0.0)
  {
    var sigma := GaussianSigma(epsilon, sensitivity, sqrt);
    if sigma > 0.0 then
      SignOfProduct(gaussian, sigma);
      gaussian * sigma
    else
      gaussian * sigma
  }

  /** The Gaussian noise is odd in the draw. */
  lemma GaussianNoiseOdd(epsilon: real, sensitivity: real, gaussian: real, sqrt: RealFn)
    requires epsilon != 0.0
    ensures GaussianNoise(epsilon, sensitivity, -gaussian, sqrt)
         == -GaussianNoise(epsilon, sensitivity, gaussian, sqrt)
  {
    var sigma := GaussianSigma(epsilon, sensitivity, sqrt);
    assert (-gaussian) * sigma == -(gaussian * sigma);
  }

  /** A positive number divided by a positive number is positive. */
  lemma PositiveQuotient(a: real, b: real)
    requires a > 0.0 && b > 0.0
    ensures a / b > 0.0
  {
  }

  /** Multiplying by a positive factor keeps the sign. */
  lemma SignOfProduct(x: real, factor: real)
    requires factor > 0.0
    ensures x * factor > 0.0 <==> x > 0.0
    ensures x * factor < 0.0 <==> x < 0.0
    ensures x * factor == 0.0 <==> x == 0.0
  {
  }

  /** The centred draw u = r − 0.5 of `generateLaplaceNoise`. */
  function CentredDraw(draw: real): real
  {
    draw - 0.5
  }

  /** `generateLaplaceNoise`, given the uniform draw `draw` that
      `RANDOM.nextDouble()` returns and `Math.log` as `ln`:
      (S/ε)·signum(u)·ln(1 − 2|u|). The centre draw 0.5 (u = 0) and a zero
      sensitivity give exactly zero noise, whatever `ln` is. */
  function LaplaceNoise(epsilon: real, sensitivity: real, draw: real, ln: RealFn): (n: real)
    requires epsilon != 0.0
    ensures CentredDraw(draw) == 0.0 ==> n == 0.0
    ensures sensitivity == 0.0 ==> n == 0.0
  {
    var privacyBudget := sensitivity / epsilon;
    var randomValue := CentredDraw(draw);
    privacyBudget * Signum(randomValue) * ln(1.0 - 2.0 * Abs(randomValue))
  }

  /** For a draw in [0, 1), u lies in [−0.5, 0.5) and the argument of the
      logarithm in [0, 1]. It is 0 (where `Math.log` gives −∞) exactly for
      the draw 0.0: the code does not guard that end of the interval. */
  lemma LaplaceDrawRange(draw: real)
    requires 0.0 <= draw < 1.0
    ensures -0.5 <= CentredDraw(draw) < 0.5
    ensures 0.0 <= 1.0 - 2.0 * Abs(CentredDraw(draw)) <= 1.0
    ensures 1.0 - 2.0 * Abs(CentredDraw(draw)) == 0.0 <==> draw == 0.0
  {
  }

  /** For S/ε > 0, 0 < |u| < 0.5 and a logarithm negative on (0, 1), the
      noise has the sign opposite to u. */
  lemma LaplaceNoiseOppositeSign(epsilon: real, sensitivity: real, draw: real, ln: RealFn)
    requires epsilon != 0.0 && sensitivity / epsilon > 0.0
    requires NegativeBelowOne(ln)
    requires 0.0 < Abs(CentredDraw(draw)) < 0.5
    ensures CentredDraw(draw) > 0.0 ==> LaplaceNoise(epsilon, sensitivity, draw, ln) < 0.0
    ensures CentredDraw(draw) < 0.0 ==> LaplaceNoise(epsilon, sensitivity, draw, ln) > 0.0
  {
    var b := sensitivity / epsilon;
    var u := CentredDraw(draw);
    var l := ln(1.0 - 2.0 * Abs(u));
    assert l < 0.0;
    if u > 0.0 {
      assert b * Signum(u) == b;
      SignOfProduct(l, b);
      assert b * l == l * b;
    } else {
      assert b * Signum(u) == -b;
      SignOfProduct(-l, b);
      assert -b * l == -l * b;
    }
  }

  /** Draws mirrored about 0.5 give opposite noise. */
  lemma LaplaceNoiseOdd(epsilon: real, sensitivity: real, offset: real, ln: RealFn)
    requires epsilon != 0.0
    ensures LaplaceNoise(epsilon, sensitivity, 0.5 - offset, ln)
         == -LaplaceNoise(epsilon, sensitivity, 0.5 + offset, ln)
  {
    assert Abs(CentredDraw(0.5 - offset)) == Abs(CentredDraw(0.5 + offset));
    assert Signum(CentredDraw(0.5 - offset)) == -Signum(CentredDraw(0.5 + offset));
  }

  /** The ε and sensitivity `applyLapplaceNoise` uses. */
  const RatingEpsilon: real := 0.5
  const RatingSensitivity: real := 1.0

  /** The noise `applyLapplaceNoise` adds for each of the given draws. */
  function RatingNoises(draws: seq<real>, ln: RealFn): (ns: seq<real>)
    ensures |ns| == |draws|
  {
    seq(|draws|, i requires 0 <= i < |draws| =>
      LaplaceNoise(RatingEpsilon, RatingSensitivity, draws[i], ln))
  }

  /** The noise a list walk adds to one rating object: the sum of the
      noises at the positions where that object occurs. */
  function NoiseReceived(ratings: seq<Rating>, noises: seq<real>, r: Rating): real
    requires |noises| == |ratings|
    decreases |ratings|
  {
    if ratings == [] then 0.0
    else
      var n := |ratings| - 1;
      NoiseReceived(ratings[..n], noises[..n], r) + (if ratings[n] == r then noises[n] else 0.0)
  }

  /** A rating that occurs once in the list receives exactly the noise of
      its own position. */
  lemma {:induction false} NoiseReceivedOnce(ratings: seq<Rating>, noises: seq<real>, i: nat)
    requires |noises| == |ratings| && i < |ratings|
    requires forall j :: 0 <= j < |ratings| && j != i ==> ratings[j] != ratings[i]
    ensures NoiseReceived(ratings, noises, ratings[i]) == noises[i]
    decreases |ratings|
  {
    var n := |ratings| - 1;
    NoiseAbsent(ratings[..i], noises[..i], ratings[i]);
    if i < n {
      NoiseReceivedOnce(ratings[..n], noises[..n], i);
    } else {
      assert ratings[..n] == ratings[..i] && noises[..n] == noises[..i];
    }
  }

  /** An object absent from the list receives no noise. */
  lemma {:induction false} NoiseAbsent(ratings: seq<Rating>, noises: seq<real>, r: Rating)
    requires |noises| == |ratings|
    requires r !in ratings
    ensures NoiseReceived(ratings, noises, r) == 0.0
    decreases |ratings|
  {
    if ratings != [] {
      var n := |ratings| - 1;
      assert forall x :: x in ratings[..n] ==> x in ratings;
      NoiseAbsent(ratings[..n], noises[..n], r);
    }
  }

  /** `applyLapplaceNoise`: walks the list once and adds one Laplace draw
      (ε = 0.5, sensitivity 1) to each rating's rate in place, returning the
      same list. A rating object listed twice is perturbed twice. */
  method ApplyLaplaceNoise(ratings: seq<Rating>, draws: seq<real>, ln: RealFn)
    returns (result: seq<Rating>)
    requires |draws| == |ratings|
    modifies (set r | r in ratings)`rate
    ensures result == ratings
    ensures forall r :: r in ratings ==>
      r.rate == old(r.rate) + NoiseReceived(ratings, RatingNoises(draws, ln), r)
    ensures forall r :: r in ratings ==>
      r.id == old(r.id) && r.accountId == old(r.accountId) && r.movieId == old(r.movieId)
  {
    ghost var noises := RatingNoises(draws, ln);
    var i := 0;
    while i < |ratings|
      invariant 0 <= i <= |ratings|
      invariant forall r :: r in ratings ==>
        r.rate == old(r.rate) + NoiseReceived(ratings[..i], noises[..i], r)
    {
      var noise := LaplaceNoise(RatingEpsilon, RatingSensitivity, draws[i], ln);
      assert ratings[..i + 1][..i] == ratings[..i];
      assert noises[..i + 1][..i] == noises[..i];
      ratings[i].rate := ratings[i].rate + noise;
      i := i + 1;
    }
    assert ratings[..i] == ratings && noises[..i] == noises;
    result := ratings;
  }

  /** When no rating object is listed twice, each rate grows by exactly the
      noise of its own draw. */
  lemma DistinctRatingsGetOwnNoise(ratings: seq<Rating>, draws: seq<real>, ln: RealFn, i: nat)
    requires |draws| == |ratings| && i < |ratings|
    requires forall j, k :: 0 <= j < k < |ratings| ==> ratings[j] != ratings[k]
    ensures NoiseReceived(ratings, RatingNoises(draws, ln), ratings[i])
         == LaplaceNoise(RatingEpsilon, RatingSensitivity, draws[i], ln)
  {
    NoiseReceivedOnce(ratings, RatingNoises(draws, ln), i);
  }
}
