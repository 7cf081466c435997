/** The exponential mechanism of `ExponentialMechanism.java`: each predicted
    note is scored by its distance to the best note, the scores become
    weights `exp(ε·u / (2·S))`, the weights are normalised into a running
    cumulative distribution, and a uniform draw in [0, 1) picks the first
    index whose cumulative value lies strictly above it. */
module ExponentialMechanism {
  import opened Wrappers
  import opened Reals

  /** `MAX_NOTATION`: the best note on the rating scale. */
  const MaxNotation: real := 5.0
  /** `SENSIBILITY`: the sensitivity S of the utility. */
  const Sensibility: real := 0.5

  /** `getUtility`: minus the distance from `note` to the best note. It is
      never positive, and it is zero exactly at the best note. */
  function Utility(note: real): (u: real)
    ensures u <= 0.0
    ensures u == 0.0 <==> note == MaxNotation
    ensures note <= MaxNotation ==> u == note - MaxNotation
  {
    -Abs(note - MaxNotation)
  }

  /** The unnormalised weight `generateProbability` gives one note: positive
      whenever the exponential is. */
  function Weight(exp: RealFn, epsilon: real, note: real): (w: real)
    ensures Positive(exp) ==> w > 0.0
  {
    exp(epsilon * Utility(note) / (2.0 * Sensibility))
  }

  /** The weights of all notes, in input order. */
  function Weights(exp: RealFn, epsilon: real, notes: seq<real>): (ws: seq<real>)
    ensures |ws| == |notes|
    ensures forall i :: 0 <= i < |notes| ==> ws[i] == Weight(exp, epsilon, notes[i])
  {
    seq(|notes|, i requires 0 <= i < |notes| => Weight(exp, epsilon, notes[i]))
  }

  /** Each weight divided by `total`. */
  function Normalised(ws: seq<real>, total: real): (ps: seq<real>)
    requires total != 0.0
    ensures |ps| == |ws|
  {
    seq(|ws|, i requires 0 <= i < |ws| => ws[i] / total)
  }

  /** The running prefix sums of `ps`: entry i is ps[0] + ... + ps[i]. */
  function Cumulate(ps: seq<real>): (c: seq<real>)
    ensures |c| == |ps|
  {
    seq(|ps|, i requires 0 <= i < |ps| => Sum(ps[..i + 1]))
  }

  /** The cumulative distribution of a list of weights whose sum is not zero:
      one entry per weight, the last one the whole (normalised) mass. */
  function CumulativeDistribution(ws: seq<real>): (c: seq<real>)
    requires Sum(ws) != 0.0
    ensures |c| == |ws|
    ensures |c| > 0 ==> c[|c| - 1] == 1.0
  {
    var ps := Normalised(ws, Sum(ws));
    if ws != [] then
      SumOfNormalised(ws, Sum(ws));
      assert ps[..|ws|] == ps;
      assert Sum(ws) / Sum(ws) == 1.0;
      assert Cumulate(ps)[|ws| - 1] == Sum(ps);
      Cumulate(ps)
    else
      Cumulate(ps)
  }

  /** `generateProbability`: the first loop stores each weight and
      accumulates their sum; a zero sum throws; the second loop overwrites
      the list in place with the running sum of the normalised weights. */
  method GenerateProbability(predictedEvaluation: seq<real>, epsilon: real, exp: RealFn)
    returns (r: Result<seq<real>>)
    ensures r.Failure? <==> Sum(Weights(exp, epsilon, predictedEvaluation)) == 0.0
    ensures r.Failure? ==> r.error == IllegalArgument
    ensures r.Success? ==> |r.value| == |predictedEvaluation|
    ensures r.Success? ==> r.value == CumulativeDistribution(Weights(exp, epsilon, predictedEvaluation))
  {
    var n := |predictedEvaluation|;
    var cumulateProbability := new real[n];
    var sumOfGeneratedValues := 0.0;
    var i := 0;
    while i < n
      invariant 0 <= i <= n
      invariant forall k :: 0 <= k < i ==>
        cumulateProbability[k] == Weight(exp, epsilon, predictedEvaluation[k])
      invariant sumOfGeneratedValues == Sum(cumulateProbability[..i])
    {
      var value := exp(epsilon * Utility(predictedEvaluation[i]) / (2.0 * Sensibility));
      cumulateProbability[i] := value;
      SumOfLongerPrefix(cumulateProbability[..], i);
      assert cumulateProbability[..][..i] == cumulateProbability[..i];
      assert cumulateProbability[..][..i + 1] == cumulateProbability[..i + 1];
      sumOfGeneratedValues := sumOfGeneratedValues + value;
      i := i + 1;
    }
    ghost var ws := cumulateProbability[..];
    assert ws == Weights(exp, epsilon, predictedEvaluation);
    assert ws[..n] == ws;

    if sumOfGeneratedValues == 0.0 {
      return Failure(IllegalArgument);
    }

    NormaliseInPlace(cumulateProbability, sumOfGeneratedValues);
    r := Success(cumulateProbability[..]);
  }

  /** The second loop of `generateProbability`: each weight is divided by
      the total and added to the value before it, in place. */
  method NormaliseInPlace(a: array<real>, total: real)
    requires total != 0.0
    modifies a
    ensures a[..] == Cumulate(Normalised(old(a[..]), total))
  {
    ghost var ws := a[..];
    ghost var ps := Normalised(ws, total);
    var i := 0;
    while i < a.Length
      invariant 0 <= i <= a.Length
      invariant forall k :: 0 <= k < i ==> a[k] == Sum(ps[..k + 1])
      invariant forall k :: i <= k < a.Length ==> a[k] == ws[k]
    {
      SumOfLongerPrefix(ps, i);
      if i == 0 {
        a[i] := a[i] / total;
      } else {
        a[i] := a[i] / total + a[i - 1];
      }
      i := i + 1;
    }
  }

  /** Normalising divides the sum by the same total. */
  lemma {:induction false} SumOfNormalised(ws: seq<real>, total: real)
    requires total != 0.0
    ensures Sum(Normalised(ws, total)) == Sum(ws) / total
    decreases |ws|
  {
    if ws != [] {
      var n := |ws| - 1;
      assert Normalised(ws, total)[..n] == Normalised(ws[..n], total);
      SumOfNormalised(ws[..n], total);
    }
  }

  /** Entry i of the cumulative distribution is the share of the total weight
      held by the first i + 1 weights. */
  lemma DistributionIsShare(ws: seq<real>, i: nat)
    requires Sum(ws) != 0.0
    requires i < |ws|
    ensures CumulativeDistribution(ws)[i] == Sum(ws[..i + 1]) / Sum(ws)
  {
    assert Normalised(ws, Sum(ws))[..i + 1] == Normalised(ws[..i + 1], Sum(ws));
    SumOfNormalised(ws[..i + 1], Sum(ws));
  }

  /** Over positive terms, a longer prefix has a strictly larger sum. */
  lemma {:induction false} PrefixSumStrictlyIncreasing(ps: seq<real>, i: nat, j: nat)
    requires forall k :: 0 <= k < |ps| ==> ps[k] > 0.0
    requires i < j <= |ps|
    ensures Sum(ps[..i]) < Sum(ps[..j])
    decreases j - i
  {
    SumOfLongerPrefix(ps, j - 1);
    if i < j - 1 {
      PrefixSumStrictlyIncreasing(ps, i, j - 1);
    }
  }

  /** Positive weights normalise to positive terms. */
  lemma NormalisedPositive(ws: seq<real>, total: real)
    requires forall k :: 0 <= k < |ws| ==> ws[k] > 0.0
    requires total > 0.0
    ensures forall k :: 0 <= k < |ws| ==> Normalised(ws, total)[k] > 0.0
  {
  }

  /** The last cumulative value is the sum of all normalised weights, 1. */
  lemma DistributionEndsAtOne(ws: seq<real>)
    requires |ws| > 0
    requires Sum(ws) != 0.0
    ensures CumulativeDistribution(ws)[|ws| - 1] == 1.0
  {
    var total := Sum(ws);
    var ps := Normalised(ws, total);
    var c := Cumulate(ps);
    assert CumulativeDistribution(ws) == c;
    assert c[|ws| - 1] == Sum(ps[..|ws|]);
    assert ps[..|ws|] == ps;
    SumOfNormalised(ws, total);
    DivideBySelf(total);
  }

  /** With positive weights, the distribution is strictly increasing, every
      entry lies in (0, 1], and the last entry is exactly 1. */
  lemma DistributionShape(ws: seq<real>)
    requires forall k :: 0 <= k < |ws| ==> ws[k] > 0.0
    requires Sum(ws) != 0.0
    ensures |CumulativeDistribution(ws)| == |ws|
    ensures |ws| > 0 ==> CumulativeDistribution(ws)[|ws| - 1] == 1.0
    ensures forall i, j :: 0 <= i < j < |ws| ==>
      CumulativeDistribution(ws)[i] < CumulativeDistribution(ws)[j]
    ensures forall i :: 0 <= i < |ws| ==>
      0.0 < CumulativeDistribution(ws)[i] <= 1.0
  {
    if |ws| > 0 {
      DistributionEndsAtOne(ws);
    }
    DistributionIncreasing(ws);
  }

  /** With positive weights, each cumulative value is above zero and below
      every later one. */
  lemma DistributionIncreasing(ws: seq<real>)
    requires forall k :: 0 <= k < |ws| ==> ws[k] > 0.0
    requires Sum(ws) != 0.0
    ensures forall i, j :: 0 <= i < j < |ws| ==>
      CumulativeDistribution(ws)[i] < CumulativeDistribution(ws)[j]
    ensures forall i :: 0 <= i < |ws| ==> 0.0 < CumulativeDistribution(ws)[i]
  {
    if |ws| > 0 {
      PositiveTotal(ws);
      NormalisedPositive(ws, Sum(ws));
      var ps := Normalised(ws, Sum(ws));
      forall i, j | 0 <= i < j < |ws| ensures Cumulate(ps)[i] < Cumulate(ps)[j] {
        CumulateIncreasing(ps, i, j);
      }
      forall i | 0 <= i < |ws| ensures 0.0 < Cumulate(ps)[i] {
        CumulateIncreasing(ps, i, i);
      }
    }
  }

  /** The running sums of positive terms are positive and strictly
      increasing. */
  lemma CumulateIncreasing(ps: seq<real>, i: nat, j: nat)
    requires forall k :: 0 <= k < |ps| ==> ps[k] > 0.0
    requires i <= j < |ps|
    ensures 0.0 < Cumulate(ps)[i]
    ensures i < j ==> Cumulate(ps)[i] < Cumulate(ps)[j]
  {
    assert Cumulate(ps)[i] == Sum(ps[..i + 1]);
    assert Cumulate(ps)[j] == Sum(ps[..j + 1]);
    assert ps[..0] == [];
    PrefixSumStrictlyIncreasing(ps, 0, i + 1);
    if i < j {
      PrefixSumStrictlyIncreasing(ps, i + 1, j + 1);
    }
  }

  /** Positive weights have a positive sum once there is one. */
  lemma PositiveTotal(ws: seq<real>)
    requires forall k :: 0 <= k < |ws| ==> ws[k] > 0.0
    requires |ws| > 0
    ensures Sum(ws) > 0.0
  {
    PrefixSumStrictlyIncreasing(ws, 0, |ws|);
    assert ws[..|ws|] == ws;
    assert ws[..0] == [];
  }

  /** When `exp` is positive every weight is positive, so the weight sum is
      zero exactly when there are no notes: `generateProbability` throws
      only on an empty list. */
  lemma {:induction false} WeightSumZeroIffEmpty(exp: RealFn, epsilon: real, notes: seq<real>)
    requires Positive(exp)
    ensures forall k :: 0 <= k < |notes| ==> Weights(exp, epsilon, notes)[k] > 0.0
    ensures Sum(Weights(exp, epsilon, notes)) == 0.0 <==> notes == []
  {
    var ws := Weights(exp, epsilon, notes);
    if notes != [] {
      PrefixSumStrictlyIncreasing(ws, 0, |ws|);
      assert ws[..|ws|] == ws;
      assert ws[..0] == [];
    }
  }

  /** For ε > 0 and a monotone `exp`, a note at least as close to the best
      note gets a weight at least as large. */
  lemma CloserNoteWeighsMore(exp: RealFn, epsilon: real, closer: real, farther: real)
    requires Monotone(exp)
    requires epsilon > 0.0
    requires Abs(closer - MaxNotation) <= Abs(farther - MaxNotation)
    ensures Weight(exp, epsilon, closer) >= Weight(exp, epsilon, farther)
  {
    var uc, uf := Utility(closer), Utility(farther);
    assert uf <= uc;
    ScaleMonotone(epsilon, uf, uc);
    assert epsilon * uf / (2.0 * Sensibility) <= epsilon * uc / (2.0 * Sensibility);
  }

  /** A non-zero number divided by itself is one. */
  lemma DivideBySelf(x: real)
    requires x != 0.0
    ensures x / x == 1.0
  {
  }

  /** Multiplying by a positive factor keeps the order. */
  lemma ScaleMonotone(factor: real, a: real, b: real)
    requires factor > 0.0
    requires a <= b
    ensures factor * a <= factor * b
  {
  }

  /** `generateListofMovieAndListOfCumulateProbability`: walks the entries
      of the map in its (unspecified) iteration order and splits them into
      two parallel lists. */
  method SplitEntries<K>(recommendedMovieList: map<K, real>)
    returns (movieList: seq<K>, predictedEvaluation: seq<real>)
    ensures |movieList| == |predictedEvaluation| == |recommendedMovieList|
    ensures forall i :: 0 <= i < |movieList| ==>
      movieList[i] in recommendedMovieList
      && predictedEvaluation[i] == recommendedMovieList[movieList[i]]
    ensures forall k :: k in recommendedMovieList ==> k in movieList
    ensures forall i, j :: 0 <= i < j < |movieList| ==> movieList[i] != movieList[j]
  {
    movieList, predictedEvaluation := [], [];
    var remaining := recommendedMovieList.Keys;
    while remaining != {}
      invariant remaining <= recommendedMovieList.Keys
      invariant |movieList| == |predictedEvaluation|
      invariant |movieList| + |remaining| == |recommendedMovieList|
      invariant forall i :: 0 <= i < |movieList| ==>
        movieList[i] in recommendedMovieList && movieList[i] !in remaining
        && predictedEvaluation[i] == recommendedMovieList[movieList[i]]
      invariant forall k :: k in recommendedMovieList ==> k in movieList || k in remaining
      invariant forall i, j :: 0 <= i < j < |movieList| ==> movieList[i] != movieList[j]
      decreases |remaining|
    {
      var entry :| entry in remaining;
      movieList := movieList + [entry];
      predictedEvaluation := predictedEvaluation + [recommendedMovieList[entry]];
      remaining := remaining - {entry};
    }
  }

  /** `findIndexWithRdNumber`: the first index whose cumulative value is
      strictly above the random value, or empty if there is none. (The
      comparison is strict, although the method's comment speaks of
      "greater than or equal".) */
  method FindIndexWithRdNumber(cumuledProbability: seq<real>, randomValue: real)
    returns (r: Option<nat>)
    ensures r.Some? ==> (r.value < |cumuledProbability|
      && randomValue < cumuledProbability[r.value]
      && forall k :: 0 <= k < r.value ==> cumuledProbability[k] <= randomValue)
    ensures r.None? <==>
      forall k :: 0 <= k < |cumuledProbability| ==> cumuledProbability[k] <= randomValue
  {
    var index := 0;
    while index < |cumuledProbability|
      invariant 0 <= index <= |cumuledProbability|
      invariant forall k :: 0 <= k < index ==> cumuledProbability[k] <= randomValue
    {
      if randomValue < cumuledProbability[index] {
        return Some(index);
      }
      index := index + 1;
    }
    return None;
  }

  /** `keys` and `notes` enumerate the map's entries, each key exactly
      once, with its note at the same position. */
  ghost predicate Enumerates<K>(m: map<K, real>, keys: seq<K>, notes: seq<real>)
  {
    && |keys| == |notes| == |m|
    && (forall i :: 0 <= i < |keys| ==> keys[i] in m && notes[i] == m[keys[i]])
    && (forall k :: k in m ==> k in keys)
    && (forall i, j :: 0 <= i < j < |keys| ==> keys[i] != keys[j])
  }

  /** `selectRandomMovie`, with the draw of `rdGenerator.nextDouble()`
      passed in as `randomValue`. The map is enumerated in some order
      (`keys`, `notes`); the pick is the key at the first position whose
      cumulative probability lies strictly above the draw. A zero weight
      sum (in particular an empty map) throws `IllegalArgumentException`; no
      such position throws `IllegalStateException`, which cannot happen
      when `exp` is positive and the draw lies in [0, 1). */
  method SelectRandomMovie<K>(recommendedMovieList: map<K, real>, epsilon: real,
                              exp: RealFn, randomValue: real)
    returns (r: Result<K>, ghost keys: seq<K>, ghost notes: seq<real>)
    ensures Enumerates(recommendedMovieList, keys, notes)
    ensures r == Failure(IllegalArgument) <==> Sum(Weights(exp, epsilon, notes)) == 0.0
    ensures r.Failure? ==> r.error == IllegalArgument || r.error == IllegalState
    ensures r.Success? ==>
      && Sum(Weights(exp, epsilon, notes)) != 0.0
      && exists i :: 0 <= i < |keys| && r.value == keys[i]
           && randomValue < CumulativeDistribution(Weights(exp, epsilon, notes))[i]
           && forall k :: 0 <= k < i ==> CumulativeDistribution(Weights(exp, epsilon, notes))[k] <= randomValue
    ensures r == Failure(IllegalState) ==>
      && Sum(Weights(exp, epsilon, notes)) != 0.0
      && forall k :: 0 <= k < |keys| ==> CumulativeDistribution(Weights(exp, epsilon, notes))[k] <= randomValue
    ensures r.Success? ==> r.value in recommendedMovieList
    ensures |recommendedMovieList| == 0 ==> r == Failure(IllegalArgument)
    ensures Positive(exp) && |recommendedMovieList| > 0 && 0.0 <= randomValue < 1.0
      ==> r.Success?
  {
    var movieList, predictedEvaluation := SplitEntries(recommendedMovieList);
    keys, notes := movieList, predictedEvaluation;
    if |recommendedMovieList| == 0 {
      assert predictedEvaluation == [];
    }
    if Positive(exp) {
      WeightSumZeroIffEmpty(exp, epsilon, predictedEvaluation);
    }
    var cumuledProbability := GenerateProbability(predictedEvaluation, epsilon, exp);
    if cumuledProbability.Failure? {
      return Failure(cumuledProbability.error), keys, notes;
    }
    if Positive(exp) && |recommendedMovieList| > 0 && 0.0 <= randomValue < 1.0 {
      DistributionEndsAtOne(Weights(exp, epsilon, predictedEvaluation));
      assert randomValue < cumuledProbability.value[|predictedEvaluation| - 1];
    }
    var key := FindIndexWithRdNumber(cumuledProbability.value, randomValue);
    if key.Some? {
      return Success(movieList[key.value]), keys, notes;
    }
    return Failure(IllegalState), keys, notes;
  }

  /** The draw the two selection drivers make over their pool. Their calls
      do not match `selectRandomMovie`'s signature, so the model keeps only
      what they rely on: an empty pool throws as the zero weight sum does,
      and otherwise the pick is a member of the pool; `ticket` stands for
      the random state that decides which one. */
  function DrawMember<T>(pool: seq<T>, ticket: nat): (r: Result<T>)
    ensures r.Success? <==> |pool| > 0
    ensures r.Failure? ==> r.error == IllegalArgument
    ensures r.Success? ==> r.value in pool
  {
    if |pool| == 0 then Failure(IllegalArgument) else Success(pool[ticket % |pool|])
  }
}
