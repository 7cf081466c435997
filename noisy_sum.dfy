/** `makeNoise.java`: the bounds `main` derives from a dataset, and the loop
    of `applyDifferentialPrivacy` that feeds every value to a `BoundedSum`
    aggregation. The aggregation's clamping, noise and result belong to an
    external library and are not part of this model; only the values it
    receives are. `getMin` and `getMax` are the same reductions as in
    `MakeNoise.java` and are modelled by `MakeNoise.GetMin`/`GetMax`. */
module NoisySum {
  import MakeNoise

  /** The state of a `BoundedSum` aggregation that this code can observe:
      its configuration and the entries added so far. */
  class BoundedSum {
    const epsilon: real
    const lower: real
    const upper: real
    const maxPartitionsContributed: int
    var entries: seq<real>

    /** `BoundedSum.builder()...build()`: a fresh aggregation, no entries. */
    constructor Build(epsilon: real, lower: real, upper: real, maxPartitionsContributed: int)
      ensures this.epsilon == epsilon && this.lower == lower && this.upper == upper
      ensures this.maxPartitionsContributed == maxPartitionsContributed
      ensures entries == []
    {
      this.epsilon := epsilon;
      this.lower := lower;
      this.upper := upper;
      this.maxPartitionsContributed := maxPartitionsContributed;
      entries := [];
    }

    /** `addEntry`: records one more value. */
    method AddEntry(value: real)
      modifies this
      ensures entries == old(entries) + [value]
    {
      entries := entries + [value];
    }
  }

  /** `applyDifferentialPrivacy` up to `computeResult()`: builds the
      aggregation with one partition per contributor and feeds it every
      element of `data` exactly once, in list order. */
  method ApplyDifferentialPrivacy(data: seq<real>, epsilon: real, lower: real, upper: real)
    returns (boundedSum: BoundedSum)
    ensures fresh(boundedSum)
    ensures boundedSum.epsilon == epsilon && boundedSum.lower == lower && boundedSum.upper == upper
    ensures boundedSum.maxPartitionsContributed == 1
    ensures boundedSum.entries == data
  {
    boundedSum := new BoundedSum.Build(epsilon, lower, upper, 1);
    var i := 0;
    while i < |data|
      invariant 0 <= i <= |data|
      invariant boundedSum.entries == data[..i]
    {
      boundedSum.AddEntry(data[i]);
      assert data[..i + 1] == data[..i] + [data[i]];
      i := i + 1;
    }
    assert data[..i] == data;
  }

  /** The bounds `main` derives with `getMin` and `getMax`: both 0.0 for
      empty data; otherwise two members of the data that enclose every
      element, so lower ≤ upper. */
  method DeriveBounds(filmRatings: seq<real>) returns (lower: real, upper: real)
    ensures lower <= upper
    ensures filmRatings == [] ==> lower == 0.0 && upper == 0.0
    ensures filmRatings != [] ==> lower in filmRatings && upper in filmRatings
    ensures forall x :: x in filmRatings ==> lower <= x <= upper
  {
    lower := MakeNoise.GetMin(filmRatings);
    upper := MakeNoise.GetMax(filmRatings);
    if filmRatings != [] {
      assert lower <= filmRatings[0] <= upper;
    }
  }
}
