/** What the three CSV imports share: the outcome of one row (skipped,
    aborting the import, or kept), the fold of those outcomes over the rows,
    and cutting a list into batches. */
module CsvRows {

  /** A row is skipped (`continue`), throws out of the import, or yields a
      value. */
  datatype RowOutcome<T> = Skip | Abort | Keep(value: T)

  /** The values the rows yield, in row order, up to the first row that
      aborts, and whether one did. */
  function Outcomes<T>(rows: seq<seq<string>>, f: seq<string> -> RowOutcome<T>): (r: (seq<T>, bool))
    ensures |r.0| <= |rows|
    ensures rows == [] ==> r == ([], false)
    decreases |rows|
  {
    if rows == [] then ([], false)
    else
      var (kept, aborted) := Outcomes(rows[..|rows| - 1], f);
      if aborted then (kept, true)
      else match f(rows[|rows| - 1])
        case Skip => (kept, false)
        case Abort => (kept, true)
        case Keep(v) => (kept + [v], false)
  }

  /** The fold over one more row. */
  lemma OutcomesStep<T>(rows: seq<seq<string>>, i: nat, f: seq<string> -> RowOutcome<T>)
    requires i < |rows|
    ensures Outcomes(rows[..i + 1], f) ==
      var (kept, aborted) := Outcomes(rows[..i], f);
      if aborted then (kept, true)
      else match f(rows[i])
        case Skip => (kept, false)
        case Abort => (kept, true)
        case Keep(v) => (kept + [v], false)
  {
    assert rows[..i + 1][..i] == rows[..i];
  }

  /** The rows after an aborting row change nothing. */
  lemma {:induction false} OutcomesAfterAbort<T>(rows: seq<seq<string>>, i: nat, f: seq<string> -> RowOutcome<T>)
    requires i <= |rows| && Outcomes(rows[..i], f).1
    ensures Outcomes(rows, f) == Outcomes(rows[..i], f)
    decreases |rows| - i
  {
    if i < |rows| {
      OutcomesStep(rows, i, f);
      OutcomesAfterAbort(rows, i + 1, f);
    } else {
      assert rows[..i] == rows;
    }
  }

  /** Every kept value comes from a row whose outcome keeps it, and an
      import aborts only at a row whose outcome aborts. */
  lemma {:induction false} OutcomesFromRows<T>(rows: seq<seq<string>>, f: seq<string> -> RowOutcome<T>)
    ensures forall v :: v in Outcomes(rows, f).0 ==> exists k :: 0 <= k < |rows| && f(rows[k]) == Keep(v)
    ensures Outcomes(rows, f).1 ==> exists k :: 0 <= k < |rows| && f(rows[k]) == Abort
    ensures (forall k :: 0 <= k < |rows| ==> f(rows[k]) != Abort) ==> !Outcomes(rows, f).1
    decreases |rows|
  {
    if rows != [] {
      var front := rows[..|rows| - 1];
      OutcomesFromRows(front, f);
      forall v | v in Outcomes(front, f).0 ensures exists k :: 0 <= k < |rows| && f(rows[k]) == Keep(v) {
        var k :| 0 <= k < |front| && f(front[k]) == Keep(v);
        assert rows[k] == front[k];
      }
      if Outcomes(front, f).1 {
        var k :| 0 <= k < |front| && f(front[k]) == Abort;
        assert rows[k] == front[k];
      }
    }
  }

  /** The batches laid end to end. */
  function Flatten<T>(bs: seq<seq<T>>): seq<T>
    decreases |bs|
  {
    if bs == [] then [] else bs[0] + Flatten(bs[1..])
  }

  /** Consecutive slices of `n`, the last one possibly shorter: none for an
      empty list, one for a list that fits, and never more than elements. */
  function Chunks<T>(s: seq<T>, n: nat): (c: seq<seq<T>>)
    requires n > 0
    ensures c == [] <==> s == []
    ensures 0 < |s| <= n ==> |c| == 1
    ensures |s| > n ==> |c| >= 2
    ensures |c| <= |s|
    decreases |s|
  {
    if s == [] then []
    else if |s| <= n then [s]
    else [s[..n]] + Chunks(s[n..], n)
  }

  /** The batches concatenate back to the list, none is empty, none holds
      more than `n`, and all but the last hold exactly `n`. */
  lemma {:induction false} ChunksCover<T>(s: seq<T>, n: nat)
    requires n > 0
    ensures Flatten(Chunks(s, n)) == s
    ensures forall k :: 0 <= k < |Chunks(s, n)| ==> 0 < |Chunks(s, n)[k]| <= n
    ensures forall k :: 0 <= k < |Chunks(s, n)| - 1 ==> |Chunks(s, n)[k]| == n
    decreases |s|
  {
    if |s| > n {
      ChunksCover(s[n..], n);
      var cs := Chunks(s, n);
      assert cs[1..] == Chunks(s[n..], n);
      assert s == s[..n] + s[n..];
      forall k | 0 < k < |cs| ensures cs[k] == Chunks(s[n..], n)[k - 1] { }
    }
  }

  /** The full batches of `n` that a running batch has flushed. */
  function FullBatches<T>(s: seq<T>, n: nat): seq<seq<T>>
    requires n > 0
    decreases |s|
  {
    if |s| < n then [] else [s[..n]] + FullBatches(s[n..], n)
  }

  /** What is left in the running batch: fewer than `n` values. */
  function Pending<T>(s: seq<T>, n: nat): (r: seq<T>)
    requires n > 0
    ensures |r| < n
    decreases |s|
  {
    if |s| < n then s else Pending(s[n..], n)
  }

  /** Adding one value to the running batch: it fills up and is flushed, or
      it keeps growing. */
  lemma {:induction false} BatchOneMore<T>(s: seq<T>, x: T, n: nat)
    requires n > 0
    ensures |Pending(s, n)| + 1 == n ==>
      FullBatches(s + [x], n) == FullBatches(s, n) + [Pending(s, n) + [x]] && Pending(s + [x], n) == []
    ensures |Pending(s, n)| + 1 < n ==>
      FullBatches(s + [x], n) == FullBatches(s, n) && Pending(s + [x], n) == Pending(s, n) + [x]
    decreases |s|
  {
    if |s| >= n {
      BatchOneMore(s[n..], x, n);
      assert (s + [x])[..n] == s[..n] && (s + [x])[n..] == s[n..] + [x];
    } else if |s| + 1 == n {
      assert (s + [x])[..n] == s + [x] && (s + [x])[n..] == [];
    }
  }

  /** The flushed batches plus the final non-empty rest are the chunks. */
  lemma {:induction false} FlushIsChunks<T>(s: seq<T>, n: nat)
    requires n > 0
    ensures FullBatches(s, n) + (if Pending(s, n) == [] then [] else [Pending(s, n)]) == Chunks(s, n)
    decreases |s|
  {
    if |s| >= n {
      FlushIsChunks(s[n..], n);
      if |s| == n {
        assert s[n..] == [] && s[..n] == s;
      }
    }
  }

  /** The chunks from index `i` on: the slice up to `end`, then the chunks
      from `end` on. */
  lemma ChunkAt<T>(all: seq<T>, i: nat, end: nat, n: nat)
    requires n > 0 && i < |all| && end == (if i + n < |all| then i + n else |all|)
    ensures Chunks(all[i..], n) == [all[i..end]] + Chunks(all[end..], n)
  {
    var rest := all[i..];
    if |rest| <= n {
      assert rest == all[i..end] && all[end..] == [];
    } else {
      assert rest[..n] == all[i..end] && rest[n..] == all[end..];
    }
  }

  /** The batching loop of the movie import: slices of `batchSize` taken
      from index 0 in steps of `batchSize`. */
  method MakeBatches<T>(all: seq<T>, batchSize: nat) returns (batches: seq<seq<T>>)
    requires batchSize > 0
    ensures batches == Chunks(all, batchSize)
    ensures Flatten(batches) == all
    ensures forall k :: 0 <= k < |batches| ==> 0 < |batches[k]| <= batchSize
  {
    batches := [];
    var i := 0;
    while i < |all|
      invariant 0 <= i <= |all|
      invariant batches + Chunks(all[i..], batchSize) == Chunks(all, batchSize)
      decreases |all| - i
    {
      var end := if i + batchSize < |all| then i + batchSize else |all|;
      ChunkAt(all, i, end, batchSize);
      batches := batches + [all[i..end]];
      i := end;
    }
    assert all[i..] == [];
    ChunksCover(all, batchSize);
  }
}
