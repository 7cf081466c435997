/** Selection without replacement, as both drivers (`MovieRandomSelector`
    and `ListOfRecommendedMovies`) do it: draw a member of the pool, remove
    every pool entry with the drawn id (`removeIf`), keep the rest in order,
    and append one output per removed entry to the accumulated result.
    `idOf` reads an entry's id; `out` is what the driver appends for a drawn
    entry. */
module Pools {
  import opened Wrappers
  import ExponentialMechanism

  /** The pool after `removeIf` drops every entry whose id is `id`: never
      longer than the pool, and no entry left has that id. */
  function Without<T>(pool: seq<T>, idOf: T -> int, id: int): (r: seq<T>)
    ensures |r| <= |pool|
    ensures forall k :: 0 <= k < |r| ==> idOf(r[k]) != id
    decreases |pool|
  {
    if pool == [] then []
    else
      var n := |pool| - 1;
      Without(pool[..n], idOf, id) + (if idOf(pool[n]) == id then [] else [pool[n]])
  }

  /** How many entries of the pool have the id `id`. */
  function Matches<T>(pool: seq<T>, idOf: T -> int, id: int): nat
    decreases |pool|
  {
    if pool == [] then 0
    else
      var n := |pool| - 1;
      Matches(pool[..n], idOf, id) + (if idOf(pool[n]) == id then 1 else 0)
  }

  /** `count` copies of `x`. */
  function Copies<U>(x: U, count: nat): seq<U>
  {
    seq(count, _ => x)
  }

  /** No two entries of the pool share an id. */
  ghost predicate DistinctIds<T>(pool: seq<T>, idOf: T -> int)
  {
    forall i, j :: 0 <= i < j < |pool| ==> idOf(pool[i]) != idOf(pool[j])
  }

  /** No value occurs twice. */
  ghost predicate Distinct(s: seq<int>)
  {
    forall i, j :: 0 <= i < j < |s| ==> s[i] != s[j]
  }

  /** The removal keeps exactly the entries whose id differs from `id`. */
  lemma {:induction false} WithoutMember<T>(pool: seq<T>, idOf: T -> int, id: int, x: T)
    ensures x in Without(pool, idOf, id) <==> x in pool && idOf(x) != id
    decreases |pool|
  {
    if pool != [] {
      var n := |pool| - 1;
      WithoutMember(pool[..n], idOf, id, x);
      assert pool == pool[..n] + [pool[n]];
    }
  }

  /** Each kept entry is an entry of the pool. */
  lemma KeptEntryIsInPool<T>(pool: seq<T>, idOf: T -> int, id: int, k: nat)
    requires k < |Without(pool, idOf, id)|
    ensures Without(pool, idOf, id)[k] in pool
  {
    WithoutMember(pool, idOf, id, Without(pool, idOf, id)[k]);
  }

  /** The entries kept plus the entries removed are the whole pool. */
  lemma {:induction false} RemovalKeepsSize<T>(pool: seq<T>, idOf: T -> int, id: int)
    ensures |Without(pool, idOf, id)| + Matches(pool, idOf, id) == |pool|
    decreases |pool|
  {
    if pool != [] {
      RemovalKeepsSize(pool[..|pool| - 1], idOf, id);
    }
  }

  /** The removal changes the pool exactly when some entry has the id. */
  lemma {:induction false} NoMatchNoChange<T>(pool: seq<T>, idOf: T -> int, id: int)
    ensures Without(pool, idOf, id) == pool <==> Matches(pool, idOf, id) == 0
    decreases |pool|
  {
    RemovalKeepsSize(pool, idOf, id);
    if pool != [] {
      var n := |pool| - 1;
      NoMatchNoChange(pool[..n], idOf, id);
      if Matches(pool, idOf, id) == 0 {
        assert pool == pool[..n] + [pool[n]];
      }
    }
  }

  /** A drawn member of the pool matches at least its own entry; with
      distinct ids, exactly that one. */
  lemma {:induction false} MemberMatches<T>(pool: seq<T>, idOf: T -> int, x: T)
    requires x in pool
    ensures Matches(pool, idOf, idOf(x)) >= 1
    ensures DistinctIds(pool, idOf) ==> Matches(pool, idOf, idOf(x)) == 1
    decreases |pool|
  {
    var n := |pool| - 1;
    if pool[n] != x {
      assert x in pool[..n] by { assert pool == pool[..n] + [pool[n]]; }
      MemberMatches(pool[..n], idOf, x);
    } else if DistinctIds(pool, idOf) {
      NoMatchBeforeLast(pool, idOf);
    }
  }

  /** No entry with the id means no match. */
  lemma {:induction false} NoMatchWhenAbsent<T>(pool: seq<T>, idOf: T -> int, id: int)
    requires forall i :: 0 <= i < |pool| ==> idOf(pool[i]) != id
    ensures Matches(pool, idOf, id) == 0
    decreases |pool|
  {
    if pool != [] {
      NoMatchWhenAbsent(pool[..|pool| - 1], idOf, id);
    }
  }

  /** With distinct ids, no entry before the last has the last one's id. */
  lemma NoMatchBeforeLast<T>(pool: seq<T>, idOf: T -> int)
    requires pool != [] && DistinctIds(pool, idOf)
    ensures Matches(pool[..|pool| - 1], idOf, idOf(pool[|pool| - 1])) == 0
  {
    var n := |pool| - 1;
    NoMatchWhenAbsent(pool[..n], idOf, idOf(pool[n]));
  }

  /** Removal keeps the ids of the remaining pool distinct. */
  lemma {:induction false} WithoutKeepsDistinct<T>(pool: seq<T>, idOf: T -> int, id: int)
    requires DistinctIds(pool, idOf)
    ensures DistinctIds(Without(pool, idOf, id), idOf)
    decreases |pool|
  {
    if pool != [] {
      var n := |pool| - 1;
      var front := pool[..n];
      WithoutKeepsDistinct(front, idOf, id);
      var w := Without(front, idOf, id);
      forall k | 0 <= k < |w| ensures idOf(w[k]) != idOf(pool[n]) {
        KeptEntryIsInPool(front, idOf, id, k);
        var i :| 0 <= i < n && front[i] == w[k];
        assert pool[i] == w[k];
      }
    }
  }

  /** The state of a selection session: the remaining pool, the accumulated
      result, the ids drawn so far, and whether a draw has thrown. */
  datatype Selection<T, U> = Selection(pool: seq<T>, chosen: seq<U>, drawnIds: seq<int>, failed: bool)

  /** One draw and its removal: an empty pool makes the draw throw and
      leaves the state as it is; otherwise every entry with the drawn id
      leaves the pool and one output per removed entry is appended. */
  function Step<T, U>(s: Selection<T, U>, idOf: T -> int, out: T -> U, ticket: nat): (t: Selection<T, U>)
    ensures t.failed <==> s.pool == []
    ensures t.failed ==> t.pool == s.pool && t.chosen == s.chosen && t.drawnIds == s.drawnIds
    ensures |t.pool| + |t.chosen| == |s.pool| + |s.chosen|
    ensures s.chosen <= t.chosen && s.drawnIds <= t.drawnIds
    ensures !t.failed ==> |t.pool| < |s.pool| && |t.drawnIds| == |s.drawnIds| + 1
    ensures !t.failed ==> forall x :: x in t.pool ==> idOf(x) != t.drawnIds[|s.drawnIds|]
  {
    match ExponentialMechanism.DrawMember(s.pool, ticket)
    case Failure(_) => s.(failed := true)
    case Success(m) =>
      MemberMatches(s.pool, idOf, m);
      RemovalKeepsSize(s.pool, idOf, idOf(m));
      Selection(Without(s.pool, idOf, idOf(m)),
                s.chosen + Copies(out(m), Matches(s.pool, idOf, idOf(m))),
                s.drawnIds + [idOf(m)],
                false)
  }

  /** One draw per ticket, stopping at the first that throws. A session
      that has failed makes no further draws; otherwise the result and the
      drawn ids only grow and the pool only shrinks. */
  function Rounds<T, U>(s: Selection<T, U>, idOf: T -> int, out: T -> U, tickets: seq<nat>): (r: Selection<T, U>)
    ensures s.failed ==> r == s
    ensures s.chosen <= r.chosen && s.drawnIds <= r.drawnIds
    ensures |r.pool| <= |s.pool|
    decreases |tickets|
  {
    if tickets == [] || s.failed then s
    else Rounds(Step(s, idOf, out, tickets[0]), idOf, out, tickets[1..])
  }

  /** A session over `tickets[i..n]` that has not failed makes the draw of
      `tickets[i]` and goes on with the rest. */
  lemma RoundsUnfold<T, U>(s: Selection<T, U>, idOf: T -> int, out: T -> U, tickets: seq<nat>, i: nat, n: nat)
    requires i < n <= |tickets| && !s.failed
    ensures Rounds(s, idOf, out, tickets[i..n]) == Rounds(Step(s, idOf, out, tickets[i]), idOf, out, tickets[i + 1..n])
  {
    assert tickets[i..n][0] == tickets[i] && tickets[i..n][1..] == tickets[i + 1..n];
  }

  /** Every round moves entries from the pool to the result one for one, a
      session that does not fail draws once per ticket, and a session fails
      only by drawing from an empty pool. */
  lemma {:induction false} RoundsKeepTotal<T, U>(s: Selection<T, U>, idOf: T -> int, out: T -> U, tickets: seq<nat>)
    ensures var r := Rounds(s, idOf, out, tickets);
      && |r.pool| + |r.chosen| == |s.pool| + |s.chosen|
      && (r.failed && !s.failed ==> r.pool == [])
      && (!r.failed ==> |r.drawnIds| == |s.drawnIds| + |tickets|)
    decreases |tickets|
  {
    if tickets != [] && !s.failed {
      RoundsKeepTotal(Step(s, idOf, out, tickets[0]), idOf, out, tickets[1..]);
    }
  }

  /** With repeated ids a draw removes several entries at once, so fewer
      draws than entries can still empty the pool: three entries sharing one
      id are all removed by the first of two draws, and the second throws. */
  lemma RepeatedIdsCanExhaustPool()
    ensures var r := Rounds(Selection([7, 7, 7], [], [], false), IntId, IntId, [0, 0]);
      r.failed && r.pool == [] && r.chosen == [7, 7, 7]
  {
    var s := Selection([7, 7, 7], [], [], false);
    SameIdLeavesNothing([7, 7, 7], IntId, 7);
    assert ExponentialMechanism.DrawMember(s.pool, 0) == Success(7);
    assert Copies(7, 3) == [7, 7, 7];
    var t := Step(s, IntId, IntId, 0);
    assert t == Selection([], [7, 7, 7], [7], false);
    var u := Step(t, IntId, IntId, 0);
    assert u == t.(failed := true);
    assert [0, 0][1..] == [0];
    assert Rounds(s, IntId, IntId, [0, 0]) == Rounds(t, IntId, IntId, [0]);
    assert Rounds(t, IntId, IntId, [0]) == Rounds(u, IntId, IntId, []);
  }

  /** The identity on ids, for pools of bare ids. */
  function IntId(x: int): int { x }

  /** A pool whose entries all have the id `id` is emptied by removing it,
      and every entry matches. */
  lemma {:induction false} SameIdLeavesNothing<T>(pool: seq<T>, idOf: T -> int, id: int)
    requires forall k :: 0 <= k < |pool| ==> idOf(pool[k]) == id
    ensures Without(pool, idOf, id) == [] && Matches(pool, idOf, id) == |pool|
    decreases |pool|
  {
    if pool != [] {
      SameIdLeavesNothing(pool[..|pool| - 1], idOf, id);
    }
  }


  /** The invariant of a session over a pool with distinct ids: the ids
      drawn so far are distinct and none of them is still in the pool. */
  ghost predicate FreshDraws<T, U>(s: Selection<T, U>, idOf: T -> int)
  {
    && DistinctIds(s.pool, idOf)
    && Distinct(s.drawnIds)
    && forall x :: x in s.pool ==> idOf(x) !in s.drawnIds
  }

  /** On a pool with distinct ids, a draw from a non-empty pool removes
      exactly one entry, appends exactly one output, and draws a fresh id. */
  lemma StepWithDistinctIds<T, U>(s: Selection<T, U>, idOf: T -> int, out: T -> U, ticket: nat)
    requires FreshDraws(s, idOf) && !s.failed && s.pool != []
    ensures var t := Step(s, idOf, out, ticket);
      && !t.failed
      && |t.pool| == |s.pool| - 1
      && |t.chosen| == |s.chosen| + 1
      && FreshDraws(t, idOf)
  {
    var m := ExponentialMechanism.DrawMember(s.pool, ticket).value;
    RemoveDrawn(s.pool, s.drawnIds, idOf, m);
  }

  /** Removing a drawn member of a pool with distinct ids removes exactly
      one entry, and its id is fresh among the ids drawn before. */
  lemma RemoveDrawn<T>(pool: seq<T>, drawnIds: seq<int>, idOf: T -> int, m: T)
    requires m in pool && DistinctIds(pool, idOf) && Distinct(drawnIds)
    requires forall x :: x in pool ==> idOf(x) !in drawnIds
    ensures Matches(pool, idOf, idOf(m)) == 1
    ensures |Without(pool, idOf, idOf(m))| == |pool| - 1
    ensures DistinctIds(Without(pool, idOf, idOf(m)), idOf)
    ensures Distinct(drawnIds + [idOf(m)])
    ensures forall x :: x in Without(pool, idOf, idOf(m)) ==> idOf(x) !in drawnIds + [idOf(m)]
  {
    var id := idOf(m);
    MemberMatches(pool, idOf, m);
    RemovalKeepsSize(pool, idOf, id);
    WithoutKeepsDistinct(pool, idOf, id);
    AppendFresh(drawnIds, id);
    var rest := Without(pool, idOf, id);
    forall x | x in rest ensures idOf(x) !in drawnIds + [id] {
      WithoutMember(pool, idOf, id, x);
    }
  }

  /** Appending a value not yet present keeps a sequence free of repeats. */
  lemma AppendFresh(s: seq<int>, v: int)
    requires Distinct(s) && v !in s
    ensures Distinct(s + [v])
  {
  }

  /** On a pool with distinct ids, at most |pool| draws never throw: each
      removes exactly one entry and appends exactly one output, and no id
      is drawn twice. */
  lemma {:induction false} RoundsWithDistinctIds<T, U>(s: Selection<T, U>, idOf: T -> int, out: T -> U, tickets: seq<nat>)
    requires FreshDraws(s, idOf) && !s.failed
    requires |tickets| <= |s.pool|
    ensures var r := Rounds(s, idOf, out, tickets);
      && !r.failed
      && |r.pool| == |s.pool| - |tickets|
      && |r.chosen| == |s.chosen| + |tickets|
      && |r.drawnIds| == |s.drawnIds| + |tickets|
      && FreshDraws(r, idOf)
    decreases |tickets|
  {
    if tickets != [] {
      StepWithDistinctIds(s, idOf, out, tickets[0]);
      RoundsWithDistinctIds(Step(s, idOf, out, tickets[0]), idOf, out, tickets[1..]);
    }
  }
}
