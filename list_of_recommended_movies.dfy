/** `ListOfRecommendedMovies`: turns the recommender's scored entries into
    movies, either all of them or a number drawn without replacement. The
    repository lookup `findById` is a function fixed at construction; the
    mechanism's draw is `ExponentialMechanism.DrawMember` fed with one ticket
    per draw. */
module RecommendedMovies {
  import opened Wrappers
  import opened Entities
  import opened Pools
  import ExponentialMechanism

  /** The key `removeIf` compares: the entry's movie id. */
  function EntryId(e: RecommendedMovie): int { e.movieId }

  /** One lookup per entry, in pool order. */
  function LookUpAll(findById: int -> Option<Movie>, pool: seq<RecommendedMovie>): seq<Option<Movie>>
  {
    seq(|pool|, i requires 0 <= i < |pool| => findById(pool[i].movieId))
  }

  class ListOfRecommendedMovies {
    /** `MovieRepository.findById`: the movie with that id, or null. */
    const findById: int -> Option<Movie>
    /** The entries still to draw from. */
    var recommendedMovies: seq<RecommendedMovie>
    /** The movies looked up so far; never cleared. */
    var moviesToRecommend: seq<Option<Movie>>
    /** The ids drawn by the latest call of `GetMovies`. */
    ghost var lastDrawnIds: seq<int>

    constructor (findById: int -> Option<Movie>, recommendedMovies: seq<RecommendedMovie>)
      ensures this.findById == findById && this.recommendedMovies == recommendedMovies
      ensures moviesToRecommend == [] && lastDrawnIds == []
    {
      this.findById := findById;
      this.recommendedMovies := recommendedMovies;
      moviesToRecommend := [];
      lastDrawnIds := [];
    }

    /** What the list appends for a drawn entry: the movie looked up by its id. */
    function LookUp(e: RecommendedMovie): Option<Movie>
    {
      findById(e.movieId)
    }

    /** `removeIf` over the pool: every entry with the selected movie id
        leaves the pool, the rest keep their order, and one looked-up movie
        is appended per removed entry. */
    method SelectMovie(selected: RecommendedMovie)
      modifies this
      ensures recommendedMovies == Without(old(recommendedMovies), EntryId, selected.movieId)
      ensures moviesToRecommend
        == old(moviesToRecommend) + Copies(LookUp(selected), Matches(old(recommendedMovies), EntryId, selected.movieId))
      ensures lastDrawnIds == old(lastDrawnIds)
    {
      var pool := recommendedMovies;
      var kept: seq<RecommendedMovie> := [];
      var i := 0;
      while i < |pool|
        invariant 0 <= i <= |pool|
        invariant kept == Without(pool[..i], EntryId, selected.movieId)
        invariant lastDrawnIds == old(lastDrawnIds)
        invariant moviesToRecommend
          == old(moviesToRecommend) + Copies(LookUp(selected), Matches(pool[..i], EntryId, selected.movieId))
      {
        assert pool[..i + 1][..i] == pool[..i];
        var before := Matches(pool[..i], EntryId, selected.movieId);
        if selected.movieId == pool[i].movieId {
          assert Copies(LookUp(selected), before + 1) == Copies(LookUp(selected), before) + [LookUp(pool[i])];
          moviesToRecommend := moviesToRecommend + [findById(pool[i].movieId)];
        } else {
          kept := kept + [pool[i]];
        }
        i := i + 1;
      }
      assert pool[..i] == pool;
      recommendedMovies := kept;
    }

    /** `getMovies`: a request outside 1..|pool| throws; a request for the
        whole pool appends one lookup per entry in pool order and leaves the
        pool as it is; otherwise one draw per ticket in `tickets[..n]` runs,
        each followed by `SelectMovie`. Every successful call returns the
        whole accumulated list. With distinct ids the draws never throw, the
        result grows by exactly `n`, the pool shrinks by `n`, and no id is
        drawn twice. */
    method GetMovies(n: int, tickets: seq<nat>) returns (r: Result<seq<Option<Movie>>>)
      requires n <= |tickets|
      modifies this
      ensures old(moviesToRecommend) <= moviesToRecommend
      ensures n <= 0 || n > |old(recommendedMovies)| ==>
        && r == Failure(IllegalArgument)
        && recommendedMovies == old(recommendedMovies)
        && moviesToRecommend == old(moviesToRecommend)
      ensures 0 < n == |old(recommendedMovies)| ==>
        && recommendedMovies == old(recommendedMovies)
        && moviesToRecommend == old(moviesToRecommend) + LookUpAll(findById, old(recommendedMovies))
        && r == Success(moviesToRecommend)
      ensures 0 < n < |old(recommendedMovies)| ==>
        var s := Rounds(Selection(old(recommendedMovies), old(moviesToRecommend), [], false),
                        EntryId, LookUp, tickets[..n]);
        && recommendedMovies == s.pool
        && moviesToRecommend == s.chosen
        && lastDrawnIds == s.drawnIds
        && (!s.failed ==> |lastDrawnIds| == n)
        && r == (if s.failed then Failure(IllegalArgument) else Success(moviesToRecommend))
      ensures 0 < n < |old(recommendedMovies)| && DistinctIds(old(recommendedMovies), EntryId) ==>
        && r == Success(moviesToRecommend)
        && |moviesToRecommend| == |old(moviesToRecommend)| + n
        && |recommendedMovies| == |old(recommendedMovies)| - n
        && |lastDrawnIds| == n
        && Distinct(lastDrawnIds)
        && (forall e :: e in recommendedMovies ==> e.movieId !in lastDrawnIds)
    {
      if n <= 0 || n > |recommendedMovies| || |recommendedMovies| < n {
        return Failure(IllegalArgument);
      } else if n == |recommendedMovies| {
        LookUpWholePool();
        return Success(moviesToRecommend);
      }
      ghost var start := Selection(recommendedMovies, moviesToRecommend, [], false);
      RoundsKeepTotal(start, EntryId, LookUp, tickets[..n]);
      if DistinctIds(recommendedMovies, EntryId) {
        RoundsWithDistinctIds(start, EntryId, LookUp, tickets[..n]);
      }
      r := DrawMovies(n, tickets);
    }

    /** The loop of the whole-pool branch of `getMovies`: one lookup per
        entry, appended in pool order. */
    method LookUpWholePool()
      modifies this
      ensures recommendedMovies == old(recommendedMovies) && lastDrawnIds == old(lastDrawnIds)
      ensures moviesToRecommend == old(moviesToRecommend) + LookUpAll(findById, recommendedMovies)
    {
      var i := 0;
      while i < |recommendedMovies|
        invariant 0 <= i <= |recommendedMovies|
        invariant recommendedMovies == old(recommendedMovies) && lastDrawnIds == old(lastDrawnIds)
        invariant moviesToRecommend == old(moviesToRecommend) + LookUpAll(findById, recommendedMovies[..i])
      {
        assert LookUpAll(findById, recommendedMovies[..i + 1])
          == LookUpAll(findById, recommendedMovies[..i]) + [findById(recommendedMovies[i].movieId)];
        moviesToRecommend := moviesToRecommend + [findById(recommendedMovies[i].movieId)];
        i := i + 1;
      }
      assert recommendedMovies[..i] == recommendedMovies;
    }

    /** The loop of the drawing branch of `getMovies`: one draw per ticket,
        each followed by `SelectMovie`, stopping at a draw that throws. */
    method DrawMovies(n: nat, tickets: seq<nat>) returns (r: Result<seq<Option<Movie>>>)
      requires n <= |tickets|
      modifies this
      ensures var s := Rounds(Selection(old(recommendedMovies), old(moviesToRecommend), [], false),
                              EntryId, LookUp, tickets[..n]);
        && recommendedMovies == s.pool
        && moviesToRecommend == s.chosen
        && lastDrawnIds == s.drawnIds
        && r == (if s.failed then Failure(IllegalArgument) else Success(moviesToRecommend))
    {
      ghost var goal := Rounds(Selection(recommendedMovies, moviesToRecommend, [], false),
                               EntryId, LookUp, tickets[..n]);
      lastDrawnIds := [];
      var i := 0;
      while i < n
        invariant 0 <= i <= n
        invariant Rounds(Selection(recommendedMovies, moviesToRecommend, lastDrawnIds, false),
                         EntryId, LookUp, tickets[i..n]) == goal
      {
        ghost var s := Selection(recommendedMovies, moviesToRecommend, lastDrawnIds, false);
        RoundsUnfold(s, EntryId, LookUp, tickets, i, n);
        var draw := ExponentialMechanism.DrawMember(recommendedMovies, tickets[i]);
        if draw.Failure? {
          return Failure(draw.error);
        }
        SelectMovie(draw.value);
        lastDrawnIds := lastDrawnIds + [draw.value.movieId];
        i := i + 1;
      }
      assert tickets[n..n] == [];
      return Success(moviesToRecommend);
    }
  }
}
