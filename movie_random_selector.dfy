/** `MovieRandomSelector`: draws movies from a pool without replacement and
    moves every pool entry with the drawn id to the accumulated
    recommendation. The mechanism's draw is `ExponentialMechanism.DrawMember`
    fed with one ticket per draw. */
module MovieRandomSelection {
  import opened Wrappers
  import opened Entities
  import opened Pools
  import ExponentialMechanism

  /** The key `removeIf` compares: the movie's id. */
  function MovieId(m: Movie): int { m.id }

  /** What the selector appends for a drawn movie: the movie itself. */
  function Itself(m: Movie): Movie { m }

  class MovieRandomSelector {
    /** The pool still to draw from (the list handed to the constructor). */
    var recommendedMovies: seq<Movie>
    /** The movies moved out of the pool so far. */
    var moviesInRecommendation: seq<Movie>

    constructor (recommendedMovies: seq<Movie>)
      ensures this.recommendedMovies == recommendedMovies
      ensures moviesInRecommendation == []
    {
      this.recommendedMovies := recommendedMovies;
      moviesInRecommendation := [];
    }

    /** `removeIf` over the pool: every entry with the selected movie's id
        leaves the pool, the rest keep their order, and the selected movie
        is appended once per removed entry. */
    method AddMovieToRecommendation(selected: Movie)
      modifies this
      ensures recommendedMovies == Without(old(recommendedMovies), MovieId, selected.id)
      ensures moviesInRecommendation
        == old(moviesInRecommendation) + Copies(selected, Matches(old(recommendedMovies), MovieId, selected.id))
      ensures |recommendedMovies| + |moviesInRecommendation|
        == |old(recommendedMovies)| + |old(moviesInRecommendation)|
      ensures Matches(old(recommendedMovies), MovieId, selected.id) == 0
        ==> recommendedMovies == old(recommendedMovies) && moviesInRecommendation == old(moviesInRecommendation)
    {
      var pool := recommendedMovies;
      var kept: seq<Movie> := [];
      var i := 0;
      while i < |pool|
        invariant 0 <= i <= |pool|
        invariant kept == Without(pool[..i], MovieId, selected.id)
        invariant moviesInRecommendation
          == old(moviesInRecommendation) + Copies(selected, Matches(pool[..i], MovieId, selected.id))
      {
        assert pool[..i + 1][..i] == pool[..i];
        var before := Matches(pool[..i], MovieId, selected.id);
        if selected.id == pool[i].id {
          assert Copies(selected, before + 1) == Copies(selected, before) + [selected];
          moviesInRecommendation := moviesInRecommendation + [selected];
        } else {
          kept := kept + [pool[i]];
        }
        i := i + 1;
      }
      assert pool[..i] == pool;
      recommendedMovies := kept;
      RemovalKeepsSize(pool, MovieId, selected.id);
      NoMatchNoChange(pool, MovieId, selected.id);
    }

    /** `selectRandomMovies`: a non-positive request throws; a request at
        least as large as the accumulated recommendation returns it and
        changes nothing; otherwise one draw per ticket in `tickets[..n]` runs,
        each followed by `AddMovieToRecommendation`, and the REMAINING POOL is
        returned. A draw from an empty pool throws, leaving the state the
        earlier draws made. */
    method SelectRandomMovies(n: int, tickets: seq<nat>) returns (r: Result<seq<Movie>>)
      requires n <= |tickets|
      modifies this
      ensures n <= 0 ==> r == Failure(IllegalArgument)
      ensures 0 < n && n >= |old(moviesInRecommendation)| ==> r == Success(old(moviesInRecommendation))
      ensures (n <= 0 || n >= |old(moviesInRecommendation)|) ==>
        recommendedMovies == old(recommendedMovies) && moviesInRecommendation == old(moviesInRecommendation)
      ensures 0 < n < |old(moviesInRecommendation)| ==>
        var s := Rounds(Selection(old(recommendedMovies), old(moviesInRecommendation), [], false),
                        MovieId, Itself, tickets[..n]);
        && recommendedMovies == s.pool
        && moviesInRecommendation == s.chosen
        && r == (if s.failed then Failure(IllegalArgument) else Success(s.pool))
    {
      if n <= 0 {
        return Failure(IllegalArgument);
      } else if n >= |moviesInRecommendation| {
        return Success(moviesInRecommendation);
      }
      ghost var goal := Rounds(Selection(recommendedMovies, moviesInRecommendation, [], false),
                               MovieId, Itself, tickets[..n]);
      ghost var drawn: seq<int> := [];
      var i := 0;
      while i < n
        invariant 0 <= i <= n
        invariant Rounds(Selection(recommendedMovies, moviesInRecommendation, drawn, false),
                         MovieId, Itself, tickets[i..n]) == goal
      {
        ghost var s := Selection(recommendedMovies, moviesInRecommendation, drawn, false);
        RoundsUnfold(s, MovieId, Itself, tickets, i, n);
        var draw := ExponentialMechanism.DrawMember(recommendedMovies, tickets[i]);
        if draw.Failure? {
          return Failure(draw.error);
        }
        AddMovieToRecommendation(draw.value);
        drawn := drawn + [draw.value.id];
        i := i + 1;
      }
      assert tickets[n..n] == [];
      return Success(recommendedMovies);
    }
  }

  /** A fresh selector has accumulated nothing, so every positive request
      takes the second branch: it returns an empty list and no draw runs. */
  method FreshSelectorReturnsNothing(pool: seq<Movie>, n: int, tickets: seq<nat>) returns (r: Result<seq<Movie>>, left: seq<Movie>)
    requires 0 < n <= |tickets|
    ensures r == Success([])
    ensures left == pool
  {
    var selector := new MovieRandomSelector(pool);
    r := selector.SelectRandomMovies(n, tickets);
    left := selector.recommendedMovies;
  }
}
