/** The row logic of `CsvImporterService.importRatingsFromCsv`. Rows are
    the records after the header. The account and movie caches are the maps
    the services load up front; `AccountService.findOrCreateById` is a
    function of the id that may come back null; `Float.parseFloat` is a
    partial function. The account type is left abstract. */
module RatingImport {
  import opened Wrappers
  import opened Entities
  import opened JavaText
  import opened CsvRows

  /** Ratings are persisted in batches of this size. */
  const RatingBatchSize: nat := 10000

  /** The number of tokens a rating row needs. */
  const RatingColumns: nat := 4

  /** The rating a row creates: its rate, account and movie. */
  datatype NewRating<A> = NewRating(rate: real, account: A, movie: Movie)

  /** `accountCache.computeIfAbsent(id, findOrCreateById)`: a cached account,
      else the service's answer. A cache that agrees with the service on `id`
      is invisible, and only an uncached id can come back empty. */
  function AccountFor<A>(cache: map<int, A>, findOrCreate: int -> Option<A>, id: int): (r: Option<A>)
    ensures (id in cache ==> findOrCreate(id) == Some(cache[id])) ==> r == findOrCreate(id)
    ensures r.None? ==> id !in cache && findOrCreate(id).None?
  {
    if id in cache then Some(cache[id]) else findOrCreate(id)
  }

  /** One rating row. Fewer than four tokens: skipped. A user id, movie id
      or rate that does not parse throws out of the import (nothing catches
      it). No account or no movie: skipped. Otherwise a new rating. */
  function RatingRow<A>(tokens: seq<string>, accounts: map<int, A>, findOrCreate: int -> Option<A>,
                        movies: map<int, Movie>, parseFloat: string -> Option<real>): (r: RowOutcome<NewRating<A>>)
    ensures |tokens| < RatingColumns ==> r.Skip?
    ensures |tokens| >= RatingColumns ==>
      (r.Abort? <==>
        || ParseInteger(tokens[0], LongMin, LongMax).Failure?
        || ParseInteger(tokens[1], LongMin, LongMax).Failure?
        || parseFloat(tokens[2]).None?)
    ensures r.Keep? <==>
      && |tokens| >= RatingColumns
      && ParseInteger(tokens[0], LongMin, LongMax).Success?
      && ParseInteger(tokens[1], LongMin, LongMax).Success?
      && parseFloat(tokens[2]).Some?
      && AccountFor(accounts, findOrCreate, ParseInteger(tokens[0], LongMin, LongMax).value).Some?
      && ParseInteger(tokens[1], LongMin, LongMax).value in movies
    ensures r.Keep? ==>
      && ParseInteger(tokens[0], LongMin, LongMax).Success?
      && ParseInteger(tokens[1], LongMin, LongMax).Success?
      && var userId := ParseInteger(tokens[0], LongMin, LongMax).value;
      && var movieId := ParseInteger(tokens[1], LongMin, LongMax).value;
      && AccountFor(accounts, findOrCreate, userId) == Some(r.value.account)
      && movieId in movies && r.value.movie == movies[movieId]
      && parseFloat(tokens[2]) == Some(r.value.rate)
  {
    if |tokens| < RatingColumns then Skip
    else
      var userId := ParseInteger(tokens[0], LongMin, LongMax);
      var movieId := ParseInteger(tokens[1], LongMin, LongMax);
      var rate := parseFloat(tokens[2]);
      if userId.Failure? || movieId.Failure? || rate.None? then Abort
      else
        var account := AccountFor(accounts, findOrCreate, userId.value);
        if account.None? || movieId.value !in movies then Skip
        else Keep(NewRating(rate.value, account.value, movies[movieId.value]))
  }

  /** The rule the import applies to each row. */
  function RatingRule<A>(accounts: map<int, A>, findOrCreate: int -> Option<A>,
                         movies: map<int, Movie>, parseFloat: string -> Option<real>): seq<string> -> RowOutcome<NewRating<A>>
  {
    t => RatingRow(t, accounts, findOrCreate, movies, parseFloat)
  }

  /** The account cache grows from the preloaded accounts and agrees with
      them and with the service. */
  ghost predicate AccountCache<A>(cache: map<int, A>, accounts: map<int, A>, findOrCreate: int -> Option<A>)
  {
    && (forall id :: id in accounts ==> id in cache && cache[id] == accounts[id])
    && (forall id :: id in cache && id !in accounts ==> findOrCreate(id) == Some(cache[id]))
  }

  /** With such a cache, `computeIfAbsent` answers as the preloaded map and
      the service would. */
  lemma CachedAccount<A>(cache: map<int, A>, accounts: map<int, A>, findOrCreate: int -> Option<A>, id: int)
    requires AccountCache(cache, accounts, findOrCreate)
    ensures AccountFor(cache, findOrCreate, id) == AccountFor(accounts, findOrCreate, id)
  {
  }

  /** `importRatingsFromCsv`: each kept row adds a rating to the running
      batch, a full batch is persisted and cleared, and the last partial
      batch is persisted at the end. A row that throws ends the import: the
      batches persisted until then stay, the running batch is lost. */
  method ImportRatings<A>(rows: seq<seq<string>>, accounts: map<int, A>, findOrCreate: int -> Option<A>,
                          movies: map<int, Movie>, parseFloat: string -> Option<real>)
    returns (persisted: seq<seq<NewRating<A>>>, r: Result<()>)
    ensures var (kept, aborted) := Outcomes(rows, RatingRule(accounts, findOrCreate, movies, parseFloat));
      && (r.Failure? <==> aborted)
      && (r.Failure? ==> r.error == NumberFormat && persisted == FullBatches(kept, RatingBatchSize))
      && (r.Success? ==> persisted == Chunks(kept, RatingBatchSize))
  {
    ghost var rule := RatingRule(accounts, findOrCreate, movies, parseFloat);
    var accountCache := accounts;
    var currentBatch: seq<NewRating<A>> := [];
    ghost var kept: seq<NewRating<A>> := [];
    persisted := [];
    var i := 0;
    while i < |rows|
      invariant 0 <= i <= |rows|
      invariant Outcomes(rows[..i], rule) == (kept, false)
      invariant persisted == FullBatches(kept, RatingBatchSize)
      invariant currentBatch == Pending(kept, RatingBatchSize)
      invariant AccountCache(accountCache, accounts, findOrCreate)
    {
      OutcomesStep(rows, i, rule);
      var tokens := rows[i];
      if |tokens| >= RatingColumns {
        var userId := ParseInteger(tokens[0], LongMin, LongMax);
        var movieId := ParseInteger(tokens[1], LongMin, LongMax);
        var rate := parseFloat(tokens[2]);
        if userId.Failure? || movieId.Failure? || rate.None? {
          OutcomesAfterAbort(rows, i + 1, rule);
          return persisted, Failure(NumberFormat);
        }
        CachedAccount(accountCache, accounts, findOrCreate, userId.value);
        var account := AccountFor(accountCache, findOrCreate, userId.value);
        if account.Some? && userId.value !in accountCache {
          accountCache := accountCache[userId.value := account.value];
        }
        if account.Some? && movieId.value in movies {
          var rating := NewRating(rate.value, account.value, movies[movieId.value]);
          BatchOneMore(kept, rating, RatingBatchSize);
          kept := kept + [rating];
          currentBatch := currentBatch + [rating];
          if |currentBatch| == RatingBatchSize {
            persisted := persisted + [currentBatch];
            currentBatch := [];
          }
        }
      }
      i := i + 1;
    }
    assert rows[..i] == rows;
    if currentBatch != [] {
      persisted := persisted + [currentBatch];
    }
    FlushIsChunks(kept, RatingBatchSize);
    return persisted, Success(());
  }
}
