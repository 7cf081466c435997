/** The row logic of `CsvImporterService.importMoviesFromCsv` and its date
    helper `parseDateSafely`. Rows are the records after the header, as the
    CSV reader yields them. `SimpleDateFormat.parse` is a partial function
    of the pattern and the text; `GenderService.findOrCreateByName` is a
    function of the name. */
module MovieImport {
  import opened Wrappers
  import opened Entities
  import opened JavaText
  import opened CsvRows

  /** The patterns tried, in order. */
  const DateFormats: seq<string> := ["dd MMM yyyy", "yyyy-MM-dd", "yyyy/MM/dd"]

  /** The movie import persists its movies in batches of this size. */
  const MovieBatchSize: nat := 10000

  /** The number of tokens a movie row needs. */
  const MovieColumns: nat := 11

  /** A strict `SimpleDateFormat` with the given pattern, applied to the
      text: the date, or `None` where `parse` throws `ParseException`. */
  type DateParser = (string, string) -> Option<Date>

  /** The first pattern that parses the text decides the date; `None` if
      none does. */
  function FirstParse(formats: seq<string>, text: string, parse: DateParser): (r: Option<Date>)
    ensures r.None? <==> forall k :: 0 <= k < |formats| ==> parse(formats[k], text).None?
    ensures r.Some? ==>
      exists k :: (0 <= k < |formats| && parse(formats[k], text) == r
                   && forall j :: 0 <= j < k ==> parse(formats[j], text).None?)
    decreases |formats|
  {
    if formats == [] then None
    else if parse(formats[0], text).Some? then parse(formats[0], text)
    else
      var r := FirstParse(formats[1..], text, parse);
      assert forall k :: 0 < k < |formats| ==> formats[k] == formats[1..][k - 1];
      r
  }

  /** Whether `parseDateSafely` gives up before trying any pattern. */
  predicate IsUnknownDate(dateStr: Option<string>)
  {
    dateStr.None? || EqualsIgnoreCase(Trim(dateStr.value), "Unknown")
  }

  /** What `parseDateSafely` returns: nothing for a missing or unknown
      date, otherwise what the first pattern that parses the untrimmed text
      gives, and nothing when no pattern does. */
  function SafeDate(dateStr: Option<string>, parse: DateParser): (r: Option<Date>)
    ensures IsUnknownDate(dateStr) ==> r.None?
    ensures !IsUnknownDate(dateStr) ==>
      (r.None? <==> forall k :: 0 <= k < |DateFormats| ==> parse(DateFormats[k], dateStr.value).None?)
    ensures r.Some? ==> exists k :: 0 <= k < |DateFormats| && parse(DateFormats[k], dateStr.value) == r
  {
    if IsUnknownDate(dateStr) then None else FirstParse(DateFormats, dateStr.value, parse)
  }

  /** `parseDateSafely`: null or "Unknown" (trimmed, any case) gives null;
      otherwise the patterns are tried in order on the untrimmed text. */
  method ParseDateSafely(dateStr: Option<string>, parse: DateParser) returns (r: Option<Date>)
    ensures r == SafeDate(dateStr, parse)
    ensures IsUnknownDate(dateStr) ==> r.None?
    ensures !IsUnknownDate(dateStr) ==>
      && (r.None? <==> forall k :: 0 <= k < |DateFormats| ==> parse(DateFormats[k], dateStr.value).None?)
      && (r.Some? ==> exists k :: 0 <= k < |DateFormats| && parse(DateFormats[k], dateStr.value) == r)
  {
    if dateStr.None? || EqualsIgnoreCase(Trim(dateStr.value), "Unknown") {
      return None;
    }
    r := TryFormats(DateFormats, dateStr.value, parse);
  }

  /** The pattern loop of `parseDateSafely`: the first pattern that parses
      wins. */
  method TryFormats(formats: seq<string>, text: string, parse: DateParser) returns (r: Option<Date>)
    ensures r == FirstParse(formats, text, parse)
  {
    var i := 0;
    while i < |formats|
      invariant 0 <= i <= |formats|
      invariant FirstParse(formats[i..], text, parse) == FirstParse(formats, text, parse)
    {
      assert formats[i..][0] == formats[i] && formats[i..][1..] == formats[i + 1..];
      var attempt := parse(formats[i], text);
      if attempt.Some? {
        return attempt;
      }
      i := i + 1;
    }
    return None;
  }

  /** The trimmed pieces of a '|'-separated field, empty ones included. */
  function TrimmedPieces(field: string): (r: seq<string>)
    ensures |r| == |Split(field)|
    ensures forall k :: 0 <= k < |r| ==> r[k] == Trim(Split(field)[k])
  {
    seq(|Split(field)|, k requires 0 <= k < |Split(field)| => Trim(Split(field)[k]))
  }

  /** The non-empty strings, in order. */
  function NonEmpty(names: seq<string>): (r: seq<string>)
    ensures forall x :: x in r <==> x in names && x != []
    decreases |names|
  {
    if names == [] then []
    else
      var front := NonEmpty(names[..|names| - 1]);
      assert names == names[..|names| - 1] + [names[|names| - 1]];
      if names[|names| - 1] == [] then front else front + [names[|names| - 1]]
  }

  /** Writers and actors: the field split on '|', each name trimmed, empty
      names dropped, order kept. */
  function People(field: string): (r: seq<string>)
    ensures forall x :: x in r ==> x != [] && '|' !in x && Trim(x) == x
  {
    var r := NonEmpty(TrimmedPieces(field));
    assert forall x :: x in r ==> '|' !in x && Trim(x) == x by {
      SplitPieces(field);
      forall x | x in r ensures '|' !in x && Trim(x) == x {
        var k :| 0 <= k < |TrimmedPieces(field)| && TrimmedPieces(field)[k] == x;
        TrimFixpoint(Split(field)[k]);
        TrimKeepsOut(Split(field)[k], '|');
      }
    }
    r
  }

  /** Trimming keeps a character out that was not there. */
  lemma TrimKeepsOut(s: string, c: char)
    requires c !in s
    ensures c !in Trim(s)
  {
    var t := TrimStart(s);
    assert forall x :: x in t ==> x in s;
    assert forall x :: x in TrimEnd(t) ==> x in t;
  }

  /** A movie row before its genres are resolved. */
  datatype ParsedRow = ParsedRow(movie: Movie, genreNames: seq<string>)

  /** One movie row: too few tokens, an id or runtime that does not parse,
      or a date that comes out null skip the row (a parse failure is caught
      and logged); otherwise every field is trimmed, genres are split and
      trimmed, writers and actors are split, trimmed and emptied of empty
      names. */
  function ParseMovieRow(tokens: seq<string>, parse: DateParser): (r: Option<ParsedRow>)
    ensures |tokens| < MovieColumns ==> r.None?
    ensures r.Some? ==>
      && ParseInteger(Trim(tokens[0]), LongMin, LongMax) == Success(r.value.movie.id)
      && SafeDate(Some(Trim(tokens[2])), parse).Some?
      && r.value.movie.year == SafeDate(Some(Trim(tokens[2])), parse)
      && r.value.movie.runtime.Some?
      && ParseInteger(Trim(tokens[3]), IntMin, IntMax) == Success(r.value.movie.runtime.value)
      && r.value.genreNames == TrimmedPieces(tokens[4])
      && r.value.movie.writers == Some(People(tokens[6]))
      && r.value.movie.actors == Some(People(tokens[7]))
      && r.value.movie.title == Some(Trim(tokens[1]))
      && r.value.movie.director == Some(Trim(tokens[5]))
      && r.value.movie.plot == Some(Trim(tokens[8]))
      && r.value.movie.country == Some(Trim(tokens[9]))
      && r.value.movie.poster == Some(Trim(tokens[10]))
      && r.value.movie.genders.None? && r.value.movie.tags.None? && r.value.movie.ratings.None?
    ensures |tokens| >= MovieColumns ==>
      (r.None? <==>
        || ParseInteger(Trim(tokens[0]), LongMin, LongMax).Failure?
        || SafeDate(Some(Trim(tokens[2])), parse).None?
        || ParseInteger(Trim(tokens[3]), IntMin, IntMax).Failure?)
  {
    if |tokens| < MovieColumns then None
    else
      var id := ParseInteger(Trim(tokens[0]), LongMin, LongMax);
      var year := SafeDate(Some(Trim(tokens[2])), parse);
      var runtime := ParseInteger(Trim(tokens[3]), IntMin, IntMax);
      if id.Failure? || year.None? || runtime.Failure? then None
      else
        var movie := BlankMovie(id.value).(
          title := Some(Trim(tokens[1])),
          year := year,
          runtime := Some(runtime.value),
          director := Some(Trim(tokens[5])),
          writers := Some(People(tokens[6])),
          actors := Some(People(tokens[7])),
          plot := Some(Trim(tokens[8])),
          country := Some(Trim(tokens[9])),
          poster := Some(Trim(tokens[10])));
        Some(ParsedRow(movie, TrimmedPieces(tokens[4])))
  }

  /** The outcome of a movie row once its genres are resolved: never an
      abort, since every failure is caught; kept exactly when the row
      parses, as the parsed movie with one genre per genre name. */
  function MovieRow(tokens: seq<string>, parse: DateParser, genderOf: string -> Gender): (r: RowOutcome<Movie>)
    ensures !r.Abort?
    ensures r.Keep? <==> ParseMovieRow(tokens, parse).Some?
    ensures r.Keep? ==>
      && r.value.(genders := None) == ParseMovieRow(tokens, parse).value.movie
      && r.value.genders.Some?
      && |r.value.genders.value| == |ParseMovieRow(tokens, parse).value.genreNames|
  {
    var p := ParseMovieRow(tokens, parse);
    if p.None? then Skip else Keep(p.value.movie.(genders := Some(GendersOf(p.value.genreNames, genderOf))))
  }

  /** The genre of each name, in order. */
  function GendersOf(names: seq<string>, genderOf: string -> Gender): seq<Gender>
  {
    seq(|names|, k requires 0 <= k < |names| => genderOf(names[k]))
  }

  /** The rule the import applies to each row. */
  function MovieRule(parse: DateParser, genderOf: string -> Gender): seq<string> -> RowOutcome<Movie>
  {
    t => MovieRow(t, parse, genderOf)
  }

  /** The genre cache and the log of names sent to the service: the cache
      agrees with the service, holds exactly the logged names, and no name
      was sent twice. */
  ghost predicate GenreCache(cache: map<string, Gender>, calls: seq<string>, genderOf: string -> Gender)
  {
    && (forall name :: name in cache ==> cache[name] == genderOf(name))
    && (forall x :: x in calls <==> x in cache)
    && (forall i, j :: 0 <= i < j < |calls| ==> calls[i] != calls[j])
  }

  /** `computeIfAbsent` for one genre name: a name already in the cache is
      served from it; a new one is resolved through the service, once, and
      cached. */
  method ResolveGenre(name: string, cache: map<string, Gender>, genderOf: string -> Gender, ghost calls: seq<string>)
    returns (gender: Gender, cache': map<string, Gender>, ghost calls': seq<string>)
    requires GenreCache(cache, calls, genderOf)
    ensures gender == genderOf(name)
    ensures GenreCache(cache', calls', genderOf)
    ensures forall x :: x in cache' <==> x in cache || x == name
    ensures calls' == if name in cache then calls else calls + [name]
  {
    if name !in cache {
      cache' := cache[name := genderOf(name)];
      calls' := calls + [name];
    } else {
      cache' := cache;
      calls' := calls;
    }
    gender := cache'[name];
  }

  /** The genre loop of one row: one `computeIfAbsent` per name, in order. */
  method ResolveGenres(names: seq<string>, cache: map<string, Gender>, genderOf: string -> Gender, ghost calls: seq<string>)
    returns (genders: seq<Gender>, cache': map<string, Gender>, ghost calls': seq<string>)
    requires GenreCache(cache, calls, genderOf)
    ensures genders == GendersOf(names, genderOf)
    ensures GenreCache(cache', calls', genderOf)
    ensures forall x :: x in cache' <==> x in cache || x in names
    ensures calls <= calls'
  {
    genders := [];
    cache' := cache;
    calls' := calls;
    var i := 0;
    while i < |names|
      invariant 0 <= i <= |names|
      invariant genders == GendersOf(names[..i], genderOf)
      invariant GenreCache(cache', calls', genderOf)
      invariant forall x :: x in cache' <==> x in cache || x in names[..i]
      invariant calls <= calls'
    {
      var gender;
      ghost var before := cache';
      gender, cache', calls' := ResolveGenre(names[i], cache', genderOf, calls');
      assert names[..i + 1] == names[..i] + [names[i]];
      forall x ensures x in cache' <==> x in cache || x in names[..i + 1] {
        assert x in cache' <==> x in before || x == names[i];
      }
      assert GendersOf(names[..i + 1], genderOf) == GendersOf(names[..i], genderOf) + [gender];
      genders := genders + [gender];
      i := i + 1;
    }
    assert names[..i] == names;
  }

  /** The genre names of a row: those of the parsed row, none for a
      skipped one. */
  function RowGenreNames(tokens: seq<string>, parse: DateParser): seq<string>
  {
    var p := ParseMovieRow(tokens, parse);
    if p.Some? then p.value.genreNames else []
  }

  /** The genre names of each row, as one function. */
  function GenreRule(parse: DateParser): seq<string> -> seq<string>
  {
    t => RowGenreNames(t, parse)
  }

  /** `x` is one of the names `names` gives for some row. */
  ghost predicate NamedIn(rows: seq<seq<string>>, names: seq<string> -> seq<string>, x: string)
  {
    exists k :: 0 <= k < |rows| && x in names(rows[k])
  }

  /** The names of one more row are those of the earlier rows and those of
      the new row. */
  lemma NamedInOneMore(rows: seq<seq<string>>, i: nat, names: seq<string> -> seq<string>, x: string)
    requires i < |rows|
    ensures NamedIn(rows[..i + 1], names, x) <==> NamedIn(rows[..i], names, x) || x in names(rows[i])
  {
    if NamedIn(rows[..i + 1], names, x) {
      var k :| 0 <= k < i + 1 && x in names(rows[..i + 1][k]);
      if k < i {
        assert rows[..i + 1][k] == rows[..i][k];
      }
    }
    if NamedIn(rows[..i], names, x) {
      var k :| 0 <= k < i && x in names(rows[..i][k]);
      assert rows[..i][k] == rows[..i + 1][k];
    }
    assert rows[..i + 1][i] == rows[i];
  }

  /** A set that holds the names of the first i rows, grown by the names of
      row i, holds the names of the first i + 1 rows. */
  lemma NamesOneMore(rows: seq<seq<string>>, i: nat, names: seq<string> -> seq<string>,
                     known: set<string>, known': set<string>)
    requires i < |rows|
    requires forall x :: x in known <==> NamedIn(rows[..i], names, x)
    requires forall x :: x in known' <==> x in known || x in names(rows[i])
    ensures forall x :: x in known' <==> NamedIn(rows[..i + 1], names, x)
  {
    forall x ensures x in known' <==> NamedIn(rows[..i + 1], names, x) {
      NamedInOneMore(rows, i, names, x);
    }
  }

  /** One pass of the row loop of `importMoviesFromCsv`: a row that parses
      has its genre names resolved through the cache and yields its movie;
      the cache grows by exactly the row's genre names. */
  method ImportRow(tokens: seq<string>, parse: DateParser, genderOf: string -> Gender,
                   cache: map<string, Gender>, ghost calls: seq<string>)
    returns (movie: Option<Movie>, cache': map<string, Gender>, ghost calls': seq<string>)
    requires GenreCache(cache, calls, genderOf)
    ensures MovieRow(tokens, parse, genderOf) == if movie.Some? then Keep(movie.value) else Skip
    ensures GenreCache(cache', calls', genderOf)
    ensures forall x :: x in cache' <==> x in cache || x in GenreRule(parse)(tokens)
  {
    var parsed := ParseMovieRow(tokens, parse);
    if parsed.Some? {
      var genders;
      genders, cache', calls' := ResolveGenres(parsed.value.genreNames, cache, genderOf, calls);
      movie := Some(parsed.value.movie.(genders := Some(genders)));
    } else {
      movie, cache', calls' := None, cache, calls;
    }
  }

  /** The row loop of `importMoviesFromCsv` followed by the batching loop:
      every kept row becomes a movie in row order, the genre cache resolves
      each distinct name through the service exactly once, and the movies
      are cut into batches of `MovieBatchSize`. */
  method ImportMovies(rows: seq<seq<string>>, parse: DateParser, genderOf: string -> Gender)
    returns (batches: seq<seq<Movie>>, ghost serviceCalls: seq<string>)
    ensures batches == Chunks(Outcomes(rows, MovieRule(parse, genderOf)).0, MovieBatchSize)
    ensures Flatten(batches) == Outcomes(rows, MovieRule(parse, genderOf)).0
    ensures forall i, j :: 0 <= i < j < |serviceCalls| ==> serviceCalls[i] != serviceCalls[j]
    ensures forall x :: x in serviceCalls <==> exists k :: 0 <= k < |rows| && x in RowGenreNames(rows[k], parse)
  {
    var allMovies: seq<Movie> := [];
    var genreCache: map<string, Gender> := map[];
    serviceCalls := [];
    var i := 0;
    while i < |rows|
      invariant 0 <= i <= |rows|
      invariant Outcomes(rows[..i], MovieRule(parse, genderOf)) == (allMovies, false)
      invariant GenreCache(genreCache, serviceCalls, genderOf)
      invariant forall x :: x in genreCache <==> NamedIn(rows[..i], GenreRule(parse), x)
    {
      OutcomesStep(rows, i, MovieRule(parse, genderOf));
      ghost var before := genreCache;
      var movie;
      movie, genreCache, serviceCalls := ImportRow(rows[i], parse, genderOf, genreCache, serviceCalls);
      if movie.Some? {
        allMovies := allMovies + [movie.value];
      }
      NamesOneMore(rows, i, GenreRule(parse), before.Keys, genreCache.Keys);
      i := i + 1;
    }
    assert rows[..i] == rows;
    batches := MakeBatches(allMovies, MovieBatchSize);
  }
}
