/** `Mapper.MovieMapper`: converts between the relational `Movie` and the
    search-index document `MovieElastic`. The document has plain `int` year
    and runtime, and uses 0 where the entity has null. */
module MovieMapping {
  import opened Wrappers
  import opened Entities

  /** The search-index document. `genders` and `tags` hold names only. */
  datatype MovieElastic = MovieElastic(
    id: int,
    title: Option<string>,
    year: int,
    director: Option<string>,
    writers: Option<seq<string>>,
    actors: Option<seq<string>>,
    plot: Option<string>,
    country: Option<string>,
    runtime: int,
    genders: Option<seq<Option<string>>>,
    poster: Option<string>,
    tags: Option<seq<Option<string>>>)

  /** The names of a movie's genres, in order. */
  function GenderNames(gs: seq<Gender>): seq<Option<string>>
  {
    seq(|gs|, i requires 0 <= i < |gs| => gs[i].name)
  }

  /** The names of a movie's tags, in order. */
  function TagNames(ts: seq<Tag>): seq<Option<string>>
  {
    seq(|ts|, i requires 0 <= i < |ts| => ts[i].name)
  }

  /** `toElastic`: a null year or runtime becomes 0, genres and tags become
      their names in the same order (null lists stay null), and every other
      field is copied. */
  function ToElastic(m: Movie): (e: MovieElastic)
    ensures e.year == (if m.year.Some? then m.year.value.year else 0)
    ensures m.runtime.None? ==> e.runtime == 0
    ensures m.runtime.Some? ==> e.runtime == m.runtime.value
    ensures e.genders.Some? <==> m.genders.Some?
    ensures m.genders.Some? ==>
      && |e.genders.value| == |m.genders.value|
      && forall i :: 0 <= i < |m.genders.value| ==> e.genders.value[i] == m.genders.value[i].name
    ensures e.tags.Some? <==> m.tags.Some?
    ensures m.tags.Some? ==>
      && |e.tags.value| == |m.tags.value|
      && forall i :: 0 <= i < |m.tags.value| ==> e.tags.value[i] == m.tags.value[i].name
    ensures e.id == m.id && e.title == m.title && e.director == m.director
    ensures e.writers == m.writers && e.actors == m.actors && e.plot == m.plot
    ensures e.country == m.country && e.poster == m.poster
  {
    MovieElastic(
      m.id,
      m.title,
      if m.year.Some? then m.year.value.year else 0,
      m.director,
      m.writers,
      m.actors,
      m.plot,
      m.country,
      if m.runtime.Some? then m.runtime.value else 0,
      if m.genders.Some? then Some(GenderNames(m.genders.value)) else None,
      m.poster,
      if m.tags.Some? then Some(TagNames(m.tags.value)) else None)
  }

  /** The years `LocalDate.of` accepts (`Year.MIN_VALUE`..`Year.MAX_VALUE`). */
  predicate LocalDateYear(y: int)
  {
    -999999999 <= y <= 999999999
  }

  /** The years whose 1 January, at the start of the day, still fits the
      signed 64-bit millisecond count of a `java.util.Date`: the count's
      limits fall in May of year -292275055 and in August of year 292278994,
      and `Date.from` throws `IllegalArgumentException` beyond them. */
  predicate DateYear(y: int)
  {
    -292275054 <= y <= 292278994
  }

  /** `fromElastic`: year 0 and runtime 0 become null, any other year
      becomes 1 January of that year, and poster, genres, tags and ratings
      are left null on the new movie. A year outside `LocalDate`'s range
      throws `DateTimeException`; one inside it whose 1 January no
      `java.util.Date` can hold throws `IllegalArgumentException`. */
  function FromElastic(e: MovieElastic): (r: Result<Movie>)
    ensures r.Failure? <==> e.year != 0 && !DateYear(e.year)
    ensures r.Failure? ==> r.error == (if LocalDateYear(e.year) then IllegalArgument else DateTime)
    ensures r.Success? ==> (r.value.year.None? <==> e.year == 0)
    ensures r.Success? ==> r.value.year.Some? ==> r.value.year.value == Date(e.year, 1, 1)
    ensures r.Success? ==> (r.value.runtime.None? <==> e.runtime == 0)
    ensures r.Success? ==> r.value.runtime.Some? ==> r.value.runtime.value == e.runtime
    ensures r.Success? ==>
      r.value.poster.None? && r.value.genders.None? && r.value.tags.None? && r.value.ratings.None?
    ensures r.Success? ==> r.value.id == e.id && r.value.title == e.title && r.value.director == e.director
    ensures r.Success? ==>
      && r.value.writers == e.writers && r.value.actors == e.actors
      && r.value.plot == e.plot && r.value.country == e.country
  {
    if e.year != 0 && !LocalDateYear(e.year) then Failure(DateTime)
    else if e.year != 0 && !DateYear(e.year) then Failure(IllegalArgument)
    else
      Success(BlankMovie(e.id).(
        title := e.title,
        year := if e.year != 0 then Some(Date(e.year, 1, 1)) else None,
        director := e.director,
        writers := e.writers,
        actors := e.actors,
        plot := e.plot,
        country := e.country,
        runtime := if e.runtime != 0 then Some(e.runtime) else None))
  }

  /** A document read back into a movie and indexed again keeps every field
      except poster, genres and tags, which come back null; reading it back
      throws exactly for a non-zero year no `java.util.Date` can hold. */
  lemma DocumentRoundTrip(e: MovieElastic)
    ensures FromElastic(e).Success? <==> e.year == 0 || DateYear(e.year)
    ensures FromElastic(e).Success? ==>
      ToElastic(FromElastic(e).value) == e.(poster := None, genders := None, tags := None)
  {
  }

  /** A movie indexed and read back keeps its identity, texts and people;
      its date collapses to 1 January of its year (a year 0 is lost), a
      runtime of 0 becomes null, and poster, genres, tags and ratings are
      dropped. The read-back throws only for a year no `java.util.Date`
      holds. */
  lemma MovieRoundTrip(m: Movie)
    ensures FromElastic(ToElastic(m)).Success? <==>
      m.year.None? || m.year.value.year == 0 || DateYear(m.year.value.year)
    ensures FromElastic(ToElastic(m)).Success? ==>
      var back := FromElastic(ToElastic(m)).value;
      && back.id == m.id && back.title == m.title && back.director == m.director
      && back.writers == m.writers && back.actors == m.actors
      && back.plot == m.plot && back.country == m.country
      && back.runtime == (if m.runtime == Some(0) then None else m.runtime)
      && back.year == (if m.year.None? || m.year.value.year == 0 then None else Some(Date(m.year.value.year, 1, 1)))
      && back.poster.None? && back.genders.None? && back.tags.None? && back.ratings.None?
  {
  }

  /** The round trip changes a movie exactly when it carries data the
      document cannot bring back. */
  lemma MovieRoundTripIdentity(m: Movie)
    ensures FromElastic(ToElastic(m)) == Success(m) <==>
      && (m.year.None? || (m.year.value.year != 0 && DateYear(m.year.value.year)
                            && m.year.value == Date(m.year.value.year, 1, 1)))
      && m.runtime != Some(0)
      && m.poster.None? && m.genders.None? && m.tags.None? && m.ratings.None?
  {
    var back := FromElastic(ToElastic(m));
    if back == Success(m) {
      assert back.value.year == m.year && back.value.runtime == m.runtime;
    }
  }
}
