/** The persistent entities the core reads and writes (`tp/model`). Nullable
    Java references become `Option`; a `java.util.Date` becomes the civil date
    it denotes in the server's one time zone. */
module Entities {
  import opened Wrappers

  /** A `java.util.Date` seen in the system default time zone. */
  datatype Date = Date(year: int, month: int, day: int)

  /** `Gender`: a genre, identified by its generated id. */
  datatype Gender = Gender(id: Option<int>, name: Option<string>)

  /** `Tag`, as far as a movie refers to it: its id and name. */
  datatype Tag = Tag(id: Option<int>, name: Option<string>)

  /** `Movie`. Its `ratings` are kept as the ids of the ratings. */
  datatype Movie = Movie(
    id: int,
    title: Option<string>,
    year: Option<Date>,
    runtime: Option<int>,
    director: Option<string>,
    actors: Option<seq<string>>,
    writers: Option<seq<string>>,
    plot: Option<string>,
    country: Option<string>,
    poster: Option<string>,
    ratings: Option<seq<int>>,
    genders: Option<seq<Gender>>,
    tags: Option<seq<Tag>>)

  /** A `Movie` just created with `new Movie()` and given an id: every other
      field is null. */
  function BlankMovie(id: int): Movie
  {
    Movie(id, None, None, None, None, None, None, None, None, None, None, None, None)
  }

  /** `RecommendedMovie`: an entry of the recommender's answer. */
  datatype RecommendedMovie = RecommendedMovie(movieId: int, score: real)

  /** `Rating`: a mutable entity whose `rate` is perturbed in place. */
  class Rating {
    var id: Option<int>
    var rate: real
    var accountId: Option<int>
    var movieId: Option<int>

    constructor (id: Option<int>, rate: real, accountId: Option<int>, movieId: Option<int>)
      ensures this.id == id && this.rate == rate
      ensures this.accountId == accountId && this.movieId == movieId
    {
      this.id := id;
      this.rate := rate;
      this.accountId := accountId;
      this.movieId := movieId;
    }
  }
}
