/** The row logic of `CsvImporterService.importTagsFromCsv`. Rows are the
    records after the header. The account and movie caches are the maps the
    services load up front; the account type is left abstract. A tag is
    identified by its key `name + "::" + userId`; a movie by its id (the
    import holds one `Movie` object per id). Only the tags this import
    creates are tracked on a movie. */
module TagImport {
  import opened Wrappers
  import opened Entities
  import opened JavaText
  import opened CsvRows

  /** The number of tokens a tag row needs. */
  const TagColumns: nat := 3

  /** What a kept row asks for: the tag with this name and user on this
      movie. */
  datatype TagLink = TagLink(name: string, userId: int, movieId: int)

  /** A tag the import creates: its name, its account and the ids of its
      movies. */
  datatype TagRecord<A> = TagRecord(name: string, account: A, movies: seq<int>)

  /** The tags by key, and the keys of the tags of each movie id. */
  datatype TagGraph<A> = TagGraph(tags: map<string, TagRecord<A>>, movieTags: map<int, seq<string>>)

  /** `tagName + "::" + userId`. */
  function TagKey(name: string, userId: int): string
  {
    name + "::" + ShowInt(userId)
  }

  /** Two keys that agree but whose user parts differ in length: the
      longer user part holds the shorter one's separator. */
  lemma SeparatorInLonger(n1: string, s1: string, n2: string, s2: string)
    requires n1 + "::" + s1 == n2 + "::" + s2 && |s1| < |s2|
    ensures ':' in s2
  {
    var k := n1 + "::" + s1;
    assert k[|k| - |s1| - 1] == ':';
    assert s2[|s2| - |s1| - 1] == k[|k| - |s1| - 1];
  }

  /** The key names one (name, user) pair: the user's digits hold no ':',
      so the last "::" of a key is the separator. */
  lemma TagKeyInjective(n1: string, u1: int, n2: string, u2: int)
    requires TagKey(n1, u1) == TagKey(n2, u2)
    ensures n1 == n2 && u1 == u2
  {
    var k := TagKey(n1, u1);
    var s1, s2 := ShowInt(u1), ShowInt(u2);
    if |s1| < |s2| {
      SeparatorInLonger(n1, s1, n2, s2);
      assert false;
    } else if |s2| < |s1| {
      SeparatorInLonger(n2, s2, n1, s1);
      assert false;
    }
    assert s1 == k[|k| - |s1|..] == s2;
    ShowIntInjective(u1, u2);
    assert n1 == k[..|n1|] == n2;
  }

  /** One tag row. Fewer than three tokens: skipped. A user or movie id that
      does not parse throws out of the import. An unknown account or movie:
      skipped. Otherwise the trimmed, lower-cased name links to the movie. */
  function TagRow<A>(tokens: seq<string>, accounts: map<int, A>, movies: map<int, Movie>): (r: RowOutcome<TagLink>)
    ensures |tokens| < TagColumns ==> r.Skip?
    ensures |tokens| >= TagColumns ==>
      (r.Abort? <==>
        ParseInteger(tokens[0], LongMin, LongMax).Failure? || ParseInteger(tokens[1], LongMin, LongMax).Failure?)
    ensures r.Keep? <==>
      && |tokens| >= TagColumns
      && ParseInteger(tokens[0], LongMin, LongMax).Success?
      && ParseInteger(tokens[1], LongMin, LongMax).Success?
      && ParseInteger(tokens[0], LongMin, LongMax).value in accounts
      && ParseInteger(tokens[1], LongMin, LongMax).value in movies
    ensures r.Keep? ==>
      && r.value.name == ToLower(Trim(tokens[2]))
      && ParseInteger(tokens[0], LongMin, LongMax) == Success(r.value.userId)
      && ParseInteger(tokens[1], LongMin, LongMax) == Success(r.value.movieId)
      && r.value.userId in accounts && r.value.movieId in movies
  {
    if |tokens| < TagColumns then Skip
    else
      var userId := ParseInteger(tokens[0], LongMin, LongMax);
      var movieId := ParseInteger(tokens[1], LongMin, LongMax);
      if userId.Failure? || movieId.Failure? then Abort
      else if userId.value !in accounts || movieId.value !in movies then Skip
      else Keep(TagLink(ToLower(Trim(tokens[2])), userId.value, movieId.value))
  }

  /** The rule the import applies to each row. */
  function TagRule<A>(accounts: map<int, A>, movies: map<int, Movie>): seq<string> -> RowOutcome<TagLink>
  {
    t => TagRow(t, accounts, movies)
  }

  /** The (tag key, movie id) pairs the links ask for. */
  function LinkPairs(links: seq<TagLink>): set<(string, int)>
    decreases |links|
  {
    if links == [] then {}
    else
      var l := links[|links| - 1];
      LinkPairs(links[..|links| - 1]) + {(TagKey(l.name, l.userId), l.movieId)}
  }

  /** No value occurs twice. */
  ghost predicate NoRepeats<T>(s: seq<T>)
  {
    forall i, j :: 0 <= i < j < |s| ==> s[i] != s[j]
  }

  /** The tag side: each tag lists, without repeats, exactly the movies
      its key is paired with, and every tag belongs to some pair. */
  ghost predicate TagSide<A>(tags: map<string, TagRecord<A>>, pairs: set<(string, int)>)
  {
    && (forall key :: key in tags ==> NoRepeats(tags[key].movies))
    && (forall key, m :: key in tags ==> (m in tags[key].movies <==> (key, m) in pairs))
    && (forall key, m :: (key, m) in pairs ==> key in tags)
    && (forall key :: key in tags ==> exists m :: (key, m) in pairs)
  }

  /** The movie side: each movie lists, without repeats, exactly the tag
      keys it is paired with, and every paired movie has a list. */
  ghost predicate MovieSide(movieTags: map<int, seq<string>>, pairs: set<(string, int)>)
  {
    && (forall m :: m in movieTags ==> NoRepeats(movieTags[m]))
    && (forall key, m :: m in movieTags ==> (key in movieTags[m] <==> (key, m) in pairs))
    && (forall key, m :: (key, m) in pairs ==> m in movieTags)
  }

  /** The graph links exactly the given pairs, from both ends. */
  ghost predicate Links<A>(g: TagGraph<A>, pairs: set<(string, int)>)
  {
    TagSide(g.tags, pairs) && MovieSide(g.movieTags, pairs)
  }

  /** Every link's tag carries the link's name and its user's account. */
  ghost predicate Named<A>(tags: map<string, TagRecord<A>>, links: seq<TagLink>, accounts: map<int, A>)
  {
    forall l :: l in links ==>
      && l.userId in accounts
      && TagKey(l.name, l.userId) in tags
      && tags[TagKey(l.name, l.userId)].name == l.name
      && tags[TagKey(l.name, l.userId)].account == accounts[l.userId]
  }

  /** `tagMap.computeIfAbsent(key, ...)`, then the movie joins the tag's
      list unless it is there already. */
  method TagMovie<A>(tags: map<string, TagRecord<A>>, key: string, name: string, account: A, m: int,
                     ghost pairs: set<(string, int)>)
    returns (tags': map<string, TagRecord<A>>)
    requires TagSide(tags, pairs)
    ensures TagSide(tags', pairs + {(key, m)})
    ensures key in tags'
    ensures key in tags ==> tags'[key].name == tags[key].name && tags'[key].account == tags[key].account
    ensures key !in tags ==> tags'[key].name == name && tags'[key].account == account
    ensures forall k :: k in tags && k != key ==> k in tags' && tags'[k] == tags[k]
  {
    tags' := tags;
    if key !in tags' {
      tags' := tags'[key := TagRecord(name, account, [])];
    }
    var tag := tags'[key];
    if m !in tag.movies {
      tags' := tags'[key := tag.(movies := tag.movies + [m])];
    }
  }

  /** The movie's tag list, created empty when missing, gains the key unless
      it holds it already. */
  method MovieTag(movieTags: map<int, seq<string>>, key: string, m: int, ghost pairs: set<(string, int)>)
    returns (movieTags': map<int, seq<string>>)
    requires MovieSide(movieTags, pairs)
    ensures MovieSide(movieTags', pairs + {(key, m)})
  {
    var onMovie := if m in movieTags then movieTags[m] else [];
    if key !in onMovie {
      movieTags' := movieTags[m := onMovie + [key]];
    } else {
      movieTags' := movieTags[m := onMovie];
    }
  }

  /** Adding one link keeps every earlier link's tag name and account, when
      the link's key is either new or already named after the link. */
  lemma NamedOneMore<A>(tags: map<string, TagRecord<A>>, tags': map<string, TagRecord<A>>, links: seq<TagLink>,
                        l: TagLink, accounts: map<int, A>)
    requires Named(tags, links, accounts) && l.userId in accounts
    requires forall k :: k in tags && k != TagKey(l.name, l.userId) ==> k in tags' && tags'[k] == tags[k]
    requires TagKey(l.name, l.userId) in tags'
    requires tags'[TagKey(l.name, l.userId)].name == l.name
    requires tags'[TagKey(l.name, l.userId)].account == accounts[l.userId]
    ensures Named(tags', links + [l], accounts)
  {
    forall x | x in links + [l]
      ensures TagKey(x.name, x.userId) in tags'
      ensures tags'[TagKey(x.name, x.userId)].name == x.name
      ensures tags'[TagKey(x.name, x.userId)].account == accounts[x.userId]
    {
      if TagKey(x.name, x.userId) == TagKey(l.name, l.userId) {
        TagKeyInjective(x.name, x.userId, l.name, l.userId);
      }
    }
  }

  /** One kept row: the tag side, then the movie side. */
  method AddLink<A>(tags: map<string, TagRecord<A>>, movieTags: map<int, seq<string>>, l: TagLink,
                    accounts: map<int, A>, ghost links: seq<TagLink>)
    returns (tags': map<string, TagRecord<A>>, movieTags': map<int, seq<string>>)
    requires l.userId in accounts
    requires TagSide(tags, LinkPairs(links)) && MovieSide(movieTags, LinkPairs(links))
    requires Named(tags, links, accounts)
    ensures TagSide(tags', LinkPairs(links + [l])) && MovieSide(movieTags', LinkPairs(links + [l]))
    ensures Named(tags', links + [l], accounts)
  {
    var key := TagKey(l.name, l.userId);
    KnownKey(tags, links, l, accounts);
    tags' := TagMovie(tags, key, l.name, accounts[l.userId], l.movieId, LinkPairs(links));
    movieTags' := MovieTag(movieTags, key, l.movieId, LinkPairs(links));
    NamedOneMore(tags, tags', links, l, accounts);
    assert (links + [l])[..|links|] == links;
  }

  /** `importTagsFromCsv`: a row that throws ends the import before
      anything is persisted; otherwise the tags and links of all kept rows
      are persisted, one tag per (name, user), linked in both directions
      without duplicates. */
  method ImportTags<A>(rows: seq<seq<string>>, accounts: map<int, A>, movies: map<int, Movie>)
    returns (r: Result<TagGraph<A>>)
    ensures var (links, aborted) := Outcomes(rows, TagRule(accounts, movies));
      && (r.Failure? <==> aborted)
      && (r.Failure? ==> r.error == NumberFormat)
      && (r.Success? ==> Links(r.value, LinkPairs(links)) && Named(r.value.tags, links, accounts))
  {
    ghost var rule := TagRule(accounts, movies);
    var tags: map<string, TagRecord<A>> := map[];
    var movieTags: map<int, seq<string>> := map[];
    ghost var links: seq<TagLink> := [];
    var i := 0;
    while i < |rows|
      invariant 0 <= i <= |rows|
      invariant Outcomes(rows[..i], rule) == (links, false)
      invariant TagSide(tags, LinkPairs(links)) && MovieSide(movieTags, LinkPairs(links))
      invariant Named(tags, links, accounts)
    {
      OutcomesStep(rows, i, rule);
      match TagRow(rows[i], accounts, movies) {
        case Abort =>
          OutcomesAfterAbort(rows, i + 1, rule);
          return Failure(NumberFormat);
        case Keep(l) =>
          tags, movieTags := AddLink(tags, movieTags, l, accounts, links);
          links := links + [l];
        case Skip =>
      }
      i := i + 1;
    }
    assert rows[..i] == rows;
    return Success(TagGraph(tags, movieTags));
  }

  /** A tag already in the map was created for the same name and user, so
      it carries the new link's name and account. */
  lemma KnownKey<A>(tags: map<string, TagRecord<A>>, links: seq<TagLink>, l: TagLink, accounts: map<int, A>)
    requires TagSide(tags, LinkPairs(links)) && Named(tags, links, accounts) && l.userId in accounts
    ensures TagKey(l.name, l.userId) in tags ==>
      tags[TagKey(l.name, l.userId)].name == l.name && tags[TagKey(l.name, l.userId)].account == accounts[l.userId]
  {
    var key := TagKey(l.name, l.userId);
    if key in tags {
      var m :| (key, m) in LinkPairs(links);
      var owner := LinkOwner(links, key, m);
      TagKeyInjective(owner.name, owner.userId, l.name, l.userId);
    }
  }

  /** A pair comes from some link with that key and movie. */
  lemma {:induction false} LinkOwner(links: seq<TagLink>, key: string, m: int) returns (l: TagLink)
    requires (key, m) in LinkPairs(links)
    ensures l in links && TagKey(l.name, l.userId) == key && l.movieId == m
    decreases |links|
  {
    var last := links[|links| - 1];
    if (TagKey(last.name, last.userId), last.movieId) == (key, m) {
      l := last;
    } else {
      l := LinkOwner(links[..|links| - 1], key, m);
    }
  }
}
