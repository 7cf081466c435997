# Differential-privacy recommendation core, modelled in Dafny

This project models the algorithmic core of a movie-recommendation service and proves properties of the model. The service ranks movies by predicted rating, draws them with an exponential mechanism, perturbs ratings with Laplace noise, maps movies to search-index documents, and imports movies, ratings and tags from CSV files.

Modules, one per source unit:

- `Wrappers` (`wrappers.dfy`): `Option`, `Result` and the Java exceptions the core throws. These are `IllegalArgumentException`, `IllegalStateException` and `NumberFormatException`.
- `Reals` (`reals.dfy`): sums over `real` and the hypotheses used for the math primitives. The primitives are `Math.exp`, `Math.log` and `Math.sqrt`; each is a parameter of type `real -> real`.
- `Entities` (`entities.dfy`): `Movie`, `Gender`, `Tag`, `RecommendedMovie` and `Date` as values. `Rating` is a class, because the noise step sets its `rate` in place.
- `ExponentialMechanism` (`exponential_mechanism.dfy`):
  - The utility `-|note - 5|`.
  - The weights `exp(epsilon * u / (2 * 0.5))`.
  - `generateProbability`, with its two loops. The second loop rewrites an `array` in place.
  - The map-to-two-lists builder and the scan for the first cumulative value above the draw.
  - `selectRandomMovie`.
  - `DrawMember`, the draw used by the two drivers.
- `Pools` (`pools.dfy`): removal by id (`removeIf`) and a session of draws without replacement. Both drivers are proved against this session.
- `MovieRandomSelection` (`movie_random_selector.dfy`) and `RecommendedMovies` (`list_of_recommended_movies.dfy`): the two drivers. Each is a class whose fields are the pool and the accumulated result, and whose methods loop over draws.
- `MakeNoise` (`make_noise.dfy`): the min/max reductions with their `0.0` default, Gaussian and Laplace noise, and the in-place perturbation of every `Rating.rate`.
- `NoisySum` (`noisy_sum.dfy`): the bounds derivation and the loop that feeds the data into the bounded-sum builder of `makeNoise.java`.
- `MovieMapping` (`movie_mapper.dfy`): `toElastic` / `fromElastic`, with their 0-for-absent sentinels and the year-only date.
- `JavaText` (`java_text.dfy`): the `String` operations the importer relies on: `trim`, `split("\\|")`, ASCII `toLowerCase`, `equalsIgnoreCase`, `Long.parseLong`/`Integer.parseInt` and decimal rendering.
- `CsvRows` (`csv_rows.dfy`): the row loop shared by the three imports, which skips a row, stops at an uncaught exception or keeps a value. It also holds batch chunking and the flush of the last partial batch.
- `MovieImport`, `RatingImport` and `TagImport` (`csv_movies.dfy`, `csv_ratings.dfy`, `csv_tags.dfy`): the row logic of the three CSV imports.
  - The movie import covers the date fallback, the genre cache and the writer/actor lists.
  - The rating import covers the account cache and the batches.
  - The tag import covers the `name::userId` de-duplication and the two-way tag/movie links.

Randomness becomes explicit input. The uniform draw of `selectRandomMovie` is a parameter. Each driver draw takes one ticket from a sequence. The Laplace and Gaussian draws are parameters or sequences of reals.

Where the comments and the code disagree, the model follows the code:

- `findIndexWithRdNumber` (`ExponentialMechanism.java:98-105`) looks for the first cumulative value strictly above the draw, although its comment says "greater than or equal".
- `selectRandomMovies` (`MovieRandomSelector.java:51-64`) returns the remaining pool, not the selection. On a fresh selector it never draws (`MovieRandomSelection.FreshSelectorReturnsNothing`).
- `getMovies` (`ListOfRecommendedMovies.java:32-49`) is guaranteed to keep the pool non-empty before every draw when ids are distinct. `RecommendedMovies.ListOfRecommendedMovies.GetMovies` proves the no-exception outcome under that condition. `Pools.RepeatedIdsCanExhaustPool` shows a pool with a repeated id, where fewer draws than entries still reach an empty pool and throw.

## Model

| member | source | states |
|---|---|---|
| ExponentialMechanism.Utility | src/main/java/fr/univtln/pegliasco/encryption/differential_privacy/ExponentialMechanism.java:27-29 | the utility `-|note - 5.0|` is never positive, is zero exactly when the predicted note is the maximum 5.0, and equals note - 5.0 for notes up to the maximum |
| ExponentialMechanism.Weight | src/main/java/fr/univtln/pegliasco/encryption/differential_privacy/ExponentialMechanism.java:44 | the weight of a note is positive whenever the exponential is |
| ExponentialMechanism.Weights | src/main/java/fr/univtln/pegliasco/encryption/differential_privacy/ExponentialMechanism.java:43-47 | one weight per note, in input order, each the weight of its note |
| ExponentialMechanism.CumulativeDistribution | src/main/java/fr/univtln/pegliasco/encryption/differential_privacy/ExponentialMechanism.java:54-61 | one cumulative value per weight, the last one exactly 1 |
| ExponentialMechanism.DistributionIsShare | src/main/java/fr/univtln/pegliasco/encryption/differential_privacy/ExponentialMechanism.java:54-61 | cumulative value i is the share of the total weight held by the first i + 1 weights |
| ExponentialMechanism.GenerateProbability | src/main/java/fr/univtln/pegliasco/encryption/differential_privacy/ExponentialMechanism.java:40-62 | fails with IllegalArgumentException exactly when the weights `exp(epsilon * u / (2 * 0.5))` sum to zero; otherwise returns one entry per note, equal to the running sums of the normalised weights in input order |
| ExponentialMechanism.NormaliseInPlace | src/main/java/fr/univtln/pegliasco/encryption/differential_privacy/ExponentialMechanism.java:54-61 | the second loop leaves in the array the running sums of the old entries divided by the total |
| ExponentialMechanism.SumOfNormalised | src/main/java/fr/univtln/pegliasco/encryption/differential_privacy/ExponentialMechanism.java:54-61 | dividing every weight by the total divides their sum by the total |
| ExponentialMechanism.PrefixSumStrictlyIncreasing | src/main/java/fr/univtln/pegliasco/encryption/differential_privacy/ExponentialMechanism.java:54-61 | with positive weights a longer prefix has a strictly larger sum |
| ExponentialMechanism.DistributionEndsAtOne | src/main/java/fr/univtln/pegliasco/encryption/differential_privacy/ExponentialMechanism.java:54-61 | the last cumulative probability is exactly 1 |
| ExponentialMechanism.DistributionShape | src/main/java/fr/univtln/pegliasco/encryption/differential_privacy/ExponentialMechanism.java:40-62 | for positive weights the cumulative distribution has one entry per note, is strictly increasing, lies in (0, 1] and ends at 1 |
| ExponentialMechanism.DistributionIncreasing | src/main/java/fr/univtln/pegliasco/encryption/differential_privacy/ExponentialMechanism.java:54-61 | for positive weights the cumulative entries are positive and strictly increasing |
| ExponentialMechanism.CumulateIncreasing | src/main/java/fr/univtln/pegliasco/encryption/differential_privacy/ExponentialMechanism.java:54-61 | running sums of positive terms are positive and strictly increasing |
| ExponentialMechanism.WeightSumZeroIffEmpty | src/main/java/fr/univtln/pegliasco/encryption/differential_privacy/ExponentialMechanism.java:43-52 | with a positive exponential every weight is positive, so the weight sum is zero (and the exception is thrown) exactly for an empty list of notes |
| ExponentialMechanism.CloserNoteWeighsMore | src/main/java/fr/univtln/pegliasco/encryption/differential_privacy/ExponentialMechanism.java:27-44 | with a monotone exponential and positive epsilon, a note closer to 5.0 never gets a smaller weight |
| ExponentialMechanism.SplitEntries | src/main/java/fr/univtln/pegliasco/encryption/differential_privacy/ExponentialMechanism.java:73-87 | the two lists have the map's size, position i holds a key and its value, and every key appears exactly once |
| ExponentialMechanism.FindIndexWithRdNumber | src/main/java/fr/univtln/pegliasco/encryption/differential_privacy/ExponentialMechanism.java:98-105 | returns the first index whose cumulative probability is strictly above the random value, and no index exactly when every entry is at most the random value |
| ExponentialMechanism.SelectRandomMovie | src/main/java/fr/univtln/pegliasco/encryption/differential_privacy/ExponentialMechanism.java:116-129 | enumerates the map as movie/note pairs; fails with IllegalArgumentException exactly when the weights sum to zero (an empty map among them); on success returns the movie at the first index whose cumulative value lies strictly above the draw; the IllegalStateException comes exactly from a draw that no cumulative value exceeds; with a positive exponential, a non-empty map and a draw in [0, 1) it always succeeds |
| ExponentialMechanism.DrawMember | src/main/java/fr/univtln/pegliasco/tp/movies_to_recommend/ListOfRecommendedMovies.java:43-46 | a draw from a pool succeeds exactly when the pool is non-empty, fails with IllegalArgumentException otherwise, and returns a member of the pool |
| Pools.Without | src/main/java/fr/univtln/pegliasco/encryption/differential_privacy/MovieRandomSelector.java:41-48 | `removeIf` never lengthens the pool and leaves no entry with the removed id |
| Pools.WithoutMember | src/main/java/fr/univtln/pegliasco/encryption/differential_privacy/MovieRandomSelector.java:41-48 | an entry survives `removeIf` exactly when it was in the pool and its id differs from the removed id |
| Pools.KeptEntryIsInPool | src/main/java/fr/univtln/pegliasco/encryption/differential_privacy/MovieRandomSelector.java:41-48 | every entry left after `removeIf` was in the pool |
| Pools.RemovalKeepsSize | src/main/java/fr/univtln/pegliasco/encryption/differential_privacy/MovieRandomSelector.java:41-48 | the entries kept plus the entries removed make up the whole pool |
| Pools.NoMatchNoChange | src/main/java/fr/univtln/pegliasco/encryption/differential_privacy/MovieRandomSelector.java:41-48 | the pool is unchanged exactly when no entry has the removed id |
| Pools.MemberMatches | src/main/java/fr/univtln/pegliasco/tp/movies_to_recommend/ListOfRecommendedMovies.java:20-30 | the drawn entry removes at least one entry, and exactly one when ids are distinct |
| Pools.NoMatchWhenAbsent | src/main/java/fr/univtln/pegliasco/tp/movies_to_recommend/ListOfRecommendedMovies.java:20-30 | an id carried by no entry removes nothing |
| Pools.NoMatchBeforeLast | src/main/java/fr/univtln/pegliasco/tp/movies_to_recommend/ListOfRecommendedMovies.java:20-30 | with distinct ids the last entry's id occurs nowhere before it |
| Pools.WithoutKeepsDistinct | src/main/java/fr/univtln/pegliasco/tp/movies_to_recommend/ListOfRecommendedMovies.java:20-30 | removing an id keeps the ids of the pool distinct |
| Pools.Step | src/main/java/fr/univtln/pegliasco/tp/movies_to_recommend/ListOfRecommendedMovies.java:43-46 | a draw fails exactly on an empty pool and then changes nothing else; a successful draw records one id, shrinks the pool, leaves no entry with the drawn id, and moves entries from the pool to the result one for one; the result and the drawn ids only grow |
| Pools.Rounds | src/main/java/fr/univtln/pegliasco/tp/movies_to_recommend/ListOfRecommendedMovies.java:43-46 | after the exception no further draw changes anything; the result and the drawn ids only grow and the pool only shrinks |
| Pools.RoundsUnfold | src/main/java/fr/univtln/pegliasco/tp/movies_to_recommend/ListOfRecommendedMovies.java:43-46 | a session that has not failed makes the next draw and continues with the remaining draws |
| Pools.RoundsKeepTotal | src/main/java/fr/univtln/pegliasco/tp/movies_to_recommend/ListOfRecommendedMovies.java:43-46 | every draw moves entries from the pool to the result one for one, the result and the drawn ids only grow, a session fails only on an empty pool, and a session that does not fail draws once per round |
| Pools.RepeatedIdsCanExhaustPool | src/main/java/fr/univtln/pegliasco/tp/movies_to_recommend/ListOfRecommendedMovies.java:32-46 | three entries sharing id 7 are all removed by the first of two draws, so the second draw finds an empty pool and the call fails although 2 < 3 |
| Pools.SameIdLeavesNothing | src/main/java/fr/univtln/pegliasco/tp/movies_to_recommend/ListOfRecommendedMovies.java:20-30 | removing the id that every entry carries empties the pool |
| Pools.StepWithDistinctIds | src/main/java/fr/univtln/pegliasco/tp/movies_to_recommend/ListOfRecommendedMovies.java:43-46 | with distinct ids and fresh draws, one draw from a non-empty pool succeeds, shrinks the pool by one, grows the result by one and keeps the ids fresh |
| Pools.RemoveDrawn | src/main/java/fr/univtln/pegliasco/tp/movies_to_recommend/ListOfRecommendedMovies.java:20-30 | removing a drawn entry of a pool with distinct ids removes exactly that entry and keeps the drawn ids distinct and out of the pool |
| Pools.AppendFresh | src/main/java/fr/univtln/pegliasco/tp/movies_to_recommend/ListOfRecommendedMovies.java:20-30 | appending an id not yet drawn keeps the drawn ids distinct |
| Pools.RoundsWithDistinctIds | src/main/java/fr/univtln/pegliasco/tp/movies_to_recommend/ListOfRecommendedMovies.java:43-46 | with distinct ids, at most as many draws as entries never fail, and each moves exactly one entry from the pool to the result |
| MovieRandomSelection.MovieRandomSelector.constructor | src/main/java/fr/univtln/pegliasco/encryption/differential_privacy/MovieRandomSelector.java:31-38 | the pool is the given list and the selection starts empty |
| MovieRandomSelection.MovieRandomSelector.AddMovieToRecommendation | src/main/java/fr/univtln/pegliasco/encryption/differential_privacy/MovieRandomSelector.java:40-49 | removes every pooled movie with the selected id and appends one copy of the selected movie per removed entry |
| MovieRandomSelection.MovieRandomSelector.SelectRandomMovies | src/main/java/fr/univtln/pegliasco/encryption/differential_privacy/MovieRandomSelector.java:51-64 | n <= 0 fails; n at least the selection size returns the selection unchanged; otherwise the pool and selection evolve by n draws from the pool, and the call returns the pool left (not the selection) or fails on an empty draw |
| MovieRandomSelection.FreshSelectorReturnsNothing | src/main/java/fr/univtln/pegliasco/encryption/differential_privacy/MovieRandomSelector.java:32-61 | on a freshly built selector every positive n returns an empty list and leaves the pool as it was |
| RecommendedMovies.ListOfRecommendedMovies.constructor | src/main/java/fr/univtln/pegliasco/tp/movies_to_recommend/ListOfRecommendedMovies.java:12-18 | stores the finder and the recommendation list; nothing is selected yet |
| RecommendedMovies.ListOfRecommendedMovies.SelectMovie | src/main/java/fr/univtln/pegliasco/tp/movies_to_recommend/ListOfRecommendedMovies.java:20-30 | removes every recommendation with the selected movie id and appends the looked-up movie once per removed entry |
| RecommendedMovies.ListOfRecommendedMovies.GetMovies | src/main/java/fr/univtln/pegliasco/tp/movies_to_recommend/ListOfRecommendedMovies.java:32-49 | n <= 0 or n above the list size fails and changes nothing; n equal to the size looks up the whole list; otherwise makes n draws, fails only on an empty pool, and with distinct ids always succeeds with n draws with distinct movie ids, none of which stays in the pool; earlier selections stay as a prefix, so results accumulate across calls |
| RecommendedMovies.ListOfRecommendedMovies.LookUpWholePool | src/main/java/fr/univtln/pegliasco/tp/movies_to_recommend/ListOfRecommendedMovies.java:36-41 | appends the looked-up movie of every recommendation in order and leaves the list unchanged |
| RecommendedMovies.ListOfRecommendedMovies.DrawMovies | src/main/java/fr/univtln/pegliasco/tp/movies_to_recommend/ListOfRecommendedMovies.java:43-46 | the loop's state is that of n rounds of draw-and-remove, and the result is the selection or the exception of a draw from an empty pool |
| MakeNoise.GetMin | src/main/java/fr/univtln/pegliasco/encryption/differential_privacy/MakeNoise.java:47-49 | zero for empty data, otherwise an element of the data no larger than any other |
| MakeNoise.GetMax | src/main/java/fr/univtln/pegliasco/encryption/differential_privacy/MakeNoise.java:57-59 | zero for empty data, otherwise an element of the data no smaller than any other |
| MakeNoise.GaussianSigma | src/main/java/fr/univtln/pegliasco/encryption/differential_privacy/MakeNoise.java:69 | for positive epsilon and sensitivity sigma = sqrt(2)·S/epsilon is positive |
| MakeNoise.GaussianNoise | src/main/java/fr/univtln/pegliasco/encryption/differential_privacy/MakeNoise.java:68-71 | for positive epsilon and sensitivity the noise has the sign of the Gaussian draw and is zero exactly when the draw is |
| MakeNoise.GaussianNoiseOdd | src/main/java/fr/univtln/pegliasco/encryption/differential_privacy/MakeNoise.java:68-71 | the noise is odd in the Gaussian draw |
| MakeNoise.LaplaceDrawRange | src/main/java/fr/univtln/pegliasco/encryption/differential_privacy/MakeNoise.java:80-84 | a draw in [0, 1) is centred into [-0.5, 0.5), the logarithm's argument lies in [0, 1], and it is zero only for the draw 0 |
| MakeNoise.LaplaceNoise | src/main/java/fr/univtln/pegliasco/encryption/differential_privacy/MakeNoise.java:80-84 | the draw 0.5 and a zero sensitivity give exactly zero noise, whatever the logarithm is |
| MakeNoise.LaplaceNoiseOppositeSign | src/main/java/fr/univtln/pegliasco/encryption/differential_privacy/MakeNoise.java:83 | with a logarithm negative below one, the noise has the opposite sign of the centred draw |
| MakeNoise.LaplaceNoiseOdd | src/main/java/fr/univtln/pegliasco/encryption/differential_privacy/MakeNoise.java:80-84 | draws symmetric about 0.5 give opposite noise |
| MakeNoise.NoiseReceivedOnce | src/main/java/fr/univtln/pegliasco/encryption/differential_privacy/MakeNoise.java:87-90 | a rating that occurs once receives exactly the noise of its own position |
| MakeNoise.NoiseAbsent | src/main/java/fr/univtln/pegliasco/encryption/differential_privacy/MakeNoise.java:87-90 | a rating not in the list receives no noise |
| MakeNoise.ApplyLaplaceNoise | src/main/java/fr/univtln/pegliasco/encryption/differential_privacy/MakeNoise.java:86-92 | returns the same list in the same order; each rating's rate grows by the noises drawn at its positions and no other field changes |
| MakeNoise.DistinctRatingsGetOwnNoise | src/main/java/fr/univtln/pegliasco/encryption/differential_privacy/MakeNoise.java:86-92 | when no rating object repeats, each rating receives exactly the Laplace noise of its own draw |
| NoisySum.BoundedSum.Build | src/main/java/fr/univtln/pegliasco/encryption/differential_privacy/makeNoise.java:71-76 | the builder's epsilon, bounds and partition limit are stored and no entry is added yet |
| NoisySum.BoundedSum.AddEntry | src/main/java/fr/univtln/pegliasco/encryption/differential_privacy/makeNoise.java:79 | appends the value to the entries |
| NoisySum.ApplyDifferentialPrivacy | src/main/java/fr/univtln/pegliasco/encryption/differential_privacy/makeNoise.java:70-82 | builds a fresh bounded sum with the given epsilon and bounds, one partition per contributor, fed with every datum in order |
| NoisySum.DeriveBounds | src/main/java/fr/univtln/pegliasco/encryption/differential_privacy/makeNoise.java:101-103 | the derived bounds are ordered, both 0 for no data, otherwise both data points and enclosing every datum |
| MovieMapping.ToElastic | src/main/java/fr/univtln/pegliasco/tp/model/nosql/Mapper/MovieMapper.java:12-40 | copies the scalar fields, maps a missing year or runtime to 0, keeps the year only, and maps genres and tags to their names one for one when present |
| MovieMapping.FromElastic | src/main/java/fr/univtln/pegliasco/tp/model/nosql/Mapper/MovieMapper.java:42-55 | fails exactly for a non-zero year that `Date` cannot hold: with DateTimeException outside the `LocalDate` year range, else with IllegalArgumentException; otherwise copies the scalar fields, maps year 0 and runtime 0 to absent, turns a year into 1 January of it, and leaves poster, genres, tags and ratings unset |
| MovieMapping.DocumentRoundTrip | src/main/java/fr/univtln/pegliasco/tp/model/nosql/Mapper/MovieMapper.java:12-55 | mapping a document to a movie succeeds exactly when its year is 0 or one `Date` can hold, and then mapping back gives the document unchanged except for poster, genre and tag names |
| MovieMapping.MovieRoundTrip | src/main/java/fr/univtln/pegliasco/tp/model/nosql/Mapper/MovieMapper.java:12-55 | the way back succeeds exactly when the movie has no date, a year-0 date or a year `Date` can hold; then the movie keeps its scalar fields, keeps only the year of its date, loses a zero runtime or year and loses poster, genres, tags and ratings |
| MovieMapping.MovieRoundTripIdentity | src/main/java/fr/univtln/pegliasco/tp/model/nosql/Mapper/MovieMapper.java:12-55 | the round trip returns the movie unchanged exactly when its date is absent or 1 January of a non-zero year `Date` can hold, its runtime is not 0, and poster, genres, tags and ratings are unset |
| JavaText.TrimStart | src/main/java/fr/univtln/pegliasco/tp/services/CsvImporterService.java:206 | drops exactly the leading characters at or below the space |
| JavaText.TrimEnd | src/main/java/fr/univtln/pegliasco/tp/services/CsvImporterService.java:206 | drops exactly the trailing characters at or below the space |
| JavaText.Trim | src/main/java/fr/univtln/pegliasco/tp/services/CsvImporterService.java:206 | the result neither starts nor ends with a character at or below the space |
| JavaText.TrimFixpoint | src/main/java/fr/univtln/pegliasco/tp/services/CsvImporterService.java:206 | a string is its own trim exactly when it has no such character at either end, and trimming twice is trimming once |
| JavaText.FieldsRoundTrip | src/main/java/fr/univtln/pegliasco/tp/services/CsvImporterService.java:203 | joining the '|'-separated fields with '|' gives back the string, and no field contains '|' |
| JavaText.DropTrailingEmpty | src/main/java/fr/univtln/pegliasco/tp/services/CsvImporterService.java:203 | removes exactly the trailing empty fields |
| JavaText.Split | src/main/java/fr/univtln/pegliasco/tp/services/CsvImporterService.java:203 | `split("\\|")` returns the string itself when it has no '|', and otherwise a prefix of its fields that does not end with an empty one |
| JavaText.SplitPieces | src/main/java/fr/univtln/pegliasco/tp/services/CsvImporterService.java:203 | no piece of a split holds '|', and the fields of the string join back to it |
| JavaText.ToLower | src/main/java/fr/univtln/pegliasco/tp/services/CsvImporterService.java:325 | lower-cases each character in place |
| JavaText.ToLowerIdempotent | src/main/java/fr/univtln/pegliasco/tp/services/CsvImporterService.java:325 | the lower-cased string has no upper-case letter, lower-casing twice is lower-casing once, and it equals the original ignoring case |
| JavaText.ParseInteger | src/main/java/fr/univtln/pegliasco/tp/services/CsvImporterService.java:81-82 | a parse fails with NumberFormatException, in particular on the empty string, and a success lies in the type's range |
| JavaText.ShowNat | src/main/java/fr/univtln/pegliasco/tp/services/CsvImporterService.java:333 | the decimal rendering of a natural number is a non-empty digit string |
| JavaText.ShowInt | src/main/java/fr/univtln/pegliasco/tp/services/CsvImporterService.java:333 | the decimal rendering of a long is non-empty and has no ':' |
| JavaText.ShowNatValue | src/main/java/fr/univtln/pegliasco/tp/services/CsvImporterService.java:333 | a rendered natural number reads back as itself |
| JavaText.ParseShowRoundTrip | src/main/java/fr/univtln/pegliasco/tp/services/CsvImporterService.java:333 | parsing the decimal rendering of an in-range number gives the number back |
| JavaText.ShowIntInjective | src/main/java/fr/univtln/pegliasco/tp/services/CsvImporterService.java:333 | distinct numbers render differently |
| CsvRows.Outcomes | src/main/java/fr/univtln/pegliasco/tp/services/CsvImporterService.java:79-104 | the row loop keeps at most one value per row, and no rows give nothing and no abort |
| CsvRows.OutcomesStep | src/main/java/fr/univtln/pegliasco/tp/services/CsvImporterService.java:79-104 | reading one more row adds its kept value, stops at an exception, or skips it |
| CsvRows.OutcomesAfterAbort | src/main/java/fr/univtln/pegliasco/tp/services/CsvImporterService.java:79-104 | after an uncaught exception no later row has any effect |
| CsvRows.OutcomesFromRows | src/main/java/fr/univtln/pegliasco/tp/services/CsvImporterService.java:79-104 | every kept value comes from some row, an abort comes from some row, and rows that never throw do not abort the import |
| CsvRows.Chunks | src/main/java/fr/univtln/pegliasco/tp/services/CsvImporterService.java:233-236 | an empty list gives no batch, a list within the batch size one batch, a longer list at least two, and never more batches than elements |
| CsvRows.ChunksCover | src/main/java/fr/univtln/pegliasco/tp/services/CsvImporterService.java:233-236 | the batches concatenate to the whole list, each has between 1 and 10000 elements, and all but the last are full |
| CsvRows.Pending | src/main/java/fr/univtln/pegliasco/tp/services/CsvImporterService.java:99-102 | the batch in progress is always smaller than the batch size |
| CsvRows.BatchOneMore | src/main/java/fr/univtln/pegliasco/tp/services/CsvImporterService.java:97-102 | adding a rating either completes and persists the current batch or just extends it |
| CsvRows.FlushIsChunks | src/main/java/fr/univtln/pegliasco/tp/services/CsvImporterService.java:106-109 | the persisted full batches plus the final non-empty batch are exactly the chunks of the list |
| CsvRows.ChunkAt | src/main/java/fr/univtln/pegliasco/tp/services/CsvImporterService.java:233-236 | the batch starting at i ends at i + batch size or at the end of the list |
| CsvRows.MakeBatches | src/main/java/fr/univtln/pegliasco/tp/services/CsvImporterService.java:233-236 | the batches are the chunks of the movie list: in order, covering it, each non-empty and at most the batch size |
| MovieImport.FirstParse | src/main/java/fr/univtln/pegliasco/tp/services/CsvImporterService.java:157-168 | the date of the first format that parses the text, and none exactly when no format parses it |
| MovieImport.TryFormats | src/main/java/fr/univtln/pegliasco/tp/services/CsvImporterService.java:157-164 | the loop over the formats returns the first successful parse |
| MovieImport.SafeDate | src/main/java/fr/univtln/pegliasco/tp/services/CsvImporterService.java:146-169 | null or "Unknown" (trimmed, ignoring case) give no date; otherwise no date exactly when no format parses the text, and a date only as some format parses it |
| MovieImport.ParseDateSafely | src/main/java/fr/univtln/pegliasco/tp/services/CsvImporterService.java:146-169 | null or "Unknown" (trimmed, ignoring case) give no date; otherwise the result is the parse of the first format that accepts the text, and none when no format does |
| MovieImport.TrimmedPieces | src/main/java/fr/univtln/pegliasco/tp/services/CsvImporterService.java:203-206 | the genre names are the trimmed pieces of the '|'-split, one for one |
| MovieImport.NonEmpty | src/main/java/fr/univtln/pegliasco/tp/services/CsvImporterService.java:214-217 | keeps exactly the non-empty names |
| MovieImport.People | src/main/java/fr/univtln/pegliasco/tp/services/CsvImporterService.java:214-217 | writers and actors are trimmed, non-empty and contain no '|' |
| MovieImport.TrimKeepsOut | src/main/java/fr/univtln/pegliasco/tp/services/CsvImporterService.java:214-217 | trimming introduces no character |
| MovieImport.ParseMovieRow | src/main/java/fr/univtln/pegliasco/tp/services/CsvImporterService.java:189-222 | rows with fewer than 11 columns are skipped; a row is dropped exactly when the id, date or runtime does not parse; a kept movie has the parsed id, the first date parse, the parsed runtime, the trimmed title, director, plot, country and poster, the trimmed genre names and the trimmed non-empty writer and actor names, and no genres, tags or ratings yet |
| MovieImport.ResolveGenre | src/main/java/fr/univtln/pegliasco/tp/services/CsvImporterService.java:207 | returns the gender the service gives for the name, calls the service only for a name not yet cached, and the cache gains exactly that name |
| MovieImport.ResolveGenres | src/main/java/fr/univtln/pegliasco/tp/services/CsvImporterService.java:203-210 | returns the service's gender for each name in order, the cache gains exactly the new names, and the service is never called twice for one name |
| MovieImport.MovieRow | src/main/java/fr/univtln/pegliasco/tp/services/CsvImporterService.java:189-226 | a movie row never ends the import, since every exception is caught; it is kept exactly when it parses, as the parsed movie with one genre per genre name and nothing else changed |
| MovieImport.ImportRow | src/main/java/fr/univtln/pegliasco/tp/services/CsvImporterService.java:193-222 | one pass of the loop yields the row's movie exactly when the row rule keeps it, keeps the genre cache consistent with the service, and grows the cache by exactly the row's genre names |
| MovieImport.ImportMovies | src/main/java/fr/univtln/pegliasco/tp/services/CsvImporterService.java:173-236 | the batches are the 10000-chunks of the movies kept from the rows in order; the genre service is called at most once per name, and exactly for the genre names of the rows that parse |
| RatingImport.AccountFor | src/main/java/fr/univtln/pegliasco/tp/services/CsvImporterService.java:85 | a cache that agrees with the service on the id answers as the service does, and only an uncached id the service does not know gives no account |
| RatingImport.RatingRow | src/main/java/fr/univtln/pegliasco/tp/services/CsvImporterService.java:80-97 | rows with fewer than 4 columns are skipped; a row throws exactly when the user id, movie id or rate does not parse; a row is kept exactly when it has 4 columns, all three values parse, an account is found for the user and the movie is cached; a kept rating has the parsed rate, that account and the cached movie |
| RatingImport.CachedAccount | src/main/java/fr/univtln/pegliasco/tp/services/CsvImporterService.java:85 | the account cache answers as the service would for any id |
| RatingImport.ImportRatings | src/main/java/fr/univtln/pegliasco/tp/services/CsvImporterService.java:67-113 | fails with NumberFormatException exactly when a row does not parse, having persisted the full batches of the ratings read before it; otherwise persists the 10000-chunks of all kept ratings |
| TagImport.SeparatorInLonger | src/main/java/fr/univtln/pegliasco/tp/services/CsvImporterService.java:333 | if two tag keys are equal and one user-id part is longer, that part contains ':' |
| TagImport.TagKeyInjective | src/main/java/fr/univtln/pegliasco/tp/services/CsvImporterService.java:314-333 | the key "name::userId" determines the name and the user id |
| TagImport.TagRow | src/main/java/fr/univtln/pegliasco/tp/services/CsvImporterService.java:322-331 | rows with fewer than 3 columns are skipped; a row throws exactly when an id does not parse; a row is kept exactly when it has 3 columns, both ids parse and name a known account and a known movie; a kept link has the trimmed lower-case name and both parsed ids |
| TagImport.TagMovie | src/main/java/fr/univtln/pegliasco/tp/services/CsvImporterService.java:333-344 | the tag for the key is created with its name and account when absent, gains the movie once, and no other tag changes |
| TagImport.MovieTag | src/main/java/fr/univtln/pegliasco/tp/services/CsvImporterService.java:346-349 | the movie gains the tag once |
| TagImport.NamedOneMore | src/main/java/fr/univtln/pegliasco/tp/services/CsvImporterService.java:334-339 | a tag keeps the name and account of the first row that created it |
| TagImport.KnownKey | src/main/java/fr/univtln/pegliasco/tp/services/CsvImporterService.java:333-339 | a key already present belongs to the same name and user, so its tag's name and account are the link's |
| TagImport.AddLink | src/main/java/fr/univtln/pegliasco/tp/services/CsvImporterService.java:333-349 | one row links its tag and movie both ways, each once, and keeps every tag's name and account |
| TagImport.ImportTags | src/main/java/fr/univtln/pegliasco/tp/services/CsvImporterService.java:306-357 | fails with NumberFormatException exactly when a row does not parse; otherwise a tag exists exactly for each (name, user) that occurs, its movies and each movie's tags are exactly the linked pairs without repetition, and its name and account are those of its rows |
| TagImport.LinkOwner | src/main/java/fr/univtln/pegliasco/tp/services/CsvImporterService.java:333-349 | each linked pair comes from a row with that key and movie |

## Left out

- Floating point: reals are exact. There is no rounding, overflow or underflow, no `(float)` cast at `MakeNoise.java:90`, and no NaN or infinity.
- `Math.exp`, `Math.log`, `Math.sqrt`: each is a parameter of type `real -> real` with only the hypothesis a lemma needs. `exp` is positive or monotone, and `log` is negative on (0, 1). `Math.signum` is written out.
- Randomness: `rdGenerator`, `RANDOM`, `nextDouble` and `nextGaussian` become parameters or sequences of draws. Distributional claims are not stated: zero mean, the epsilon-differential-privacy guarantee, composition across draws.
- ExponentialMechanism.DrawMember: the drivers call mechanism members that `ExponentialMechanism.java` does not define: a constructor taking a utility function, and a `selectRandomMovie` over a list. The drivers' draw is therefore abstract. Given a ticket it returns some member of a non-empty pool, and it throws `IllegalArgumentException` on an empty one. This is the exception `generateProbability` throws for an empty list. Epsilon 0.5 has no effect on it.
- MakeNoise.LaplaceDrawRange: a uniform draw of exactly 0 makes the logarithm's argument 0. The model states this but gives the logarithm no value there, whereas Java returns an infinite noise.
- NoisySum.ApplyDifferentialPrivacy: the bounded-sum builder belongs to an external library. Its clamping to the bounds, its noise and `computeResult` are not modelled. Only the construction parameters and the feeding of every datum in order are.
- MakeNoise.GetMin and MakeNoise.GetMax also model the identical `getMin`/`getMax` of `makeNoise.java:42-54`. `NoisySum.DeriveBounds` uses their contracts.
- Java list aliasing: `selectRandomMovies` returns the live field list and `getMovies` returns the live `moviesToRecommend`. The model returns their current values, so later changes through the returned reference are not captured.
- Null ids: `Movie.id` and `RecommendedMovie.movieId` are never null here, so the `NullPointerException` a null id would raise in `removeIf`'s `equals` is not modelled. The movie finder of `ListOfRecommendedMovies.java:23` returns an `Option`; its `None` stands for the null Java appends.
- RecommendedMovie.java is not part of this model. A recommendation is taken to carry a movie id and a predicted note.
- The `MovieElastic` document class of the Elastic package is not part of this model. Its constructor is taken to store each argument in the field of the same name.
- Dates: a `Date` is a civil date in the one time zone of the system. `SimpleDateFormat` parsing is a partial-function parameter tried per format string. `Float.parseFloat` is a partial-function parameter too.
- JavaText.ToLower: lower-cases only ASCII letters, and `trim` removes characters at or below U+0020 as Java does. Unicode case mapping is not modelled.
- JavaText.ParseInteger: accepts an optional sign followed by ASCII digits within the type's range, as `Long.parseLong`/`Integer.parseInt` do. The non-ASCII digits Java also accepts are not modelled.
- CSV reading: the opencsv tokenizer, quoting and the skipped header line are not modelled. Each row arrives as its sequence of tokens.
- Persistence and transport: `persistBatch*`, entity-manager transactions, the `CompletableFuture` parallel persistence, the Elasticsearch readiness ping and indexing retries, and the account/genre/movie services are not modelled. Services are function parameters, and persisted data is the list of batches handed over.
- MovieImport.ImportMovies: the genre cache is shown to call the service at most once per name. That equal names share one `Gender` object follows only from the service being a function; object identity is not modelled.
- TagImport.ImportTags: the result is the tag map and the movies' tag lists. The persisted batch is `tagMap.values()` in unspecified order. Tags a movie already had before the import are not modelled: a new `Tag` never equals them, because `Tag` has no `equals`.
- RatingImport.ImportRatings: the exception a non-numeric row raises is modelled as ending the import with the earlier full batches persisted, as the source's uncaught `parseLong`/`parseFloat` does. The partial batch then in memory is dropped.
- Controllers, REST clients, the TFHE native code and the remaining entity mappers are outside this model.
