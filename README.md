# Movie recommendation core — a Dafny model

This project models the computational core of the Go-Practice repository.
The core has three small movie recommenders and the row-grouping loops of its
GraphQL movie resolvers:

- **`ai/learn.go`** is user-based collaborative filtering over a slice of
  users. It has user lookup, the shared-movie set, a "cosine" similarity, and
  `getRecommendation`. That function sums similarity-weighted scores from
  every other user and sorts the result by score, highest first.
- **`ai/example/collabrative_filtering.go`** uses the same similarity over
  nested rating maps. Its recommender predicts a weighted average per movie,
  drops movies whose weight sum is not positive, sorts, and truncates to
  `numRecs`.
- **`ai/example/neighbour.go`** is content-based k-nearest neighbours. It
  computes the Euclidean distance, buckets movies by equal distance and takes
  whole buckets in ascending order until at least `k` movies are held. The
  recommender then keeps, by name, the neighbours that have a feature the
  query lacks.
- **`api/services/movie_service.go`** folds the flat `(title, name, job, role)`
  rows of a Neo4j result into movies with cast lists, and builds the single
  movie returned by `getMovieByTitle`.

Every Go loop is a Dafny `method` with a `while` loop and its invariants.
Most methods are proved equal to a specification function. The rest range
over a Go map or sort, so their result order is not fixed. Those are
specified by the set of their elements, distinctness, a permutation or
sortedness: `Learn.CollectUnmarked`, `Learn.SharedMovies`, `Learn.Entries`,
`Learn.SortedByScore`, `Learn.GetRecommendation`,
`Collaborative.SharedList`, `Collaborative.SortedIds`,
`Collaborative.Truncate`, `Collaborative.GetRecommendations`,
`Neighbour.SortedKeys`, `Neighbour.ValuesOf`, `Neighbour.RecommendMovies`
and `Sequences.SortByKey`. The properties the code promises are proved about
the specification functions as lemmas.

Some functions are plain definitions with no property of their own:
`MovieService.CastEntry` (a row's person), `MovieService.Cast` (one entry per
row) and `Neighbour.DistancesTo` (one distance per movie). What the code
promises about them is proved by `MovieService.MoviesCast`,
`MovieService.GroupedCast`, `MovieService.SingleMovie`, `Neighbour.Buckets`
and `Neighbour.NearestCloser`.

Modules:

- `Wrappers` holds `Option`.
- `Sequences` holds distinctness and order by a key, plus the in-place
  `SortByKey` that stands for `sort.Slice` and `sort.Float64s`.
- `Reals` holds the sum of a term over a finite set (`SetSum`), the order-free
  meaning of a sum taken while ranging over a Go map. It also holds what it
  means to be a square root (`IsSqrt`).
- `Learn`, `Collaborative`, `Neighbour` and `MovieService` follow the four
  source files.

Conventions:

- `math.Sqrt` is the parameter `sqrt`. Lemmas that need its meaning require
  `IsSqrt(sqrt)`.
- Where the Go code divides by zero (and so produces NaN or Inf), the model
  requires the denominator to be non-zero (`SimilarityDefined`).
- Go's map iteration order and the tie order of its unstable sorts are left
  open. The specifications use sets, permutations and sortedness only.

Behaviour of the code worth noting:

- The similarity is not symmetric. Its denominator is
  `sqrt(Σ r1²) · |Σ r2|`: the first user's magnitude is the root of a sum of
  squares, the second user's is the absolute value of a plain sum
  (`Learn.SimilarityAsymmetric` shows two users whose similarities differ).
- The sorts are not stable, so equal scores come out in no fixed order.
- `getRecommendation` also scores movies the target already rated, and it
  does not divide by a weight sum.
- `getRecommendations` takes its candidate movies from the ratings of user 1,
  whatever the target user is.
- The neighbour search does not leave out the query movie
  (`Neighbour.QueryIsNeighbour`). It can return more than `k` movies.
- The distance does not reject vectors of different lengths. It needs the
  second vector to be at least as long as the first, and it is symmetric only
  on vectors of equal length.

## Model

| member | source | states |
|---|---|---|
| Learn.FirstUserIndex | ai/learn.go:29-36 | the index of the first user with the given ID, or None exactly when no user has it |
| Learn.FindUserById | ai/learn.go:29-36 | the early-return loop finds that first matching user, or none |
| Learn.FirstRatingIndex | ai/learn.go:62-69 | the index of the first rating of the movie, or None exactly when the movie is not rated |
| Learn.FindRatingByMovieId | ai/learn.go:62-69 | the early-return loop finds that first rating, or none |
| Learn.MovieIdsHasFirst | ai/learn.go:62-69 | a movie is among a user's rated movies exactly when findRatingByMovieID finds a rating for it |
| Learn.RatedHasScore | ai/learn.go:82-83 | a rated movie's score in the similarity is the score of its first rating |
| Learn.MarkMovies | ai/learn.go:43-45 | the first loop marks true exactly the movies user 1 rated |
| Learn.UnmarkRated | ai/learn.go:46-50 | the second loop keeps the keys and turns false exactly the movies user 2 also rated |
| Learn.CollectUnmarked | ai/learn.go:52-57 | the third loop lists each movie marked false exactly once, and no other |
| Learn.SharedMovies | ai/learn.go:38-60 | the result lists each movie rated by both users exactly once, and no other movie |
| Learn.SumsOver | ai/learn.go:80-87 | the first loop yields Σ r2 and Σ r1² over the shared movies |
| Learn.DotOver | ai/learn.go:91-96 | the second loop yields Σ r1·r2 over the shared movies |
| Learn.RatedScore | ai/learn.go:82-84 | reading the score through findRatingByMovieID yields the first rating's score of a rated movie |
| Learn.SimilarityOfTotals | ai/learn.go:88-98 | with a shared movie and a defined similarity the product of the magnitudes is non-zero and the quotient is the similarity |
| Learn.CosineSimilarity | ai/learn.go:71-99 | the result is the similarity of the two users, and it is 0 when they share no movie |
| Learn.SimilarityDependsOnFirstScores | ai/learn.go:62-69 | users whose rated movies and first scores agree have equal similarities, so later duplicate ratings never matter to the similarity (getRecommendation itself adds every rating, duplicates included) |
| Learn.SumsDependOnFirstScores | ai/learn.go:80-96 | the shared set and the three sums depend only on rated movies and first scores |
| Learn.LaterDuplicateIgnored | ai/learn.go:62-69 | appending a rating for an already rated movie changes neither the rated movies nor any score used |
| Learn.SimilaritySign | ai/learn.go:71-98 | the similarity is positive exactly when some movie is shared and Σ r1·r2 > 0, and is 0 exactly when none is shared or that sum is 0 |
| Learn.SimilarityAsymmetric | ai/learn.go:88-89 | for any two users rating movies 1 and 2 with 3, 4 and with 1, 1, the similarity is 0.7 one way and differs the other way, so it is not symmetric |
| Learn.ExampleScores | ai/learn.go:38-69 | those two users share movies 1 and 2, with first scores 3, 4 and 1, 1 |
| Learn.FanToCritic | ai/learn.go:71-98 | from the first to the second user the similarity is defined and equals 0.7 |
| Learn.CriticToFan | ai/learn.go:71-98 | from the second to the first user the similarity is defined and equals 1/√2 |
| Learn.UserIdsHasUser | ai/learn.go:108-116 | the IDs visited by ranging over the users are exactly the IDs some user has |
| Learn.SimilarityMap | ai/learn.go:107-116 | its keys are other users with positive similarity, each mapped to that similarity, and every other user with positive similarity is a key |
| Learn.SimilaritiesOverAdd | ai/learn.go:112-115 | visiting one more user ID adds its similarity exactly when it is not the target and the similarity is positive |
| Learn.Similarities | ai/learn.go:107-116 | the first loop builds the similarity map, with no entry for the target |
| Learn.AddRatings | ai/learn.go:123-127 | the inner loop adds weight times score for every rating of one user, keyed by movie |
| Learn.Accumulate | ai/learn.go:118-128 | the keys are the movies rated by other users, and each value is the weighted sum over the users other than the target |
| Learn.MovieIdsAsSet | ai/learn.go:123-125 | the movies a rating list names are those of its ratings |
| Learn.Weighted | ai/learn.go:119-125 | the users that can contribute are other users with a similarity entry |
| Learn.ContributionOfZeroWeight | ai/learn.go:125 | a user with no similarity entry, read as 0, adds exactly 0 to every movie |
| Learn.OnlyWeightedUsersContribute | ai/learn.go:119-128 | every score equals the sum over other users with a similarity entry only |
| Learn.PredictedFromPositiveSimilarities | ai/learn.go:107-128 | every predicted score comes only from other users with positive similarity |
| Learn.Entries | ai/learn.go:131-134 | the map becomes one rating per movie key, holding that movie's score |
| Learn.DistinctEntries | ai/learn.go:131-134 | the entries have distinct movie IDs |
| Learn.ReorderedEntries | ai/learn.go:137-139 | sorting keeps the set of movie IDs and the scores |
| Learn.SortedByScore | ai/learn.go:130-139 | the result is sorted non-increasing by score, holds each key once, and carries the map's scores |
| Learn.GetRecommendation | ai/learn.go:101-142 | None exactly when the user is absent; otherwise one entry per movie rated by another user, sorted non-increasing, each scored by the weighted sum |
| Collaborative.SharedList | ai/example/collabrative_filtering.go:12-17 | the shared list holds each movie in both users' maps exactly once |
| Collaborative.SumsOver | ai/example/collabrative_filtering.go:23-30 | the first loop yields Σ r2 and Σ r1² over the shared movies |
| Collaborative.DotOver | ai/example/collabrative_filtering.go:34-39 | the second loop yields Σ r1·r2 over the shared movies |
| Collaborative.SimilarityOfTotals | ai/example/collabrative_filtering.go:31-41 | with a shared movie and a defined similarity the product of the magnitudes is non-zero and the quotient is the similarity |
| Collaborative.CosineSimilarity | ai/example/collabrative_filtering.go:11-42 | the result is the similarity over the shared keys, and it is 0 when no key is shared |
| Collaborative.SimilarityMap | ai/example/collabrative_filtering.go:45-51 | its keys are every user except the target, with no positivity filter, each mapped to its similarity |
| Collaborative.Similarities | ai/example/collabrative_filtering.go:45-51 | the first loop builds that map |
| Collaborative.WeightedSums | ai/example/collabrative_filtering.go:55-61 | the inner loop yields Σ sim·rating and Σ sim over the users in the map who rated the movie |
| Collaborative.Predictions | ai/example/collabrative_filtering.go:53-65 | a movie is scored exactly when user 1 rated it and its similarity sum is positive |
| Collaborative.PredictionsOverAdd | ai/example/collabrative_filtering.go:62-64 | a movie gets ratingSum / simSum exactly when simSum > 0 |
| Collaborative.Predict | ai/example/collabrative_filtering.go:53-65 | the second loop builds the prediction map over user 1's movies |
| Collaborative.SortedIds | ai/example/collabrative_filtering.go:67-73 | append and re-sort on every step leaves each scored movie once, sorted non-increasing by score |
| Collaborative.Truncate | ai/example/collabrative_filtering.go:75-78 | the result has min(numRecs, number of scored movies) entries, is still sorted, and every kept movie scores at least every dropped one |
| Collaborative.TopPrefix | ai/example/collabrative_filtering.go:75-78 | a prefix of the sorted list stays distinct and sorted, and each kept movie scores at least each dropped one |
| Collaborative.GetRecommendations | ai/example/collabrative_filtering.go:44-79 | distinct scored movies of user 1, min(numRecs, scored) of them, sorted non-increasing, the highest scores kept |
| Collaborative.SimilarityNonNegative | ai/example/collabrative_filtering.go:11-42 | with non-negative ratings the similarity is never negative |
| Collaborative.TermBounds | ai/example/collabrative_filtering.go:57-60 | with ratings in [lo, hi] and non-negative weights, each weighted term lies between lo and hi times its weight |
| Collaborative.SimilarityMapNonNegative | ai/example/collabrative_filtering.go:45-51 | with non-negative ratings every weight in the map is non-negative |
| Collaborative.PredictionBetween | ai/example/collabrative_filtering.go:62-64 | a weighted average of terms so bounded lies in [lo, hi] |
| Collaborative.PredictionWithinRange | ai/example/collabrative_filtering.go:44-65 | with ratings in [lo, hi] and lo ≥ 0, every predicted score lies in [lo, hi] |
| Collaborative.AbsentUserGetsNothing | ai/example/collabrative_filtering.go:44-65 | an absent user compares with every user and gets no prediction, because every similarity is 0 |
| Neighbour.SquaredDistance | ai/example/neighbour.go:29-35 | the sum of squared differences over the first vector's indices is never negative |
| Neighbour.EuclideanDistance | ai/example/neighbour.go:29-35 | the loop yields the root of that sum, which is non-negative for a true root |
| Neighbour.SquaredDistanceZero | ai/example/neighbour.go:29-35 | the squared distance is 0 exactly when the first vector equals the start of the second |
| Neighbour.SquaredDistanceSymmetric | ai/example/neighbour.go:29-35 | on equally long vectors the squared distance is symmetric |
| Neighbour.SquaredDistanceOfPrefix | ai/example/neighbour.go:31 | only the first vector's length of the second vector is read |
| Neighbour.DistanceToSelf | ai/example/neighbour.go:29-35 | a movie is at distance 0 from itself |
| Neighbour.AscendingOf | ai/example/neighbour.go:44-48 | the distances that occur, strictly ascending |
| Neighbour.Buckets | ai/example/neighbour.go:39-43 | the first loop maps each distance to its movies, in input order |
| Neighbour.BucketMapSnoc | ai/example/neighbour.go:42 | one more movie is appended to the bucket of its distance |
| Neighbour.SortedKeys | ai/example/neighbour.go:44-48 | each distance once, strictly ascending |
| Neighbour.SortedIsAscendingOf | ai/example/neighbour.go:48 | a strictly ascending listing of the distances is the ascending order itself |
| Neighbour.FindKNearestNeighbors | ai/example/neighbour.go:38-57 | the result is that of appending whole buckets in ascending distance while fewer than k movies are held |
| Neighbour.TakeBuckets | ai/example/neighbour.go:49-55 | the loop over the sorted distances appends whole buckets while fewer than k movies are held |
| Neighbour.GatherShape | ai/example/neighbour.go:49-55 | the selection is a prefix of whole buckets; it stops once k movies are held or the buckets run out, and before the last bucket fewer than k were held |
| Neighbour.NearestBuckets | ai/example/neighbour.go:39-55 | the neighbours are the buckets of the smallest distances in ascending order; they number at least k unless every bucket is taken |
| Neighbour.NearestWithin | ai/example/neighbour.go:39-55 | as a multiset the neighbours are the movies whose distance was reached |
| Neighbour.ReachedBelowRest | ai/example/neighbour.go:48-55 | every distance reached is below every distance not reached |
| Neighbour.NearestBounds | ai/example/neighbour.go:49-55 | k ≤ 0 gives none; the result is a sub-multiset of the movies, at least min(k, n) long, and all of them when k ≥ n |
| Neighbour.NearestCloser | ai/example/neighbour.go:40-55 | every returned movie is no farther from the query than every movie left out |
| Neighbour.CloserPair | ai/example/neighbour.go:40-55 | the same, for one returned and one omitted position |
| Neighbour.QueryIsNeighbour | ai/example/neighbour.go:40-43 | the query itself is returned whenever it is one of the movies and k ≥ 1 |
| Neighbour.NearestComparable | ai/example/neighbour.go:61 | every neighbour is one of the input movies |
| Neighbour.ChosenSound | ai/example/neighbour.go:62-69 | in the map built by the nested loop each key maps to a novel neighbour of that name, and every novel neighbour's name is a key |
| Neighbour.ChooseNovel | ai/example/neighbour.go:62-69 | the nested loop builds that map |
| Neighbour.LaterNeighbourWins | ai/example/neighbour.go:66 | a novel neighbour is the entry for its name when no later novel neighbour has that name |
| Neighbour.ValuesOf | ai/example/neighbour.go:70-73 | the map's values, each once, with distinct names |
| Neighbour.RecommendMovies | ai/example/neighbour.go:60-75 | the chosen movies of the neighbours, one per name, in an unspecified order |
| Neighbour.WithinMember | ai/example/neighbour.go:54 | a movie taken sits at a position whose distance was reached |
| MovieService.Runs | api/services/movie_service.go:44-55 | the rows are cut into runs of consecutive equal titles, no more runs than rows |
| MovieService.RunsCut | api/services/movie_service.go:44-55 | the runs put together give back the rows; each is non-empty and of one title, and neighbouring runs differ in title |
| MovieService.RunsUnique | api/services/movie_service.go:44-55 | that cut into maximal runs is the only one |
| MovieService.MoviesTitled | api/services/movie_service.go:50-55 | no movie is titled "" and there are no more movies than runs |
| MovieService.GroupRows | api/services/movie_service.go:42-66 | the loop yields one movie per maximal run whose title is not "", in run order |
| MovieService.AddRow | api/services/movie_service.go:50-61 | a row of another title closes the current movie (kept only if titled) and opens a new one; every row adds its cast entry |
| MovieService.ExtendStep | api/services/movie_service.go:50-61 | a row of the current title grows the current movie; any other row closes it and opens a new one |
| MovieService.KeptTitled | api/services/movie_service.go:50-55 | the rows kept carry a title, and no more rows are kept than given |
| MovieService.MoviesCast | api/services/movie_service.go:44-65 | the movies' casts, in order, are the entries of the rows titled other than "" |
| MovieService.GroupedCast | api/services/movie_service.go:42-66 | no row with a title is lost or duplicated, rows titled "" are dropped, and no movie is titled "" |
| MovieService.RunBecomesMovie | api/services/movie_service.go:50-65 | each maximal run with a title becomes a movie with one cast entry per row |
| MovieService.SingleRun | api/services/movie_service.go:42-66 | rows of one common title make exactly one movie |
| MovieService.NoMerging | api/services/movie_service.go:50 | maximal runs titled A, B, A give a separate movie for each A run, with B's movie between them unless B is "" |
| MovieService.SingleMovie | api/services/movie_service.go:113-128 | the title is the last row's, or "" with no rows, and there is one cast entry per row |
| Sequences.SortByKey | ai/learn.go:137-139 | the sort leaves a permutation ordered non-increasing by the key |

## Left out

- Neo4j and GraphQL plumbing are not modelled: driver and session set-up, the Cypher query, field wiring and `log.Fatal`. The resolvers' result is the row sequence given as input.
- The `movie == nil` checks after the transactions are not modelled. They lie outside the loops.
- The loops at api/services/movie_service.go:174-198 and 244-268 are copies of 42-66, so `MovieService.GroupRows` stands for all three.
- The type assertions `title.(string)`, `name.(string)` and `job.(string)` panic on other values. The model's rows hold strings, so those panics cannot occur in it.
- `data.ToStringSlice` is not part of this model. A row's role is the converted list itself, `Some(list)`, or `None` when the database returned no list.
- api/services/movie_controller.go and api/services/bundler.go are not modelled. They are an HTTP handler that repeats the single-movie loop, and server start-up.
- The demo functions `Learn` (ai/learn.go and ai/example/neighbour.go) and `main` (ai/example/collabrative_filtering.go) only print, so they are not modelled.
- The struct `Features` in ai/example/neighbour.go is unused, so it is not modelled.
- Floating point is modelled as exact `real` arithmetic. IEEE rounding, `math.Pow` (taken as exact squaring) and `math.Sqrt` (the parameter `sqrt`) are not.
- Learn.CosineSimilarity: zero denominators, where Go yields NaN or Inf, are excluded by the precondition `SimilarityDefined` rather than modelled.
- Collaborative.CosineSimilarity: zero denominators are excluded by `SimilarityDefined` rather than modelled.
- Learn.GetRecommendation and Collaborative.GetRecommendations require every similarity they compute to be defined (`SimilaritiesDefined`), for the same reason.
- Neighbour.EuclideanDistance requires the second movie to have at least as many features as the first. Go panics otherwise.
- Neighbour.RecommendMovies requires every movie to have no more features than the query (`Comparable`), because the Go code indexes both by the same positions.
- Go's map iteration order is not modelled. Results built by ranging over a map are specified up to order: a set of keys, or a permutation plus sortedness.
- Learn.GetRecommendation and Collaborative.GetRecommendations do not fix the order among equal scores, because Go's `sort.Slice` is not stable.
- Neighbour.RecommendMovies states its result as a set of movies with distinct names. The order comes from ranging over a Go map and is not fixed.
- Neighbour.FindKNearestNeighbors keys buckets by the value `sqrt` returns, as the Go map is keyed by the float64 distance. Its bounds are proved for any `sqrt`. Only `Neighbour.DistanceToSelf` and `Neighbour.QueryIsNeighbour` need `IsSqrt`.
- Collaborative.GetRecommendations and Collaborative.Truncate require `0 <= numRecs`. With a negative `numRecs` the Go code slices `sortedRecs[:numRecs]` and panics, and that panic is not modelled.
- Learn.SharedMovies and Learn.CosineSimilarity require both user IDs to be present (`HasUser`). Go dereferences the nil pointer `findUserByID` returns for a missing user and panics, and that panic is not modelled. getRecommendation only calls them with IDs of present users.
