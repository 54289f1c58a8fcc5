/**
 * User-based collaborative filtering over nested maps, user ID -> movie ID ->
 * score (ai/example/collabrative_filtering.go).
 *
 * `cosineSimilarity` uses the same asymmetric formula as the slice version;
 * `getRecommendations` computes it for every user ID but the target (no
 * positivity filter), scores each movie rated by user 1 with the
 * similarity-weighted average of the other users' ratings when the weights
 * sum to a positive value, sorts by score and keeps the first `numRecs`.
 */
module Collaborative {
  import opened Reals
  import opened Sequences

  /** user ID -> (movie ID -> score). */
  type Ratings = map<int, map<int, real>>

  /** `ratings[user]`: the empty map for a user without an entry. */
  function RatingsOf(ratings: Ratings, user: int): map<int, real> {
    if user in ratings then ratings[user] else map[]
  }

  /** The movies rated by both users. */
  function Shared(ratings: Ratings, user1: int, user2: int): set<int> {
    RatingsOf(ratings, user1).Keys * RatingsOf(ratings, user2).Keys
  }

  function DotTerm(a: map<int, real>, b: map<int, real>): int -> real {
    m => Lookup(a, m) * Lookup(b, m)
  }

  function SquareTerm(a: map<int, real>): int -> real {
    m => Lookup(a, m) * Lookup(a, m)
  }

  /** The scores of a map as a function, zero where the map has no entry. */
  function ScoreIn(scores: map<int, real>): int -> real {
    m => Lookup(scores, m)
  }

  ghost function DotProduct(ratings: Ratings, user1: int, user2: int): real {
    SetSum(Shared(ratings, user1, user2), DotTerm(RatingsOf(ratings, user1), RatingsOf(ratings, user2)))
  }

  ghost function SumOfSquares(ratings: Ratings, user1: int, user2: int): real {
    SetSum(Shared(ratings, user1, user2), SquareTerm(RatingsOf(ratings, user1)))
  }

  ghost function SumOfSecond(ratings: Ratings, user1: int, user2: int): real {
    SetSum(Shared(ratings, user1, user2), ScoreIn(RatingsOf(ratings, user2)))
  }

  /** sqrt(Σ r1²) · sqrt((Σ r2)²), the magnitudes as the code computes them. */
  ghost function Denominator(ratings: Ratings, user1: int, user2: int, sqrt: real -> real): real {
    sqrt(SumOfSquares(ratings, user1, user2)) * sqrt(Square(SumOfSecond(ratings, user1, user2)))
  }

  /** The division the similarity performs is defined (Go would produce NaN or Inf). */
  ghost predicate SimilarityDefined(ratings: Ratings, user1: int, user2: int, sqrt: real -> real) {
    Shared(ratings, user1, user2) == {} || Denominator(ratings, user1, user2, sqrt) != 0.0
  }

  ghost function Similarity(ratings: Ratings, user1: int, user2: int, sqrt: real -> real): real
    requires SimilarityDefined(ratings, user1, user2, sqrt)
  {
    if Shared(ratings, user1, user2) == {} then 0.0
    else DotProduct(ratings, user1, user2) / Denominator(ratings, user1, user2, sqrt)
  }

  /** With at least one shared movie, the similarity is the dot product over the product of the two roots. */
  lemma SimilarityOfTotals(ratings: Ratings, user1: int, user2: int, sqrt: real -> real, dot: real, squares: real,
                           sum2: real, mag1: real, mag2: real)
    requires Shared(ratings, user1, user2) != {} && SimilarityDefined(ratings, user1, user2, sqrt)
    requires dot == DotProduct(ratings, user1, user2)
    requires squares == SumOfSquares(ratings, user1, user2) && sum2 == SumOfSecond(ratings, user1, user2)
    requires mag1 == sqrt(squares) && mag2 == sqrt(sum2 * sum2)
    ensures mag1 * mag2 != 0.0
    ensures Similarity(ratings, user1, user2, sqrt) == dot / (mag1 * mag2)
  {
    assert Square(sum2) == sum2 * sum2;
  }

  /**
   * cosineSimilarity: 0 when the users share no movie, otherwise Σ r1·r2 over
   * the shared movies divided by sqrt(Σ r1²) · sqrt((Σ r2)²).
   */
  method CosineSimilarity(ratings: Ratings, user1: int, user2: int, sqrt: real -> real) returns (r: real)
    requires SimilarityDefined(ratings, user1, user2, sqrt)
    ensures r == Similarity(ratings, user1, user2, sqrt)
    ensures Shared(ratings, user1, user2) == {} ==> r == 0.0
  {
    var first, second := RatingsOf(ratings, user1), RatingsOf(ratings, user2);
    var sharedMovies := SharedList(first, second);
    assert Elems(sharedMovies) == Shared(ratings, user1, user2);
    if |sharedMovies| == 0 {
      assert Elems(sharedMovies) == {};
      return 0.0;
    }
    var sum2, sumSquares := SumsOver(first, second, sharedMovies);
    var mag1 := sqrt(sumSquares);
    var mag2 := sqrt(sum2 * sum2);
    var dotProduct := DotOver(first, second, sharedMovies);
    assert sharedMovies[0] in Elems(sharedMovies);
    SimilarityOfTotals(ratings, user1, user2, sqrt, dotProduct, sumSquares, sum2, mag1, mag2);
    r := dotProduct / (mag1 * mag2);
  }

  /** The loop that lists the first user's movies the second user also rated. */
  method SharedList(first: map<int, real>, second: map<int, real>) returns (sharedMovies: seq<int>)
    ensures Distinct(sharedMovies) && Elems(sharedMovies) == first.Keys * second.Keys
  {
    sharedMovies := [];
    var keys := first.Keys;
    while keys != {}
      invariant keys <= first.Keys
      invariant Distinct(sharedMovies)
      invariant Elems(sharedMovies) == (first.Keys - keys) * second.Keys
      decreases keys
    {
      ghost var some := Member(keys);
      var movie :| movie in keys;
      assert first.Keys - (keys - {movie}) == (first.Keys - keys) + {movie};
      if movie in second {
        assert movie !in Elems(sharedMovies);
        assert Elems(sharedMovies + [movie]) == Elems(sharedMovies) + {movie};
        sharedMovies := sharedMovies + [movie];
      }
      keys := keys - {movie};
    }
    assert first.Keys - keys == first.Keys;
  }

  /** The first loop over the shared movies: Σ r2 and Σ r1². */
  method SumsOver(first: map<int, real>, second: map<int, real>, movies: seq<int>) returns (sum2: real, sumSquares: real)
    requires Distinct(movies) && Elems(movies) <= first.Keys * second.Keys
    ensures sum2 == SetSum(Elems(movies), ScoreIn(second))
    ensures sumSquares == SetSum(Elems(movies), SquareTerm(first))
  {
    var sum1 := 0.0;
    sum2, sumSquares := 0.0, 0.0;
    var i := 0;
    while i < |movies|
      invariant 0 <= i <= |movies|
      invariant sum2 == SetSum(Elems(movies[..i]), ScoreIn(second))
      invariant sumSquares == SetSum(Elems(movies[..i]), SquareTerm(first))
    {
      var movie := movies[i];
      assert movie in Elems(movies);
      var rating1, rating2 := first[movie], second[movie];
      ScoreStep(movies, i, second, rating2);
      SquareStep(movies, i, first, rating1);
      sum1 := sum1 + rating1;
      sum2 := sum2 + rating2;
      sumSquares := sumSquares + rating1 * rating1;
      i := i + 1;
    }
    assert movies[..i] == movies;
  }

  /** One more movie adds its rating to Σ r2. */
  lemma ScoreStep(movies: seq<int>, i: int, second: map<int, real>, rating2: real)
    requires Distinct(movies) && 0 <= i < |movies| && movies[i] in second && rating2 == second[movies[i]]
    ensures SetSum(Elems(movies[..i + 1]), ScoreIn(second)) == SetSum(Elems(movies[..i]), ScoreIn(second)) + rating2
  {
    SumOverPrefix(movies, i, ScoreIn(second));
  }

  /** One more movie adds its squared rating to Σ r1². */
  lemma SquareStep(movies: seq<int>, i: int, first: map<int, real>, rating1: real)
    requires Distinct(movies) && 0 <= i < |movies| && movies[i] in first && rating1 == first[movies[i]]
    ensures SetSum(Elems(movies[..i + 1]), SquareTerm(first)) == SetSum(Elems(movies[..i]), SquareTerm(first)) + rating1 * rating1
  {
    SumOverPrefix(movies, i, SquareTerm(first));
    SquareTermAt(first, movies[i], rating1);
  }

  lemma SquareTermAt(first: map<int, real>, m: int, rating1: real)
    requires m in first && rating1 == first[m]
    ensures SquareTerm(first)(m) == rating1 * rating1
  {
  }

  /** One more movie adds the product of its ratings to Σ r1·r2. */
  lemma DotStep(movies: seq<int>, i: int, first: map<int, real>, second: map<int, real>, rating1: real, rating2: real)
    requires Distinct(movies) && 0 <= i < |movies|
    requires movies[i] in first && rating1 == first[movies[i]] && movies[i] in second && rating2 == second[movies[i]]
    ensures SetSum(Elems(movies[..i + 1]), DotTerm(first, second)) == SetSum(Elems(movies[..i]), DotTerm(first, second)) + rating1 * rating2
  {
    SumOverPrefix(movies, i, DotTerm(first, second));
    DotTermAt(first, second, movies[i], rating1, rating2);
  }

  lemma DotTermAt(first: map<int, real>, second: map<int, real>, m: int, rating1: real, rating2: real)
    requires m in first && rating1 == first[m] && m in second && rating2 == second[m]
    ensures DotTerm(first, second)(m) == rating1 * rating2
  {
  }

  /** The second loop over the shared movies: Σ r1·r2. */
  method DotOver(first: map<int, real>, second: map<int, real>, movies: seq<int>) returns (dotProduct: real)
    requires Distinct(movies) && Elems(movies) <= first.Keys * second.Keys
    ensures dotProduct == SetSum(Elems(movies), DotTerm(first, second))
  {
    dotProduct := 0.0;
    var i := 0;
    while i < |movies|
      invariant 0 <= i <= |movies|
      invariant dotProduct == SetSum(Elems(movies[..i]), DotTerm(first, second))
    {
      var movie := movies[i];
      assert movie in Elems(movies);
      var rating1, rating2 := first[movie], second[movie];
      DotStep(movies, i, first, second, rating1, rating2);
      dotProduct := dotProduct + rating1 * rating2;
      i := i + 1;
    }
    assert movies[..i] == movies;
  }

  // ---------------------------------------------------------------------
  // Recommendation
  // ---------------------------------------------------------------------

  /** Every similarity the recommender computes has a defined division. */
  ghost predicate SimilaritiesDefined(ratings: Ratings, userID: int, sqrt: real -> real) {
    forall other :: other in ratings && other != userID ==> SimilarityDefined(ratings, userID, other, sqrt)
  }

  /** The similarities of the target to the users in `ids`, itself excluded. */
  ghost function SimilaritiesOver(ratings: Ratings, userID: int, ids: set<int>, sqrt: real -> real): map<int, real>
    requires ids <= ratings.Keys && SimilaritiesDefined(ratings, userID, sqrt)
  {
    map other | other in ids && other != userID :: Similarity(ratings, userID, other, sqrt)
  }

  /** The `similarities` map of getRecommendations: one entry per other user, whatever its sign. */
  ghost function SimilarityMap(ratings: Ratings, userID: int, sqrt: real -> real): (r: map<int, real>)
    requires SimilaritiesDefined(ratings, userID, sqrt)
    ensures r.Keys == ratings.Keys - {userID}
    ensures forall other :: other in r ==> r[other] == Similarity(ratings, userID, other, sqrt)
  {
    SimilaritiesOver(ratings, userID, ratings.Keys, sqrt)
  }

  /** The users among `ids` who rated `movie`. */
  function RatersAmong(ratings: Ratings, ids: set<int>, movie: int): set<int> {
    set other | other in ids && movie in RatingsOf(ratings, other)
  }

  /** A rater's similarity times that rater's score for `movie`. */
  function WeightedScore(ratings: Ratings, sims: map<int, real>, movie: int): int -> real {
    other => Lookup(sims, other) * Lookup(RatingsOf(ratings, other), movie)
  }

  /** `simSum` for `movie`: the similarities of the users in `sims` who rated it. */
  ghost function SimSum(ratings: Ratings, sims: map<int, real>, movie: int): real {
    SetSum(RatersAmong(ratings, sims.Keys, movie), ScoreIn(sims))
  }

  /** `ratingSum` for `movie`: their ratings, each weighted by its rater's similarity. */
  ghost function RatingSum(ratings: Ratings, sims: map<int, real>, movie: int): real {
    SetSum(RatersAmong(ratings, sims.Keys, movie), WeightedScore(ratings, sims, movie))
  }

  /** The predictions for the movies in `movies`: those whose weights sum to a positive value. */
  ghost function PredictionsOver(ratings: Ratings, sims: map<int, real>, movies: set<int>): map<int, real> {
    map movie | movie in movies && SimSum(ratings, sims, movie) > 0.0
      :: RatingSum(ratings, sims, movie) / SimSum(ratings, sims, movie)
  }

  /** The `recommendations` map of getRecommendations: candidates are user 1's movies, whoever the target is. */
  ghost function Predictions(ratings: Ratings, sims: map<int, real>): (r: map<int, real>)
    ensures forall movie :: movie in r <==> movie in RatingsOf(ratings, 1) && SimSum(ratings, sims, movie) > 0.0
  {
    PredictionsOver(ratings, sims, RatingsOf(ratings, 1).Keys)
  }

  /** What getRecommendations ranks for `userID`. */
  ghost function PredictionsFor(ratings: Ratings, userID: int, sqrt: real -> real): map<int, real>
    requires SimilaritiesDefined(ratings, userID, sqrt)
  {
    Predictions(ratings, SimilarityMap(ratings, userID, sqrt))
  }

  /**
   * getRecommendations: distinct movies with a prediction, as many as
   * `numRecs` allows, highest prediction first, and none left out that
   * outranks one kept.
   */
  method GetRecommendations(ratings: Ratings, userID: int, numRecs: int, sqrt: real -> real) returns (recs: seq<int>)
    requires 0 <= numRecs && SimilaritiesDefined(ratings, userID, sqrt)
    ensures Distinct(recs)
    ensures Elems(recs) <= PredictionsFor(ratings, userID, sqrt).Keys
    ensures Elems(recs) <= RatingsOf(ratings, 1).Keys
    ensures |recs| == if numRecs < |PredictionsFor(ratings, userID, sqrt)| then numRecs else |PredictionsFor(ratings, userID, sqrt)|
    ensures NonIncreasing(recs, ScoreIn(PredictionsFor(ratings, userID, sqrt)))
    ensures forall kept, dropped :: kept in recs && dropped in PredictionsFor(ratings, userID, sqrt) && dropped !in recs ==>
      PredictionsFor(ratings, userID, sqrt)[kept] >= PredictionsFor(ratings, userID, sqrt)[dropped]
  {
    ghost var predictions := PredictionsFor(ratings, userID, sqrt);
    var similarities := Similarities(ratings, userID, sqrt);
    var recommendations := Predict(ratings, similarities);
    assert recommendations == predictions;
    var sortedRecs := SortedIds(recommendations);
    recs := Truncate(sortedRecs, numRecs, recommendations);
  }

  /** The final slice to the first `numRecs` movies, when there are more. */
  method Truncate(sortedRecs: seq<int>, numRecs: int, scores: map<int, real>) returns (recs: seq<int>)
    requires 0 <= numRecs
    requires Distinct(sortedRecs) && Elems(sortedRecs) == scores.Keys && NonIncreasing(sortedRecs, ScoreIn(scores))
    ensures Distinct(recs) && Elems(recs) <= scores.Keys
    ensures |recs| == if numRecs < |scores| then numRecs else |scores|
    ensures NonIncreasing(recs, ScoreIn(scores))
    ensures forall kept, dropped :: kept in recs && dropped in scores && dropped !in recs ==> scores[kept] >= scores[dropped]
  {
    ghost var n := if numRecs < |sortedRecs| then numRecs else |sortedRecs|;
    if numRecs < |sortedRecs| {
      recs := sortedRecs[..numRecs];
    } else {
      recs := sortedRecs;
      assert recs == sortedRecs[..n];
    }
    TopPrefix(sortedRecs, n, scores);
  }

  /** A prefix of the ranked movies: distinct, ranked, and outranking every movie it leaves out. */
  lemma TopPrefix(sortedRecs: seq<int>, n: int, scores: map<int, real>)
    requires 0 <= n <= |sortedRecs|
    requires Distinct(sortedRecs) && Elems(sortedRecs) == scores.Keys && NonIncreasing(sortedRecs, ScoreIn(scores))
    ensures |scores| == |sortedRecs|
    ensures Distinct(sortedRecs[..n]) && Elems(sortedRecs[..n]) <= scores.Keys
    ensures NonIncreasing(sortedRecs[..n], ScoreIn(scores))
    ensures forall kept, dropped :: kept in sortedRecs[..n] && dropped in scores && dropped !in sortedRecs[..n] ==>
      scores[kept] >= scores[dropped]
  {
    DistinctSize(sortedRecs);
    PrefixHoldsLargest(sortedRecs, n, ScoreIn(scores));
    var recs := sortedRecs[..n];
    assert Elems(recs) <= Elems(sortedRecs);
    forall kept, dropped | kept in recs && dropped in scores && dropped !in recs
      ensures scores[kept] >= scores[dropped]
    {
      assert dropped in Elems(sortedRecs);
      assert ScoreIn(scores)(kept) >= ScoreIn(scores)(dropped);
    }
  }

  /** The first loop of getRecommendations. */
  method Similarities(ratings: Ratings, userID: int, sqrt: real -> real) returns (similarities: map<int, real>)
    requires SimilaritiesDefined(ratings, userID, sqrt)
    ensures similarities == SimilarityMap(ratings, userID, sqrt)
  {
    similarities := map[];
    var keys := ratings.Keys;
    while keys != {}
      invariant keys <= ratings.Keys
      invariant similarities == SimilaritiesOver(ratings, userID, ratings.Keys - keys, sqrt)
      decreases keys
    {
      ghost var some := Member(keys);
      var otherID :| otherID in keys;
      if otherID != userID {
        var similarity := CosineSimilarity(ratings, userID, otherID, sqrt);
        similarities := similarities[otherID := similarity];
      }
      keys := keys - {otherID};
    }
  }

  lemma PredictionsOverAdd(ratings: Ratings, sims: map<int, real>, movies: set<int>, movie: int)
    ensures PredictionsOver(ratings, sims, movies + {movie}) ==
      if SimSum(ratings, sims, movie) > 0.0
      then PredictionsOver(ratings, sims, movies)[movie := RatingSum(ratings, sims, movie) / SimSum(ratings, sims, movie)]
      else PredictionsOver(ratings, sims, movies)
  {
  }

  /** The second loop of getRecommendations. */
  method Predict(ratings: Ratings, similarities: map<int, real>) returns (recommendations: map<int, real>)
    ensures recommendations == Predictions(ratings, similarities)
  {
    recommendations := map[];
    var candidates := RatingsOf(ratings, 1);
    var keys := candidates.Keys;
    while keys != {}
      invariant keys <= candidates.Keys
      invariant recommendations == PredictionsOver(ratings, similarities, candidates.Keys - keys)
      decreases keys
    {
      ghost var some := Member(keys);
      var movieID :| movieID in keys;
      var ratingSum, simSum := WeightedSums(ratings, similarities, movieID);
      PredictionsOverAdd(ratings, similarities, candidates.Keys - keys, movieID);
      assert candidates.Keys - (keys - {movieID}) == (candidates.Keys - keys) + {movieID};
      if simSum > 0.0 {
        recommendations := recommendations[movieID := ratingSum / simSum];
      }
      keys := keys - {movieID};
    }
  }

  /** The inner loop of the second loop: `ratingSum` and `simSum` for one movie. */
  method WeightedSums(ratings: Ratings, similarities: map<int, real>, movieID: int) returns (ratingSum: real, simSum: real)
    ensures ratingSum == RatingSum(ratings, similarities, movieID)
    ensures simSum == SimSum(ratings, similarities, movieID)
  {
    ghost var weight, weighted := ScoreIn(similarities), WeightedScore(ratings, similarities, movieID);
    ratingSum, simSum := 0.0, 0.0;
    var others := similarities.Keys;
    while others != {}
      invariant others <= similarities.Keys
      invariant ratingSum == SetSum(RatersAmong(ratings, similarities.Keys - others, movieID), weighted)
      invariant simSum == SetSum(RatersAmong(ratings, similarities.Keys - others, movieID), weight)
      decreases others
    {
      ghost var some := Member(others);
      var otherID :| otherID in others;
      var similarity := similarities[otherID];
      ghost var done := RatersAmong(ratings, similarities.Keys - others, movieID);
      if movieID in RatingsOf(ratings, otherID) {
        var rating := RatingsOf(ratings, otherID)[movieID];
        assert RatersAmong(ratings, similarities.Keys - (others - {otherID}), movieID) == done + {otherID};
        assert weight(otherID) == similarity && weighted(otherID) == similarity * rating;
        SetSumAdd(done, otherID, weight);
        SetSumAdd(done, otherID, weighted);
        ratingSum := ratingSum + similarity * rating;
        simSum := simSum + similarity;
      } else {
        assert RatersAmong(ratings, similarities.Keys - (others - {otherID}), movieID) == done;
      }
      others := others - {otherID};
    }
    assert similarities.Keys - others == similarities.Keys;
  }

  /** The third loop: each movie is appended and the slice re-sorted by descending prediction. */
  method SortedIds(recommendations: map<int, real>) returns (sortedRecs: seq<int>)
    ensures Distinct(sortedRecs) && Elems(sortedRecs) == recommendations.Keys
    ensures NonIncreasing(sortedRecs, ScoreIn(recommendations))
  {
    sortedRecs := [];
    var keys := recommendations.Keys;
    while keys != {}
      invariant keys <= recommendations.Keys
      invariant Distinct(sortedRecs) && Elems(sortedRecs) == recommendations.Keys - keys
      invariant NonIncreasing(sortedRecs, ScoreIn(recommendations))
      decreases keys
    {
      ghost var some := Member(keys);
      var movieID :| movieID in keys;
      var appended := sortedRecs + [movieID];
      assert Distinct(appended);
      assert Elems(appended) == Elems(sortedRecs) + {movieID};
      var a := new int[|appended|](i requires 0 <= i < |appended| => appended[i]);
      assert a[..] == appended;
      SortByKey(a, ScoreIn(recommendations));
      PermutationKeepsDistinct(appended, a[..]);
      sortedRecs := a[..];
      keys := keys - {movieID};
    }
  }

  // ---------------------------------------------------------------------
  // Properties
  // ---------------------------------------------------------------------

  /** Every score in `ratings` lies in [lo, hi]. */
  ghost predicate ScoresWithin(ratings: Ratings, lo: real, hi: real) {
    forall user, movie :: user in ratings && movie in ratings[user] ==> lo <= ratings[user][movie] <= hi
  }

  ghost predicate NonNegativeScores(ratings: Ratings) {
    forall user, movie :: user in ratings && movie in ratings[user] ==> 0.0 <= ratings[user][movie]
  }

  /** With non-negative scores every similarity is non-negative. */
  lemma SimilarityNonNegative(ratings: Ratings, user1: int, user2: int, sqrt: real -> real)
    requires IsSqrt(sqrt) && NonNegativeScores(ratings)
    requires SimilarityDefined(ratings, user1, user2, sqrt)
    ensures 0.0 <= Similarity(ratings, user1, user2, sqrt)
  {
    var shared := Shared(ratings, user1, user2);
    if shared != {} {
      var first, second := RatingsOf(ratings, user1), RatingsOf(ratings, user2);
      forall m | m in shared
        ensures 0.0 <= DotTerm(first, second)(m) && 0.0 <= SquareTerm(first)(m)
      {
        var x, y := Lookup(first, m), Lookup(second, m);
        assert 0.0 <= x && 0.0 <= y;
        assert DotTerm(first, second)(m) == x * y && SquareTerm(first)(m) == x * x;
      }
      SetSumNonNegative(shared, DotTerm(first, second));
      SetSumNonNegative(shared, SquareTerm(first));
      var a, b := sqrt(SumOfSquares(ratings, user1, user2)), sqrt(Square(SumOfSecond(ratings, user1, user2)));
      assert 0.0 <= a && 0.0 <= b;
      assert 0.0 < a * b;
    }
  }

  /** Each rater's weighted score lies between lo and hi times the rater's weight. */
  ghost predicate TermsBetween(ratings: Ratings, sims: map<int, real>, movie: int, lo: real, hi: real) {
    forall other :: other in RatersAmong(ratings, sims.Keys, movie) ==>
      Scaled(lo, ScoreIn(sims))(other) <= WeightedScore(ratings, sims, movie)(other) <= Scaled(hi, ScoreIn(sims))(other)
  }

  lemma TermBounds(ratings: Ratings, sims: map<int, real>, movie: int, lo: real, hi: real)
    requires ScoresWithin(ratings, lo, hi)
    requires forall other :: other in sims ==> 0.0 <= sims[other]
    ensures TermsBetween(ratings, sims, movie, lo, hi)
  {
    forall other | other in RatersAmong(ratings, sims.Keys, movie)
      ensures Scaled(lo, ScoreIn(sims))(other) <= WeightedScore(ratings, sims, movie)(other) <= Scaled(hi, ScoreIn(sims))(other)
    {
      var w, r := sims[other], ratings[other][movie];
      ScaleBetween(w, r, lo, hi);
    }
  }

  /** With non-negative scores the similarity map has non-negative values. */
  lemma SimilarityMapNonNegative(ratings: Ratings, userID: int, sqrt: real -> real)
    requires IsSqrt(sqrt) && NonNegativeScores(ratings) && SimilaritiesDefined(ratings, userID, sqrt)
    ensures forall other :: other in SimilarityMap(ratings, userID, sqrt) ==> 0.0 <= SimilarityMap(ratings, userID, sqrt)[other]
  {
    forall other | other in SimilarityMap(ratings, userID, sqrt)
      ensures 0.0 <= SimilarityMap(ratings, userID, sqrt)[other]
    {
      SimilarityNonNegative(ratings, userID, other, sqrt);
    }
  }

  /** With non-negative weights and scores in [lo, hi], every prediction lies in [lo, hi]. */
  lemma PredictionBetween(ratings: Ratings, sims: map<int, real>, movie: int, lo: real, hi: real)
    requires TermsBetween(ratings, sims, movie, lo, hi)
    requires movie in Predictions(ratings, sims)
    ensures lo <= Predictions(ratings, sims)[movie] <= hi
  {
    AverageBetween(RatersAmong(ratings, sims.Keys, movie), ScoreIn(sims), WeightedScore(ratings, sims, movie), lo, hi);
  }

  /**
   * When every score lies in [lo, hi] with lo non-negative, every prediction
   * of getRecommendations lies in [lo, hi] too: the similarities are then
   * non-negative, so each prediction is a weighted average.
   */
  lemma PredictionWithinRange(ratings: Ratings, userID: int, sqrt: real -> real, lo: real, hi: real, movie: int)
    requires IsSqrt(sqrt) && SimilaritiesDefined(ratings, userID, sqrt)
    requires 0.0 <= lo && ScoresWithin(ratings, lo, hi)
    requires movie in PredictionsFor(ratings, userID, sqrt)
    ensures lo <= PredictionsFor(ratings, userID, sqrt)[movie] <= hi
  {
    SimilarityMapNonNegative(ratings, userID, sqrt);
    TermBounds(ratings, SimilarityMap(ratings, userID, sqrt), movie, lo, hi);
    PredictionBetween(ratings, SimilarityMap(ratings, userID, sqrt), movie, lo, hi);
  }

  /**
   * A target with no entry shares no movie with anyone, so every similarity
   * is 0, no weight sum is positive and nothing is recommended.
   */
  lemma AbsentUserGetsNothing(ratings: Ratings, userID: int, sqrt: real -> real)
    requires userID !in ratings && SimilaritiesDefined(ratings, userID, sqrt)
    ensures SimilarityMap(ratings, userID, sqrt).Keys == ratings.Keys
    ensures PredictionsFor(ratings, userID, sqrt) == map[]
  {
    var sims := SimilarityMap(ratings, userID, sqrt);
    forall other | other in sims
      ensures sims[other] == 0.0
    {
      assert Shared(ratings, userID, other) == {};
    }
    forall movie
      ensures SimSum(ratings, sims, movie) == 0.0
    {
      SetSumZero(RatersAmong(ratings, sims.Keys, movie), ScoreIn(sims));
    }
  }
}
