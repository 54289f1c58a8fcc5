/**
 * User-based collaborative filtering over a slice of users, each holding a
 * slice of (movie, score) ratings (ai/learn.go).
 *
 * `findUserByID` and `findRatingByMovieID` return the first match;
 * `sharedMovies` lists the movies both users rated; `cosineSimilarity`
 * compares two users over those movies; `getRecommendation` weights every
 * other user's ratings by that user's (positive) similarity to the target and
 * sorts the per-movie sums, largest first.
 *
 * Scores are `real`. `math.Sqrt` is the parameter `sqrt`; results that depend
 * on it being a square root require `IsSqrt(sqrt)`.
 */
module Learn {
  import opened Wrappers
  import opened Reals
  import opened Sequences

  datatype Rating = Rating(movieId: int, score: real)

  datatype User = User(id: int, ratings: seq<Rating>, name: string)

  function RatingScore(r: Rating): real {
    r.score
  }

  // ---------------------------------------------------------------------
  // Lookups
  // ---------------------------------------------------------------------

  /** The position of the first user whose ID is `id`, if any. */
  function FirstUserIndex(users: seq<User>, id: int): (r: Option<nat>)
    ensures r.Some? ==> r.value < |users| && users[r.value].id == id
    ensures r.Some? ==> forall j :: 0 <= j < r.value ==> users[j].id != id
    ensures r.None? ==> forall j :: 0 <= j < |users| ==> users[j].id != id
  {
    if users == [] then None
    else if users[0].id == id then Some(0)
    else match FirstUserIndex(users[1..], id)
      case None => None
      case Some(j) => Some(j + 1)
  }

  predicate HasUser(users: seq<User>, id: int) {
    FirstUserIndex(users, id).Some?
  }

  /** The user that `findUserByID` points to. */
  function UserById(users: seq<User>, id: int): User
    requires HasUser(users, id)
  {
    users[FirstUserIndex(users, id).value]
  }

  /** findUserByID: scans the users and stops at the first one with the ID. */
  method FindUserById(users: seq<User>, id: int) returns (r: Option<nat>)
    ensures r == FirstUserIndex(users, id)
  {
    var i := 0;
    while i < |users|
      invariant 0 <= i <= |users|
      invariant forall j :: 0 <= j < i ==> users[j].id != id
    {
      if users[i].id == id {
        return Some(i);
      }
      i := i + 1;
    }
    return None;
  }

  /** The position of the first rating of `movieId`, if any. */
  function FirstRatingIndex(ratings: seq<Rating>, movieId: int): (r: Option<nat>)
    ensures r.Some? ==> r.value < |ratings| && ratings[r.value].movieId == movieId
    ensures r.Some? ==> forall j :: 0 <= j < r.value ==> ratings[j].movieId != movieId
    ensures r.None? ==> forall j :: 0 <= j < |ratings| ==> ratings[j].movieId != movieId
  {
    if ratings == [] then None
    else if ratings[0].movieId == movieId then Some(0)
    else match FirstRatingIndex(ratings[1..], movieId)
      case None => None
      case Some(j) => Some(j + 1)
  }

  /** findRatingByMovieID: scans the ratings and stops at the first one of the movie. */
  method FindRatingByMovieId(ratings: seq<Rating>, movieId: int) returns (r: Option<nat>)
    ensures r == FirstRatingIndex(ratings, movieId)
  {
    var i := 0;
    while i < |ratings|
      invariant 0 <= i <= |ratings|
      invariant forall j :: 0 <= j < i ==> ratings[j].movieId != movieId
    {
      if ratings[i].movieId == movieId {
        return Some(i);
      }
      i := i + 1;
    }
    return None;
  }

  /** The movies a rating list mentions. */
  function MovieIds(ratings: seq<Rating>): set<int>
    decreases |ratings|
  {
    if ratings == [] then {}
    else MovieIds(ratings[..|ratings| - 1]) + {ratings[|ratings| - 1].movieId}
  }

  lemma {:induction false} MovieIdsHasFirst(ratings: seq<Rating>, movieId: int)
    ensures movieId in MovieIds(ratings) <==> FirstRatingIndex(ratings, movieId).Some?
    decreases |ratings|
  {
    if ratings != [] {
      var init := ratings[..|ratings| - 1];
      MovieIdsHasFirst(init, movieId);
      if FirstRatingIndex(init, movieId).Some? {
        var k := FirstRatingIndex(init, movieId).value;
        assert ratings[k] == init[k];
      }
      if FirstRatingIndex(ratings, movieId).Some? {
        var k := FirstRatingIndex(ratings, movieId).value;
        if k < |init| {
          assert init[k] == ratings[k];
        }
      }
    }
  }

  /** The score of the first rating of `movieId` (only asked for movies that are rated). */
  function ScoreOf(ratings: seq<Rating>, movieId: int): real {
    match FirstRatingIndex(ratings, movieId)
    case Some(i) => ratings[i].score
    case None => 0.0
  }

  // ---------------------------------------------------------------------
  // Similarity
  // ---------------------------------------------------------------------

  /** The movies rated by both users. */
  function SharedMovieIds(u1: User, u2: User): set<int> {
    MovieIds(u1.ratings) * MovieIds(u2.ratings)
  }

  function DotTerm(r1: seq<Rating>, r2: seq<Rating>): int -> real {
    m => ScoreOf(r1, m) * ScoreOf(r2, m)
  }

  function SquareTerm(r1: seq<Rating>): int -> real {
    m => ScoreOf(r1, m) * ScoreOf(r1, m)
  }

  function ScoreTerm(r2: seq<Rating>): int -> real {
    m => ScoreOf(r2, m)
  }

  /** Σ r1·r2 over the shared movies. */
  ghost function DotProduct(u1: User, u2: User): real {
    SetSum(SharedMovieIds(u1, u2), DotTerm(u1.ratings, u2.ratings))
  }

  /** Σ r1² over the shared movies. */
  ghost function SumOfSquares(u1: User, u2: User): real {
    SetSum(SharedMovieIds(u1, u2), SquareTerm(u1.ratings))
  }

  /** Σ r2 over the shared movies. */
  ghost function SumOfSecond(u1: User, u2: User): real {
    SetSum(SharedMovieIds(u1, u2), ScoreTerm(u2.ratings))
  }

  /**
   * The magnitudes as the code computes them: the first user's is the root of
   * its sum of squares, the second user's is the root of the square of its
   * plain sum.
   */
  ghost function Denominator(u1: User, u2: User, sqrt: real -> real): real {
    sqrt(SumOfSquares(u1, u2)) * sqrt(Square(SumOfSecond(u1, u2)))
  }

  /** The division is defined: no shared movie, or a non-zero denominator. */
  ghost predicate SimilarityDefined(u1: User, u2: User, sqrt: real -> real) {
    SharedMovieIds(u1, u2) == {} || Denominator(u1, u2, sqrt) != 0.0
  }

  /** The value of `cosineSimilarity` for two users. */
  ghost function Similarity(u1: User, u2: User, sqrt: real -> real): real
    requires SimilarityDefined(u1, u2, sqrt)
  {
    if SharedMovieIds(u1, u2) == {} then 0.0
    else DotProduct(u1, u2) / Denominator(u1, u2, sqrt)
  }

  /**
   * sharedMovies: marks every movie of the first user, flips the mark of those
   * the second user also rated, and collects the flipped ones in map order.
   */
  method SharedMovies(users: seq<User>, user1Id: int, user2Id: int) returns (shared: seq<int>)
    requires HasUser(users, user1Id) && HasUser(users, user2Id)
    ensures Distinct(shared)
    ensures Elems(shared) == SharedMovieIds(UserById(users, user1Id), UserById(users, user2Id))
  {
    var i1 := FindUserById(users, user1Id);
    var i2 := FindUserById(users, user2Id);
    var user1, user2 := users[i1.value], users[i2.value];

    var movies := MarkMovies(user1.ratings);
    movies := UnmarkRated(movies, user2.ratings);
    shared := CollectUnmarked(movies);
    assert user1 == UserById(users, user1Id) && user2 == UserById(users, user2Id);
    forall m
      ensures m in Elems(shared) <==> m in MovieIds(user1.ratings) * MovieIds(user2.ratings)
    {
    }
  }

  /** The first loop of sharedMovies: every movie of the first user, marked `true`. */
  method MarkMovies(ratings: seq<Rating>) returns (movies: map<int, bool>)
    ensures movies.Keys == MovieIds(ratings)
    ensures forall m :: m in movies ==> movies[m]
  {
    movies := map[];
    var i := 0;
    while i < |ratings|
      invariant 0 <= i <= |ratings|
      invariant movies.Keys == MovieIds(ratings[..i])
      invariant forall m :: m in movies ==> movies[m]
    {
      assert ratings[..i + 1][..i] == ratings[..i];
      movies := movies[ratings[i].movieId := true];
      i := i + 1;
    }
    assert ratings[..i] == ratings;
  }

  /** The second loop of sharedMovies: the marked movies the second user rated become `false`. */
  method UnmarkRated(marked: map<int, bool>, ratings: seq<Rating>) returns (movies: map<int, bool>)
    requires forall m :: m in marked ==> marked[m]
    ensures movies.Keys == marked.Keys
    ensures forall m :: m in movies ==> (!movies[m] <==> m in MovieIds(ratings))
  {
    movies := marked;
    var j := 0;
    while j < |ratings|
      invariant 0 <= j <= |ratings|
      invariant movies.Keys == marked.Keys
      invariant forall m :: m in movies ==> (!movies[m] <==> m in MovieIds(ratings[..j]))
    {
      assert ratings[..j + 1][..j] == ratings[..j];
      var r := ratings[j];
      if r.movieId in movies {
        movies := movies[r.movieId := false];
      }
      j := j + 1;
    }
    assert ratings[..j] == ratings;
  }

  /** The last loop of sharedMovies: the movies marked `false`, in map order. */
  method CollectUnmarked(movies: map<int, bool>) returns (shared: seq<int>)
    ensures Distinct(shared)
    ensures forall m :: m in Elems(shared) <==> m in movies && !movies[m]
  {
    var keys := movies.Keys;
    shared := [];
    while keys != {}
      invariant keys <= movies.Keys
      invariant Distinct(shared)
      invariant Elems(shared) == set m | m in movies.Keys - keys && !movies[m]
      decreases keys
    {
      ghost var some := Member(keys);
      var m :| m in keys;
      if !movies[m] {
        assert m !in Elems(shared);
        assert Elems(shared + [m]) == Elems(shared) + {m};
        shared := shared + [m];
      }
      keys := keys - {m};
    }
    assert movies.Keys - keys == movies.Keys;
  }

  /**
   * cosineSimilarity: 0 when the users share no movie, otherwise Σ r1·r2 over
   * the shared movies divided by sqrt(Σ r1²) · sqrt((Σ r2)²).
   */
  method CosineSimilarity(users: seq<User>, user1Id: int, user2Id: int, sqrt: real -> real)
    returns (r: real)
    requires HasUser(users, user1Id) && HasUser(users, user2Id)
    requires SimilarityDefined(UserById(users, user1Id), UserById(users, user2Id), sqrt)
    ensures r == Similarity(UserById(users, user1Id), UserById(users, user2Id), sqrt)
    ensures SharedMovieIds(UserById(users, user1Id), UserById(users, user2Id)) == {} ==> r == 0.0
  {
    var sharedMovies := SharedMovies(users, user1Id, user2Id);
    if |sharedMovies| == 0 {
      assert Elems(sharedMovies) == {};
      return 0.0;
    }

    var i1 := FindUserById(users, user1Id);
    var i2 := FindUserById(users, user2Id);
    var user1, user2 := users[i1.value], users[i2.value];
    assert user1 == UserById(users, user1Id) && user2 == UserById(users, user2Id);
    assert sharedMovies[0] in Elems(sharedMovies);

    var sum2, sumSquares := SumsOver(user1, user2, sharedMovies);
    var mag1 := sqrt(sumSquares);
    var mag2 := sqrt(sum2 * sum2);
    var dotProduct := DotOver(user1, user2, sharedMovies);
    assert Elems(sharedMovies) == SharedMovieIds(user1, user2);
    assert sumSquares == SumOfSquares(user1, user2) && sum2 == SumOfSecond(user1, user2);
    assert dotProduct == DotProduct(user1, user2);
    SimilarityOfTotals(user1, user2, sqrt, dotProduct, sumSquares, sum2, mag1, mag2);
    r := dotProduct / (mag1 * mag2);
  }

  /** With at least one shared movie, the similarity is the dot product over the product of the two roots. */
  lemma SimilarityOfTotals(u1: User, u2: User, sqrt: real -> real, dot: real, squares: real, sum2: real,
                           mag1: real, mag2: real)
    requires SharedMovieIds(u1, u2) != {} && SimilarityDefined(u1, u2, sqrt)
    requires dot == DotProduct(u1, u2) && squares == SumOfSquares(u1, u2) && sum2 == SumOfSecond(u1, u2)
    requires mag1 == sqrt(squares) && mag2 == sqrt(sum2 * sum2)
    ensures mag1 * mag2 != 0.0
    ensures Similarity(u1, u2, sqrt) == dot / (mag1 * mag2)
  {
    assert Square(sum2) == sum2 * sum2;
  }

  /**
   * The first loop of cosineSimilarity: Σ r2 and Σ r1² over the listed movies,
   * each score taken from the user's first rating of the movie. (The loop also
   * accumulates Σ r1, which nothing reads.)
   */
  method SumsOver(user1: User, user2: User, movies: seq<int>) returns (sum2: real, sumSquares: real)
    requires Distinct(movies) && Elems(movies) <= SharedMovieIds(user1, user2)
    ensures sum2 == SetSum(Elems(movies), ScoreTerm(user2.ratings))
    ensures sumSquares == SetSum(Elems(movies), SquareTerm(user1.ratings))
  {
    ghost var f2, f1 := ScoreTerm(user2.ratings), SquareTerm(user1.ratings);
    var sum1 := 0.0;
    sum2, sumSquares := 0.0, 0.0;
    var i := 0;
    while i < |movies|
      invariant 0 <= i <= |movies|
      invariant sum2 == SetSum(Elems(movies[..i]), f2)
      invariant sumSquares == SetSum(Elems(movies[..i]), f1)
    {
      var movie := movies[i];
      assert movie in Elems(movies);
      var score1 := RatedScore(user1.ratings, movie);
      var score2 := RatedScore(user2.ratings, movie);
      ScoreStep(movies, i, user2.ratings, score2);
      SquareStep(movies, i, user1.ratings, score1);
      sum1 := sum1 + score1;
      sum2 := sum2 + score2;
      sumSquares := sumSquares + score1 * score1;
      i := i + 1;
    }
    assert movies[..i] == movies;
  }

  /** The second loop of cosineSimilarity: Σ r1·r2 over the listed movies. */
  method DotOver(user1: User, user2: User, movies: seq<int>) returns (dotProduct: real)
    requires Distinct(movies) && Elems(movies) <= SharedMovieIds(user1, user2)
    ensures dotProduct == SetSum(Elems(movies), DotTerm(user1.ratings, user2.ratings))
  {
    ghost var f := DotTerm(user1.ratings, user2.ratings);
    dotProduct := 0.0;
    var i := 0;
    while i < |movies|
      invariant 0 <= i <= |movies|
      invariant dotProduct == SetSum(Elems(movies[..i]), f)
    {
      var movie := movies[i];
      assert movie in Elems(movies);
      var score1 := RatedScore(user1.ratings, movie);
      var score2 := RatedScore(user2.ratings, movie);
      DotStep(movies, i, user1.ratings, user2.ratings, score1, score2);
      dotProduct := dotProduct + score1 * score2;
      i := i + 1;
    }
    assert movies[..i] == movies;
  }

  /** One more movie adds its score to Σ r2. */
  lemma ScoreStep(movies: seq<int>, i: int, r2: seq<Rating>, score2: real)
    requires Distinct(movies) && 0 <= i < |movies| && score2 == ScoreOf(r2, movies[i])
    ensures SetSum(Elems(movies[..i + 1]), ScoreTerm(r2)) == SetSum(Elems(movies[..i]), ScoreTerm(r2)) + score2
  {
    SumOverPrefix(movies, i, ScoreTerm(r2));
  }

  /** One more movie adds its squared score to Σ r1². */
  lemma SquareStep(movies: seq<int>, i: int, r1: seq<Rating>, score1: real)
    requires Distinct(movies) && 0 <= i < |movies| && score1 == ScoreOf(r1, movies[i])
    ensures SetSum(Elems(movies[..i + 1]), SquareTerm(r1)) == SetSum(Elems(movies[..i]), SquareTerm(r1)) + score1 * score1
  {
    SumOverPrefix(movies, i, SquareTerm(r1));
    SquareTermAt(r1, movies[i], score1);
  }

  lemma SquareTermAt(r1: seq<Rating>, m: int, score1: real)
    requires score1 == ScoreOf(r1, m)
    ensures SquareTerm(r1)(m) == score1 * score1
  {
  }

  /** One more movie adds the product of its scores to Σ r1·r2. */
  lemma DotStep(movies: seq<int>, i: int, r1: seq<Rating>, r2: seq<Rating>, score1: real, score2: real)
    requires Distinct(movies) && 0 <= i < |movies|
    requires score1 == ScoreOf(r1, movies[i]) && score2 == ScoreOf(r2, movies[i])
    ensures SetSum(Elems(movies[..i + 1]), DotTerm(r1, r2)) == SetSum(Elems(movies[..i]), DotTerm(r1, r2)) + score1 * score2
  {
    SumOverPrefix(movies, i, DotTerm(r1, r2));
    DotTermAt(r1, r2, movies[i], score1, score2);
  }

  lemma DotTermAt(r1: seq<Rating>, r2: seq<Rating>, m: int, score1: real, score2: real)
    requires score1 == ScoreOf(r1, m) && score2 == ScoreOf(r2, m)
    ensures DotTerm(r1, r2)(m) == score1 * score2
  {
  }

  /** `findRatingByMovieID(...).Score` for a movie the user rated. */
  method RatedScore(ratings: seq<Rating>, movieId: int) returns (score: real)
    requires movieId in MovieIds(ratings)
    ensures score == ScoreOf(ratings, movieId)
  {
    var rating := FindRatingByMovieId(ratings, movieId);
    RatedHasScore(ratings, movieId);
    score := ratings[rating.value].score;
  }

  lemma RatedHasScore(ratings: seq<Rating>, movieId: int)
    requires movieId in MovieIds(ratings)
    ensures FirstRatingIndex(ratings, movieId).Some?
    ensures ScoreOf(ratings, movieId) == ratings[FirstRatingIndex(ratings, movieId).value].score
  {
    MovieIdsHasFirst(ratings, movieId);
  }

  // ---------------------------------------------------------------------
  // Recommendation
  // ---------------------------------------------------------------------

  /** The IDs the users carry. */
  function UserIds(users: seq<User>): set<int>
    decreases |users|
  {
    if users == [] then {} else UserIds(users[..|users| - 1]) + {users[|users| - 1].id}
  }

  /** Every similarity the recommender computes has a defined division. */
  ghost predicate SimilaritiesDefined(users: seq<User>, userID: int, sqrt: real -> real) {
    HasUser(users, userID) ==>
      forall id :: HasUser(users, id) && id != userID ==>
        SimilarityDefined(UserById(users, userID), UserById(users, id), sqrt)
  }

  /** The similarity of the target user to the user that `id` looks up. */
  ghost function TargetSimilarity(users: seq<User>, userID: int, id: int, sqrt: real -> real): real
    requires HasUser(users, userID) && HasUser(users, id) && id != userID
    requires SimilaritiesDefined(users, userID, sqrt)
  {
    Similarity(UserById(users, userID), UserById(users, id), sqrt)
  }

  /** The target's similarity to each other user, and 0 for an ID no other user has. */
  ghost function TargetSimilarities(users: seq<User>, userID: int, sqrt: real -> real): int -> real
    requires HasUser(users, userID) && SimilaritiesDefined(users, userID, sqrt)
  {
    id => if HasUser(users, id) && id != userID then TargetSimilarity(users, userID, id, sqrt) else 0.0
  }

  /** The similarities kept for the IDs in `ids`: those of other users that are positive. */
  function SimilaritiesOver(ids: set<int>, userID: int, sim: int -> real): map<int, real> {
    map id | id in ids && id != userID && sim(id) > 0.0 :: sim(id)
  }

  /** The `similarities` map of getRecommendation. */
  ghost function SimilarityMap(users: seq<User>, userID: int, sqrt: real -> real): (r: map<int, real>)
    requires HasUser(users, userID) && SimilaritiesDefined(users, userID, sqrt)
    ensures forall id :: id in r ==>
      id != userID && HasUser(users, id) && r[id] == TargetSimilarity(users, userID, id, sqrt) && r[id] > 0.0
    ensures forall id :: HasUser(users, id) && id != userID && TargetSimilarity(users, userID, id, sqrt) > 0.0 ==> id in r
  {
    forall id | HasUser(users, id)
      ensures id in UserIds(users)
    {
      UserIdsHasUser(users, id);
    }
    SimilaritiesOver(UserIds(users), userID, TargetSimilarities(users, userID, sqrt))
  }

  /** What one user's ratings of `movieId` add when weighted by `w`. */
  function Contribution(ratings: seq<Rating>, w: real, movieId: int): real
    decreases |ratings|
  {
    if ratings == [] then 0.0
    else
      var last := ratings[|ratings| - 1];
      Contribution(ratings[..|ratings| - 1], w, movieId) + (if last.movieId == movieId then w * last.score else 0.0)
  }

  /** The score `movieId` accumulates from every user other than the target. */
  function Accumulated(users: seq<User>, userID: int, sims: map<int, real>, movieId: int): real
    decreases |users|
  {
    if users == [] then 0.0
    else
      var last := users[|users| - 1];
      Accumulated(users[..|users| - 1], userID, sims, movieId)
        + (if last.id == userID then 0.0 else Contribution(last.ratings, Lookup(sims, last.id), movieId))
  }

  /** The movies rated by some user other than the target. */
  function RatedByOthers(users: seq<User>, userID: int): set<int>
    decreases |users|
  {
    if users == [] then {}
    else
      var last := users[|users| - 1];
      RatedByOthers(users[..|users| - 1], userID) + (if last.id == userID then {} else MovieIds(last.ratings))
  }

  /** The score getRecommendation reports for `movieId`. */
  ghost function PredictedScore(users: seq<User>, userID: int, movieId: int, sqrt: real -> real): real
    requires HasUser(users, userID) && SimilaritiesDefined(users, userID, sqrt)
  {
    Accumulated(users, userID, SimilarityMap(users, userID, sqrt), movieId)
  }

  /**
   * getRecommendation: nothing for an unknown target; otherwise one entry per
   * movie rated by another user (the target's own movies included), scored by
   * the similarity-weighted sum of those users' ratings, largest first.
   */
  method GetRecommendation(users: seq<User>, userID: int, sqrt: real -> real) returns (recs: Option<seq<Rating>>)
    requires SimilaritiesDefined(users, userID, sqrt)
    ensures recs.None? <==> !HasUser(users, userID)
    ensures recs.Some? ==> NonIncreasing(recs.value, RatingScore)
    ensures recs.Some? ==> forall i, j :: 0 <= i < j < |recs.value| ==> recs.value[i].movieId != recs.value[j].movieId
    ensures recs.Some? ==> MovieIds(recs.value) == RatedByOthers(users, userID)
    ensures recs.Some? ==> forall r :: r in recs.value ==> r.score == PredictedScore(users, userID, r.movieId, sqrt)
  {
    var user := FindUserById(users, userID);
    if user == None {
      return None;
    }
    var similarities := Similarities(users, userID, sqrt);
    var recommendations := Accumulate(users, userID, similarities);
    var sorted := SortedByScore(recommendations);
    return Some(sorted);
  }

  lemma {:induction false} UserIdsHasUser(users: seq<User>, id: int)
    ensures id in UserIds(users) <==> HasUser(users, id)
    decreases |users|
  {
    if users != [] {
      var init := users[..|users| - 1];
      UserIdsHasUser(init, id);
      if FirstUserIndex(init, id).Some? {
        var k := FirstUserIndex(init, id).value;
        assert users[k] == init[k];
      }
      if FirstUserIndex(users, id).Some? {
        var k := FirstUserIndex(users, id).value;
        if k < |init| {
          assert init[k] == users[k];
        }
      }
    }
  }

  /** Visiting one more ID either keeps the map or adds that ID's positive similarity. */
  lemma SimilaritiesOverAdd(ids: set<int>, id: int, userID: int, sim: int -> real)
    ensures SimilaritiesOver(ids + {id}, userID, sim) ==
      if id != userID && sim(id) > 0.0 then SimilaritiesOver(ids, userID, sim)[id := sim(id)]
      else SimilaritiesOver(ids, userID, sim)
  {
  }

  /** The first loop of getRecommendation: the positive similarities of the other users. */
  method Similarities(users: seq<User>, userID: int, sqrt: real -> real) returns (similarities: map<int, real>)
    requires HasUser(users, userID) && SimilaritiesDefined(users, userID, sqrt)
    ensures similarities == SimilarityMap(users, userID, sqrt)
  {
    similarities := map[];
    var i := 0;
    while i < |users|
      invariant 0 <= i <= |users|
      invariant similarities == SimilaritiesOver(UserIds(users[..i]), userID, TargetSimilarities(users, userID, sqrt))
    {
      assert users[..i + 1][..i] == users[..i];
      var other := users[i];
      assert HasUser(users, other.id);
      SimilaritiesOverAdd(UserIds(users[..i]), other.id, userID, TargetSimilarities(users, userID, sqrt));
      if other.id != userID {
        var similarity := CosineSimilarity(users, userID, other.id, sqrt);
        assert similarity == TargetSimilarities(users, userID, sqrt)(other.id);
        if similarity > 0.0 {
          similarities := similarities[other.id := similarity];
        }
      }
      i := i + 1;
    }
    assert users[..i] == users;
  }

  /** The second loop of getRecommendation: the weighted sums per movie. */
  method Accumulate(users: seq<User>, userID: int, similarities: map<int, real>) returns (recommendations: map<int, real>)
    ensures recommendations.Keys == RatedByOthers(users, userID)
    ensures forall m :: m in recommendations ==> recommendations[m] == Accumulated(users, userID, similarities, m)
  {
    recommendations := map[];
    var i := 0;
    while i < |users|
      invariant 0 <= i <= |users|
      invariant recommendations.Keys == RatedByOthers(users[..i], userID)
      invariant forall m :: Lookup(recommendations, m) == Accumulated(users[..i], userID, similarities, m)
    {
      assert users[..i + 1][..i] == users[..i];
      var other := users[i];
      if other.id != userID {
        recommendations := AddRatings(recommendations, other.ratings, Lookup(similarities, other.id));
      }
      i := i + 1;
    }
    assert users[..i] == users;
  }

  /** The inner loop of the second loop: one user's ratings, weighted by `w`, added in. */
  method AddRatings(recommendations: map<int, real>, ratings: seq<Rating>, w: real) returns (updated: map<int, real>)
    ensures updated.Keys == recommendations.Keys + MovieIds(ratings)
    ensures forall m :: Lookup(updated, m) == Lookup(recommendations, m) + Contribution(ratings, w, m)
  {
    updated := recommendations;
    var j := 0;
    while j < |ratings|
      invariant 0 <= j <= |ratings|
      invariant updated.Keys == recommendations.Keys + MovieIds(ratings[..j])
      invariant forall m :: Lookup(updated, m) == Lookup(recommendations, m) + Contribution(ratings[..j], w, m)
    {
      assert ratings[..j + 1][..j] == ratings[..j];
      var rating := ratings[j];
      updated := updated[rating.movieId := Lookup(updated, rating.movieId) + w * rating.score];
      j := j + 1;
    }
    assert ratings[..j] == ratings;
  }

  lemma {:induction false} MovieIdsAsSet(ratings: seq<Rating>)
    ensures MovieIds(ratings) == set r | r in ratings :: r.movieId
    decreases |ratings|
  {
    if ratings != [] {
      var init := ratings[..|ratings| - 1];
      MovieIdsAsSet(init);
      assert ratings == init + [ratings[|ratings| - 1]];
    }
  }

  /** The conversion of the map to a slice of ratings, in no particular order. */
  method Entries(recommendations: map<int, real>) returns (list: seq<Rating>)
    ensures Distinct(list)
    ensures MovieIds(list) == recommendations.Keys
    ensures forall r :: r in list ==> r.movieId in recommendations && r.score == recommendations[r.movieId]
  {
    var keys := recommendations.Keys;
    list := [];
    while keys != {}
      invariant keys <= recommendations.Keys
      invariant Distinct(list)
      invariant forall r :: r in list ==> r.movieId in recommendations && r.movieId !in keys && r.score == recommendations[r.movieId]
      invariant MovieIds(list) == recommendations.Keys - keys
      decreases keys
    {
      ghost var some := Member(keys);
      var movieId :| movieId in keys;
      var entry := Rating(movieId, recommendations[movieId]);
      assert (list + [entry])[..|list|] == list;
      list := list + [entry];
      keys := keys - {movieId};
    }
  }

  /** Entries drawn from one map are told apart by their movie IDs alone. */
  lemma DistinctEntries(recs: seq<Rating>, m: map<int, real>)
    requires Distinct(recs)
    requires forall r :: r in recs ==> r.movieId in m && r.score == m[r.movieId]
    ensures forall i, j :: 0 <= i < j < |recs| ==> recs[i].movieId != recs[j].movieId
  {
    forall i, j | 0 <= i < j < |recs|
      ensures recs[i].movieId != recs[j].movieId
    {
      var a, b := recs[i], recs[j];
      assert a in recs && b in recs && a != b;
    }
  }

  /** A reordering of entries keeps their movie IDs and scores. */
  lemma ReorderedEntries(list: seq<Rating>, recs: seq<Rating>, m: map<int, real>)
    requires Distinct(list) && multiset(list) == multiset(recs)
    requires forall r :: r in list ==> r.movieId in m && r.score == m[r.movieId]
    ensures Distinct(recs) && MovieIds(recs) == MovieIds(list)
    ensures forall r :: r in recs ==> r.movieId in m && r.score == m[r.movieId]
  {
    PermutationKeepsDistinct(list, recs);
    forall r | r in recs
      ensures r in list
    {
      assert r in Elems(recs);
    }
    forall r | r in list
      ensures r in recs
    {
      assert r in Elems(list);
    }
    MovieIdsAsSet(list);
    MovieIdsAsSet(recs);
  }

  /** The sort of that slice by descending score. */
  method SortedByScore(recommendations: map<int, real>) returns (recs: seq<Rating>)
    ensures NonIncreasing(recs, RatingScore)
    ensures forall i, j :: 0 <= i < j < |recs| ==> recs[i].movieId != recs[j].movieId
    ensures MovieIds(recs) == recommendations.Keys
    ensures forall r :: r in recs ==> r.movieId in recommendations && r.score == recommendations[r.movieId]
  {
    var list := Entries(recommendations);
    var a := new Rating[|list|](i requires 0 <= i < |list| => list[i]);
    assert a[..] == list;
    SortByKey(a, RatingScore);
    recs := a[..];
    ReorderedEntries(list, recs, recommendations);
    DistinctEntries(recs, recommendations);
  }

  // ---------------------------------------------------------------------
  // Properties
  // ---------------------------------------------------------------------

  /** A later rating of an already rated movie changes neither the rated set nor any score. */
  lemma LaterDuplicateIgnored(ratings: seq<Rating>, r: Rating)
    requires r.movieId in MovieIds(ratings)
    ensures MovieIds(ratings + [r]) == MovieIds(ratings)
    ensures forall m :: ScoreOf(ratings + [r], m) == ScoreOf(ratings, m)
  {
    var longer := ratings + [r];
    assert longer[..|ratings|] == ratings;
    forall m
      ensures ScoreOf(longer, m) == ScoreOf(ratings, m)
    {
      LaterDuplicateScore(ratings, r, m);
    }
  }

  lemma LaterDuplicateScore(ratings: seq<Rating>, r: Rating, m: int)
    requires r.movieId in MovieIds(ratings)
    ensures ScoreOf(ratings + [r], m) == ScoreOf(ratings, m)
  {
    var longer := ratings + [r];
    MovieIdsHasFirst(ratings, r.movieId);
    MovieIdsHasFirst(ratings, m);
    match FirstRatingIndex(ratings, m)
    case Some(k) =>
      assert longer[k].movieId == m;
      var k' := FirstRatingIndex(longer, m).value;
      assert k' <= k;
      assert ratings[k'] == longer[k'];
    case None =>
      assert m != r.movieId;
      assert FirstRatingIndex(longer, m) == None;
  }

  /** The three sums agree for users that agree on rated movies and first scores. */
  lemma SumsDependOnFirstScores(u1: User, u2: User, v1: User, v2: User)
    requires MovieIds(v1.ratings) == MovieIds(u1.ratings) && MovieIds(v2.ratings) == MovieIds(u2.ratings)
    requires forall m :: ScoreOf(v1.ratings, m) == ScoreOf(u1.ratings, m)
    requires forall m :: ScoreOf(v2.ratings, m) == ScoreOf(u2.ratings, m)
    ensures SharedMovieIds(v1, v2) == SharedMovieIds(u1, u2)
    ensures DotProduct(v1, v2) == DotProduct(u1, u2)
    ensures SumOfSquares(v1, v2) == SumOfSquares(u1, u2)
    ensures SumOfSecond(v1, v2) == SumOfSecond(u1, u2)
  {
    var shared := SharedMovieIds(u1, u2);
    DotAgrees(shared, u1.ratings, u2.ratings, v1.ratings, v2.ratings);
    SquaresAgree(shared, u1.ratings, v1.ratings);
    SetSumCongruent(shared, ScoreTerm(v2.ratings), ScoreTerm(u2.ratings));
  }

  lemma DotAgrees(shared: set<int>, r1: seq<Rating>, r2: seq<Rating>, s1: seq<Rating>, s2: seq<Rating>)
    requires forall m :: ScoreOf(s1, m) == ScoreOf(r1, m)
    requires forall m :: ScoreOf(s2, m) == ScoreOf(r2, m)
    ensures SetSum(shared, DotTerm(s1, s2)) == SetSum(shared, DotTerm(r1, r2))
  {
    forall x | x in shared
      ensures DotTerm(s1, s2)(x) == DotTerm(r1, r2)(x)
    {
      var p, q := ScoreOf(r1, x), ScoreOf(r2, x);
      assert ScoreOf(s1, x) == p && ScoreOf(s2, x) == q;
    }
    SetSumCongruent(shared, DotTerm(s1, s2), DotTerm(r1, r2));
  }

  lemma SquaresAgree(shared: set<int>, r1: seq<Rating>, s1: seq<Rating>)
    requires forall m :: ScoreOf(s1, m) == ScoreOf(r1, m)
    ensures SetSum(shared, SquareTerm(s1)) == SetSum(shared, SquareTerm(r1))
  {
    forall x | x in shared
      ensures SquareTerm(s1)(x) == SquareTerm(r1)(x)
    {
      var p := ScoreOf(r1, x);
      assert ScoreOf(s1, x) == p;
    }
    SetSumCongruent(shared, SquareTerm(s1), SquareTerm(r1));
  }

  /**
   * The similarity sees a user only through the set of movies rated and the
   * first score of each: users that agree on those are equally similar.
   */
  lemma SimilarityDependsOnFirstScores(u1: User, u2: User, v1: User, v2: User, sqrt: real -> real)
    requires MovieIds(v1.ratings) == MovieIds(u1.ratings) && MovieIds(v2.ratings) == MovieIds(u2.ratings)
    requires forall m :: ScoreOf(v1.ratings, m) == ScoreOf(u1.ratings, m)
    requires forall m :: ScoreOf(v2.ratings, m) == ScoreOf(u2.ratings, m)
    ensures SimilarityDefined(v1, v2, sqrt) <==> SimilarityDefined(u1, u2, sqrt)
    ensures SimilarityDefined(u1, u2, sqrt) ==> Similarity(v1, v2, sqrt) == Similarity(u1, u2, sqrt)
  {
    SumsDependOnFirstScores(u1, u2, v1, v2);
    SimilarityOfSums(u1, u2, v1, v2, sqrt);
  }

  /** The similarity is a function of the shared set and the three sums. */
  lemma SimilarityOfSums(u1: User, u2: User, v1: User, v2: User, sqrt: real -> real)
    requires SharedMovieIds(v1, v2) == SharedMovieIds(u1, u2)
    requires DotProduct(v1, v2) == DotProduct(u1, u2)
    requires SumOfSquares(v1, v2) == SumOfSquares(u1, u2)
    requires SumOfSecond(v1, v2) == SumOfSecond(u1, u2)
    ensures SimilarityDefined(v1, v2, sqrt) <==> SimilarityDefined(u1, u2, sqrt)
    ensures SimilarityDefined(u1, u2, sqrt) ==> Similarity(v1, v2, sqrt) == Similarity(u1, u2, sqrt)
  {
    assert Denominator(v1, v2, sqrt) == Denominator(u1, u2, sqrt);
  }

  /** Both magnitudes are non-negative, so the similarity has the sign of the dot product. */
  lemma SimilaritySign(u1: User, u2: User, sqrt: real -> real)
    requires IsSqrt(sqrt) && SimilarityDefined(u1, u2, sqrt)
    ensures Similarity(u1, u2, sqrt) > 0.0 <==> SharedMovieIds(u1, u2) != {} && DotProduct(u1, u2) > 0.0
    ensures Similarity(u1, u2, sqrt) == 0.0 <==> SharedMovieIds(u1, u2) == {} || DotProduct(u1, u2) == 0.0
  {
    if SharedMovieIds(u1, u2) != {} {
      var squares := SumOfSquares(u1, u2);
      var sum2 := SumOfSecond(u1, u2);
      forall m | m in SharedMovieIds(u1, u2)
        ensures 0.0 <= SquareTerm(u1.ratings)(m)
      {
        var x := ScoreOf(u1.ratings, m);
        assert SquareTerm(u1.ratings)(m) == x * x;
      }
      SetSumNonNegative(SharedMovieIds(u1, u2), SquareTerm(u1.ratings));
      assert 0.0 <= Square(sum2);
      var a, b := sqrt(squares), sqrt(Square(sum2));
      assert 0.0 <= a && 0.0 <= b;
      assert Denominator(u1, u2, sqrt) == a * b;
      assert 0.0 < a * b;
    }
  }

  lemma SumOverPair(f: int -> real)
    ensures SetSum({1, 2}, f) == f(1) + f(2)
  {
    SetSumRemove({1, 2}, 1, f);
    assert {1, 2} - {1} == {2};
    SetSumRemove({2}, 2, f);
    assert {2} - {2} == {};
  }

  /** Two users who rated the same two movies: one with scores 3 and 4, the other with 1 and 1. */
  predicate Example(fan: User, critic: User) {
    fan.ratings == [Rating(1, 3.0), Rating(2, 4.0)] && critic.ratings == [Rating(1, 1.0), Rating(2, 1.0)]
  }

  lemma ExampleScores(fan: User, critic: User)
    requires Example(fan, critic)
    ensures SharedMovieIds(fan, critic) == {1, 2} && SharedMovieIds(critic, fan) == {1, 2}
    ensures ScoreOf(fan.ratings, 1) == 3.0 && ScoreOf(fan.ratings, 2) == 4.0
    ensures ScoreOf(critic.ratings, 1) == 1.0 && ScoreOf(critic.ratings, 2) == 1.0
  {
    PairRatings(fan.ratings, 3.0, 4.0);
    PairRatings(critic.ratings, 1.0, 1.0);
  }

  /** The movies and scores of a user who rated movie 1 with `a` and then movie 2 with `b`. */
  lemma PairRatings(ratings: seq<Rating>, a: real, b: real)
    requires ratings == [Rating(1, a), Rating(2, b)]
    ensures MovieIds(ratings) == {1, 2}
    ensures ScoreOf(ratings, 1) == a && ScoreOf(ratings, 2) == b
  {
    var first := ratings[..1];
    assert first == [Rating(1, a)] && first[..0] == [];
    assert MovieIds(first) == MovieIds(first[..0]) + {1};
    assert MovieIds(ratings) == MovieIds(first) + {2};
    assert FirstRatingIndex(ratings, 1) == Some(0);
    assert ratings[1..] == [Rating(2, b)];
    assert FirstRatingIndex(ratings[1..], 2) == Some(0);
    assert FirstRatingIndex(ratings, 2) == Some(1);
  }

  lemma ExampleSums(fan: User, critic: User)
    requires Example(fan, critic)
    ensures DotProduct(fan, critic) == 7.0 && DotProduct(critic, fan) == 7.0
    ensures SumOfSquares(fan, critic) == 25.0 && SumOfSecond(fan, critic) == 2.0
    ensures SumOfSquares(critic, fan) == 2.0 && SumOfSecond(critic, fan) == 7.0
  {
    ExampleScores(fan, critic);
    SumOverPair(DotTerm(fan.ratings, critic.ratings));
    SumOverPair(DotTerm(critic.ratings, fan.ratings));
    SumOverPair(SquareTerm(fan.ratings));
    SumOverPair(SquareTerm(critic.ratings));
    SumOverPair(ScoreTerm(fan.ratings));
    SumOverPair(ScoreTerm(critic.ratings));
  }

  /**
   * The similarity is not symmetric: scores (3, 4) against (1, 1) on the same
   * two movies give 0.7 one way and 1/sqrt(2) the other.
   */
  lemma SimilarityAsymmetric(fan: User, critic: User, sqrt: real -> real)
    requires Example(fan, critic) && IsSqrt(sqrt)
    ensures SimilarityDefined(fan, critic, sqrt) && SimilarityDefined(critic, fan, sqrt)
    ensures Similarity(fan, critic, sqrt) == 0.7
    ensures Similarity(critic, fan, sqrt) != Similarity(fan, critic, sqrt)
  {
    FanToCritic(fan, critic, sqrt);
    var root2 := CriticToFan(fan, critic, sqrt);
    var s := Similarity(critic, fan, sqrt);
    ReciprocalOfRootTwo(s, root2);
  }

  /** 1/sqrt(2) exceeds 0.7. */
  lemma ReciprocalOfRootTwo(s: real, r: real)
    requires 0.0 <= r && r * r == 2.0 && s * r == 1.0
    ensures s > 0.7
  {
    var c := 10.0 / 7.0;
    assert (c - r) * (c + r) == c * c - r * r;
    assert c * c - r * r > 0.0;
    assert c - r > 0.0;
    assert 0.7 * r < 1.0;
    assert (s - 0.7) * r > 0.0;
  }

  lemma FanToCritic(fan: User, critic: User, sqrt: real -> real)
    requires Example(fan, critic) && IsSqrt(sqrt)
    ensures SimilarityDefined(fan, critic, sqrt) && Similarity(fan, critic, sqrt) == 0.7
  {
    ExampleScores(fan, critic);
    ExampleSums(fan, critic);
    SquareRootUnique(sqrt(25.0), 5.0);
    SquareRootUnique(sqrt(Square(2.0)), 2.0);
    assert Denominator(fan, critic, sqrt) == 5.0 * 2.0;
  }

  lemma CriticToFan(fan: User, critic: User, sqrt: real -> real) returns (root2: real)
    requires Example(fan, critic) && IsSqrt(sqrt)
    ensures root2 * root2 == 2.0 && 0.0 <= root2
    ensures SimilarityDefined(critic, fan, sqrt) && Similarity(critic, fan, sqrt) * root2 == 1.0
  {
    ExampleScores(fan, critic);
    ExampleSums(fan, critic);
    SquareRootUnique(sqrt(Square(7.0)), 7.0);
    root2 := sqrt(2.0);
    assert root2 * root2 == 2.0 && 0.0 <= root2;
    assert root2 != 0.0;
    var d := Denominator(critic, fan, sqrt);
    assert d == root2 * 7.0;
    assert Similarity(critic, fan, sqrt) == 7.0 / d;
  }

  /** The users whose ratings can move a score: not the target, and present in `sims`. */
  function Weighted(users: seq<User>, userID: int, sims: map<int, real>): (r: seq<User>)
    ensures forall u :: u in r ==> u in users && u.id != userID && u.id in sims
    decreases |users|
  {
    if users == [] then []
    else
      var last := users[|users| - 1];
      Weighted(users[..|users| - 1], userID, sims) + (if last.id != userID && last.id in sims then [last] else [])
  }

  lemma {:induction false} ContributionOfZeroWeight(ratings: seq<Rating>, movieId: int)
    ensures Contribution(ratings, 0.0, movieId) == 0.0
    decreases |ratings|
  {
    if ratings != [] {
      ContributionOfZeroWeight(ratings[..|ratings| - 1], movieId);
    }
  }

  /**
   * The target user and every user without an entry in the similarity map add
   * exactly nothing to any movie's score.
   */
  lemma {:induction false} OnlyWeightedUsersContribute(users: seq<User>, userID: int, sims: map<int, real>, movieId: int)
    ensures Accumulated(users, userID, sims, movieId) == Accumulated(Weighted(users, userID, sims), userID, sims, movieId)
    decreases |users|
  {
    if users != [] {
      var init, last := users[..|users| - 1], users[|users| - 1];
      OnlyWeightedUsersContribute(init, userID, sims, movieId);
      var w := Weighted(init, userID, sims);
      if last.id != userID && last.id in sims {
        assert Weighted(users, userID, sims) == w + [last];
        assert (w + [last])[..|w|] == w;
      } else {
        assert Weighted(users, userID, sims) == w;
        if last.id != userID {
          ContributionOfZeroWeight(last.ratings, movieId);
        }
      }
    }
  }

  /**
   * getRecommendation's scores come only from other users whose similarity to
   * the target is positive.
   */
  lemma PredictedFromPositiveSimilarities(users: seq<User>, userID: int, movieId: int, sqrt: real -> real)
    requires HasUser(users, userID) && SimilaritiesDefined(users, userID, sqrt)
    ensures var sims := SimilarityMap(users, userID, sqrt);
      PredictedScore(users, userID, movieId, sqrt) == Accumulated(Weighted(users, userID, sims), userID, sims, movieId)
    ensures forall u :: u in Weighted(users, userID, SimilarityMap(users, userID, sqrt)) ==>
      u.id != userID && TargetSimilarity(users, userID, u.id, sqrt) > 0.0
  {
    OnlyWeightedUsersContribute(users, userID, SimilarityMap(users, userID, sqrt), movieId);
  }
}
