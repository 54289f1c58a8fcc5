/**
 * Content-based k-nearest neighbours over feature vectors
 * (ai/example/neighbour.go).
 *
 * `euclideanDistance` sums squared feature differences over the first
 * movie's features and takes the root; `findKNearestNeighbors` groups the
 * movies into buckets of equal distance to the query, visits the distances
 * in ascending order and appends whole buckets while fewer than `k` movies
 * have been taken, so the result can hold more than `k`; `recommendMovies`
 * keeps, by name, the neighbours that have a feature the query lacks.
 *
 * `math.Sqrt` is the parameter `sqrt`; the buckets are keyed by whatever it
 * returns, as the map in the code is.
 */
module Neighbour {
  import opened Reals
  import opened Sequences

  datatype Movie = Movie(name: string, features: seq<real>)

  /** Σ (a[i] - b[i])² over the indices of `a`; `b` must be at least as long. */
  function SquaredDistance(a: seq<real>, b: seq<real>): (r: real)
    requires |a| <= |b|
    ensures 0.0 <= r
    decreases |a|
  {
    if a == [] then 0.0
    else
      var n := |a| - 1;
      SquaredDistance(a[..n], b) + Square(a[n] - b[n])
  }

  /** The value of euclideanDistance(a, b). */
  function Distance(a: Movie, b: Movie, sqrt: real -> real): real
    requires |a.features| <= |b.features|
  {
    sqrt(SquaredDistance(a.features, b.features))
  }

  /** euclideanDistance: the root of the sum of squared differences. */
  method EuclideanDistance(a: Movie, b: Movie, sqrt: real -> real) returns (d: real)
    requires |a.features| <= |b.features|
    ensures d == Distance(a, b, sqrt)
    ensures IsSqrt(sqrt) ==> 0.0 <= d
  {
    var sum := 0.0;
    var i := 0;
    while i < |a.features|
      invariant 0 <= i <= |a.features|
      invariant sum == SquaredDistance(a.features[..i], b.features)
    {
      assert a.features[..i + 1][..i] == a.features[..i];
      var diff := a.features[i] - b.features[i];
      sum := sum + diff * diff;
      i := i + 1;
    }
    assert a.features[..i] == a.features;
    d := sqrt(sum);
  }

  // ---------------------------------------------------------------------
  // k nearest neighbours
  // ---------------------------------------------------------------------

  /** Every movie can be measured against the query: it has no more features than the query. */
  predicate Comparable(movies: seq<Movie>, m: Movie) {
    forall x :: x in movies ==> |x.features| <= |m.features|
  }

  /** The distance of each movie to the query, position by position. */
  function DistancesTo(movies: seq<Movie>, m: Movie, sqrt: real -> real): (r: seq<real>)
    requires Comparable(movies, m)
    ensures |r| == |movies|
    ensures forall i :: 0 <= i < |movies| ==> r[i] == Distance(movies[i], m, sqrt)
  {
    seq(|movies|, i requires 0 <= i < |movies| => Distance(movies[i], m, sqrt))
  }

  /** The movies at distance `d`, in input order. */
  function Bucket(movies: seq<Movie>, dists: seq<real>, d: real): seq<Movie>
    requires |dists| == |movies|
    decreases |movies|
  {
    if movies == [] then []
    else
      var n := |movies| - 1;
      Bucket(movies[..n], dists[..n], d) + (if dists[n] == d then [movies[n]] else [])
  }

  /** The movies whose distance lies in `ds`, in input order. */
  function Within(movies: seq<Movie>, dists: seq<real>, ds: set<real>): seq<Movie>
    requires |dists| == |movies|
    decreases |movies|
  {
    if movies == [] then []
    else
      var n := |movies| - 1;
      Within(movies[..n], dists[..n], ds) + (if dists[n] in ds then [movies[n]] else [])
  }

  /** The `distances` map: each distance that occurs to its bucket. */
  function BucketMap(movies: seq<Movie>, dists: seq<real>): map<real, seq<Movie>>
    requires |dists| == |movies|
  {
    map d | d in Elems(dists) :: Bucket(movies, dists, d)
  }

  /** `distances[d]`: the empty slice for a distance with no entry. */
  function BucketAt(buckets: map<real, seq<Movie>>, d: real): seq<Movie> {
    if d in buckets then buckets[d] else []
  }

  /** The buckets of `keys`, one after the other. */
  function Concat(keys: seq<real>, buckets: map<real, seq<Movie>>): seq<Movie>
    decreases |keys|
  {
    if keys == [] then [] else BucketAt(buckets, keys[0]) + Concat(keys[1..], buckets)
  }

  /** The selection loop: append the next bucket while fewer than `k` movies are held. */
  function Gather(keys: seq<real>, buckets: map<real, seq<Movie>>, acc: seq<Movie>, k: int): seq<Movie>
    decreases |keys|
  {
    if keys == [] || |acc| >= k then acc
    else Gather(keys[1..], buckets, acc + BucketAt(buckets, keys[0]), k)
  }

  /** How many buckets the selection loop appends. */
  function Taken(keys: seq<real>, buckets: map<real, seq<Movie>>, acc: seq<Movie>, k: int): (t: nat)
    ensures t <= |keys|
    decreases |keys|
  {
    if keys == [] || |acc| >= k then 0
    else 1 + Taken(keys[1..], buckets, acc + BucketAt(buckets, keys[0]), k)
  }

  /** The least element of a finite set of reals. */
  ghost function MinOf(s: set<real>): (x: real)
    requires s != {}
    ensures x in s && forall y :: y in s ==> x <= y
  {
    MinExists(s);
    var x :| x in s && forall y :: y in s ==> x <= y;
    x
  }

  lemma {:induction false} MinExists(s: set<real>)
    requires s != {}
    ensures exists x :: x in s && forall y :: y in s ==> x <= y
    decreases s
  {
    var z := Member(s);
    if s - {z} != {} {
      MinExists(s - {z});
      var w :| w in s - {z} && forall y :: y in s - {z} ==> w <= y;
      var least := if z < w then z else w;
      forall y | y in s
        ensures least <= y
      {
        if y != z {
          assert y in s - {z};
        }
      }
      assert least in s;
    } else {
      forall y | y in s
        ensures z <= y
      {
        assert y !in s - {z};
      }
    }
  }

  /** `s` is strictly increasing. */
  predicate Ascending(s: seq<real>) {
    forall i, j :: 0 <= i < j < |s| ==> s[i] < s[j]
  }

  /** The elements of a finite set of reals in ascending order. */
  ghost function AscendingOf(s: set<real>): (r: seq<real>)
    ensures Ascending(r) && Elems(r) == s
    decreases s
  {
    if s == {} then []
    else
      var x := MinOf(s);
      var rest := AscendingOf(s - {x});
      LeastFirst(x, rest, s);
      [x] + rest
  }

  /** The least element before an ascending enumeration of the others enumerates the set in ascending order. */
  lemma LeastFirst(x: real, rest: seq<real>, s: set<real>)
    requires x in s && (forall y :: y in s ==> x <= y)
    requires Ascending(rest) && Elems(rest) == s - {x}
    ensures Ascending([x] + rest) && Elems([x] + rest) == s
  {
    assert Elems([x] + rest) == {x} + Elems(rest);
    forall j | 0 <= j < |rest|
      ensures x < rest[j]
    {
      assert rest[j] in s - {x};
    }
  }

  /** The value of findKNearestNeighbors. */
  ghost function Nearest(movies: seq<Movie>, m: Movie, k: int, sqrt: real -> real): seq<Movie>
    requires Comparable(movies, m)
  {
    var dists := DistancesTo(movies, m, sqrt);
    Gather(AscendingOf(Elems(dists)), BucketMap(movies, dists), [], k)
  }

  /** The negated key, under which a non-increasing order is ascending. */
  function Negated(d: real): real {
    -d
  }

  /**
   * findKNearestNeighbors: buckets by distance, the distances sorted
   * ascending, then whole buckets while fewer than `k` movies are held.
   */
  method FindKNearestNeighbors(movies: seq<Movie>, m: Movie, k: int, sqrt: real -> real) returns (neighbors: seq<Movie>)
    requires Comparable(movies, m)
    ensures neighbors == Nearest(movies, m, k, sqrt)
  {
    ghost var dists := DistancesTo(movies, m, sqrt);
    var distances := Buckets(movies, m, sqrt);
    var keys := SortedKeys(distances);
    assert Elems(keys) == Elems(dists);
    SortedIsAscendingOf(keys, Elems(dists));
    neighbors := TakeBuckets(keys, distances, k);
  }

  /** The last loop of findKNearestNeighbors: whole buckets, nearest first, until `k` movies are held. */
  method TakeBuckets(keys: seq<real>, distances: map<real, seq<Movie>>, k: int) returns (neighbors: seq<Movie>)
    requires Elems(keys) <= distances.Keys
    ensures neighbors == Gather(keys, distances, [], k)
  {
    neighbors := [];
    var i := 0;
    while i < |keys|
      invariant 0 <= i <= |keys|
      invariant Gather(keys, distances, [], k) == Gather(keys[i..], distances, neighbors, k)
    {
      if |neighbors| >= k {
        break;
      }
      assert keys[i..][1..] == keys[i + 1..];
      assert keys[i] in Elems(keys);
      neighbors := neighbors + distances[keys[i]];
      i := i + 1;
    }
  }

  /** The first loop of findKNearestNeighbors: the `distances` map. */
  method Buckets(movies: seq<Movie>, m: Movie, sqrt: real -> real) returns (distances: map<real, seq<Movie>>)
    requires Comparable(movies, m)
    ensures distances == BucketMap(movies, DistancesTo(movies, m, sqrt))
  {
    ghost var dists := DistancesTo(movies, m, sqrt);
    distances := map[];
    var i := 0;
    while i < |movies|
      invariant 0 <= i <= |movies|
      invariant distances == BucketMap(movies[..i], dists[..i])
    {
      assert movies[i] in movies;
      var distance := EuclideanDistance(movies[i], m, sqrt);
      BucketMapSnoc(movies[..i], dists[..i], movies[i], distance);
      assert movies[..i + 1] == movies[..i] + [movies[i]] && dists[..i + 1] == dists[..i] + [distance];
      distances := distances[distance := BucketAt(distances, distance) + [movies[i]]];
      i := i + 1;
    }
    assert movies[..i] == movies && dists[..i] == dists;
  }

  /** The second loop and the sort: the distances that occur, ascending. */
  method SortedKeys(distances: map<real, seq<Movie>>) returns (keys: seq<real>)
    ensures Distinct(keys) && Elems(keys) == distances.Keys
    ensures forall i, j :: 0 <= i < j < |keys| ==> keys[i] < keys[j]
  {
    var list: seq<real> := [];
    var rest := distances.Keys;
    while rest != {}
      invariant rest <= distances.Keys
      invariant Distinct(list) && Elems(list) == distances.Keys - rest
      decreases rest
    {
      ghost var some := Member(rest);
      var key :| key in rest;
      assert Elems(list + [key]) == Elems(list) + {key};
      list := list + [key];
      rest := rest - {key};
    }
    var a := new real[|list|](i requires 0 <= i < |list| => list[i]);
    assert a[..] == list;
    SortByKey(a, Negated);
    keys := a[..];
    PermutationKeepsDistinct(list, keys);
  }

  lemma BucketMapSnoc(movies: seq<Movie>, dists: seq<real>, x: Movie, d: real)
    requires |dists| == |movies|
    ensures BucketMap(movies + [x], dists + [d]) == BucketMap(movies, dists)[d := BucketAt(BucketMap(movies, dists), d) + [x]]
  {
    var movies', dists' := movies + [x], dists + [d];
    assert movies'[..|movies|] == movies && dists'[..|movies|] == dists;
    assert Elems(dists') == Elems(dists) + {d};
    var before, after := BucketMap(movies, dists), BucketMap(movies', dists');
    if d !in Elems(dists) {
      BucketMissing(movies, dists, d);
    }
    assert BucketAt(before, d) == Bucket(movies, dists, d);
    forall e | e in after
      ensures after[e] == before[d := BucketAt(before, d) + [x]][e]
    {
      assert after[e] == Bucket(movies, dists, e) + (if e == d then [x] else []);
    }
    assert after.Keys == before.Keys + {d};
  }

  lemma {:induction false} BucketMissing(movies: seq<Movie>, dists: seq<real>, d: real)
    requires |dists| == |movies| && d !in Elems(dists)
    ensures Bucket(movies, dists, d) == []
    decreases |movies|
  {
    if movies != [] {
      var n := |movies| - 1;
      assert Elems(dists[..n]) <= Elems(dists);
      BucketMissing(movies[..n], dists[..n], d);
    }
  }

  /** An ascending enumeration of a set is the one AscendingOf gives. */
  lemma {:induction false} SortedIsAscendingOf(keys: seq<real>, s: set<real>)
    requires Ascending(keys) && Elems(keys) == s
    ensures keys == AscendingOf(s)
    decreases |keys|
  {
    if keys != [] {
      assert keys[0] in s;
      assert keys[0] == MinOf(s) by {
        forall y | y in s ensures keys[0] <= y {
          var j :| 0 <= j < |keys| && keys[j] == y;
        }
        assert MinOf(s) in Elems(keys);
      }
      var rest := keys[1..];
      assert Elems(rest) == s - {keys[0]} by {
        assert keys == [keys[0]] + rest;
        assert keys[0] !in Elems(rest);
      }
      SortedIsAscendingOf(rest, s - {keys[0]});
    } else {
      assert s == {};
    }
  }

  // ---------------------------------------------------------------------
  // Properties of the distance
  // ---------------------------------------------------------------------

  /** The squared distance is 0 exactly when `a` agrees with the start of `b`. */
  lemma {:induction false} SquaredDistanceZero(a: seq<real>, b: seq<real>)
    requires |a| <= |b|
    ensures SquaredDistance(a, b) == 0.0 <==> a == b[..|a|]
    decreases |a|
  {
    if a != [] {
      var n := |a| - 1;
      SquaredDistanceZero(a[..n], b);
      assert b[..|a|] == b[..n] + [b[n]];
      assert a == a[..n] + [a[n]];
      SquareZero(a[n] - b[n]);
    }
  }

  /** Over equally long vectors the squared distance is symmetric. */
  lemma {:induction false} SquaredDistanceSymmetric(a: seq<real>, b: seq<real>)
    requires |a| == |b|
    ensures SquaredDistance(a, b) == SquaredDistance(b, a)
    decreases |a|
  {
    if a != [] {
      var n := |a| - 1;
      SquaredDistanceSymmetric(a[..n], b[..n]);
      SquaredDistanceOfPrefix(a[..n], b);
      SquaredDistanceOfPrefix(b[..n], a);
      assert Square(a[n] - b[n]) == Square(b[n] - a[n]);
    }
  }

  /** Only the first |a| entries of `b` matter. */
  lemma {:induction false} SquaredDistanceOfPrefix(a: seq<real>, b: seq<real>)
    requires |a| <= |b|
    ensures SquaredDistance(a, b) == SquaredDistance(a, b[..|a|])
    decreases |a|
  {
    if a != [] {
      var n := |a| - 1;
      SquaredDistanceOfPrefix(a[..n], b);
      SquaredDistanceOfPrefix(a[..n], b[..|a|]);
      assert b[..|a|][..n] == b[..n];
    }
  }

  /** A movie is at distance 0 from itself, and the distance is never negative. */
  lemma DistanceToSelf(a: Movie, sqrt: real -> real)
    requires IsSqrt(sqrt)
    ensures Distance(a, a, sqrt) == 0.0
  {
    SquaredDistanceZero(a.features, a.features);
    assert a.features[..|a.features|] == a.features;
    SquareRootUnique(sqrt(0.0), 0.0);
  }

  // ---------------------------------------------------------------------
  // Properties of the neighbours
  // ---------------------------------------------------------------------

  /** The selection loop appends whole buckets and stops as soon as it holds `k` movies. */
  lemma {:induction false} GatherShape(keys: seq<real>, buckets: map<real, seq<Movie>>, acc: seq<Movie>, k: int)
    ensures var t := Taken(keys, buckets, acc, k);
      Gather(keys, buckets, acc, k) == acc + Concat(keys[..t], buckets) &&
      (t == |keys| || |Gather(keys, buckets, acc, k)| >= k) &&
      (0 < t ==> |acc + Concat(keys[..t - 1], buckets)| < k)
    decreases |keys|
  {
    var t := Taken(keys, buckets, acc, k);
    if keys == [] || |acc| >= k {
      assert keys[..t] == [];
    } else {
      var rest, acc' := keys[1..], acc + BucketAt(buckets, keys[0]);
      GatherShape(rest, buckets, acc', k);
      var t' := Taken(rest, buckets, acc', k);
      assert t == t' + 1;
      assert keys[..t][0] == keys[0] && keys[..t][1..] == rest[..t'];
      if 0 < t' {
        assert keys[..t - 1][0] == keys[0] && keys[..t - 1][1..] == rest[..t' - 1];
      } else {
        assert keys[..t - 1] == [];
      }
    }
  }

  lemma BucketAtMap(movies: seq<Movie>, dists: seq<real>, d: real)
    requires |dists| == |movies|
    ensures BucketAt(BucketMap(movies, dists), d) == Bucket(movies, dists, d)
  {
    if d !in Elems(dists) {
      BucketMissing(movies, dists, d);
    }
  }

  lemma {:induction false} WithinNone(movies: seq<Movie>, dists: seq<real>)
    requires |dists| == |movies|
    ensures Within(movies, dists, {}) == []
    decreases |movies|
  {
    if movies != [] {
      WithinNone(movies[..|movies| - 1], dists[..|movies| - 1]);
    }
  }

  /** Adding a distance to `ds` adds its bucket to the movies within `ds`. */
  lemma {:induction false} WithinAdd(movies: seq<Movie>, dists: seq<real>, ds: set<real>, d: real)
    requires |dists| == |movies| && d !in ds
    ensures multiset(Within(movies, dists, ds + {d})) == multiset(Within(movies, dists, ds)) + multiset(Bucket(movies, dists, d))
    decreases |movies|
  {
    if movies != [] {
      WithinAdd(movies[..|movies| - 1], dists[..|movies| - 1], ds, d);
    }
  }

  /** The buckets of distinct distances hold together the movies at those distances. */
  lemma {:induction false} ConcatWithin(movies: seq<Movie>, dists: seq<real>, keys: seq<real>)
    requires |dists| == |movies| && Distinct(keys)
    ensures multiset(Concat(keys, BucketMap(movies, dists))) == multiset(Within(movies, dists, Elems(keys)))
    decreases |keys|
  {
    if keys == [] {
      WithinNone(movies, dists);
      assert Elems(keys) == {};
    } else {
      var rest := keys[1..];
      ConcatWithin(movies, dists, rest);
      assert keys == [keys[0]] + rest;
      assert Elems(keys) == Elems(rest) + {keys[0]};
      assert keys[0] !in Elems(rest);
      WithinAdd(movies, dists, Elems(rest), keys[0]);
      BucketAtMap(movies, dists, keys[0]);
    }
  }

  /** The movies within `ds` are a sub-multiset of all movies. */
  lemma {:induction false} WithinSub(movies: seq<Movie>, dists: seq<real>, ds: set<real>)
    requires |dists| == |movies|
    ensures multiset(Within(movies, dists, ds)) <= multiset(movies)
    ensures |Within(movies, dists, ds)| <= |movies|
    decreases |movies|
  {
    if movies != [] {
      var n := |movies| - 1;
      WithinSub(movies[..n], dists[..n], ds);
      assert movies == movies[..n] + [movies[n]];
    }
  }

  /** When `ds` holds every distance, all movies are within it. */
  lemma {:induction false} WithinAll(movies: seq<Movie>, dists: seq<real>, ds: set<real>)
    requires |dists| == |movies| && Elems(dists) <= ds
    ensures Within(movies, dists, ds) == movies
    decreases |movies|
  {
    if movies != [] {
      var n := |movies| - 1;
      assert Elems(dists[..n]) <= Elems(dists);
      WithinAll(movies[..n], dists[..n], ds);
      assert movies == movies[..n] + [movies[n]];
    }
  }

  /** A movie at a distance in `ds` is within it; one at a distance outside makes the result shorter. */
  lemma {:induction false} WithinIndex(movies: seq<Movie>, dists: seq<real>, ds: set<real>, i: int)
    requires |dists| == |movies| && 0 <= i < |movies|
    ensures dists[i] in ds ==> movies[i] in Within(movies, dists, ds)
    ensures dists[i] !in ds ==> |Within(movies, dists, ds)| < |movies|
    decreases |movies|
  {
    var n := |movies| - 1;
    WithinSub(movies[..n], dists[..n], ds);
    if i < n {
      WithinIndex(movies[..n], dists[..n], ds, i);
      assert movies[..n][i] == movies[i] && dists[..n][i] == dists[i];
    }
  }

  /** The distances that occur, ascending. */
  ghost function NearestKeys(movies: seq<Movie>, m: Movie, sqrt: real -> real): seq<real>
    requires Comparable(movies, m)
  {
    AscendingOf(Elems(DistancesTo(movies, m, sqrt)))
  }

  /** How many buckets findKNearestNeighbors takes. */
  ghost function Reached(movies: seq<Movie>, m: Movie, k: int, sqrt: real -> real): nat
    requires Comparable(movies, m)
  {
    Taken(NearestKeys(movies, m, sqrt), BucketMap(movies, DistancesTo(movies, m, sqrt)), [], k)
  }

  /**
   * The neighbours are the whole buckets of the `Reached` smallest distances,
   * in ascending order, each bucket in input order; all but the last bucket
   * hold fewer than `k` movies together, and unless every bucket is taken
   * there are at least `k` neighbours.
   */
  lemma NearestBuckets(movies: seq<Movie>, m: Movie, k: int, sqrt: real -> real)
    requires Comparable(movies, m)
    ensures var dists, keys, t := DistancesTo(movies, m, sqrt), NearestKeys(movies, m, sqrt), Reached(movies, m, k, sqrt);
      t <= |keys| &&
      Nearest(movies, m, k, sqrt) == Concat(keys[..t], BucketMap(movies, dists)) &&
      (0 < t ==> |Concat(keys[..t - 1], BucketMap(movies, dists))| < k) &&
      (t < |keys| ==> |Nearest(movies, m, k, sqrt)| >= k)
  {
    var dists, keys, t := DistancesTo(movies, m, sqrt), NearestKeys(movies, m, sqrt), Reached(movies, m, k, sqrt);
    var buckets := BucketMap(movies, dists);
    GatherShape(keys, buckets, [], k);
    assert [] + Concat(keys[..t], buckets) == Concat(keys[..t], buckets);
    if 0 < t {
      assert [] + Concat(keys[..t - 1], buckets) == Concat(keys[..t - 1], buckets);
    }
  }

  /** As a multiset, the neighbours are the movies whose distance was reached. */
  lemma NearestWithin(movies: seq<Movie>, m: Movie, k: int, sqrt: real -> real)
    requires Comparable(movies, m)
    ensures var dists, keys, t := DistancesTo(movies, m, sqrt), NearestKeys(movies, m, sqrt), Reached(movies, m, k, sqrt);
      multiset(Nearest(movies, m, k, sqrt)) == multiset(Within(movies, dists, Elems(keys[..t])))
  {
    var dists, keys, t := DistancesTo(movies, m, sqrt), NearestKeys(movies, m, sqrt), Reached(movies, m, k, sqrt);
    NearestBuckets(movies, m, k, sqrt);
    assert Distinct(keys[..t]);
    ConcatWithin(movies, dists, keys[..t]);
  }

  /** Every distance reached is below every distance left out. */
  lemma ReachedBelowRest(movies: seq<Movie>, m: Movie, k: int, sqrt: real -> real)
    requires Comparable(movies, m)
    ensures var dists, keys, t := DistancesTo(movies, m, sqrt), NearestKeys(movies, m, sqrt), Reached(movies, m, k, sqrt);
      forall d, e :: d in keys[..t] && e in dists && e !in keys[..t] ==> d < e
  {
    var dists, keys, t := DistancesTo(movies, m, sqrt), NearestKeys(movies, m, sqrt), Reached(movies, m, k, sqrt);
    PrefixBelowRest(dists, keys, t);
  }

  lemma PrefixBelowRest(dists: seq<real>, keys: seq<real>, t: int)
    requires Ascending(keys) && Elems(keys) == Elems(dists) && 0 <= t <= |keys|
    ensures forall d, e :: d in keys[..t] && e in dists && e !in keys[..t] ==> d < e
  {
    forall d, e | d in keys[..t] && e in dists && e !in keys[..t]
      ensures d < e
    {
      var i :| 0 <= i < t && keys[i] == d;
      assert e in Elems(keys);
      var j :| 0 <= j < |keys| && keys[j] == e;
      assert forall q :: 0 <= q < t ==> keys[..t][q] == keys[q];
      assert t <= j;
    }
  }

  /** Either every distance is reached, or some movie's distance is not. */
  lemma ReachedDistances(movies: seq<Movie>, m: Movie, k: int, sqrt: real -> real)
    requires Comparable(movies, m)
    ensures var dists, keys, t := DistancesTo(movies, m, sqrt), NearestKeys(movies, m, sqrt), Reached(movies, m, k, sqrt);
      t <= |keys| &&
      (t == |keys| ==> Elems(dists) <= Elems(keys[..t])) &&
      (t < |keys| ==> exists i :: 0 <= i < |movies| && dists[i] !in Elems(keys[..t]))
  {
    var dists, keys, t := DistancesTo(movies, m, sqrt), NearestKeys(movies, m, sqrt), Reached(movies, m, k, sqrt);
    PrefixCoversOrMisses(dists, keys, t);
  }

  lemma PrefixCoversOrMisses(dists: seq<real>, keys: seq<real>, t: int)
    requires Ascending(keys) && Elems(keys) == Elems(dists) && 0 <= t <= |keys|
    ensures t == |keys| ==> Elems(dists) <= Elems(keys[..t])
    ensures t < |keys| ==> exists i :: 0 <= i < |dists| && dists[i] !in Elems(keys[..t])
  {
    if t == |keys| {
      assert keys[..t] == keys;
    } else {
      var missing := keys[t];
      assert missing in Elems(keys);
      var i :| 0 <= i < |dists| && dists[i] == missing;
      assert forall q :: 0 <= q < t ==> keys[..t][q] == keys[q] && keys[q] < missing;
      assert dists[i] !in Elems(keys[..t]);
    }
  }

  /**
   * Bounds on the neighbours: none for `k <= 0`; a sub-multiset of the
   * movies; at least min(k, n) of them; all of them when `k >= n`.
   */
  lemma NearestBounds(movies: seq<Movie>, m: Movie, k: int, sqrt: real -> real)
    requires Comparable(movies, m)
    ensures k <= 0 ==> Nearest(movies, m, k, sqrt) == []
    ensures multiset(Nearest(movies, m, k, sqrt)) <= multiset(movies)
    ensures |Nearest(movies, m, k, sqrt)| >= if k < |movies| then k else |movies|
    ensures |movies| <= k ==> multiset(Nearest(movies, m, k, sqrt)) == multiset(movies)
  {
    var dists, keys, t := DistancesTo(movies, m, sqrt), NearestKeys(movies, m, sqrt), Reached(movies, m, k, sqrt);
    NearestBuckets(movies, m, k, sqrt);
    NearestWithin(movies, m, k, sqrt);
    ReachedDistances(movies, m, k, sqrt);
    var reach := Elems(keys[..t]);
    WithinSub(movies, dists, reach);
    var near := Nearest(movies, m, k, sqrt);
    assert |near| == |multiset(near)| == |Within(movies, dists, reach)|;
    if t == |keys| {
      WithinAll(movies, dists, reach);
    } else {
      var i :| 0 <= i < |movies| && dists[i] !in reach;
      WithinIndex(movies, dists, reach, i);
    }
  }

  /** With `k >= 1` the query itself is among its neighbours whenever it is one of the movies. */
  lemma QueryIsNeighbour(movies: seq<Movie>, m: Movie, k: int, sqrt: real -> real)
    requires IsSqrt(sqrt) && Comparable(movies, m)
    requires m in movies && 1 <= k
    ensures m in Nearest(movies, m, k, sqrt)
  {
    var dists, keys, t := DistancesTo(movies, m, sqrt), NearestKeys(movies, m, sqrt), Reached(movies, m, k, sqrt);
    NearestBuckets(movies, m, k, sqrt);
    NearestWithin(movies, m, k, sqrt);
    var i :| 0 <= i < |movies| && movies[i] == m;
    DistanceToSelf(m, sqrt);
    assert dists[i] == 0.0 && dists[i] in Elems(dists);
    assert keys != [] && 0 < t;
    assert keys[0] in Elems(dists);
    var j :| 0 <= j < |movies| && dists[j] == keys[0];
    assert 0.0 <= dists[j];
    assert dists[i] in Elems(keys);
    var q :| 0 <= q < |keys| && keys[q] == dists[i];
    assert q == 0;
    assert keys[..t][0] == dists[i];
    WithinIndex(movies, dists, Elems(keys[..t]), i);
    assert m in multiset(Within(movies, dists, Elems(keys[..t])));
  }
  /** A movie within `ds` sits at some position whose distance lies in `ds`. */
  lemma {:induction false} WithinMember(movies: seq<Movie>, dists: seq<real>, ds: set<real>, x: Movie)
    requires |dists| == |movies| && x in Within(movies, dists, ds)
    ensures exists p :: 0 <= p < |movies| && movies[p] == x && dists[p] in ds
    decreases |movies|
  {
    var n := |movies| - 1;
    if x in Within(movies[..n], dists[..n], ds) {
      WithinMember(movies[..n], dists[..n], ds, x);
      var p :| 0 <= p < n && movies[..n][p] == x && dists[..n][p] in ds;
      assert movies[p] == x && dists[p] in ds;
    } else {
      assert movies[n] == x && dists[n] in ds;
    }
  }

  /** Every neighbour is no farther from the query than every movie left out. */
  lemma NearestCloser(movies: seq<Movie>, m: Movie, k: int, sqrt: real -> real)
    requires Comparable(movies, m)
    ensures var dists, near := DistancesTo(movies, m, sqrt), Nearest(movies, m, k, sqrt);
      forall i, j :: 0 <= i < |movies| && 0 <= j < |movies| && movies[i] in near && movies[j] !in near ==>
        dists[i] <= dists[j]
  {
    var dists, near := DistancesTo(movies, m, sqrt), Nearest(movies, m, k, sqrt);
    forall i, j | 0 <= i < |movies| && 0 <= j < |movies| && movies[i] in near && movies[j] !in near
      ensures dists[i] <= dists[j]
    {
      CloserPair(movies, m, k, sqrt, i, j);
    }
  }

  lemma CloserPair(movies: seq<Movie>, m: Movie, k: int, sqrt: real -> real, i: int, j: int)
    requires Comparable(movies, m) && 0 <= i < |movies| && 0 <= j < |movies|
    requires movies[i] in Nearest(movies, m, k, sqrt) && movies[j] !in Nearest(movies, m, k, sqrt)
    ensures DistancesTo(movies, m, sqrt)[i] <= DistancesTo(movies, m, sqrt)[j]
  {
    var dists, keys, t := DistancesTo(movies, m, sqrt), NearestKeys(movies, m, sqrt), Reached(movies, m, k, sqrt);
    var near := Nearest(movies, m, k, sqrt);
    var reach := Elems(keys[..t]);
    NearestWithin(movies, m, k, sqrt);
    ReachedBelowRest(movies, m, k, sqrt);
    assert movies[i] in multiset(near);
    WithinMember(movies, dists, reach, movies[i]);
    var p :| 0 <= p < |movies| && movies[p] == movies[i] && dists[p] in reach;
    assert dists[p] == dists[i];
    WithinIndex(movies, dists, reach, j);
    assert movies[j] !in multiset(Within(movies, dists, reach));
    assert dists[j] !in reach && dists[j] in dists;
  }

  /** The neighbours are movies of the input. */
  lemma NearestComparable(movies: seq<Movie>, m: Movie, k: int, sqrt: real -> real)
    requires Comparable(movies, m)
    ensures forall x :: x in Nearest(movies, m, k, sqrt) ==> x in movies
    ensures Comparable(Nearest(movies, m, k, sqrt), m)
  {
    NearestBounds(movies, m, k, sqrt);
    var near := Nearest(movies, m, k, sqrt);
    forall x | x in near
      ensures x in movies
    {
      assert x in multiset(near);
    }
  }

  // ---------------------------------------------------------------------
  // Recommendations
  // ---------------------------------------------------------------------

  /** `n` has a feature the query `m` lacks: some index where `n` is positive and `m` is 0. */
  predicate Novel(n: Movie, m: Movie)
    requires |n.features| <= |m.features|
  {
    exists j :: 0 <= j < |n.features| && n.features[j] > 0.0 && m.features[j] == 0.0
  }

  /** The `recommendations` map after visiting `neighbors`: novel neighbours by name, the later one winning. */
  function Chosen(neighbors: seq<Movie>, m: Movie): map<string, Movie>
    requires Comparable(neighbors, m)
    decreases |neighbors|
  {
    if neighbors == [] then map[]
    else
      var n := |neighbors| - 1;
      var init := neighbors[..n];
      assert forall x :: x in init ==> x in neighbors;
      var prev := Chosen(init, m);
      if Novel(neighbors[n], m) then prev[neighbors[n].name := neighbors[n]] else prev
  }

  /** Each name maps to a novel neighbour of that name, and every novel neighbour's name is chosen. */
  lemma {:induction false} ChosenSound(neighbors: seq<Movie>, m: Movie)
    requires Comparable(neighbors, m)
    ensures var r := Chosen(neighbors, m);
      forall name :: name in r ==> r[name].name == name && r[name] in neighbors && Novel(r[name], m)
    ensures forall n :: n in neighbors && Novel(n, m) ==> n.name in Chosen(neighbors, m)
    decreases |neighbors|
  {
    if neighbors != [] {
      var init := ChosenStep(neighbors, m);
      ChosenSound(init, m);
      assert neighbors == init + [neighbors[|neighbors| - 1]];
    }
  }

  /** The value of recommendMovies, up to the order of its result. */
  ghost function Recommended(movies: seq<Movie>, m: Movie, k: int, sqrt: real -> real): map<string, Movie>
    requires Comparable(movies, m)
  {
    NearestComparable(movies, m, k, sqrt);
    Chosen(Nearest(movies, m, k, sqrt), m)
  }

  /**
   * recommendMovies: the values of the `recommendations` map, in whatever
   * order the map is ranged over: one movie per name.
   */
  method RecommendMovies(movies: seq<Movie>, m: Movie, k: int, sqrt: real -> real) returns (recommended: seq<Movie>)
    requires Comparable(movies, m)
    ensures Elems(recommended) == Recommended(movies, m, k, sqrt).Values
    ensures |recommended| == |Recommended(movies, m, k, sqrt)|
    ensures forall i, j :: 0 <= i < j < |recommended| ==> recommended[i].name != recommended[j].name
  {
    var neighbors := FindKNearestNeighbors(movies, m, k, sqrt);
    NearestComparable(movies, m, k, sqrt);
    var recommendations := ChooseNovel(neighbors, m);
    ChosenSound(neighbors, m);
    recommended := ValuesOf(recommendations);
  }

  /** The last loop of recommendMovies: the map's values, one per key. */
  method ValuesOf(recommendations: map<string, Movie>) returns (recommended: seq<Movie>)
    requires forall name :: name in recommendations ==> recommendations[name].name == name
    ensures Elems(recommended) == recommendations.Values
    ensures |recommended| == |recommendations|
    ensures forall i, j :: 0 <= i < j < |recommended| ==> recommended[i].name != recommended[j].name
  {
    recommended := [];
    var rest := recommendations.Keys;
    while rest != {}
      invariant rest <= recommendations.Keys
      invariant |recommended| + |rest| == |recommendations|
      invariant forall x :: x in recommended ==> x.name in recommendations.Keys - rest && recommendations[x.name] == x
      invariant forall name :: name in recommendations.Keys - rest ==> recommendations[name] in recommended
      invariant forall i, j :: 0 <= i < j < |recommended| ==> recommended[i].name != recommended[j].name
      decreases rest
    {
      ghost var some := Member(rest);
      var name :| name in rest;
      recommended := recommended + [recommendations[name]];
      rest := rest - {name};
    }
  }

  /** The nested loop of recommendMovies: the `recommendations` map. */
  method ChooseNovel(neighbors: seq<Movie>, m: Movie) returns (recommendations: map<string, Movie>)
    requires Comparable(neighbors, m)
    ensures recommendations == Chosen(neighbors, m)
  {
    recommendations := map[];
    var i := 0;
    while i < |neighbors|
      invariant 0 <= i <= |neighbors|
      invariant Comparable(neighbors[..i], m)
      invariant recommendations == Chosen(neighbors[..i], m)
    {
      var n := neighbors[i];
      assert n in neighbors;
      ghost var before := recommendations;
      var j := 0;
      while j < |n.features|
        invariant 0 <= j <= |n.features|
        invariant recommendations == if NovelWithin(n, m, j) then before[n.name := n] else before
      {
        if n.features[j] > 0.0 && m.features[j] == 0.0 {
          recommendations := recommendations[n.name := n];
        }
        j := j + 1;
      }
      assert NovelWithin(n, m, j) == Novel(n, m);
      assert neighbors[..i + 1][..i] == neighbors[..i] && neighbors[..i + 1][i] == n;
      i := i + 1;
    }
    assert neighbors[..i] == neighbors;
  }

  /** Some index below `j` makes `n` novel. */
  predicate NovelWithin(n: Movie, m: Movie, j: int)
    requires j <= |n.features| <= |m.features|
  {
    exists q :: 0 <= q < j && n.features[q] > 0.0 && m.features[q] == 0.0
  }

  /**
   * A novel neighbour is the recommendation for its name when no later
   * neighbour with that name is novel too.
   */
  lemma {:induction false} LaterNeighbourWins(neighbors: seq<Movie>, m: Movie, i: int)
    requires Comparable(neighbors, m) && 0 <= i < |neighbors| && Novel(neighbors[i], m)
    requires forall j :: i < j < |neighbors| && neighbors[j].name == neighbors[i].name ==> !Novel(neighbors[j], m)
    ensures neighbors[i].name in Chosen(neighbors, m) && Chosen(neighbors, m)[neighbors[i].name] == neighbors[i]
    decreases |neighbors|
  {
    var n := |neighbors| - 1;
    var init := ChosenStep(neighbors, m);
    var last := neighbors[n];
    if i < n {
      assert init[i] == neighbors[i];
      forall j | i < j < |init| && init[j].name == init[i].name
        ensures !Novel(init[j], m)
      {
        assert init[j] == neighbors[j];
      }
      LaterNeighbourWins(init, m, i);
      var name := neighbors[i].name;
      assert name in Chosen(init, m) && Chosen(init, m)[name] == neighbors[i];
      if last.name == name {
        assert !Novel(last, m);
        assert Chosen(neighbors, m) == Chosen(init, m);
      } else {
        assert Chosen(neighbors, m)[name] == Chosen(init, m)[name];
      }
    } else {
      assert Chosen(neighbors, m)[last.name] == last;
    }
  }

  /** The last neighbour, when novel, overrides what the others chose under its name. */
  lemma ChosenStep(neighbors: seq<Movie>, m: Movie) returns (init: seq<Movie>)
    requires Comparable(neighbors, m) && neighbors != []
    ensures init == neighbors[..|neighbors| - 1] && Comparable(init, m)
    ensures var last := neighbors[|neighbors| - 1];
      Chosen(neighbors, m) == if Novel(last, m) then Chosen(init, m)[last.name := last] else Chosen(init, m)
  {
    init := neighbors[..|neighbors| - 1];
    assert forall x :: x in init ==> x in neighbors;
  }
}
