/**
 * Arithmetic over `real` shared by both collaborative filters: the sum of a
 * term over a finite set of keys (the order in which Go ranges over a map or
 * over a slice built from one does not matter to it), and what it means for a
 * function to be the square root that `math.Sqrt` computes.
 */
module Reals {
  import opened Sequences

  /** `sqrt` is a square root on the non-negative reals. */
  ghost predicate IsSqrt(sqrt: real -> real) {
    forall x {:trigger sqrt(x)} :: 0.0 <= x ==> 0.0 <= sqrt(x) && sqrt(x) * sqrt(x) == x
  }

  function Square(x: real): real {
    x * x
  }

  /** A set that is not empty has an element. */
  lemma HasElement(s: set<int>)
    requires s != {}
    ensures exists x :: x in s
  {
    if forall x :: x !in s {
      assert false;
    }
  }

  /** Some element of a non-empty set. */
  ghost function Pick(s: set<int>): (p: int)
    requires s != {}
    ensures p in s
  {
    HasElement(s);
    var x :| x in s; x
  }

  /** The sum of `f(x)` over every `x` in `s`. */
  ghost function SetSum(s: set<int>, f: int -> real): real
    decreases s
  {
    if s == {} then 0.0 else var x := Pick(s); f(x) + SetSum(s - {x}, f)
  }

  /** Any element can be taken out of the sum first. */
  lemma {:induction false} SetSumRemove(s: set<int>, y: int, f: int -> real)
    requires y in s
    ensures SetSum(s, f) == f(y) + SetSum(s - {y}, f)
    decreases s
  {
    var x := Pick(s);
    if x != y {
      SetSumRemove(s - {x}, y, f);
      SetSumRemove(s - {y}, x, f);
      assert s - {x} - {y} == s - {y} - {x};
    }
  }

  /** Adding a new element adds its term. */
  lemma SetSumAdd(s: set<int>, y: int, f: int -> real)
    requires y !in s
    ensures SetSum(s + {y}, f) == SetSum(s, f) + f(y)
  {
    SetSumRemove(s + {y}, y, f);
    assert s + {y} - {y} == s;
  }

  /** Summing a term that is pointwise no larger gives no larger a sum. */
  lemma {:induction false} SetSumMono(s: set<int>, f: int -> real, g: int -> real)
    requires forall x :: x in s ==> f(x) <= g(x)
    ensures SetSum(s, f) <= SetSum(s, g)
    decreases s
  {
    if s != {} {
      var x := Pick(s);
      SetSumRemove(s, x, g);
      SetSumMono(s - {x}, f, g);
    }
  }

  /** Sums of terms that agree on `s` agree. */
  lemma SetSumCongruent(s: set<int>, f: int -> real, g: int -> real)
    requires forall x :: x in s ==> f(x) == g(x)
    ensures SetSum(s, f) == SetSum(s, g)
  {
    SetSumMono(s, f, g);
    SetSumMono(s, g, f);
  }

  /** A constant factor comes out of the sum. */
  lemma {:induction false} SetSumScale(s: set<int>, f: int -> real, g: int -> real, c: real)
    requires forall x :: x in s ==> g(x) == c * f(x)
    ensures SetSum(s, g) == c * SetSum(s, f)
    decreases s
  {
    if s != {} {
      var x := Pick(s);
      SetSumRemove(s, x, f);
      SetSumScale(s - {x}, f, g, c);
    }
  }

  /** A sum of zero terms is zero. */
  lemma SetSumZero(s: set<int>, f: int -> real)
    requires forall x :: x in s ==> f(x) == 0.0
    ensures SetSum(s, f) == 0.0
  {
    SetSumScale(s, f, f, 0.0);
  }

  /** A sum of non-negative terms is non-negative. */
  lemma SetSumNonNegative(s: set<int>, f: int -> real)
    requires forall x :: x in s ==> 0.0 <= f(x)
    ensures 0.0 <= SetSum(s, f)
  {
    SetSumScale(s, f, x => 0.0, 0.0);
    SetSumMono(s, x => 0.0, f);
  }

  /** Two non-negative numbers with the same square are equal. */
  lemma SquareRootUnique(r: real, a: real)
    requires 0.0 <= r && 0.0 <= a && r * r == a * a
    ensures r == a
  {
    assert (r - a) * (r + a) == r * r - a * a;
    if r + a != 0.0 {
      assert r - a == 0.0;
    }
  }

  /** The term `f` multiplied by `c`. */
  function Scaled(c: real, f: int -> real): int -> real {
    x => c * f(x)
  }

  lemma ScaledSum(s: set<int>, c: real, f: int -> real)
    ensures SetSum(s, Scaled(c, f)) == c * SetSum(s, f)
  {
    SetSumScale(s, f, Scaled(c, f), c);
  }

  /** A square is 0 only for 0. */
  lemma SquareZero(x: real)
    ensures Square(x) == 0.0 <==> x == 0.0
  {
    if Square(x) == 0.0 {
      var r := if x < 0.0 then -x else x;
      assert r * r == x * x;
      SquareRootUnique(r, 0.0);
    }
  }

  /** Termwise bounds by multiples of `f` bound the sum by the same multiples of f's sum. */
  lemma SumBetween(s: set<int>, f: int -> real, g: int -> real, lo: real, hi: real)
    requires forall x :: x in s ==> Scaled(lo, f)(x) <= g(x) <= Scaled(hi, f)(x)
    ensures lo * SetSum(s, f) <= SetSum(s, g) <= hi * SetSum(s, f)
  {
    ScaledSum(s, lo, f);
    ScaledSum(s, hi, f);
    SetSumMono(s, Scaled(lo, f), g);
    SetSumMono(s, g, Scaled(hi, f));
  }

  /** A weighted average whose terms are bounded by multiples of the weights lies within those bounds. */
  lemma AverageBetween(s: set<int>, f: int -> real, g: int -> real, lo: real, hi: real)
    requires forall x :: x in s ==> Scaled(lo, f)(x) <= g(x) <= Scaled(hi, f)(x)
    requires 0.0 < SetSum(s, f)
    ensures lo <= SetSum(s, g) / SetSum(s, f) <= hi
  {
    var num, den := SetSum(s, g), SetSum(s, f);
    SumBetween(s, f, g, lo, hi);
    assert lo * den <= num <= hi * den;
    QuotientBetween(num, den, lo, hi);
  }

  /** A non-negative weight keeps a value's bounds. */
  lemma ScaleBetween(w: real, r: real, lo: real, hi: real)
    requires 0.0 <= w && lo <= r <= hi
    ensures lo * w <= w * r <= hi * w
  {
    assert w * (r - lo) >= 0.0;
    assert w * (hi - r) >= 0.0;
  }

  /** Dividing by a positive value keeps bounds scaled by it. */
  lemma QuotientBetween(num: real, den: real, lo: real, hi: real)
    requires 0.0 < den && lo * den <= num <= hi * den
    ensures lo <= num / den <= hi
  {
    var q := num / den;
    assert q * den == num;
    assert (q - lo) * den >= 0.0;
    assert (hi - q) * den >= 0.0;
  }

  /** Go's read of a missing map key: the zero value. */
  function Lookup(m: map<int, real>, key: int): real {
    if key in m then m[key] else 0.0
  }

  lemma ElemsPrefix(s: seq<int>, i: int)
    requires 0 <= i < |s|
    ensures Elems(s[..i + 1]) == Elems(s[..i]) + {s[i]}
  {
    assert s[..i + 1] == s[..i] + [s[i]];
  }

  /** A sum over the elements of a list without repetitions grows by one term per element. */
  lemma SumOverPrefix(s: seq<int>, i: int, f: int -> real)
    requires 0 <= i < |s| && Distinct(s)
    ensures SetSum(Elems(s[..i + 1]), f) == SetSum(Elems(s[..i]), f) + f(s[i])
  {
    ElemsPrefix(s, i);
    SetSumAdd(Elems(s[..i]), s[i], f);
  }
}
