/** `sort_films_by_rating` and the sort-and-truncate tail of `get_top_films`.

    Python's `sorted(..., reverse=True)` is stable: films with equal ratings stay
    in their input order. The sort here is an insertion sort that inserts each
    film in front of the first one it is at least as good as, which gives the same
    order. */
module Ranking {
  import opened Films

  /** Non-increasing by rating. */
  predicate SortedByRating(s: seq<RatedFilm>)
  {
    forall i, j :: 0 <= i < j < |s| ==> RatingOf(s[i]) >= RatingOf(s[j])
  }

  /** The films of `s` rated `k`, in their order in `s`. */
  function WithRating(s: seq<RatedFilm>, k: Rating): seq<RatedFilm>
  {
    if s == [] then [] else (if RatingOf(s[0]) == k then [s[0]] else []) + WithRating(s[1..], k)
  }

  function InsertByRating(x: RatedFilm, s: seq<RatedFilm>): (r: seq<RatedFilm>)
    ensures |r| == |s| + 1
    ensures multiset(r) == multiset(s) + multiset{x}
  {
    if s == [] || RatingOf(x) >= RatingOf(s[0]) then
      assert multiset([x] + s) == multiset{x} + multiset(s);
      [x] + s
    else
      assert s == [s[0]] + s[1..];
      [s[0]] + InsertByRating(x, s[1..])
  }

  /** Inserting a film rated at most `b` into a list rated at most `b` gives a
      list rated at most `b`. */
  lemma {:induction false} InsertBounded(x: RatedFilm, s: seq<RatedFilm>, b: Rating)
    requires RatingOf(x) <= b
    requires forall i :: 0 <= i < |s| ==> RatingOf(s[i]) <= b
    ensures forall i :: 0 <= i < |InsertByRating(x, s)| ==> RatingOf(InsertByRating(x, s)[i]) <= b
  {
    if s != [] && RatingOf(x) < RatingOf(s[0]) {
      InsertBounded(x, s[1..], b);
      var r' := InsertByRating(x, s[1..]);
      assert InsertByRating(x, s) == [s[0]] + r';
    }
  }

  /** Inserting into a sorted list keeps it sorted. */
  lemma {:induction false} InsertKeepsSorted(x: RatedFilm, s: seq<RatedFilm>)
    requires SortedByRating(s)
    ensures SortedByRating(InsertByRating(x, s))
  {
    if s != [] && RatingOf(x) < RatingOf(s[0]) {
      var r' := InsertByRating(x, s[1..]);
      InsertKeepsSorted(x, s[1..]);
      InsertBounded(x, s[1..], RatingOf(s[0]));
      var r := [s[0]] + r';
      assert r == InsertByRating(x, s);
      assert forall i :: 0 < i < |r| ==> r[i] == r'[i - 1];
    }
  }

  /** `sort_films_by_rating`: a permutation of its input, non-increasing by rating. */
  function SortFilmsByRating(s: seq<RatedFilm>): (r: seq<RatedFilm>)
    ensures |r| == |s|
    ensures multiset(r) == multiset(s)
    ensures SortedByRating(r)
  {
    if s == [] then []
    else
      assert s == [s[0]] + s[1..];
      var rest := SortFilmsByRating(s[1..]);
      InsertKeepsSorted(s[0], rest);
      InsertByRating(s[0], rest)
  }

  lemma WithRatingCons(y: RatedFilm, t: seq<RatedFilm>, k: Rating)
    ensures WithRating([y] + t, k) == (if RatingOf(y) == k then [y] else []) + WithRating(t, k)
  {
    assert ([y] + t)[0] == y;
    assert ([y] + t)[1..] == t;
  }

  /** Inserting `x` puts it in front of every film of its own rating. */
  lemma {:induction false} InsertKeepsTies(x: RatedFilm, s: seq<RatedFilm>, k: Rating)
    ensures WithRating(InsertByRating(x, s), k) ==
            (if RatingOf(x) == k then [x] else []) + WithRating(s, k)
  {
    if s == [] || RatingOf(x) >= RatingOf(s[0]) {
      WithRatingCons(x, s, k);
    } else {
      var r' := InsertByRating(x, s[1..]);
      assert InsertByRating(x, s) == [s[0]] + r';
      InsertKeepsTies(x, s[1..], k);
      WithRatingCons(s[0], r', k);
      WithRatingCons(s[0], s[1..], k);
      assert [s[0]] + s[1..] == s;
      if RatingOf(s[0]) == k {
        assert RatingOf(x) != k;
        assert WithRating(s, k) == [s[0]] + WithRating(s[1..], k);
        assert WithRating(r', k) == WithRating(s[1..], k);
      } else {
        assert WithRating(s, k) == WithRating(s[1..], k);
      }
    }
  }

  /** Stability: for every rating, the films with that rating appear in the
      result in the same order as in the input. */
  lemma {:induction false} SortIsStable(s: seq<RatedFilm>, k: Rating)
    ensures WithRating(SortFilmsByRating(s), k) == WithRating(s, k)
  {
    if s != [] {
      SortIsStable(s[1..], k);
      InsertKeepsTies(s[0], SortFilmsByRating(s[1..]), k);
    }
  }

  function Min(a: nat, b: nat): nat {
    if a < b then a else b
  }

  /** A prefix of a sorted list is sorted, is part of the list, and is rated at
      least as high as everything after it. */
  lemma SortedPrefix(s: seq<RatedFilm>, n: nat)
    requires SortedByRating(s) && n <= |s|
    ensures SortedByRating(s[..n])
    ensures multiset(s[..n]) <= multiset(s)
    ensures forall i, j :: 0 <= i < n <= j < |s| ==> RatingOf(s[..n][i]) >= RatingOf(s[j])
  {
    assert s == s[..n] + s[n..];
    assert multiset(s) == multiset(s[..n]) + multiset(s[n..]);
  }

  /** The tail of `get_top_films`: sort, then keep the first `FilmsCount`. The
      result is the best `min(FilmsCount, |results|)` films: no film left out is
      rated above a film kept. */
  function TopFilms(results: seq<RatedFilm>): (top: seq<RatedFilm>)
    ensures |top| == Min(FilmsCount, |results|)
    ensures SortedByRating(top)
    ensures multiset(top) <= multiset(results)
    ensures var sorted := SortFilmsByRating(results);
            && top == sorted[..|top|]
            && forall i, j :: 0 <= i < |top| <= j < |sorted| ==> RatingOf(top[i]) >= RatingOf(sorted[j])
  {
    var sorted := SortFilmsByRating(results);
    var n := Min(FilmsCount, |results|);
    SortedPrefix(sorted, n);
    sorted[..n]
  }

  /** `SortedByRating`, read off the ratings alone. */
  predicate NonIncreasing(xs: seq<Rating>) {
    forall i, j :: 0 <= i < j < |xs| ==> xs[i] >= xs[j]
  }

  /** A list of films is sorted by rating exactly when its ratings read
      non-increasing. */
  lemma SortedIffRatingsNonIncreasing(s: seq<RatedFilm>)
    ensures SortedByRating(s) <==> NonIncreasing(Ratings(s))
  {
    var rs := Ratings(s);
    if NonIncreasing(rs) {
      forall i, j | 0 <= i < j < |s| ensures RatingOf(s[i]) >= RatingOf(s[j]) {
        assert rs[i] >= rs[j];
      }
    }
    if SortedByRating(s) {
      forall i, j | 0 <= i < j < |rs| ensures rs[i] >= rs[j] {
        assert RatingOf(s[i]) >= RatingOf(s[j]);
      }
    }
  }

  /** In a non-increasing sequence the head is the largest element. */
  lemma HeadIsMax(xs: seq<Rating>, v: Rating)
    requires NonIncreasing(xs) && v in multiset(xs)
    ensures |xs| > 0 && v <= xs[0]
  {
    assert v in xs;
    var j :| 0 <= j < |xs| && xs[j] == v;
  }

  /** Two non-increasing sequences with the same elements are equal. */
  lemma {:induction false} NonIncreasingUnique(xs: seq<Rating>, ys: seq<Rating>)
    requires NonIncreasing(xs) && NonIncreasing(ys)
    requires multiset(xs) == multiset(ys)
    ensures xs == ys
  {
    if xs == [] {
      assert |ys| == |multiset(ys)| == 0;
    } else {
      HeadIsMax(ys, xs[0]);
      HeadIsMax(xs, ys[0]);
      var xs', ys' := xs[1..], ys[1..];
      assert xs == [xs[0]] + xs';
      assert ys == [ys[0]] + ys';
      assert multiset(xs') == multiset(ys') by {
        assert xs[0] == ys[0];
        assert multiset(xs') == multiset(xs) - multiset{xs[0]};
        assert multiset(ys') == multiset(ys) - multiset{ys[0]};
      }
      assert NonIncreasing(xs');
      assert NonIncreasing(ys');
      NonIncreasingUnique(xs', ys');
    }
  }

  lemma MultisetRemove<T>(b: seq<T>, j: int)
    requires 0 <= j < |b|
    ensures multiset(b) == multiset(b[..j] + b[j + 1..]) + multiset{b[j]}
  {
    assert b == b[..j] + [b[j]] + b[j + 1..];
  }

  /** The ratings of a list with one film taken out. */
  lemma RatingsWithout(b: seq<RatedFilm>, j: int)
    requires 0 <= j < |b|
    ensures Ratings(b[..j] + b[j + 1..]) == Ratings(b)[..j] + Ratings(b)[j + 1..]
  {
    var b' := b[..j] + b[j + 1..];
    var rs, rs' := Ratings(b), Ratings(b');
    var t := rs[..j] + rs[j + 1..];
    forall i | 0 <= i < |b'| ensures rs'[i] == t[i] {
      if i < j {
        assert b'[i] == b[i];
      } else {
        assert b'[i] == b[i + 1];
      }
    }
  }

  /** Taking one film out of a list takes its rating out of the list's ratings. */
  lemma RatingsRemove(b: seq<RatedFilm>, j: int)
    requires 0 <= j < |b|
    ensures multiset(b[..j] + b[j + 1..]) == multiset(b) - multiset{b[j]}
    ensures multiset(Ratings(b)) == multiset(Ratings(b[..j] + b[j + 1..])) + multiset{RatingOf(b[j])}
  {
    MultisetRemove(b, j);
    MultisetRemove(Ratings(b), j);
    RatingsWithout(b, j);
  }

  /** Permuting films permutes their ratings. */
  lemma {:induction false} PermutationRatings(a: seq<RatedFilm>, b: seq<RatedFilm>)
    requires multiset(a) == multiset(b)
    ensures multiset(Ratings(a)) == multiset(Ratings(b))
  {
    if a == [] {
      assert |b| == |multiset(b)| == 0;
    } else {
      assert a[0] in multiset(b);
      var j :| 0 <= j < |b| && b[j] == a[0];
      var a', b' := a[1..], b[..j] + b[j + 1..];
      RatingsRemove(b, j);
      assert a == [a[0]] + a';
      assert multiset(a') == multiset(a) - multiset{a[0]};
      PermutationRatings(a', b');
      RatingsRemove(a, 0);
      assert a[..0] + a[1..] == a';
    }
  }

  /** The ratings of a sorted list, and of its prefixes, read non-increasing. */
  lemma SortedRatings(s: seq<RatedFilm>, n: nat)
    requires SortedByRating(s) && n <= |s|
    ensures NonIncreasing(Ratings(s))
    ensures Ratings(s[..n]) == Ratings(s)[..n]
  {
    SortedIffRatingsNonIncreasing(s);
  }

  /** The ranked list's ratings depend only on which films were collected, not
      on the order they were collected in; only films with equal ratings may
      trade places (or, at the cut, trade membership). */
  lemma TopRatingsIndependentOfOrder(a: seq<RatedFilm>, b: seq<RatedFilm>)
    requires multiset(a) == multiset(b)
    ensures Ratings(TopFilms(a)) == Ratings(TopFilms(b))
  {
    var sa, sb := SortFilmsByRating(a), SortFilmsByRating(b);
    assert |a| == |b| by {
      assert |multiset(a)| == |multiset(b)|;
    }
    var n := Min(FilmsCount, |a|);
    PermutationRatings(sa, sb);
    SortedRatings(sa, n);
    SortedRatings(sb, n);
    NonIncreasingUnique(Ratings(sa), Ratings(sb));
  }
}
