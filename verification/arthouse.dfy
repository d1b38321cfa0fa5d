/** The arthouse filter: a film stays only when it is shown in strictly more
    than `MinNumberOfCinemaShows` cinema slots. */
module Arthouse {
  import opened Films

  /** `film_is_not_arthouse`. The threshold is strict: 30 shows is arthouse,
      31 is not. */
  function FilmIsNotArthouse(f: Film): (passes: bool)
    ensures passes <==> f.info.cinemaShows >= 31
    ensures f.info.cinemaShows == 30 ==> !passes
    ensures f.info.cinemaShows == 31 ==> passes
  {
    f.info.cinemaShows > MinNumberOfCinemaShows
  }
  /** Reference definition of the filter, built up from the back as the source's
      loop appends to the end of its result list. */
  function KeepNotArthouse(films: seq<Film>): (kept: seq<Film>)
    ensures |kept| <= |films|
    ensures forall f :: f in kept <==> f in films && FilmIsNotArthouse(f)
  {
    if films == [] then []
    else
      var last := films[|films| - 1];
      KeepNotArthouse(films[..|films| - 1]) + (if FilmIsNotArthouse(last) then [last] else [])
  }

  /** `sub` can be obtained from `s` by deleting elements (order preserved).
      Matching greedily from the back decides this. */
  predicate IsSubsequence<T(==)>(sub: seq<T>, s: seq<T>)
    decreases |s|
  {
    if sub == [] then true
    else if s == [] then false
    else if sub[|sub| - 1] == s[|s| - 1] then IsSubsequence(sub[..|sub| - 1], s[..|s| - 1])
    else IsSubsequence(sub, s[..|s| - 1])
  }

  /** The filter keeps the passing films in their original order. */
  lemma {:induction false} KeepNotArthouseIsSubsequence(films: seq<Film>)
    ensures IsSubsequence(KeepNotArthouse(films), films)
  {
    if films != [] {
      var init, last := films[..|films| - 1], films[|films| - 1];
      KeepNotArthouseIsSubsequence(init);
      var k := KeepNotArthouse(init);
      if FilmIsNotArthouse(last) {
        assert KeepNotArthouse(films) == k + [last];
        assert (k + [last])[..|k|] == k;
      } else {
        assert KeepNotArthouse(films) == k;
        if k != [] {
          assert k[|k| - 1] in k;
        }
      }
    }
  }

  /** Each passing film is kept as often as it occurs; no other film is kept. */
  lemma {:induction false} KeepNotArthouseCounts(films: seq<Film>)
    ensures forall f :: multiset(KeepNotArthouse(films))[f] ==
                        if FilmIsNotArthouse(f) then multiset(films)[f] else 0
  {
    if films != [] {
      var init, last := films[..|films| - 1], films[|films| - 1];
      assert films == init + [last];
      assert multiset(films) == multiset(init) + multiset{last};
      KeepNotArthouseCounts(init);
    }
  }

  /** `exclude_arthouse_films`: the loop over the list that appends each passing
      film to a fresh list. */
  method ExcludeArthouseFilms(films: seq<Film>) returns (kept: seq<Film>)
    ensures kept == KeepNotArthouse(films)
    ensures forall f :: f in kept ==> FilmIsNotArthouse(f)
    ensures forall f :: f in films && !FilmIsNotArthouse(f) ==> f !in kept
    ensures forall f :: f in films && FilmIsNotArthouse(f) ==> f in kept
  {
    kept := [];
    var i := 0;
    while i < |films|
      invariant 0 <= i <= |films|
      invariant kept == KeepNotArthouse(films[..i])
    {
      assert films[..i + 1][..i] == films[..i];
      if FilmIsNotArthouse(films[i]) {
        kept := kept + [films[i]];
      }
      i := i + 1;
    }
    assert films[..i] == films;
  }
}
