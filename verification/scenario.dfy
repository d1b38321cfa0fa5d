/** A worked instance of the whole pipeline: three films shown 10, 50 and 60
    times, a lookup that rates every title, and any processing order. */
module Scenario {
  import opened Wrappers
  import opened Films
  import opened Arthouse
  import opened Ranking
  import opened WorkerPool

  const FilmA: Film := Film("A", FilmInfo(10, "/a", ""))
  const FilmB: Film := Film("B", FilmInfo(50, "/b", ""))
  const FilmC: Film := Film("C", FilmInfo(60, "/c", ""))

  /** Ratings scaled by ten: B is rated 6.5, C is rated 9.1; A would be rated
      9.9 if it got through the filter. */
  function ScenarioLookup(title: string): Option<Stats> {
    if title == "A" then Some(Stats(99, None, ""))
    else if title == "B" then Some(Stats(65, None, ""))
    else Some(Stats(91, None, ""))
  }

  lemma ScenarioKept()
    ensures KeepNotArthouse([FilmA, FilmB, FilmC]) == [FilmB, FilmC]
  {
    assert [FilmA][..0] == [];
    assert KeepNotArthouse([FilmA]) == [];
    assert [FilmA, FilmB][..1] == [FilmA];
    assert KeepNotArthouse([FilmA, FilmB]) == [FilmB];
    assert [FilmA, FilmB, FilmC][..2] == [FilmA, FilmB];
  }

  lemma ScenarioEnriched()
    ensures EnrichAll([FilmB, FilmC], ScenarioLookup) ==
              [RatedFilm("B", FilmB.info, Stats(65, None, "")), RatedFilm("C", FilmC.info, Stats(91, None, ""))]
  {
    assert [FilmB][..0] == [];
    assert EnrichAll([FilmB], ScenarioLookup) == [RatedFilm("B", FilmB.info, Stats(65, None, ""))];
    assert [FilmB, FilmC][..1] == [FilmB];
  }

  lemma ScenarioExpected()
    ensures Expected([FilmA, FilmB, FilmC], ScenarioLookup) ==
              [RatedFilm("B", FilmB.info, Stats(65, None, "")), RatedFilm("C", FilmC.info, Stats(91, None, ""))]
  {
    ScenarioKept();
    ScenarioEnriched();
  }

  /** Whatever the order the workers take the films in, the ranked list is the
      60-show film rated 9.1 followed by the 50-show film rated 6.5; the 10-show
      film is filtered out despite its higher rating. */
  lemma EndToEnd(schedule: seq<nat>)
    requires |schedule| == 3 && ScheduleFits(schedule, 3)
    ensures GetTopFilms([FilmA, FilmB, FilmC], schedule, ScenarioLookup) ==
              [RatedFilm("C", FilmC.info, Stats(91, None, "")), RatedFilm("B", FilmB.info, Stats(65, None, ""))]
  {
    ScenarioExpected();
    RanksExpectedPair([FilmA, FilmB, FilmC], schedule, ScenarioLookup,
                      RatedFilm("C", FilmC.info, Stats(91, None, "")), RatedFilm("B", FilmB.info, Stats(65, None, "")));
  }

  /** When the batch should produce exactly two films with different ratings,
      every processing order ranks the better one first. */
  lemma RanksExpectedPair(films: seq<Film>, schedule: seq<nat>, lookup: string -> Option<Stats>, x: RatedFilm, y: RatedFilm)
    requires |schedule| == |films| && ScheduleFits(schedule, |films|)
    requires Expected(films, lookup) == [y, x] && RatingOf(x) > RatingOf(y)
    ensures GetTopFilms(films, schedule, lookup) == [x, y]
  {
    JoinCollectsExactly(films, schedule, lookup);
    var results := Join(films, schedule, lookup).results;
    assert multiset(results) == multiset{x, y};
    TopOfTwo(results, x, y);
  }

  /** Two films with different ratings, collected in either order, rank the
      better one first. */
  lemma TopOfTwo(results: seq<RatedFilm>, x: RatedFilm, y: RatedFilm)
    requires multiset(results) == multiset{x, y} && RatingOf(x) > RatingOf(y)
    ensures TopFilms(results) == [x, y]
  {
    var sorted := SortFilmsByRating(results);
    assert |sorted| == 2 by {
      assert |multiset(sorted)| == 2;
    }
    assert sorted[0] in multiset(sorted) && sorted[1] in multiset(sorted);
    assert sorted == [sorted[0], sorted[1]];
    assert RatingOf(sorted[0]) >= RatingOf(sorted[1]);
    assert multiset(sorted) == multiset{sorted[0], sorted[1]};
    assert x in multiset{sorted[0], sorted[1]} && y in multiset{sorted[0], sorted[1]};
    assert sorted[0] in multiset{x, y} && sorted[1] in multiset{x, y};
  }
}
