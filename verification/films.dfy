/** The film records that flow through the pipeline and the constants of cinemas.py.

    A film is the Python pair `(title, info)` produced by `dict.items()`; `info` is the
    per-title dict built from the listings page. Enrichment adds `rating`,
    `votes_number` and `poster_url` to that dict; here the three keys travel together
    as one `Stats` value, since the source always sets all three at once, and a
    film that has them is a `RatedFilm`. */
module Films {
  import opened Wrappers

  /** Films shown in at most this many cinema slots count as arthouse. */
  const MinNumberOfCinemaShows: nat := 30
  /** Length of the ranked list that is returned. */
  const FilmsCount: nat := 10

  /** The rating as an ordered key. The source compares `float(rating)`; the
      parsing is not modelled, only the order. */
  type Rating = int

  /** What one successful lookup yields: the `kp_rating` text (or 0 when the
      element is missing), its `num_vote` attribute (possibly absent) and the
      poster URL. */
  datatype Stats = Stats(rating: Rating, votesNumber: Option<string>, posterUrl: string)

  /** The per-title dict as the listings page fills it: `cinema_shows`,
      `film_url`, `film_description`. */
  datatype FilmInfo = FilmInfo(cinemaShows: nat, filmUrl: string, filmDescription: string)

  /** A candidate film, the pair `(title, info)`. */
  datatype Film = Film(title: string, info: FilmInfo)

  /** A film whose dict has been given `rating`, `votes_number` and `poster_url`. */
  datatype RatedFilm = RatedFilm(title: string, info: FilmInfo, stats: Stats)

  /** The sort key (`film[1]['rating']`). */
  function RatingOf(f: RatedFilm): Rating {
    f.stats.rating
  }

  /** The sequence of ratings of a list of rated films. */
  function Ratings(films: seq<RatedFilm>): (rs: seq<Rating>)
    ensures |rs| == |films|
    ensures forall i :: 0 <= i < |films| ==> rs[i] == RatingOf(films[i])
  {
    seq(|films|, i requires 0 <= i < |films| => RatingOf(films[i]))
  }
}
