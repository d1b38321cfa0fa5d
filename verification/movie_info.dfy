/** One film's lookup: `fetch_movie_info` with its network calls as parameters,
    the `kp_rating` element readers, and `get_film_rating_and_votes_number`, which
    merges a lookup result into the film record. */
module MovieInfo {
  import opened Wrappers
  import opened Films
  import opened FilmId
  import opened Poster

  /** The `kp_rating` element of a rating page: its text and its `num_vote`
      attribute (which `.get` may find missing). */
  datatype KpRating = KpRating(text: Rating, numVote: Option<string>)

  /** `find_rating`: the element's text, or 0 when the page has no such element. */
  function FindRating(element: Option<KpRating>): (r: Rating)
    ensures element.None? ==> r == 0
    ensures element.Some? ==> r == element.value.text
  {
    match element
    case Some(e) => e.text
    case None => 0
  }

  /** `find_votes_number`: the `num_vote` attribute, or None without the element. */
  function FindVotesNumber(element: Option<KpRating>): (v: Option<string>)
    ensures element.None? ==> v.None?
    ensures element.Some? ==> v == element.value.numVote
  {
    match element
    case Some(e) => e.numVote
    case None => None
  }

  /** `fetch_movie_info`. `searchUrl` is the redirected URL of the search request,
      or None when that request timed out or could not connect; `ratingPage` gives
      the `kp_rating` element of `rating.kinopoisk.ru/<id text>.xml`. The only
      failure is the failed search request: an unresolved id still goes on to the
      rating fetch (as the text `None`) and gets the fallback poster. */
  function FetchMovieInfo(searchUrl: Option<string>, ratingPage: string -> Option<KpRating>): (r: Option<Stats>)
    ensures r.None? <==> searchUrl.None?
    ensures r.Some? ==>
              var id := FindFilmIdInSearchResponse(searchUrl.value);
              var element := ratingPage(FormatId(id));
              && (element.None? ==> r.value.rating == 0 && r.value.votesNumber.None?)
              && (element.Some? ==> r.value.rating == element.value.text && r.value.votesNumber == element.value.numVote)
              && r.value.posterUrl == FindFilmPoster(id)
  {
    match searchUrl
    case None => None
    case Some(url) =>
      var id := FindFilmIdInSearchResponse(url);
      var element := ratingPage(FormatId(id));
      Some(Stats(FindRating(element), FindVotesNumber(element), FindFilmPoster(id)))
  }

  /** A search that finds no film id is still a successful lookup, with the
      `film_big/None.jpg` poster. */
  lemma UnresolvedIdIsNotAbandoned(url: string, ratingPage: string -> Option<KpRating>)
    requires FindFilmIdInSearchResponse(url).None?
    ensures FetchMovieInfo(Some(url), ratingPage).Some?
    ensures FetchMovieInfo(Some(url), ratingPage).value.posterUrl == LargePosterPrefix + "None" + JpgSuffix
  {
    PosterOfMissingId();
  }

  /** A resolved id gets the iphone360 poster of that id. */
  lemma ResolvedIdGetsIphonePoster(url: string, ratingPage: string -> Option<KpRating>)
    requires FindFilmIdInSearchResponse(url).Some?
    ensures FetchMovieInfo(Some(url), ratingPage).Some?
    ensures FetchMovieInfo(Some(url), ratingPage).value.posterUrl ==
              IphonePosterPrefix + FindFilmIdInSearchResponse(url).value + JpgSuffix
  {
    PosterOfResolvedId(FindFilmIdInSearchResponse(url).value);
  }

  /** A rating page without a `kp_rating` element degrades to rating 0 and no
      vote count; the film is kept. */
  lemma MissingRatingDegradesToZero(url: string, ratingPage: string -> Option<KpRating>)
    requires ratingPage(FormatId(FindFilmIdInSearchResponse(url))).None?
    ensures FetchMovieInfo(Some(url), ratingPage).Some?
    ensures FetchMovieInfo(Some(url), ratingPage).value.rating == 0
    ensures FetchMovieInfo(Some(url), ratingPage).value.votesNumber.None?
  {
  }

  /** How one `requests` call ends: with a response, with `Timeout` or
      `ConnectionError` (the two exceptions cinemas.py:144 catches), or with any
      other `requests` exception. A call that never returns is not modelled. */
  datatype Request<T> = Answered(value: T) | TimedOutOrRefused | OtherError

  /** A Python call that returns a value or raises. */
  datatype Outcome<T> = Returned(value: T) | Raised

  /** The id text the rating page is requested for, given the search's URL. */
  function RatingKey(url: string): string {
    FormatId(FindFilmIdInSearchResponse(url))
  }

  /** The rating pages as `FetchMovieInfo` sees them when every answered request
      is read and a failed one reads as a page without `kp_rating`. */
  function RatingPageOf(ratingRequest: string -> Request<Option<KpRating>>): string -> Option<KpRating> {
    id => if ratingRequest(id).Answered? then ratingRequest(id).value else None
  }

  /** `fetch_movie_info` as written. Only `Timeout` and `ConnectionError` of the
      search request are caught; any other failure of the search, and every
      failure of the rating-page request, raises out of the function. */
  function FetchMovieInfoAsWritten(search: Request<string>, ratingRequest: string -> Request<Option<KpRating>>): (o: Outcome<Option<Stats>>)
    ensures o == Returned(None) <==> search.TimedOutOrRefused?
    ensures o.Raised? <==>
              search.OtherError? || (search.Answered? && !ratingRequest(RatingKey(search.value)).Answered?)
    ensures o.Returned? && o.value.Some? ==>
              search.Answered? && o.value == FetchMovieInfo(Some(search.value), RatingPageOf(ratingRequest))
  {
    match search
    case TimedOutOrRefused => Returned(None)
    case OtherError => Raised
    case Answered(url) =>
      var id := FindFilmIdInSearchResponse(url);
      match ratingRequest(FormatId(id))
      case Answered(element) =>
        Returned(Some(Stats(FindRating(element), FindVotesNumber(element), FindFilmPoster(id))))
      case _ => Raised
  }

  /** `fetch_movie_info` with both requests guarded, as its `try` evidently
      intends: a failed request on either stage drops the film. When both
      requests succeed it is exactly `FetchMovieInfo`. */
  function FetchMovieInfoGuarded(search: Request<string>, ratingRequest: string -> Request<Option<KpRating>>): (r: Option<Stats>)
    ensures r.None? <==> !search.Answered? || !ratingRequest(RatingKey(search.value)).Answered?
    ensures r.Some? ==> r == FetchMovieInfo(Some(search.value), RatingPageOf(ratingRequest))
  {
    match FetchMovieInfoAsWritten(search, ratingRequest)
    case Raised => None
    case Returned(stats) => stats
  }

  /** The two versions differ exactly when a request fails with an exception the
      written code does not catch: it raises, the guarded one drops the film. */
  lemma RatingFailureRaises(url: string, ratingRequest: string -> Request<Option<KpRating>>)
    requires !ratingRequest(RatingKey(url)).Answered?
    ensures FetchMovieInfoAsWritten(Answered(url), ratingRequest) == Raised
    ensures FetchMovieInfoGuarded(Answered(url), ratingRequest) == None
  {
  }

  /** The lookup oracle the workers use: `fetch_movie_info(title)` with both
      requests guarded and passed in as parameters. */
  function LookupVia(search: string -> Request<string>, ratingRequest: string -> Request<Option<KpRating>>): (lookup: string -> Option<Stats>)
    ensures forall t :: lookup(t).None? <==>
              !search(t).Answered? || !ratingRequest(RatingKey(search(t).value)).Answered?
    ensures forall t :: lookup(t).Some? ==>
              lookup(t) == FetchMovieInfo(Some(search(t).value), RatingPageOf(ratingRequest))
  {
    title => FetchMovieInfoGuarded(search(title), ratingRequest)
  }
  /** `get_film_rating_and_votes_number`: None when the lookup of the film's title
      failed; otherwise the same film with `rating`, `votes_number` and
      `poster_url` set from the lookup and every other field unchanged. */
  function GetFilmRatingAndVotesNumber(film: Film, lookup: string -> Option<Stats>): (r: Option<RatedFilm>)
    ensures r.None? <==> lookup(film.title).None?
    ensures r.Some? ==> Some(r.value.stats) == lookup(film.title)
    ensures r.Some? ==> Film(r.value.title, r.value.info) == film
  {
    match lookup(film.title)
    case None => None
    case Some(stats) => Some(RatedFilm(film.title, film.info, stats))
  }
}
