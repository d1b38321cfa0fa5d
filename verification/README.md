# Cinema top-list core, modelled in Dafny

`cinemas.py` builds a list of the best-rated films now showing in Moscow
cinemas. It works in four steps:

1. It reads the afisha.ru schedule into a map from film title to
   `{cinema_shows, film_url, film_description}`.
2. It queues every film for a pool of worker threads. Each worker does the
   following for each film it takes:
   - drops "arthouse" films, meaning those shown in 30 cinemas or fewer;
   - looks the title up on kinopoisk.ru: a search request resolves the
     film id, and a rating request reads the `kp_rating` element;
   - derives a poster URL from the id;
   - appends the enriched film to a shared list.
3. After `queue.join()` the list is sorted by rating, best first.
4. The first ten films are kept.

This project models the decision logic of that pipeline. Network requests
become parameters. The search request becomes its outcome: the redirected
URL, a caught `Timeout`/`ConnectionError`, or another `requests` exception.
The rating request becomes a function from id text to its outcome, the
parsed `kp_rating` element or an exception. The thread pool becomes a
sequential state machine.

Modules:

- `Wrappers`: `Option`.
- `Films`:
  - the records: a film, its listing info, and the lookup statistics;
  - the constants `MIN_NUMBER_OF_CINEMA_SHOWS` (30) and `FILMS_COUNT` (10).
- `Listing`: `get_films_list`, which turns the title map into a list of
  `(title, info)` pairs.
- `Arthouse`: `film_is_not_arthouse` and `exclude_arthouse_films`.
- `FilmId`: the regular expression `(?<=/film/)(\d+)`, written as a scan
  over the URL.
- `Poster`: `find_film_poster`, including its test for the substring
  `"None"`.
- `MovieInfo`:
  - `find_rating` and `find_votes_number`;
  - `fetch_movie_info`, in three versions: with the request outcomes as
    parameters, as written with its exception path, and guarded;
  - `get_film_rating_and_votes_number`.
- `Ranking`:
  - `sort_films_by_rating`, a stable sort, best rating first;
  - the cut to `FILMS_COUNT` at the end of `get_top_films`.
- `WorkerPool`:
  - `CinemaWorker.run` as one step per queue item: take the item, filter
    it, look it up, append the result, call `task_done`;
  - `queue.put` of every film, then `queue.join`;
  - the whole of `get_top_films` after the listing is read.
- `Scenario`: one worked instance of the pipeline.

The pool model works as follows:

- A pool state holds four things: the queued films, the count of
  unfinished tasks, the collected results, and the films taken so far.
- A schedule says which queued film each successive worker iteration
  takes. Any queued film may be taken next, so every order that real
  threads can produce is covered.
- The lookup is an oracle from title to `Option<Stats>`.

## Model

| member | source | states |
|---|---|---|
| Arthouse.FilmIsNotArthouse | cinemas.py:182-183 | The filter's threshold is strict at 30 shows: 30 is excluded, 31 is kept, and a film is kept iff it has at least 31 shows. |
| Arthouse.KeepNotArthouse | cinemas.py:186-191 | The filtered list is no longer than the input and contains exactly those input films that pass `film_is_not_arthouse`. |
| Arthouse.KeepNotArthouseIsSubsequence | cinemas.py:186-191 | The filtered list keeps the input order: it is a subsequence of the input. |
| Arthouse.KeepNotArthouseCounts | cinemas.py:186-191 | Each passing film is kept as many times as it occurs; each failing film is dropped. |
| Arthouse.ExcludeArthouseFilms | cinemas.py:186-191 | The append loop builds exactly the filtered list. Every kept film passes, every dropped film fails, and every passing film is kept. |
| FilmId.DigitRunEnd | cinemas.py:95 | `\d+` takes the maximal run of digits: every character in the run is a digit, and the run stops at the end of the URL or at a non-digit. |
| FilmId.SearchFrom | cinemas.py:95 | The scan finds the leftmost position where `/film/` is followed by a digit, or reports that no such position exists. |
| FilmId.FindFilmIdInSearchResponse | cinemas.py:94-99 | The result is None iff no `/film/` in the URL is followed by a digit. Otherwise it is the non-empty, all-digit, maximal run right after the leftmost such `/film/`. |
| FilmId.FilmIdRoundTrip | cinemas.py:94-99 | Take a URL made of a digit-free prefix, `/film/`, a digit string, and a tail that does not start with a digit. The function extracts exactly that digit string. |
| Poster.FormatId | cinemas.py:103 | `%s` formats a missing id as the text `None` and a present id as itself. |
| Poster.IphonePrefixFreeOfCapitalN | cinemas.py:103-104 | The iphone360 URL's prefix contains no capital N. |
| Poster.IphoneUrlContainsNoneIffId | cinemas.py:103-104 | The formatted iphone360 URL contains `None` exactly when the formatted id does: the template adds no `None` of its own. |
| Poster.PosterChoice | cinemas.py:102-107 | Every id gets the film_big URL exactly when it is missing or its text contains `None`, and the iphone360 URL otherwise. |
| Poster.FindFilmPoster | cinemas.py:102-107 | The result is the iphone360 URL or the film_big URL of the formatted id, and the formatted id appears in it verbatim. |
| Poster.PosterOfResolvedId | cinemas.py:102-107 | An all-digit id gets `https://st.kp.yandex.net/images/film_iphone/iphone360_<id>.jpg`. |
| Poster.PosterOfMissingId | cinemas.py:102-106 | A missing id, formatted as `None`, gets `https://www.kinopoisk.ru/images/film_big/None.jpg`. |
| Poster.NoneTextIsLikeMissingId | cinemas.py:104-106 | An id whose text is `None` cannot be told apart from a missing id. |
| MovieInfo.FetchMovieInfo | cinemas.py:136-150 | The lookup fails only when the search request failed. Otherwise: the rating and vote count come from the `kp_rating` element, or are 0 and None without it; the poster comes from the resolved id. |
| MovieInfo.UnresolvedIdIsNotAbandoned | cinemas.py:146-148 | A search whose URL yields no id still succeeds, and gets the film_big `None.jpg` poster. |
| MovieInfo.ResolvedIdGetsIphonePoster | cinemas.py:146-148 | A search that resolves an id succeeds, and gets the iphone360 poster of that id. |
| MovieInfo.FindRating | cinemas.py:112-117 | The rating is the `kp_rating` element's text, or 0 when the page has no such element. |
| MovieInfo.FindVotesNumber | cinemas.py:120-125 | The vote count is the element's `num_vote` attribute, or None when the page has no such element. |
| MovieInfo.MissingRatingDegradesToZero | cinemas.py:112-125 | A rating page without a `kp_rating` element gives rating 0 and no vote count, and the film is still returned. |
| MovieInfo.FetchMovieInfoAsWritten | cinemas.py:136-150 | As written, the lookup returns None iff the search ended in `Timeout` or `ConnectionError`. It raises iff the search ended in any other exception, or the search succeeded and the unguarded rating-page request then failed. Otherwise it agrees with `FetchMovieInfo`. |
| MovieInfo.FetchMovieInfoGuarded | cinemas.py:141-145 | With both requests guarded, the lookup fails iff either request failed. When it succeeds, it agrees with `FetchMovieInfo`. |
| MovieInfo.RatingFailureRaises | cinemas.py:128-147 | When the rating-page request fails, the code as written raises and the guarded version drops the film. |
| MovieInfo.LookupVia | cinemas.py:136-150 | The workers' lookup of a title, with both requests guarded, fails iff either request for that title failed. Otherwise it is `FetchMovieInfo` on the search's URL. |
| MovieInfo.GetFilmRatingAndVotesNumber | cinemas.py:153-160 | The merge returns None iff the lookup of the title returned None. Otherwise it returns the lookup's statistics with the title and listing info unchanged. |
| Listing.FilmsToDict | cinemas.py:165-166 | The keys of the map rebuilt from a list of pairs are exactly the titles in the list. |
| Listing.FilmsToDictAgrees | cinemas.py:165-166 | Take pairs whose info agrees with a map. The map rebuilt from those pairs agrees with it on every key. |
| Listing.ListedPairsReadBack | cinemas.py:163-167 | Reading the listed pairs back into a map gives the original map. |
| Listing.GetFilmsList | cinemas.py:163-167 | There is one pair per map entry, in the map's key order, each with that key's info, and the titles are distinct. These are the hypotheses of `ListedPairsReadBack`, so the list reads back as the original map. |
| Ranking.InsertByRating | cinemas.py:179 | Inserting a film adds exactly that film: the length grows by one and the multiset gains it. |
| Ranking.InsertKeepsSorted | cinemas.py:179 | Inserting a film into a list sorted best-first keeps the list sorted. |
| Ranking.SortFilmsByRating | cinemas.py:178-179 | The sort returns a permutation of its input, non-increasing by rating. |
| Ranking.InsertKeepsTies | cinemas.py:179 | An inserted film lands ahead of the films with its own rating, and their order is unchanged. |
| Ranking.SortIsStable | cinemas.py:178-179 | For every rating, the films with that rating keep their input order, as Python's stable `sorted(..., reverse=True)` does. |
| Ranking.SortedPrefix | cinemas.py:54 | A prefix of a sorted list is sorted, is part of the list, and is rated at least as high as everything after it. |
| Ranking.TopFilms | cinemas.py:53-54 | Sorting and cutting give `min(10, n)` films. They are the prefix of the sorted list, sorted, drawn from the results, and no film left out is rated above a film kept. |
| Ranking.TopRatingsIndependentOfOrder | cinemas.py:53-54 | Two orderings of the same results give the same ranked ratings. |
| WorkerPool.PutAll | cinemas.py:50-51 | Queuing the films appends them in order and adds one unfinished task per film. |
| WorkerPool.WorkerStep | cinemas.py:29-36 | One iteration takes one queued film and marks one task done. It appends a result iff the film passes the filter and its lookup succeeds. |
| WorkerPool.Run | cinemas.py:28-36 | After `k` iterations, `k` fewer films are queued and `k` fewer tasks are unfinished. |
| WorkerPool.Handle | cinemas.py:31-35 | One iteration appends at most one film. It appends iff the film passes the filter and its lookup succeeds, and what it appends is the merged record. |
| WorkerPool.EnrichAll | cinemas.py:153-160 | The reference enrichment is no longer than its input, because failed lookups are dropped. |
| WorkerPool.HandleIsExpected | cinemas.py:31-35 | What one iteration appends for a film equals the reference result for that film alone. |
| WorkerPool.StepKeepsAccount | cinemas.py:29-36 | Each iteration keeps two invariants. Results collected plus results still due from the queue is constant. Every film is either still queued or taken. |
| WorkerPool.RunKeepsAccount | cinemas.py:28-36 | Both accounting invariants hold across any number of iterations, in any order. |
| WorkerPool.Join | cinemas.py:50-52 | Once every queued film has been processed, the queue is empty and no task is unfinished, so `join` returns. |
| WorkerPool.JoinCollectsExactly | cinemas.py:50-52 | At `join`, every film was taken exactly once. The results are a permutation of the filtered films whose lookup succeeded, each merged with its statistics. |
| WorkerPool.ExpectedMembers | cinemas.py:31-35 | A film is in the expected results iff it comes from an input film that passes the filter and whose lookup returned its statistics. |
| WorkerPool.EnrichAllMembers | cinemas.py:153-160 | A film is in the reference enrichment iff it comes from an input film whose lookup returned its statistics. |
| WorkerPool.GetTopFilms | cinemas.py:39-54 | The top list has `min(10, number of expected results)` films, is sorted best-first, and is drawn from the expected results. |
| WorkerPool.OrderIndependence | cinemas.py:45-54 | Any two processing orders collect the same multiset of results and give the same ranked ratings. |
| WorkerPool.WorkerStepAsWritten | cinemas.py:28-36 | As written, an iteration whose lookup raises takes the film but never calls `task_done`. Any other iteration marks its task done. |
| WorkerPool.StepAsWrittenAccount | cinemas.py:28-36 | Each as-written iteration keeps the film account. It also keeps constant the unfinished tasks minus queued films minus raised lookups. |
| WorkerPool.RunAsWritten | cinemas.py:28-36 | As written, the iterations dequeue one film each and never leave fewer unfinished tasks than queued films. |
| WorkerPool.RunAsWrittenAccount | cinemas.py:28-36 | Both as-written invariants hold across any number of iterations. |
| WorkerPool.AsWrittenUnfinishedCount | cinemas.py:28-52 | Start from the pool `PutAll` builds: every film queued, one unfinished task each. As written, after any part of the work, including a run cut short because every worker thread has died, the unfinished count is the queued films plus the raised lookups. So `join` returns only if nothing is queued and nothing raised. |
| WorkerPool.AsWrittenJoinBlocks | cinemas.py:52 | Start from the same pool. As written, if the workers take every film and one film's lookup raises, the queue is empty but a task stays unfinished, so `queue.join()` never returns. |
| WorkerPool.GuardedJoinReturns | cinemas.py:50-52 | With the guarded lookup, the same inputs reach `join` with every task done, and collect exactly the expected results. |
| Scenario.ScenarioKept | cinemas.py:31 | Of three films shown 10, 50 and 60 times, the filter keeps the last two. |
| Scenario.ScenarioExpected | cinemas.py:31-35 | Those two films, looked up, are the expected results. |
| Scenario.TopOfTwo | cinemas.py:53-54 | Two collected films with different ratings rank best first, in either collection order. |
| Scenario.RanksExpectedPair | cinemas.py:50-54 | When two films with different ratings are expected, every processing order ranks the better one first. |
| Scenario.EndToEnd | cinemas.py:39-54 | With ratings 6.5 and 9.1, scaled to 65 and 91, any processing order gives [the 9.1 film, the 6.5 film]. The 10-show film is filtered out, even though it would rate 9.9. |

## Left out

- HTTP requests: `fetch_afisha_page`, the requests in `fetch_movie_info`,
  and `fetch_movie_rating_and_votes_number`. Sessions, headers and
  timeouts go too. These are I/O. Each request becomes its outcome: a
  response, a `Timeout`/`ConnectionError`, or another exception.
- HTML and XML parsing with BeautifulSoup and lxml: `parse_page`,
  `parse_afisha_list`, `count_cinema_shows`, `get_film_title`,
  `get_film_url`, `find_film_description`, and the element searches in
  `find_rating` and `find_votes_number`. These are calls into foreign
  libraries. The listing is an input, and the `kp_rating` element is an
  `Option`.
- Threads, `Queue`, daemon workers and the blocking of `queue.join()`.
  These are concurrency primitives. Their effect is modelled as a
  sequential state machine that may take any queued film next.
  `NUMBER_OF_ASYNC_WORKERS` is not modelled. On the guarded path it only
  sets how many iterations run at once. On the as-written path a raise ends
  its thread. Once that many lookups have raised, no worker is left and the
  remaining films stay queued. The model does not count live threads.
  Instead, `WorkerPool.AsWrittenUnfinishedCount` holds after any prefix of
  a schedule, so it covers those stalled runs too.
- Unsynchronised appends to the shared results list. The model treats
  each append as atomic, as CPython's interpreter lock makes it.
- `float()` parsing of the rating text, and its `ValueError` on text that
  is not a number. This is floating-point work. The rating is an abstract
  integer key, so the parsed-float order is taken as given.
- `MovieInfo.FetchMovieInfoAsWritten`: a request that never returns is
  not modelled. The rating-page request at cinemas.py:129 has no timeout,
  so it can block its worker forever. That is a second way for `join`
  never to return, and the model does not show it.
- `FilmId.FindFilmIdInSearchResponse`: `\d` is modelled as the ASCII
  digits 0-9. Python's `\d` on `str` also matches other Unicode decimal
  digits.
- `get_films_rating_and_votes_number` (cinemas.py:170-175). This strict
  path is never called, and it fails on a failed lookup.
- `output_movies_to_console`, logging, timing, and the `__main__` block.
  These are I/O only.
- `server.py`: the Flask route, the 12-hour `FileSystemCache` and its
  lock. This is web serving and caching over library code.
- `get_film_rating_and_votes_number` mutates the film's info dict in
  place. The model returns a new record holding the same title and info
  plus the statistics.

In these places the code behaves in a way a reader might not expect, and
the model follows the code:

- A search response without a `/film/<digits>` match is not dropped. The
  code goes on to request `rating.kinopoisk.ru/None.xml` and gives the
  film_big `None.jpg` poster (cinemas.py:146-148). Only a search request
  that ends in `Timeout` or `ConnectionError` returns None
  (cinemas.py:144-145).
- The arthouse filter runs inside the worker (cinemas.py:31). It does not
  run before the films are queued.
- A failed rating-page request is not dropped: it raises. So does a search
  request that fails with any other `requests` exception. See Findings.

## Findings

| source | as written | input that shows it | evidently intended | confidence | as-written member | corrected member |
|---|---|---|---|---|---|---|
| cinemas.py:129 | Only the search request sits inside `try` (cinemas.py:141-145). The rating-page request can raise, and the exception leaves `CinemaWorker.run` before `task_done()` (cinemas.py:36). Its queue item is never marked done, so `queue.join()` (cinemas.py:52) never returns. | One film that passes the filter, whose search succeeds and whose `rating.kinopoisk.ru` request raises `ConnectionError` | Treat a failed rating request like a failed search: drop that film, finish its task, and let `join` return | medium, not executed | WorkerPool.AsWrittenJoinBlocks | WorkerPool.GuardedJoinReturns |
