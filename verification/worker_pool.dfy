/** `CinemaWorker.run` and the queue protocol of `get_top_films`, as a sequential
    state machine.

    Each worker loops: `queue.get()`, the arthouse filter, the lookup, an append
    to the shared result list on success, `queue.task_done()`. One `WorkerStep`
    is one whole iteration on one film. Workers take films from the queue in FIFO
    order but finish them in any order, so a step may pick any pending film; a
    schedule lists the picks. Every order ten real workers can produce is one of
    these schedules. */
module WorkerPool {
  import opened Wrappers
  import opened Films
  import opened Arthouse
  import opened MovieInfo
  import opened Ranking

  /** The shared state: films still in the queue, the queue's count of unfinished
      tasks, the shared result list, and the films taken so far (in order). */
  datatype Pool = Pool(pending: seq<Film>, unfinished: nat, results: seq<RatedFilm>, taken: seq<Film>)

  const EmptyPool: Pool := Pool([], 0, [], [])

  /** `for film in films: queue.put(film)`: each film joins the queue and counts
      as an unfinished task. */
  function PutAll(p: Pool, films: seq<Film>): (q: Pool)
    ensures q.pending == p.pending + films
    ensures q.unfinished == p.unfinished + |films|
    ensures q.results == p.results && q.taken == p.taken
  {
    if films == [] then
      assert p.pending + films == p.pending;
      p
    else
      var init := films[..|films| - 1];
      var q' := PutAll(p, init);
      assert p.pending + films == p.pending + init + [films[|films| - 1]];
      q'.(pending := q'.pending + [films[|films| - 1]], unfinished := q'.unfinished + 1)
  }

  /** What the worker appends for one film (cinemas.py:31-35): nothing for an
      arthouse film or a failed lookup, the merged record otherwise. */
  function Handle(f: Film, lookup: string -> Option<Stats>): (appended: seq<RatedFilm>)
    ensures |appended| <= 1
    ensures appended != [] <==> FilmIsNotArthouse(f) && lookup(f.title).Some?
    ensures appended != [] ==> GetFilmRatingAndVotesNumber(f, lookup) == Some(appended[0])
  {
    if FilmIsNotArthouse(f) then
      match GetFilmRatingAndVotesNumber(f, lookup)
      case Some(r) => [r]
      case None => []
    else []
  }

  /** One loop iteration of a worker on the pending film at `i`. Every pending
      film is an unfinished task, so `task_done` never underflows. */
  function WorkerStep(p: Pool, i: nat, lookup: string -> Option<Stats>): (q: Pool)
    requires i < |p.pending| <= p.unfinished
    ensures q.pending == p.pending[..i] + p.pending[i + 1..]
    ensures q.taken == p.taken + [p.pending[i]]
    ensures q.unfinished == p.unfinished - 1
    ensures |q.pending| <= q.unfinished
    ensures |q.results| <= |p.results| + 1
    ensures |q.results| == |p.results| + 1 <==>
              FilmIsNotArthouse(p.pending[i]) && lookup(p.pending[i].title).Some?
  {
    var film := p.pending[i];
    Pool(p.pending[..i] + p.pending[i + 1..], p.unfinished - 1, p.results + Handle(film, lookup), p.taken + [film])
  }

  /** A schedule that picks, at its `k`-th step, one of the films still pending. */
  predicate ScheduleFits(schedule: seq<nat>, pendingCount: nat) {
    forall k :: 0 <= k < |schedule| ==> schedule[k] + k < pendingCount
  }

  /** The workers' iterations, one per entry of the schedule. */
  function Run(p: Pool, schedule: seq<nat>, lookup: string -> Option<Stats>): (q: Pool)
    requires |p.pending| <= p.unfinished
    requires ScheduleFits(schedule, |p.pending|)
    ensures |q.pending| <= q.unfinished
    ensures |q.pending| == |p.pending| - |schedule|
    ensures q.unfinished == p.unfinished - |schedule|
    decreases |schedule|
  {
    if schedule == [] then p
    else Run(WorkerStep(p, schedule[0], lookup), schedule[1..], lookup)
  }

  /** Reference definition of what the batch should produce: the films that pass
      the arthouse filter, merged with their lookup, dropping failed lookups. */
  function EnrichAll(films: seq<Film>, lookup: string -> Option<Stats>): (r: seq<RatedFilm>)
    ensures |r| <= |films|
  {
    if films == [] then []
    else
      var last := films[|films| - 1];
      EnrichAll(films[..|films| - 1], lookup)
        + match GetFilmRatingAndVotesNumber(last, lookup)
          case Some(x) => [x]
          case None => []
  }

  function Expected(films: seq<Film>, lookup: string -> Option<Stats>): seq<RatedFilm> {
    EnrichAll(KeepNotArthouse(films), lookup)
  }

  lemma {:induction false} KeepNotArthouseConcat(a: seq<Film>, b: seq<Film>)
    ensures KeepNotArthouse(a + b) == KeepNotArthouse(a) + KeepNotArthouse(b)
    decreases |b|
  {
    if b != [] {
      var b' := b[..|b| - 1];
      assert (a + b)[..|a + b| - 1] == a + b';
      KeepNotArthouseConcat(a, b');
    } else {
      assert a + b == a;
    }
  }

  lemma {:induction false} EnrichAllConcat(a: seq<Film>, b: seq<Film>, lookup: string -> Option<Stats>)
    ensures EnrichAll(a + b, lookup) == EnrichAll(a, lookup) + EnrichAll(b, lookup)
    decreases |b|
  {
    if b != [] {
      var b' := b[..|b| - 1];
      assert (a + b)[..|a + b| - 1] == a + b';
      EnrichAllConcat(a, b', lookup);
    } else {
      assert a + b == a;
    }
  }

  /** The expected output of a list is the sum of the expected outputs of its parts. */
  lemma ExpectedConcat(a: seq<Film>, b: seq<Film>, lookup: string -> Option<Stats>)
    ensures Expected(a + b, lookup) == Expected(a, lookup) + Expected(b, lookup)
  {
    KeepNotArthouseConcat(a, b);
    EnrichAllConcat(KeepNotArthouse(a), KeepNotArthouse(b), lookup);
  }

  /** A worker's output for one film is the expected output of that film. */
  lemma HandleIsExpected(f: Film, lookup: string -> Option<Stats>)
    ensures Handle(f, lookup) == Expected([f], lookup)
  {
    assert [f][..0] == [];
    if FilmIsNotArthouse(f) {
      assert KeepNotArthouse([f]) == [f];
      assert EnrichAll([f], lookup) == EnrichAll([], lookup) +
        match GetFilmRatingAndVotesNumber(f, lookup) case Some(x) => [x] case None => [];
    } else {
      assert KeepNotArthouse([f]) == [];
    }
  }

  /** Taking the film at `i` out of a list moves its expected output out of the
      list's expected output. */
  lemma ExpectedRemove(films: seq<Film>, i: nat, lookup: string -> Option<Stats>)
    requires i < |films|
    ensures multiset(Expected(films, lookup))
            == multiset(Expected(films[..i] + films[i + 1..], lookup)) + multiset(Handle(films[i], lookup))
  {
    var pre, post := films[..i], films[i + 1..];
    assert films == pre + [films[i]] + post;
    ExpectedConcat(pre + [films[i]], post, lookup);
    ExpectedConcat(pre, [films[i]], lookup);
    ExpectedConcat(pre, post, lookup);
    HandleIsExpected(films[i], lookup);
  }

  /** Taking the film at `i` out of the queue moves its expected output from the
      queue's share to the results. */
  lemma StepKeepsAccount(p: Pool, i: nat, lookup: string -> Option<Stats>)
    requires i < |p.pending| <= p.unfinished
    ensures var q := WorkerStep(p, i, lookup);
            && multiset(q.results) + multiset(Expected(q.pending, lookup))
               == multiset(p.results) + multiset(Expected(p.pending, lookup))
            && multiset(q.taken) + multiset(q.pending) == multiset(p.taken) + multiset(p.pending)
  {
    var q := WorkerStep(p, i, lookup);
    ExpectedRemove(p.pending, i, lookup);
    MultisetRemove(p.pending, i);
    assert multiset(q.results) == multiset(p.results) + multiset(Handle(p.pending[i], lookup));
    assert multiset(q.taken) == multiset(p.taken) + multiset{p.pending[i]};
  }

  /** The run keeps the account: results plus what the queue still owes is
      constant, and every film is either still queued or taken. */
  lemma {:induction false} RunKeepsAccount(p: Pool, schedule: seq<nat>, lookup: string -> Option<Stats>)
    requires |p.pending| <= p.unfinished
    requires ScheduleFits(schedule, |p.pending|)
    ensures var q := Run(p, schedule, lookup);
            && multiset(q.results) + multiset(Expected(q.pending, lookup))
               == multiset(p.results) + multiset(Expected(p.pending, lookup))
            && multiset(q.taken) + multiset(q.pending) == multiset(p.taken) + multiset(p.pending)
            && |q.taken| == |p.taken| + |schedule|
    decreases |schedule|
  {
    if schedule != [] {
      var p' := WorkerStep(p, schedule[0], lookup);
      StepKeepsAccount(p, schedule[0], lookup);
      ScheduleTailFits(schedule, |p.pending|);
      RunKeepsAccount(p', schedule[1..], lookup);
    }
  }

  /** The pool after enqueueing `films` and running the workers to `queue.join()`. */
  function Join(films: seq<Film>, schedule: seq<nat>, lookup: string -> Option<Stats>): (q: Pool)
    requires |schedule| == |films| && ScheduleFits(schedule, |films|)
    ensures q.pending == [] && q.unfinished == 0
  {
    var p := PutAll(EmptyPool, films);
    assert p.pending == films;
    Run(p, schedule, lookup)
  }

  /** At `queue.join()` every film has been taken exactly once and the results
      are, up to order, exactly the filtered, successfully looked-up films. */
  lemma JoinCollectsExactly(films: seq<Film>, schedule: seq<nat>, lookup: string -> Option<Stats>)
    requires |schedule| == |films| && ScheduleFits(schedule, |films|)
    ensures var q := Join(films, schedule, lookup);
            && multiset(q.taken) == multiset(films)
            && |q.taken| == |films|
            && multiset(q.results) == multiset(Expected(films, lookup))
  {
    var p := PutAll(EmptyPool, films);
    assert p.pending == films;
    RunKeepsAccount(p, schedule, lookup);
    var q := Run(p, schedule, lookup);
    assert q == Join(films, schedule, lookup);
    assert q.pending == [] && p.results == [] && p.taken == [];
    assert Expected([], lookup) == [];
    assert multiset(q.results) + multiset(Expected(q.pending, lookup)) == multiset(q.results);
  }

  /** A collected film passed the filter and was looked up successfully. */
  lemma ExpectedMembers(films: seq<Film>, lookup: string -> Option<Stats>, r: RatedFilm)
    ensures r in Expected(films, lookup) <==>
              exists f :: f in films && FilmIsNotArthouse(f) && lookup(f.title) == Some(r.stats)
                          && r == RatedFilm(f.title, f.info, r.stats)
  {
    EnrichAllMembers(KeepNotArthouse(films), lookup, r);
  }

  lemma {:induction false} EnrichAllMembers(films: seq<Film>, lookup: string -> Option<Stats>, r: RatedFilm)
    ensures r in EnrichAll(films, lookup) <==>
              exists f :: f in films && lookup(f.title) == Some(r.stats) && r == RatedFilm(f.title, f.info, r.stats)
  {
    if films != [] {
      var init := films[..|films| - 1];
      var last := films[|films| - 1];
      EnrichAllMembers(init, lookup, r);
      assert films == init + [last];
    }
  }

  /** `get_top_films` after the listing is read: enqueue, run the workers to
      `join`, sort, keep the first `FilmsCount`. */
  function GetTopFilms(films: seq<Film>, schedule: seq<nat>, lookup: string -> Option<Stats>): (top: seq<RatedFilm>)
    requires |schedule| == |films| && ScheduleFits(schedule, |films|)
    ensures |top| == Min(FilmsCount, |Expected(films, lookup)|) && SortedByRating(top)
    ensures multiset(top) <= multiset(Expected(films, lookup))
  {
    JoinCollectsExactly(films, schedule, lookup);
    var results := Join(films, schedule, lookup).results;
    assert |results| == |Expected(films, lookup)| by {
      assert |multiset(results)| == |multiset(Expected(films, lookup))|;
    }
    TopFilms(Join(films, schedule, lookup).results)
  }

  /** The processing order changes neither the collected films nor the ratings
      of the ranked list. */
  lemma OrderIndependence(films: seq<Film>, s1: seq<nat>, s2: seq<nat>, lookup: string -> Option<Stats>)
    requires |s1| == |films| && ScheduleFits(s1, |films|)
    requires |s2| == |films| && ScheduleFits(s2, |films|)
    ensures multiset(Join(films, s1, lookup).results) == multiset(Join(films, s2, lookup).results)
    ensures Ratings(GetTopFilms(films, s1, lookup)) == Ratings(GetTopFilms(films, s2, lookup))
  {
    JoinCollectsExactly(films, s1, lookup);
    JoinCollectsExactly(films, s2, lookup);
    TopRatingsIndependentOfOrder(Join(films, s1, lookup).results, Join(films, s2, lookup).results);
  }

  /** One worker iteration as written, where the lookup may raise (a failed
      rating-page request is not caught). A raise ends the worker's thread after
      `queue.get()` and before `task_done()`: the film is gone from the queue but
      its task stays unfinished. */
  function WorkerStepAsWritten(p: Pool, i: nat, lookup: string -> Outcome<Option<Stats>>): (q: Pool)
    requires i < |p.pending| <= p.unfinished
    ensures q.pending == p.pending[..i] + p.pending[i + 1..]
    ensures q.taken == p.taken + [p.pending[i]]
    ensures q.unfinished == if RaisesOn(p.pending[i], lookup) then p.unfinished else p.unfinished - 1
  {
    var film := p.pending[i];
    var rest := p.pending[..i] + p.pending[i + 1..];
    if RaisesOn(film, lookup) then Pool(rest, p.unfinished, p.results, p.taken + [film])
    else
      var found := t => if lookup(t).Returned? then lookup(t).value else None;
      Pool(rest, p.unfinished - 1, p.results + Handle(film, found), p.taken + [film])
  }

  /** The worker reaches the lookup for this film and the lookup raises. */
  predicate RaisesOn(f: Film, lookup: string -> Outcome<Option<Stats>>) {
    FilmIsNotArthouse(f) && lookup(f.title).Raised?
  }

  /** How many of the taken films ended their worker with a raise. */
  function RaisedCount(taken: seq<Film>, lookup: string -> Outcome<Option<Stats>>): nat {
    if taken == [] then 0
    else RaisedCount(taken[..|taken| - 1], lookup) + (if RaisesOn(taken[|taken| - 1], lookup) then 1 else 0)
  }

  lemma {:induction false} RaisedCountPositive(taken: seq<Film>, f: Film, lookup: string -> Outcome<Option<Stats>>)
    requires f in taken && RaisesOn(f, lookup)
    ensures RaisedCount(taken, lookup) > 0
  {
    var last := taken[|taken| - 1];
    if last != f {
      assert taken == taken[..|taken| - 1] + [last];
      RaisedCountPositive(taken[..|taken| - 1], f, lookup);
    }
  }

  /** Tasks still unfinished beyond the queued films and the raised ones; as
      written, a worker step leaves it unchanged. */
  function Slack(p: Pool, lookup: string -> Outcome<Option<Stats>>): int {
    p.unfinished - |p.pending| - RaisedCount(p.taken, lookup)
  }

  lemma StepAsWrittenAccount(p: Pool, i: nat, lookup: string -> Outcome<Option<Stats>>)
    requires i < |p.pending| <= p.unfinished
    ensures var q := WorkerStepAsWritten(p, i, lookup);
            && multiset(q.taken) + multiset(q.pending) == multiset(p.taken) + multiset(p.pending)
            && Slack(q, lookup) == Slack(p, lookup)
  {
    var q := WorkerStepAsWritten(p, i, lookup);
    MultisetRemove(p.pending, i);
    assert q.taken[..|q.taken| - 1] == p.taken;
  }

  lemma ScheduleTailFits(schedule: seq<nat>, n: nat)
    requires schedule != [] && ScheduleFits(schedule, n)
    ensures 0 < n && ScheduleFits(schedule[1..], n - 1)
  {
    assert schedule[0] + 0 < n;
    forall k | 0 <= k < |schedule[1..]| ensures schedule[1..][k] + k < n - 1 {
      assert schedule[1..][k] == schedule[k + 1];
    }
  }

  function RunAsWritten(p: Pool, schedule: seq<nat>, lookup: string -> Outcome<Option<Stats>>): (q: Pool)
    requires |p.pending| <= p.unfinished
    requires ScheduleFits(schedule, |p.pending|)
    ensures |q.pending| == |p.pending| - |schedule|
    ensures |q.pending| <= q.unfinished
    decreases |schedule|
  {
    if schedule == [] then p
    else
      ScheduleTailFits(schedule, |p.pending|);
      RunAsWritten(WorkerStepAsWritten(p, schedule[0], lookup), schedule[1..], lookup)
  }

  /** Every film stays queued or taken, and the slack is kept. */
  lemma {:induction false} RunAsWrittenAccount(p: Pool, schedule: seq<nat>, lookup: string -> Outcome<Option<Stats>>)
    requires |p.pending| <= p.unfinished
    requires ScheduleFits(schedule, |p.pending|)
    ensures var q := RunAsWritten(p, schedule, lookup);
            && multiset(q.taken) + multiset(q.pending) == multiset(p.taken) + multiset(p.pending)
            && Slack(q, lookup) == Slack(p, lookup)
    decreases |schedule|
  {
    if schedule != [] {
      StepAsWrittenAccount(p, schedule[0], lookup);
      ScheduleTailFits(schedule, |p.pending|);
      RunAsWrittenAccount(WorkerStepAsWritten(p, schedule[0], lookup), schedule[1..], lookup);
    }
  }

  /** As written, one raising lookup is enough: every film has left the queue,
      yet a task is still unfinished, so `queue.join()` never returns. The run
      starts from the pool `PutAll(EmptyPool, films)` builds: every film queued,
      one unfinished task each, nothing collected or taken. */
  lemma AsWrittenJoinBlocks(films: seq<Film>, schedule: seq<nat>, lookup: string -> Outcome<Option<Stats>>, f: Film)
    requires |schedule| == |films| && ScheduleFits(schedule, |films|)
    requires f in films && RaisesOn(f, lookup)
    ensures var q := RunAsWritten(Pool(films, |films|, [], []), schedule, lookup);
            q.pending == [] && q.unfinished > 0
  {
    var p := Pool(films, |films|, [], []);
    assert RaisedCount(p.taken, lookup) == 0;
    assert Slack(p, lookup) == 0;
    RunAsWrittenAccount(p, schedule, lookup);
    var q := RunAsWritten(p, schedule, lookup);
    assert q.pending == [] && p.taken == [];
    assert multiset(q.pending) == multiset(p.taken) == multiset{};
    assert multiset(q.taken) == multiset(q.taken) + multiset(q.pending);
    assert multiset(films) == multiset(p.taken) + multiset(films);
    assert f in multiset(q.taken);
    RaisedCountPositive(q.taken, f, lookup);
    assert q.unfinished == RaisedCount(q.taken, lookup);
  }

  /** As written, whatever part of the work the workers get through: a raise
      ends its thread, so after `NUMBER_OF_ASYNC_WORKERS` raises (cinemas.py:15)
      no worker is left and the remaining films stay queued. At every point the
      unfinished count is the films still queued plus the lookups that raised,
      so `join` can return only when nothing is queued and nothing raised. */
  lemma AsWrittenUnfinishedCount(films: seq<Film>, schedule: seq<nat>, lookup: string -> Outcome<Option<Stats>>)
    requires |schedule| <= |films| && ScheduleFits(schedule, |films|)
    ensures var q := RunAsWritten(Pool(films, |films|, [], []), schedule, lookup);
            && q.unfinished == |q.pending| + RaisedCount(q.taken, lookup)
            && (q.unfinished == 0 <==> q.pending == [] && RaisedCount(q.taken, lookup) == 0)
  {
    var p := Pool(films, |films|, [], []);
    assert RaisedCount(p.taken, lookup) == 0;
    RunAsWrittenAccount(p, schedule, lookup);
  }

  /** With the guarded lookup the same inputs reach `join`: a failed rating-page
      request only drops its film. */
  lemma GuardedJoinReturns(films: seq<Film>, schedule: seq<nat>, search: string -> Request<string>, ratingRequest: string -> Request<Option<KpRating>>)
    requires |schedule| == |films| && ScheduleFits(schedule, |films|)
    ensures var q := Join(films, schedule, LookupVia(search, ratingRequest));
            q.pending == [] && q.unfinished == 0
            && multiset(q.results) == multiset(Expected(films, LookupVia(search, ratingRequest)))
  {
    JoinCollectsExactly(films, schedule, LookupVia(search, ratingRequest));
  }
}
