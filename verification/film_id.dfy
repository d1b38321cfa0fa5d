/** `find_film_id_in_search_response`: the regular expression `(?<=/film/)(\d+)`
    searched in the redirected URL. `re.search` reports the leftmost position that
    is preceded by `/film/` and starts a digit, and `\d+` then takes the longest
    run of digits from there. */
module FilmId {
  import opened Wrappers

  const FilmMarker: string := "/film/"

  predicate IsDigit(c: char) {
    '0' <= c <= '9'
  }

  predicate AllDigits(s: string) {
    forall i :: 0 <= i < |s| ==> IsDigit(s[i])
  }

  /** The look-behind `(?<=/film/)` holds at position `p`. */
  predicate MarkerEndsAt(s: string, p: int) {
    |FilmMarker| <= p <= |s| && s[p - |FilmMarker| .. p] == FilmMarker
  }

  /** The whole pattern matches starting at `p`: look-behind plus at least one digit. */
  predicate MatchAt(s: string, p: int) {
    MarkerEndsAt(s, p) && p < |s| && IsDigit(s[p])
  }

  /** End of the longest digit run that starts at `p` (greedy `\d+`). */
  function DigitRunEnd(s: string, p: nat): (e: nat)
    requires p <= |s|
    ensures p <= e <= |s|
    ensures forall k :: p <= k < e ==> IsDigit(s[k])
    ensures e == |s| || !IsDigit(s[e])
    decreases |s| - p
  {
    if p < |s| && IsDigit(s[p]) then DigitRunEnd(s, p + 1) else p
  }

  /** The leftmost match position at or after `p`, if any. */
  function SearchFrom(s: string, p: nat): (r: Option<nat>)
    requires p <= |s|
    ensures r.None? ==> forall q :: p <= q <= |s| ==> !MatchAt(s, q)
    ensures r.Some? ==> p <= r.value < |s| && MatchAt(s, r.value)
    ensures r.Some? ==> forall q :: p <= q < r.value ==> !MatchAt(s, q)
    decreases |s| - p
  {
    if p == |s| then None
    else if MatchAt(s, p) then Some(p)
    else SearchFrom(s, p + 1)
  }

  /** `id` is the digit run matched at `p`, the leftmost match position: it
      starts at `p`, and the character after it (if any) is not a digit. */
  predicate IsLeftmostIdAt(url: string, p: int, id: string) {
    && 0 <= p
    && p + |id| <= |url|
    && MatchAt(url, p)
    && (forall q :: 0 <= q < p ==> !MatchAt(url, q))
    && url[p .. p + |id|] == id
    && (p + |id| == |url| || !IsDigit(url[p + |id|]))
  }

  /** `None` exactly when no `/film/` in the URL is directly followed by a digit;
      otherwise the maximal digit run after the leftmost such `/film/`. */
  function FindFilmIdInSearchResponse(url: string): (id: Option<string>)
    ensures id.None? <==> forall p :: 0 <= p <= |url| ==> !MatchAt(url, p)
    ensures id.Some? ==> |id.value| > 0 && AllDigits(id.value)
    ensures id.Some? ==> exists p :: IsLeftmostIdAt(url, p, id.value)
  {
    match SearchFrom(url, 0)
    case None => None
    case Some(p) =>
      var e := DigitRunEnd(url, p);
      assert url[p .. e][0] == url[p];
      assert IsLeftmostIdAt(url, p, url[p .. e]);
      Some(url[p .. e])
  }

  /** A match position is decided by a prefix of the string that covers it. */
  lemma MatchAtPrefix(t: string, s: string, q: int)
    requires 0 <= q < |t| <= |s| && s[..|t|] == t
    ensures MatchAt(s, q) <==> MatchAt(t, q)
  {
    if |FilmMarker| <= q {
      forall k | 0 <= k < q ensures s[k] == t[k] {
        assert s[k] == s[..|t|][k];
      }
      assert s[q - |FilmMarker| .. q] == t[q - |FilmMarker| .. q];
    }
  }

  /** Round trip: a film page URL `pre + "/film/" + id + rest`, whose `pre` holds no
      digits and whose `rest` does not continue the digit run, yields `id` back. */
  lemma {:induction false} FilmIdRoundTrip(pre: string, id: string, rest: string)
    requires forall k :: 0 <= k < |pre| ==> !IsDigit(pre[k])
    requires |id| > 0 && AllDigits(id)
    requires rest == [] || !IsDigit(rest[0])
    ensures FindFilmIdInSearchResponse(pre + FilmMarker + id + rest) == Some(id)
  {
    var head := pre + FilmMarker;
    var url := head + id + rest;
    var p := |head|;
    assert url[..p] == head;
    forall q | 0 <= q < p
      ensures !MatchAt(url, q)
    {
      MatchAtPrefix(head, url, q);
      assert !IsDigit(head[q]);
    }
    assert url[p - |FilmMarker| .. p] == FilmMarker;
    assert url[p] == id[0];
    assert MatchAt(url, p);
    var r := FindFilmIdInSearchResponse(url);
    assert r.Some?;
    var v := r.value;
    var p' :| IsLeftmostIdAt(url, p', v);
    assert p' == p;
    assert url[p .. p + |id|] == id;
  }
}
