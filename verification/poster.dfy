/** `find_film_poster`: the iphone360 poster URL, or the `film_big` URL when the
    formatted iphone URL contains the text `None` (which is how an unresolved
    film id, formatted with `%s`, shows up). */
module Poster {
  import opened Wrappers
  import opened FilmId

  const PosterHost: string := "https://st.kp.yandex.net"
  const IphonePosterPrefix: string := PosterHost + "/images/film_iphone/" + "iphone360_"
  const LargePosterPrefix: string := "https://www.kinopoisk.ru/images/film_big/"
  const JpgSuffix: string := ".jpg"
  /** What `'%s' % None` produces. */
  const NoneText: string := "None"

  /** The text `%s` substitutes for the film id. */
  function FormatId(id: Option<string>): (text: string)
    ensures id.None? ==> text == NoneText
    ensures id.Some? ==> text == id.value
  {
    match id
    case None => NoneText
    case Some(s) => s
  }

  predicate IsPrefix(t: string, s: string) {
    |t| <= |s| && s[..|t|] == t
  }

  /** Python's `t in s` on strings. */
  predicate Contains(s: string, t: string)
    decreases |s|
  {
    IsPrefix(t, s) || (|s| > 0 && Contains(s[1..], t))
  }

  function IphonePosterUrl(id: Option<string>): string {
    IphonePosterPrefix + FormatId(id) + JpgSuffix
  }

  function LargePosterUrl(id: Option<string>): string {
    LargePosterPrefix + FormatId(id) + JpgSuffix
  }

  /** A string that contains a `t` somewhere in the middle contains `t`. */
  lemma {:induction false} ContainsInMiddle(a: string, t: string, b: string)
    ensures Contains(a + t + b, t)
  {
    if a == [] {
      assert (a + t + b)[..|t|] == t;
    } else {
      assert (a + t + b)[1..] == a[1..] + t + b;
      ContainsInMiddle(a[1..], t, b);
    }
  }

  predicate FreeOfCapitalN(s: string) {
    forall k :: 0 <= k < |s| ==> s[k] != 'N'
  }

  lemma FreeOfCapitalNConcat(a: string, b: string)
    requires FreeOfCapitalN(a) && FreeOfCapitalN(b)
    ensures FreeOfCapitalN(a + b)
  {
    forall k | 0 <= k < |a + b| ensures (a + b)[k] != 'N' {
      if k >= |a| {
        assert (a + b)[k] == b[k - |a|];
      }
    }
  }

  /** `None` cannot occur in a string without a capital N. */
  lemma {:induction false} NoCapitalNNoNone(s: string)
    requires FreeOfCapitalN(s)
    ensures !Contains(s, NoneText)
  {
    if |s| >= |NoneText| {
      assert s[..|NoneText|][0] != NoneText[0];
    }
    if |s| > 0 {
      NoCapitalNNoNone(s[1..]);
    }
  }

  function FindFilmPoster(id: Option<string>): (url: string)
    ensures url == IphonePosterUrl(id) || url == LargePosterUrl(id)
    ensures Contains(url, FormatId(id))
  {
    var iphone := IphonePosterUrl(id);
    ContainsInMiddle(IphonePosterPrefix, FormatId(id), JpgSuffix);
    ContainsInMiddle(LargePosterPrefix, FormatId(id), JpgSuffix);
    if Contains(iphone, NoneText) then LargePosterUrl(id) else iphone
  }

  lemma IphonePrefixFreeOfCapitalN()
    ensures FreeOfCapitalN(IphonePosterPrefix)
  {
    assert FreeOfCapitalN(PosterHost);
    assert FreeOfCapitalN("/images/film_iphone/");
    assert FreeOfCapitalN("iphone360_");
    FreeOfCapitalNConcat(PosterHost, "/images/film_iphone/");
    FreeOfCapitalNConcat(PosterHost + "/images/film_iphone/", "iphone360_");
  }

  /** A prefix without a capital N cannot start or hold part of a `None`. */
  lemma {:induction false} ContainsNoneAfterFreePrefix(a: string, r: string)
    requires FreeOfCapitalN(a)
    ensures Contains(a + r, NoneText) <==> Contains(r, NoneText)
  {
    if a != [] {
      assert (a + r)[0] == a[0];
      assert !IsPrefix(NoneText, a + r) by {
        if |NoneText| <= |a + r| {
          assert (a + r)[..|NoneText|][0] != NoneText[0];
        }
      }
      assert (a + r)[1..] == a[1..] + r;
      ContainsNoneAfterFreePrefix(a[1..], r);
    } else {
      assert a + r == r;
    }
  }

  /** Appending `.jpg` creates no `None`: no suffix of `None` begins with a dot. */
  lemma {:induction false} ContainsNoneBeforeJpg(s: string)
    ensures Contains(s + JpgSuffix, NoneText) <==> Contains(s, NoneText)
  {
    if s == [] {
      assert s + JpgSuffix == JpgSuffix;
      assert FreeOfCapitalN(JpgSuffix);
      NoCapitalNNoNone(JpgSuffix);
    } else {
      var t := s + JpgSuffix;
      assert t[1..] == s[1..] + JpgSuffix;
      ContainsNoneBeforeJpg(s[1..]);
      if |s| >= |NoneText| {
        assert t[..|NoneText|] == s[..|NoneText|];
      } else {
        assert t[|s|] == '.';
        assert !IsPrefix(NoneText, t) by {
          if |NoneText| <= |t| {
            assert t[..|NoneText|][|s|] != NoneText[|s|];
          }
        }
      }
    }
  }

  /** The iphone360 template adds no `None` of its own: the formatted URL
      contains `None` exactly when the id text does. */
  lemma IphoneUrlContainsNoneIffId(id: Option<string>)
    ensures Contains(IphonePosterUrl(id), NoneText) <==> Contains(FormatId(id), NoneText)
  {
    var text := FormatId(id);
    IphonePrefixFreeOfCapitalN();
    assert IphonePosterUrl(id) == IphonePosterPrefix + (text + JpgSuffix);
    ContainsNoneAfterFreePrefix(IphonePosterPrefix, text + JpgSuffix);
    ContainsNoneBeforeJpg(text);
  }

  /** Which template every id gets: the film_big one exactly when the id is
      missing or its text contains `None`. */
  lemma PosterChoice(id: Option<string>)
    ensures FindFilmPoster(id) ==
              if id.None? || Contains(id.value, NoneText) then LargePosterUrl(id) else IphonePosterUrl(id)
  {
    IphoneUrlContainsNoneIffId(id);
    if id.None? {
      ContainsInMiddle([], NoneText, []);
      assert NoneText == [] + NoneText + [];
    }
  }

  /** A resolved (all-digit) id gets the iphone360 poster. */
  lemma PosterOfResolvedId(id: string)
    requires AllDigits(id)
    ensures FindFilmPoster(Some(id)) == IphonePosterPrefix + id + JpgSuffix
  {
    IphonePrefixFreeOfCapitalN();
    assert FreeOfCapitalN(id);
    assert FreeOfCapitalN(JpgSuffix);
    FreeOfCapitalNConcat(IphonePosterPrefix, id);
    FreeOfCapitalNConcat(IphonePosterPrefix + id, JpgSuffix);
    NoCapitalNNoNone(IphonePosterUrl(Some(id)));
  }

  /** An unresolved id falls back to `film_big/None.jpg`. */
  lemma PosterOfMissingId()
    ensures FindFilmPoster(None) == LargePosterPrefix + "None" + JpgSuffix
  {
    ContainsInMiddle(IphonePosterPrefix, NoneText, JpgSuffix);
  }

  /** The check is textual, so an id whose text is `None` is treated like a missing one. */
  lemma NoneTextIsLikeMissingId()
    ensures FindFilmPoster(Some(NoneText)) == FindFilmPoster(None)
  {
    ContainsInMiddle(IphonePosterPrefix, NoneText, JpgSuffix);
  }
}
