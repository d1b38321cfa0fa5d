/** The listings dict (`defaultdict` keyed by film title, in insertion order) and
    `get_films_list`, which turns it into the list of `(title, info)` pairs. */
module Listing {
  import opened Films

  /** An insertion-ordered dict: the keys in insertion order and the values. */
  datatype Listing = Listing(titles: seq<string>, info: map<string, FilmInfo>)

  predicate DistinctTitles(titles: seq<string>) {
    forall i, j :: 0 <= i < j < |titles| ==> titles[i] != titles[j]
  }

  /** The shape every Python dict has: each key once, and exactly the keys of the map. */
  predicate ValidListing(l: Listing) {
    && DistinctTitles(l.titles)
    && (forall t :: t in l.titles ==> t in l.info)
    && (forall t :: t in l.info ==> t in l.titles)
  }

  function TitlesOf(films: seq<Film>): (ts: seq<string>)
    ensures |ts| == |films|
    ensures forall i :: 0 <= i < |films| ==> ts[i] == films[i].title
  {
    seq(|films|, i requires 0 <= i < |films| => films[i].title)
  }

  /** Reading a list of pairs back into a dict (the later pair wins, as `dict(...)` does). */
  function FilmsToDict(films: seq<Film>): (d: map<string, FilmInfo>)
    ensures forall t :: t in d <==> exists i :: 0 <= i < |films| && films[i].title == t
  {
    if films == [] then map[]
    else
      var init := films[..|films| - 1];
      var d' := FilmsToDict(init);
      assert forall i :: 0 <= i < |init| ==> init[i] == films[i];
      d'[films[|films| - 1].title := films[|films| - 1].info]
  }

  /** A list whose every pair agrees with `info` reads back as the part of `info`
      on its titles. */
  lemma {:induction false} FilmsToDictAgrees(films: seq<Film>, info: map<string, FilmInfo>)
    requires forall k :: 0 <= k < |films| ==> films[k].title in info && films[k].info == info[films[k].title]
    ensures forall t :: t in FilmsToDict(films) ==> FilmsToDict(films)[t] == info[t]
  {
    if films != [] {
      FilmsToDictAgrees(films[..|films| - 1], info);
    }
  }

  lemma MapsAgree<K, V>(d: map<K, V>, e: map<K, V>)
    requires d.Keys == e.Keys
    requires forall t :: t in d ==> d[t] == e[t]
    ensures d == e
  {
  }

  /** The pairs of a dict, listed in key order, have exactly the dict's keys. */
  lemma ListedPairsKeys(l: Listing, films: seq<Film>)
    requires ValidListing(l)
    requires |films| == |l.titles|
    requires forall k :: 0 <= k < |films| ==> films[k].title == l.titles[k]
    ensures FilmsToDict(films).Keys == l.info.Keys
  {
    var d := FilmsToDict(films);
    forall t | t in l.info ensures t in d {
      var k :| 0 <= k < |l.titles| && l.titles[k] == t;
      assert films[k].title == t;
    }
    assert forall t :: t in d ==> t in l.info;
  }

  /** The pairs of a dict, listed in key order, read back as the dict. */
  lemma ListedPairsReadBack(l: Listing, films: seq<Film>)
    requires ValidListing(l)
    requires |films| == |l.titles|
    requires forall k :: 0 <= k < |films| ==> films[k].title == l.titles[k] && films[k].info == l.info[l.titles[k]]
    ensures FilmsToDict(films) == l.info
  {
    FilmsToDictAgrees(films, l.info);
    ListedPairsKeys(l, films);
    MapsAgree(FilmsToDict(films), l.info);
  }

  /** `get_films_list`: one pair per key, in the dict's order. By
      `ListedPairsReadBack`, reading the result back into a dict gives `l.info`. */
  method GetFilmsList(l: Listing) returns (films: seq<Film>)
    requires ValidListing(l)
    ensures |films| == |l.titles|
    ensures TitlesOf(films) == l.titles
    ensures forall i :: 0 <= i < |films| ==> films[i].info == l.info[l.titles[i]]
    ensures DistinctTitles(TitlesOf(films))
  {
    films := [];
    var i := 0;
    while i < |l.titles|
      invariant 0 <= i <= |l.titles|
      invariant |films| == i
      invariant forall k :: 0 <= k < i ==> films[k].title == l.titles[k] && films[k].info == l.info[l.titles[k]]
    {
      var t := l.titles[i];
      films := films + [Film(t, l.info[t])];
      i := i + 1;
    }
    assert TitlesOf(films) == l.titles;
  }
}
