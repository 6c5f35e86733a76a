/**
  The search box of src/renderer/Components/SearchBox/SearchBox.js: the `searchParameters` object it
  edits in place, the genre it suggests while the user types, and the genre chip it shows.
  `toLowerCase` and `indexOf` are modelled by `Text.ContainsFolded`.
*/
module SearchBox {
  import opened Wrappers
  import opened Seqs
  import opened Text
  import opened LibraryQueries

  /** The genres whose lowercase form contains the lowercase query, in library order. */
  function Matching(genres: seq<string>, query: string): seq<string> {
    Filter(genres, (g: string) => ContainsFolded(g, query))
  }

  /** `reduce((a, b) => a.length < b.length ? a : b)`: a left fold that keeps the later of two equally long strings. */
  function Shortest(ms: seq<string>): string
    requires |ms| > 0
    decreases |ms|
  {
    if |ms| == 1 then ms[0]
    else
      var a := Shortest(ms[..|ms| - 1]);
      var b := ms[|ms| - 1];
      if |a| < |b| then a else b
  }

  /** The suggested genre: only with no genre selected and a non-empty query, and only if some genre matches. */
  function Suggestion(genres: seq<string>, params: SearchParameters): Option<string> {
    if params.genre == "" && params.query != "" then
      var matching := Matching(genres, params.query);
      if |matching| > 0 then Some(Shortest(matching)) else None
    else None
  }

  /** The genre chip: its label, and whether it carries the delete button (clicking it removes the filter). */
  datatype Chip = Chip(genre: string, deleteButton: bool)

  /** `genre = searchParameters.genre || suggestedGenre`, shown when either is truthy. */
  function DisplayedChip(params: SearchParameters, suggestion: Option<string>): Option<Chip> {
    if params.genre != "" then Some(Chip(params.genre, true))
    else if suggestion.Some? && suggestion.value != "" then Some(Chip(suggestion.value, false))
    else None
  }

  /** The `searchParameters` object; every change hands the new parameters to `search()`. */
  class SearchBoxState {
    var query: string
    var genre: string

    function Parameters(): SearchParameters
      reads this
    {
      SearchParameters(query, genre)
    }

    constructor(params: SearchParameters)
      ensures Parameters() == params
    {
      query, genre := params.query, params.genre;
    }

    /** `setQuery(e)`: only the query changes. */
    method SetQuery(value: string) returns (searched: SearchParameters)
      modifies this
      ensures Parameters() == old(Parameters()).(query := value)
      ensures searched == Parameters()
    {
      query := value;
      searched := Parameters();
    }

    /** `setGenre(genre)`: the genre is selected and the query cleared. */
    method SetGenre(value: string) returns (searched: SearchParameters)
      modifies this
      ensures Parameters() == SearchParameters("", value)
      ensures searched == Parameters()
    {
      genre := value;
      query := "";
      searched := Parameters();
    }

    /** `removeGenre()`: only the genre is cleared. */
    method RemoveGenre() returns (searched: SearchParameters)
      modifies this
      ensures Parameters() == old(Parameters()).(genre := "")
      ensures searched == Parameters()
    {
      genre := "";
      searched := Parameters();
    }

    /** A click on the displayed chip: a selected genre is removed, a suggested one selected. */
    method ClickChip(genres: seq<string>) returns (searched: SearchParameters)
      modifies this
      requires DisplayedChip(Parameters(), Suggestion(genres, Parameters())).Some?
      ensures old(genre) != "" ==> Parameters() == old(Parameters()).(genre := "")
      ensures old(genre) == "" ==> Parameters() == SearchParameters("", Suggestion(genres, old(Parameters())).value)
      ensures searched == Parameters()
    {
      if genre != "" {
        searched := RemoveGenre();
      } else {
        var suggested := Suggestion(genres, Parameters());
        searched := SetGenre(suggested.value);
      }
    }
  }
}

module SearchBoxProperties {
  import opened Wrappers
  import opened Seqs
  import opened Text
  import opened LibraryQueries
  import opened SearchBox

  /** The fold returns an element of length minimal among all, and no later element is as short. */
  lemma {:induction false} ShortestSpec(ms: seq<string>)
    requires |ms| > 0
    ensures forall k :: 0 <= k < |ms| ==> |Shortest(ms)| <= |ms[k]|
    ensures exists i :: 0 <= i < |ms| && ms[i] == Shortest(ms) && forall k :: i < k < |ms| ==> |ms[k]| > |ms[i]|
    decreases |ms|
  {
    if |ms| == 1 {
      assert ms[0] == Shortest(ms);
    } else {
      var n := |ms| - 1;
      var front := ms[..n];
      ShortestSpec(front);
      var i :| 0 <= i < |front| && front[i] == Shortest(front) && forall k :: i < k < |front| ==> |front[k]| > |front[i]|;
      if |Shortest(front)| < |ms[n]| {
        assert ms[i] == Shortest(ms);
        forall k | i < k < |ms|
          ensures |ms[k]| > |ms[i]|
        {
          if k < n {
            assert ms[k] == front[k];
          }
        }
      } else {
        assert ms[n] == Shortest(ms);
        forall k | 0 <= k < |ms|
          ensures |Shortest(ms)| <= |ms[k]|
        {
          if k < n {
            assert ms[k] == front[k];
          }
        }
      }
    }
  }

  /**
    A suggestion is offered only when no genre is selected and the query is non-empty; it is a
    library genre containing the query case-insensitively, no matching genre is shorter, and none
    matches otherwise.
  */
  lemma SuggestionSpec(genres: seq<string>, params: SearchParameters)
    ensures var r := Suggestion(genres, params);
      && (r.Some? ==> params.genre == "" && params.query != "")
      && (r.Some? ==> r.value in genres && ContainsFolded(r.value, params.query))
      && (r.Some? ==> forall g :: g in genres && ContainsFolded(g, params.query) ==> |r.value| <= |g|)
      && (r.None? <==>
            params.genre != "" || params.query == "" || forall g :: g in genres ==> !ContainsFolded(g, params.query))
  {
    var matching := Matching(genres, params.query);
    if params.genre == "" && params.query != "" && |matching| > 0 {
      ShortestSpec(matching);
      forall g | g in genres && ContainsFolded(g, params.query)
        ensures |Shortest(matching)| <= |g|
      {
        var k :| 0 <= k < |genres| && genres[k] == g;
        assert g in matching;
      }
    } else if params.genre == "" && params.query != "" {
      forall g | g in genres
        ensures !ContainsFolded(g, params.query)
      {
        var k :| 0 <= k < |genres| && genres[k] == g;
        assert ContainsFolded(g, params.query) ==> g in matching;
      }
    }
  }

  /** Ties go to the later genre: every matching genre after the suggested one is strictly longer. */
  lemma SuggestionLastShortest(genres: seq<string>, params: SearchParameters)
    requires Suggestion(genres, params).Some?
    ensures var matching := Matching(genres, params.query);
      exists i :: 0 <= i < |matching| && matching[i] == Suggestion(genres, params).value &&
        forall k :: i < k < |matching| ==> |matching[k]| > |matching[i]|
  {
    ShortestSpec(Matching(genres, params.query));
  }

  lemma {:induction false} ContainsNonEmpty(s: string, part: string)
    requires |part| > 0 && Contains(s, part)
    ensures |s| > 0
  {
  }

  /** The chip shows the selected genre when there is one, and the suggestion otherwise. */
  lemma DisplayedChipSpec(genres: seq<string>, params: SearchParameters)
    ensures var chip := DisplayedChip(params, Suggestion(genres, params));
      && (params.genre != "" ==> chip == Some(Chip(params.genre, true)))
      && (params.genre == "" ==>
            chip == (match Suggestion(genres, params) case Some(g) => Some(Chip(g, false)) case None => None))
  {
    var s := Suggestion(genres, params);
    if params.genre == "" && s.Some? {
      SuggestionSpec(genres, params);
      ContainsNonEmpty(Lower(s.value), Lower(params.query));
    }
  }
}
