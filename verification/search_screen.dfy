/** The search screen: the query field's dispatch rules, its two clear
    buttons, which blocks the screen shows, and the summary line of a result
    card. Callbacks are returned as values and can be run against the view
    model with `Dispatch`. */
module SearchScreen {
  import opened Results
  import opened Model
  import ViewModel
  import Text

  /** The view-model call an event asks for, if any. */
  datatype Callback = NoCall | Search(query: string) | ClearSearch

  /** `onValueChange`: the field always takes the new text; a `length` of
      two or more UTF-16 units starts a search, an emptied field clears the
      results, and a single character of the Basic Multilingual Plane does
      nothing else. */
  function OnValueChange(newQuery: string): (r: (string, Callback))
    ensures r.0 == newQuery
    ensures r.1 == Search(newQuery) <==> Text.Utf16Length(newQuery) >= 2
    ensures r.1 == ClearSearch <==> |newQuery| == 0
    ensures r.1 == NoCall <==> |newQuery| == 1 && newQuery[0] as int < 0x10000
  {
    if Text.Utf16Length(newQuery) >= 2 then (newQuery, Search(newQuery))
    else if |newQuery| == 0 then (newQuery, ClearSearch)
    else (newQuery, NoCall)
  }

  /** The keyboard's search action: searches for the current text unless the
      field is empty; the text is left as it is. */
  function OnImeSearch(query: string): (c: Callback)
    ensures c != ClearSearch
    ensures c == Search(query) <==> |query| > 0
  {
    if |query| > 0 then Search(query) else NoCall
  }

  /** The top-bar clear button exists only while there are results. */
  predicate TopBarClearVisible(results: seq<QuranVerse>) {
    |results| > 0
  }

  /** The in-field clear button exists only while the field has text. */
  predicate FieldClearVisible(query: string) {
    |query| > 0
  }

  /** Both clear buttons empty the field and clear the results. */
  function OnClear(query: string): (r: (string, Callback))
    ensures r.0 == "" && r.1 == ClearSearch
  {
    ("", ClearSearch)
  }

  /** Runs a callback against the view model. */
  function Dispatch(s: ViewModel.QuranUiState, c: Callback, fold: char -> char): (r: ViewModel.QuranUiState)
    ensures c == NoCall ==> r == s
    ensures c == ClearSearch ==> r.searchResults == [] && r.(searchResults := s.searchResults) == s
  {
    match c
    case NoCall => s
    case Search(q) => ViewModel.SearchVerses(s, q, fold)
    case ClearSearch => ViewModel.ClearSearchResults(s)
  }

  /** Typing one UTF-16 unit leaves the view model untouched; emptying the
      field or pressing either clear button leaves it with no results and
      nothing else changed; a non-blank text of two or more units runs the
      search over the loaded cards. */
  lemma TypingDrivesTheViewModel(s: ViewModel.QuranUiState, typed: string, fold: char -> char)
    ensures Text.Utf16Length(typed) == 1 ==> Dispatch(s, OnValueChange(typed).1, fold) == s
    ensures |typed| == 0 ==> Dispatch(s, OnValueChange(typed).1, fold) == s.(searchResults := [])
    ensures Dispatch(s, OnClear(typed).1, fold) == s.(searchResults := [])
    ensures Text.Utf16Length(typed) >= 2 && !Text.IsBlank(typed) ==>
      Dispatch(s, OnValueChange(typed).1, fold).searchResults == ViewModel.Filter(s.verses, typed, fold)
  {
  }

  /** A single character outside the Basic Multilingual Plane, an emoji say,
      already has a `length` of two and starts a search. */
  lemma SupplementaryCharacterSearches(c: char)
    requires c as int >= 0x10000
    ensures OnValueChange([c]).1 == Search([c])
  {
    assert [c][1..] == [];
  }

  /** The keyboard's search action does what typing does once the text is
      two units long, searches for a single character that typing ignores,
      and leaves the view model alone on an empty field, where typing clears
      the results. */
  lemma ImeSearchAgreesWithTyping(s: ViewModel.QuranUiState, q: string, fold: char -> char)
    ensures Text.Utf16Length(q) >= 2 ==> Dispatch(s, OnImeSearch(q), fold) == Dispatch(s, OnValueChange(q).1, fold)
    ensures Text.Utf16Length(q) == 1 ==>
      OnValueChange(q).1 == NoCall && Dispatch(s, OnImeSearch(q), fold) == ViewModel.SearchVerses(s, q, fold)
    ensures |q| == 0 ==>
      Dispatch(s, OnImeSearch(q), fold) == s && Dispatch(s, OnValueChange(q).1, fold) == s.(searchResults := [])
  {
  }

  /** The block under the search field that lists results, if any. */
  datatype ResultPane = NoPane | NoResults | ResultList

  /** Which blocks the screen shows, from top to bottom. */
  datatype Layout = Layout(tips: bool, spinner: bool, errorCard: bool, pane: ResultPane)

  /** The screen's column: tips when nothing has been typed or found, a
      spinner while loading, the error card while there is an error, and,
      only when neither, "no results" for a query that found nothing or the
      result list when there are results. */
  function ScreenLayout(query: string, results: seq<QuranVerse>, isLoading: bool, error: Option<string>): (l: Layout)
    ensures l.tips <==> |query| == 0 && |results| == 0
    ensures l.spinner <==> isLoading
    ensures l.errorCard <==> error.Some?
    ensures l.pane == NoResults <==> !isLoading && error.None? && |query| > 0 && |results| == 0
    ensures l.pane == ResultList <==> !isLoading && error.None? && |results| > 0
  {
    Layout(
      tips := |query| == 0 && |results| == 0,
      spinner := isLoading,
      errorCard := error.Some?,
      pane :=
        if isLoading || error.Some? then NoPane
        else if |query| > 0 && |results| == 0 then NoResults
        else if |results| > 0 then ResultList
        else NoPane)
  }

  /** Tips and a result pane never show together, and outside loading and
      errors exactly one of them shows. */
  lemma TipsExcludePane(query: string, results: seq<QuranVerse>, isLoading: bool, error: Option<string>)
    ensures var l := ScreenLayout(query, results, isLoading, error);
      && !(l.tips && l.pane != NoPane)
      && (!isLoading && error.None? ==> (l.tips <==> l.pane == NoPane))
  {
  }

  /** The "... et N autre(s) verset(s)" line of a result card: shown only for
      a card with more than one verse, counting the verses after the first. */
  function MoreVersesCount(v: QuranVerse): (n: Option<int>)
    ensures n.Some? <==> |v.versets| > 1
    ensures n.Some? ==> n.value >= 1 && n.value + 1 == |v.versets|
  {
    if |v.versets| > 1 then Some(|v.versets| - 1) else None
  }

  /** The preview of a result card. */
  datatype Preview =
    | FirstVerse(arabe: string, traduction: string)
    | CardText(texte: string, cardTraduction: Option<string>)

  /** A card with verses previews its first verse; one without shows its
      text, and its translation when that is not empty. */
  function CardPreview(v: QuranVerse): (p: Preview)
    ensures p.FirstVerse? <==> |v.versets| > 0
    ensures p.FirstVerse? ==> p.arabe == v.versets[0].arabe && p.traduction == v.versets[0].traduction
    ensures p.CardText? ==> p.texte == v.texte && (p.cardTraduction.Some? <==> |v.traduction| > 0)
    ensures p.CardText? && p.cardTraduction.Some? ==> p.cardTraduction.value == v.traduction
  {
    if |v.versets| > 0 then FirstVerse(v.versets[0].arabe, v.versets[0].traduction)
    else CardText(v.texte, if |v.traduction| > 0 then Some(v.traduction) else None)
  }

  /** A result card accounts for each of its verses once: the first is
      previewed and the others are counted by the "more" line. */
  lemma PreviewAndCountCoverTheVerses(v: QuranVerse)
    ensures var previewed := if CardPreview(v).FirstVerse? then 1 else 0;
      var counted := if MoreVersesCount(v).Some? then MoreVersesCount(v).value else 0;
      previewed + counted == |v.versets|
  {
  }
}
