/** The Quran state holder: an immutable `QuranUiState` snapshot and one pure
    transition per view-model operation. A fetch is an input (`Fetch`), so
    each operation is the atomic step from the snapshot before the call to the
    snapshot after the fetch has completed. */
module ViewModel {
  import opened Results
  import opened Network
  import opened Model
  import Adapter
  import Text

  datatype QuranUiState = QuranUiState(
    chapters: seq<Chapter> := [],
    verses: seq<QuranVerse> := [],
    currentChapter: Option<Chapter> := None,
    currentVerses: seq<Verse> := [],
    isLoading: bool := false,
    error: Option<string> := None,
    searchResults: seq<QuranVerse> := [])

  /** Chapters `preloadPopularChapters` fetches, in request order. */
  const PopularChapters: seq<int> := [1, 2, 3, 18, 36, 55, 67, 112, 113, 114]

  /** The snapshot the state holder is created with. */
  function Initial(): (s: QuranUiState)
    ensures s.chapters == [] && s.verses == [] && s.searchResults == [] && s.currentVerses == []
    ensures s.currentChapter.None? && !s.isLoading && s.error.None?
  {
    QuranUiState()
  }

  // ---- lookups ----

  /** `i` is the position of the first chapter numbered `n`. */
  ghost predicate FirstChapterAt(cs: seq<Chapter>, n: int, i: int) {
    0 <= i < |cs| && cs[i].number == n && forall j :: 0 <= j < i ==> cs[j].number != n
  }

  /** `chapters.find { it.number == n }`: the first chapter numbered `n`. */
  function FindChapter(cs: seq<Chapter>, n: int): (r: Option<Chapter>)
    ensures r.None? <==> forall i :: 0 <= i < |cs| ==> cs[i].number != n
    ensures r.Some? ==> exists i :: FirstChapterAt(cs, n, i) && cs[i] == r.value
  {
    if |cs| == 0 then None
    else if cs[0].number == n then
      assert FirstChapterAt(cs, n, 0);
      Some(cs[0])
    else
      var r := FindChapter(cs[1..], n);
      if r.Some? then
        assert exists j :: FirstChapterAt(cs, n, j) && cs[j] == r.value by {
          var i :| FirstChapterAt(cs[1..], n, i) && cs[1..][i] == r.value;
          assert FirstChapterAt(cs, n, i + 1);
        }
        r
      else r
  }

  /** `i` is the position of the first card with id `id`. */
  ghost predicate FirstVerseAt(vs: seq<QuranVerse>, id: int, i: int) {
    0 <= i < |vs| && vs[i].id == id && forall j :: 0 <= j < i ==> vs[j].id != id
  }

  /** `verses.find { it.id == id }`: the first card with that id. */
  function FindVerse(vs: seq<QuranVerse>, id: int): (r: Option<QuranVerse>)
    ensures r.None? <==> forall i :: 0 <= i < |vs| ==> vs[i].id != id
    ensures r.Some? ==> exists i :: FirstVerseAt(vs, id, i) && vs[i] == r.value
  {
    if |vs| == 0 then None
    else if vs[0].id == id then
      assert FirstVerseAt(vs, id, 0);
      Some(vs[0])
    else
      var r := FindVerse(vs[1..], id);
      if r.Some? then
        assert exists j :: FirstVerseAt(vs, id, j) && vs[j] == r.value by {
          var i :| FirstVerseAt(vs[1..], id, i) && vs[1..][i] == r.value;
          assert FirstVerseAt(vs, id, i + 1);
        }
        r
      else r
  }

  /** `getChapterById`: the first loaded chapter with that number. */
  function GetChapterById(s: QuranUiState, id: int): (r: Option<Chapter>)
    ensures r.None? <==> forall i :: 0 <= i < |s.chapters| ==> s.chapters[i].number != id
    ensures r.Some? ==> exists i :: FirstChapterAt(s.chapters, id, i) && s.chapters[i] == r.value
  {
    FindChapter(s.chapters, id)
  }

  /** `getVerseById`: the first loaded card with that id. */
  function GetVerseById(s: QuranUiState, id: int): (r: Option<QuranVerse>)
    ensures r.None? <==> forall i :: 0 <= i < |s.verses| ==> s.verses[i].id != id
    ensures r.Some? ==> exists i :: FirstVerseAt(s.verses, id, i) && s.verses[i] == r.value
  {
    FindVerse(s.verses, id)
  }

  // ---- list update ----

  /** `verses.map { if (it.id == n) q else it }`. */
  function ReplaceById(vs: seq<QuranVerse>, n: int, q: QuranVerse): (r: seq<QuranVerse>)
    ensures |r| == |vs|
    ensures forall i :: 0 <= i < |vs| && vs[i].id == n ==> r[i] == q
    ensures forall i :: 0 <= i < |vs| && vs[i].id != n ==> r[i] == vs[i]
  {
    seq(|vs|, i requires 0 <= i < |vs| => if vs[i].id == n then q else vs[i])
  }

  /** Replacing twice with a card that keeps the id is replacing once. */
  lemma ReplaceByIdIdempotent(vs: seq<QuranVerse>, n: int, q: QuranVerse)
    requires q.id == n
    ensures ReplaceById(ReplaceById(vs, n, q), n, q) == ReplaceById(vs, n, q)
  {
  }

  /** The card `loadChapterVerses(n)` and the preload put in place of chapter
      `n`: its id is `n`, or 0 when the chapter is unknown or the list empty. */
  function ChapterCard(cs: seq<Chapter>, n: int, vs: seq<Verse>): (q: QuranVerse)
    ensures q.id == n || q.id == 0
    ensures |vs| == 0 ==> q == Adapter.EmptyCard
    ensures |vs| > 0 ==> Adapter.VersetsToVerses(q.versets) == vs
  {
    Adapter.VersesToQuranVerse(vs, FindChapter(cs, n))
  }

  // ---- search ----

  /** The verse-level part of the search predicate. */
  predicate VersetMatches(w: Verset, query: string, fold: char -> char) {
    || Text.ContainsFolded(w.arabe, query, fold)
    || Text.ContainsFolded(w.traduction, query, fold)
    || Text.ContainsFolded(w.transliteration, query, fold)
  }

  /** The filter condition of `searchVerses`: title, text or translation of
      the card, or the Arabic, translation or transliteration of any of its
      verses, contains the query. */
  predicate RecordMatches(v: QuranVerse, query: string, fold: char -> char) {
    || Text.ContainsFolded(v.sourate, query, fold)
    || Text.ContainsFolded(v.texte, query, fold)
    || Text.ContainsFolded(v.traduction, query, fold)
    || exists i :: 0 <= i < |v.versets| && VersetMatches(v.versets[i], query, fold)
  }

  /** Reference meaning of a match, stated with substring occurrence. */
  ghost predicate Mentions(v: QuranVerse, query: string, fold: char -> char) {
    || Text.Occurs(v.sourate, query, fold)
    || Text.Occurs(v.texte, query, fold)
    || Text.Occurs(v.traduction, query, fold)
    || exists i :: 0 <= i < |v.versets| &&
         (|| Text.Occurs(v.versets[i].arabe, query, fold)
          || Text.Occurs(v.versets[i].traduction, query, fold)
          || Text.Occurs(v.versets[i].transliteration, query, fold))
  }

  /** The computed filter condition is exactly the reference one. */
  lemma RecordMatchesIsMentions(v: QuranVerse, query: string, fold: char -> char)
    ensures RecordMatches(v, query, fold) <==> Mentions(v, query, fold)
  {
    Text.ContainsFoldedIsOccurs(v.sourate, query, fold);
    Text.ContainsFoldedIsOccurs(v.texte, query, fold);
    Text.ContainsFoldedIsOccurs(v.traduction, query, fold);
    forall i | 0 <= i < |v.versets|
      ensures VersetMatches(v.versets[i], query, fold) <==>
        (|| Text.Occurs(v.versets[i].arabe, query, fold)
         || Text.Occurs(v.versets[i].traduction, query, fold)
         || Text.Occurs(v.versets[i].transliteration, query, fold))
    {
      Text.ContainsFoldedIsOccurs(v.versets[i].arabe, query, fold);
      Text.ContainsFoldedIsOccurs(v.versets[i].traduction, query, fold);
      Text.ContainsFoldedIsOccurs(v.versets[i].transliteration, query, fold);
    }
  }

  /** `verses.filter { ... }`: the matching cards, in their original order. */
  function Filter(vs: seq<QuranVerse>, query: string, fold: char -> char): (r: seq<QuranVerse>)
    ensures |r| <= |vs|
    ensures forall x :: x in r <==> x in vs && RecordMatches(x, query, fold)
  {
    if |vs| == 0 then []
    else (if RecordMatches(vs[0], query, fold) then [vs[0]] else []) + Filter(vs[1..], query, fold)
  }

  /** Filtering a concatenation filters each part and keeps them in order;
      together with the one-element case this fixes the result exactly. */
  lemma {:induction false} FilterAppend(a: seq<QuranVerse>, b: seq<QuranVerse>, query: string, fold: char -> char)
    ensures Filter(a + b, query, fold) == Filter(a, query, fold) + Filter(b, query, fold)
    decreases |a|
  {
    if |a| > 0 {
      assert (a + b)[1..] == a[1..] + b;
      FilterAppend(a[1..], b, query, fold);
    } else {
      assert a + b == b;
    }
  }

  /** The one-element case of the filter. */
  lemma FilterSingleton(v: QuranVerse, query: string, fold: char -> char)
    ensures Filter([v], query, fold) == if RecordMatches(v, query, fold) then [v] else []
  {
    assert [v][1..] == [];
  }

  /** `a` is obtained from `b` by deleting elements. */
  predicate IsSubsequence<T(==)>(a: seq<T>, b: seq<T>)
    decreases |b|
  {
    if |a| == 0 then true
    else if |b| == 0 then false
    else if a[0] == b[0] then IsSubsequence(a[1..], b[1..])
    else IsSubsequence(a, b[1..])
  }

  /** The search result keeps the loaded order. */
  lemma {:induction false} FilterIsSubsequence(vs: seq<QuranVerse>, query: string, fold: char -> char)
    ensures IsSubsequence(Filter(vs, query, fold), vs)
    decreases |vs|
  {
    if |vs| > 0 {
      FilterIsSubsequence(vs[1..], query, fold);
      var rest := Filter(vs[1..], query, fold);
      if RecordMatches(vs[0], query, fold) {
        assert ([vs[0]] + rest)[1..] == rest;
      } else if |rest| > 0 {
        // the head of the result matches, the head of the input does not
        assert rest[0] in rest;
        assert rest[0] != vs[0];
        assert Filter(vs, query, fold) == [] + rest == rest;
      }
    }
  }

  // ---- transitions ----

  /** First step of every load and of a non-blank search: the loading flag
      goes up and the error is cleared; nothing else moves. */
  function BeginLoad(s: QuranUiState): (r: QuranUiState)
    ensures r.isLoading && r.error.None?
    ensures r.(isLoading := s.isLoading, error := s.error) == s
  {
    s.(isLoading := true, error := None)
  }

  /** What a finished chapter-list load leaves behind: on success the
      fetched chapters, their adapted cards and no error; on failure the
      failure's message as the error; in both cases the loading flag down
      and every other field as it was. */
  predicate ChaptersLoaded(s: QuranUiState, fetched: Fetch<seq<Chapter>>, r: QuranUiState) {
    && !r.isLoading
    && (fetched.Success? ==>
          && r.chapters == fetched.value
          && r.verses == Adapter.ChaptersToQuranVerses(fetched.value)
          && r.error.None?
          && r.(chapters := s.chapters, verses := s.verses, isLoading := s.isLoading, error := s.error) == s)
    && (fetched.Failure? ==>
          r.error == fetched.message && r.(isLoading := s.isLoading, error := s.error) == s)
  }

  /** `loadChapters` once the chapter list has been fetched: each card
      carries its chapter's number, gives the chapter back and has no verses
      yet. */
  function LoadChapters(s: QuranUiState, fetched: Fetch<seq<Chapter>>): (r: QuranUiState)
    ensures ChaptersLoaded(s, fetched, r)
    ensures fetched.Success? ==>
      && |r.verses| == |fetched.value|
      && (forall i :: 0 <= i < |r.verses| ==>
            && r.verses[i].id == fetched.value[i].number
            && Adapter.ChapterOf(r.verses[i]) == Some(fetched.value[i])
            && r.verses[i].versets == []
            && Adapter.Adapted(r.verses[i]))
  {
    var s1 := BeginLoad(s);
    match fetched
    case Success(cs) =>
      var qs := Adapter.ChaptersToQuranVerses(cs);
      forall i | 0 <= i < |cs|
        ensures qs[i].id == cs[i].number && Adapter.ChapterOf(qs[i]) == Some(cs[i])
          && qs[i].versets == [] && Adapter.Adapted(qs[i])
      {
        Adapter.ChaptersToQuranVersesShape(cs, i);
      }
      s1.(chapters := cs, verses := qs, isLoading := false)
    case Failure(m) =>
      s1.(error := m, isLoading := false)
  }

  /** `refresh` reloads the chapter list, with the same outcome as the
      first load. */
  function Refresh(s: QuranUiState, fetched: Fetch<seq<Chapter>>): (r: QuranUiState)
    ensures ChaptersLoaded(s, fetched, r)
  {
    LoadChapters(s, fetched)
  }

  /** The snapshot right after construction, whose `init` block loads the
      chapter list: the initial snapshot with the chapters and their cards,
      or with the error. */
  function Created(fetched: Fetch<seq<Chapter>>): (r: QuranUiState)
    ensures fetched.Success? ==>
      r == Initial().(chapters := fetched.value, verses := Adapter.ChaptersToQuranVerses(fetched.value))
    ensures fetched.Failure? ==> r == Initial().(error := fetched.message)
  {
    LoadChapters(Initial(), fetched)
  }

  /** `loadChapterVerses(n)` once chapter `n`'s verses have been fetched. */
  function LoadChapterVerses(s: QuranUiState, n: int, fetched: Fetch<seq<Verse>>): (r: QuranUiState)
    ensures !r.isLoading
    ensures fetched.Success? ==>
      && |r.verses| == |s.verses|
      && (forall i :: 0 <= i < |s.verses| && s.verses[i].id == n ==>
            r.verses[i] == Adapter.VersesToQuranVerse(fetched.value, r.currentChapter))
      && (forall i :: 0 <= i < |s.verses| && s.verses[i].id != n ==> r.verses[i] == s.verses[i])
      && (r.currentChapter.None? <==> forall i :: 0 <= i < |s.chapters| ==> s.chapters[i].number != n)
      && (r.currentChapter.Some? ==>
            exists i :: FirstChapterAt(s.chapters, n, i) && s.chapters[i] == r.currentChapter.value)
      && r.currentVerses == fetched.value
      && r.error.None?
      && r.(verses := s.verses, currentChapter := s.currentChapter, currentVerses := s.currentVerses,
            isLoading := s.isLoading, error := s.error) == s
    ensures fetched.Failure? ==>
      r.error == fetched.message && r.(isLoading := s.isLoading, error := s.error) == s
  {
    var s1 := BeginLoad(s);
    match fetched
    case Success(vs) =>
      var ch := FindChapter(s1.chapters, n);
      var q := Adapter.VersesToQuranVerse(vs, ch);
      s1.(verses := ReplaceById(s1.verses, n, q), currentChapter := ch, currentVerses := vs, isLoading := false)
    case Failure(m) =>
      s1.(error := m, isLoading := false)
  }

  /** `searchVerses(query)`. A blank query only empties the results; any
      other query runs the filter over the loaded cards. */
  function SearchVerses(s: QuranUiState, query: string, fold: char -> char): (r: QuranUiState)
    ensures Text.IsBlank(query) ==> r.searchResults == [] && r.(searchResults := s.searchResults) == s
    ensures !Text.IsBlank(query) ==>
      && !r.isLoading && r.error.None?
      && r.searchResults == Filter(s.verses, query, fold)
      && r.(isLoading := s.isLoading, error := s.error, searchResults := s.searchResults) == s
  {
    if Text.IsBlank(query) then s.(searchResults := [])
    else
      var s1 := BeginLoad(s);
      s1.(searchResults := Filter(s1.verses, query, fold), isLoading := false)
  }

  /** Every search result matches, every matching loaded card is a result,
      and the results keep the loaded order. */
  lemma SearchResultsAreTheMatches(s: QuranUiState, query: string, fold: char -> char)
    requires !Text.IsBlank(query)
    ensures var r := SearchVerses(s, query, fold).searchResults;
      && (forall x :: x in r <==> x in s.verses && Mentions(x, query, fold))
      && IsSubsequence(r, s.verses)
  {
    var r := SearchVerses(s, query, fold).searchResults;
    FilterIsSubsequence(s.verses, query, fold);
    forall x ensures x in r <==> x in s.verses && Mentions(x, query, fold) {
      RecordMatchesIsMentions(x, query, fold);
    }
  }

  /** Search only looks at what has been loaded: with no cards there are no
      results, whatever the query. */
  lemma SearchNeedsLoadedCards(s: QuranUiState, query: string, fold: char -> char)
    requires s.verses == []
    ensures SearchVerses(s, query, fold).searchResults == []
  {
  }

  /** `clearError`. */
  function ClearError(s: QuranUiState): (r: QuranUiState)
    ensures r.error.None? && r.(error := s.error) == s
  {
    s.(error := None)
  }

  /** `clearSearchResults`. */
  function ClearSearchResults(s: QuranUiState): (r: QuranUiState)
    ensures r.searchResults == [] && r.(searchResults := s.searchResults) == s
  {
    s.(searchResults := [])
  }

  /** Dismissing the error of a failed load gives back the content that was
      there before the load started. */
  lemma ClearErrorAfterFailedLoad(s: QuranUiState, m: Option<string>)
    ensures ClearError(LoadChapters(s, Failure(m))) == s.(isLoading := false, error := None)
    ensures forall n :: ClearError(LoadChapterVerses(s, n, Failure(m))) == s.(isLoading := false, error := None)
  {
  }

  /** A load that brings back no verses blanks the cards of that chapter:
      they get id 0 and empty text, so a later lookup by `n` misses them. */
  lemma EmptyResponseBlanksCard(s: QuranUiState, n: int, i: int)
    requires 0 <= i < |s.verses| && s.verses[i].id == n
    ensures LoadChapterVerses(s, n, Success([])).verses[i] == Adapter.EmptyCard
  {
  }

  /** The state of the preload for one card once the first `k` popular
      chapters have been requested: replaced by its fetched card if its id
      is among them and the fetch succeeded, unchanged otherwise. */
  function PreloadedUpTo(s: QuranUiState, fetch: int -> Fetch<seq<Verse>>, v: QuranVerse, k: nat): QuranVerse
    requires k <= |PopularChapters|
  {
    if v.id in PopularChapters[..k] && fetch(v.id).Success? then
      ChapterCard(s.chapters, v.id, fetch(v.id).value)
    else v
  }

  /** `preloadPopularChapters`: fetch each popular chapter in turn and put
      its card in place; failures are ignored and only `verses` changes. */
  method PreloadPopularChapters(s: QuranUiState, fetch: int -> Fetch<seq<Verse>>) returns (r: QuranUiState)
    ensures r.(verses := s.verses) == s
    ensures |r.verses| == |s.verses|
    ensures forall i :: 0 <= i < |s.verses| ==>
      r.verses[i] == (if s.verses[i].id in PopularChapters && fetch(s.verses[i].id).Success?
                      then ChapterCard(s.chapters, s.verses[i].id, fetch(s.verses[i].id).value)
                      else s.verses[i])
  {
    r := s;
    for k := 0 to |PopularChapters|
      invariant r.(verses := s.verses) == s
      invariant |r.verses| == |s.verses|
      invariant forall i :: 0 <= i < |s.verses| ==> r.verses[i] == PreloadedUpTo(s, fetch, s.verses[i], k)
    {
      var n := PopularChapters[k];
      assert n !in PopularChapters[..k] && n != 0;
      assert PopularChapters[..k + 1] == PopularChapters[..k] + [n];
      match fetch(n) {
        case Success(vs) =>
          var q := Adapter.VersesToQuranVerse(vs, FindChapter(r.chapters, n));
          r := r.(verses := ReplaceById(r.verses, n, q));
        case Failure(_) =>
      }
    }
    assert PopularChapters[..|PopularChapters|] == PopularChapters;
  }

  // ---- invariant ----

  /** Cards and chapters line up: one card per chapter, each carrying its
      chapter's number or 0 once a load has blanked it. */
  predicate Aligned(s: QuranUiState) {
    && |s.verses| == |s.chapters|
    && forall i :: 0 <= i < |s.verses| ==> s.verses[i].id == s.chapters[i].number || s.verses[i].id == 0
  }

  /** Every transition keeps the cards aligned with the chapters, and a
      successful chapter load establishes it from any state. */
  lemma TransitionsKeepAligned(s: QuranUiState, fc: Fetch<seq<Chapter>>, n: int, fv: Fetch<seq<Verse>>,
                               query: string, fold: char -> char)
    ensures fc.Success? ==> Aligned(LoadChapters(s, fc))
    ensures Aligned(s) ==> Aligned(LoadChapters(s, fc))
    ensures Aligned(s) ==> Aligned(LoadChapterVerses(s, n, fv))
    ensures Aligned(s) ==> Aligned(SearchVerses(s, query, fold))
    ensures Aligned(s) ==> Aligned(ClearError(s)) && Aligned(ClearSearchResults(s))
  {
    if Aligned(s) && fv.Success? {
      var r := LoadChapterVerses(s, n, fv);
      forall i | 0 <= i < |r.verses|
        ensures r.verses[i].id == r.chapters[i].number || r.verses[i].id == 0
      {
        if s.verses[i].id == n {
          assert r.verses[i] == ChapterCard(s.chapters, n, fv.value);
        }
      }
    }
  }

  /** The preload keeps the cards aligned with the chapters. */
  lemma PreloadKeepsAligned(s: QuranUiState, fetch: int -> Fetch<seq<Verse>>, r: QuranUiState)
    requires Aligned(s)
    requires r.(verses := s.verses) == s && |r.verses| == |s.verses|
    requires forall i :: 0 <= i < |s.verses| ==>
      r.verses[i] == (if s.verses[i].id in PopularChapters && fetch(s.verses[i].id).Success?
                      then ChapterCard(s.chapters, s.verses[i].id, fetch(s.verses[i].id).value)
                      else s.verses[i])
    ensures Aligned(r)
  {
  }
}
