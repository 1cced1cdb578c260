# SirajApp core, modelled in Dafny

SirajApp is an Android Quran reader written in Kotlin with Jetpack Compose.
This project models its core:

- the display records (`QuranVerse`, `Verset`) and the API records (`Chapter`, `Verse`);
- the adapter that turns API records into display records;
- the `QuranViewModel` state holder: loading chapters and verses, search, error and result clearing, and the popular-chapters preload;
- the pure part of the download service: assembling a chapter from its Arabic and French editions, the metadata table, the essential-chapters loop and the cache threshold;
- the state machines of the screens: search, chapter list, reminders clicker, dhikr counter, home carousel, reminders slider, tajwid check and download.

Each view-model operation is a pure function from the state before the call to the state after its fetch completed. A fetch is an input value, either `Success(value)` or `Failure(message)`. A screen is a record of its local state plus pure event functions. Callbacks are returned as values; `SearchScreen.Dispatch` runs them against the view model.

Modules, one per file:

| file | module | models |
|---|---|---|
| results.dfy | `Results` | nullable values, fetch outcomes |
| network.dfy, model.dfy | `Network`, `Model` | the records |
| text.dfy | `Text` | `isBlank`, `contains`, `length` in UTF-16 units, integer rendering, `%02d` with the locale's digits |
| adapter.dfy | `Adapter` | `QuranApiAdapter` |
| viewmodel.dfy | `ViewModel` | `QuranViewModel` |
| service.dfy | `DownloadService` | `OptimizedQuranApiService` |
| search_screen.dfy … download_screen.dfy | one per screen | the Compose screens' logic |

Search does not look at a card's own transliteration or `texteArabe`: `searchVerses` tests the card's `sourate`, `texte` and `traduction`, and the `arabe`, `traduction` and `transliteration` of its verses.

## Model

| member | source | states |
|---|---|---|
| Model.QuranVerseDefaults | app/src/main/java/com/example/siraj/model/QuranVerse.kt:8-18 | a card built from its four required fields has `texteArabe` equal to its text, empty translation and transliteration, and no verses |
| Model.VersetDefaults | app/src/main/java/com/example/siraj/model/QuranVerse.kt:20-26 | a verse built without transliteration has an empty one |
| Text.IndexOfFrom | app/src/main/java/com/example/siraj/viewmodel/QuranViewModel.kt:98-104 | the scan behind `contains` returns the first matching offset at or after `from`, or -1 when no offset matches |
| Text.ContainsFoldedIsOccurs | app/src/main/java/com/example/siraj/viewmodel/QuranViewModel.kt:98-104 | `contains` holds exactly when the pattern occurs at some offset, compared through the fold |
| Text.SliceIsContained | app/src/main/java/com/example/siraj/viewmodel/QuranViewModel.kt:98-104 | any slice of a text is found in it |
| Text.NatToString | app/src/main/java/com/example/siraj/adapter/QuranApiAdapter.kt:56 | a number renders as decimal digits, one digit exactly below 10, no leading zero |
| Text.NatToStringRoundTrip | app/src/main/java/com/example/siraj/adapter/QuranApiAdapter.kt:56 | reading the rendered digits back gives the number |
| Text.IntToString | app/src/main/java/com/example/siraj/adapter/QuranApiAdapter.kt:56 | a negative number renders as "-" followed by the digits of its magnitude |
| Text.Utf16Length | app/src/main/java/com/example/siraj/ui/QuranSearchScreen.kt:117 | `length` counts UTF-16 units: between one and two per character, zero exactly for the empty text, one exactly for a single character of the Basic Multilingual Plane |
| Text.Utf16LengthAppend | app/src/main/java/com/example/siraj/ui/QuranSearchScreen.kt:117 | the length of a concatenation is the sum of the lengths |
| Text.Utf16LengthIsSize | app/src/main/java/com/example/siraj/ui/QuranSearchScreen.kt:117 | `length` equals the number of characters exactly when all of them lie in the Basic Multilingual Plane |
| Text.Pad2 | app/src/main/java/com/example/siraj/ui/QuranListScreen.kt:571 | the ASCII digits `%02d` builds read back as the number, exactly two below 100 |
| Text.Localize | app/src/main/java/com/example/siraj/ui/QuranListScreen.kt:571 | the formatter replaces each ASCII digit by the locale's digit of the same value and keeps every other character |
| Text.LocalizeKeepsValue | app/src/main/java/com/example/siraj/ui/QuranListScreen.kt:571 | the substituted digits read back, in the locale's set, as the same number |
| Text.LocalPad2 | app/src/main/java/com/example/siraj/ui/QuranListScreen.kt:571 | `%02d` under the default locale gives at least two of the locale's digits, which read back as the number, exactly two below 100 |
| Adapter.VerseToVerset | app/src/main/java/com/example/siraj/adapter/QuranApiAdapter.kt:27-35 | the verse keeps the API verse's number and text, which `VersetToVerse` reads back; translation and transliteration are empty |
| Adapter.MapVersets | app/src/main/java/com/example/siraj/adapter/QuranApiAdapter.kt:20 | mapping keeps the length and converts each verse at its own index |
| Adapter.MapVersetsRoundTrip | app/src/main/java/com/example/siraj/adapter/QuranApiAdapter.kt:20 | the API verses can be read back from the mapped list, in order |
| Adapter.ChapterTitleSplits | app/src/main/java/com/example/siraj/adapter/QuranApiAdapter.kt:16 | the title ends in " - " plus the Arabic name and starts with the English name |
| Adapter.ChapterToQuranVerse | app/src/main/java/com/example/siraj/adapter/QuranApiAdapter.kt:13-22 | both the chapter and its verses can be read back from the card; audio, transliteration and verse translations are empty |
| Adapter.ChaptersToQuranVerses | app/src/main/java/com/example/siraj/adapter/QuranApiAdapter.kt:66-77 | one card per chapter, in order, each the chapter's card without verses |
| Adapter.ChaptersToQuranVersesShape | app/src/main/java/com/example/siraj/adapter/QuranApiAdapter.kt:66-77 | each list card carries its chapter's number, gives the chapter back, and has no verses |
| Adapter.VersesToQuranVerse | app/src/main/java/com/example/siraj/adapter/QuranApiAdapter.kt:40-61 | no verses gives the blank card; otherwise the verses read back, the id is the chapter's number or 0, and the names fall back to "Sourate 0" and "" |
| Adapter.VersesAgreeWithChapterCard | app/src/main/java/com/example/siraj/adapter/QuranApiAdapter.kt:13-22 | with a known chapter and some verses, the two adapters agree except that the title lacks the " - name" suffix |
| Adapter.SingleVerseToQuranVerse | app/src/main/java/com/example/siraj/adapter/QuranApiAdapter.kt:82-92 | a card holding just that verse, with the verse's text and the chapter's number or 0 |
| ViewModel.Initial | app/src/main/java/com/example/siraj/viewmodel/QuranViewModel.kt:15-23 | the initial state is empty, not loading and without error |
| ViewModel.FindChapter | app/src/main/java/com/example/siraj/viewmodel/QuranViewModel.kt:64 | `find` returns the first chapter with that number, and nothing exactly when none has it |
| ViewModel.FindVerse | app/src/main/java/com/example/siraj/viewmodel/QuranViewModel.kt:128 | `find` returns the first card with that id, and nothing exactly when none has it |
| ViewModel.GetChapterById | app/src/main/java/com/example/siraj/viewmodel/QuranViewModel.kt:123-125 | the first loaded chapter with that number, and nothing exactly when there is none |
| ViewModel.GetVerseById | app/src/main/java/com/example/siraj/viewmodel/QuranViewModel.kt:127-129 | the first loaded card with that id, and nothing exactly when there is none |
| ViewModel.ReplaceById | app/src/main/java/com/example/siraj/viewmodel/QuranViewModel.kt:67-69 | every card with the id is replaced and every other card kept, at the same positions |
| ViewModel.ReplaceByIdIdempotent | app/src/main/java/com/example/siraj/viewmodel/QuranViewModel.kt:67-69 | replacing twice with a card keeping the id equals replacing once |
| ViewModel.ChapterCard | app/src/main/java/com/example/siraj/viewmodel/QuranViewModel.kt:64-65 | the replacement card's id is the requested number or 0, and its verses read back as the fetched ones |
| ViewModel.RecordMatchesIsMentions | app/src/main/java/com/example/siraj/viewmodel/QuranViewModel.kt:97-106 | the filter condition holds exactly when the query occurs in one of the six searched fields |
| ViewModel.Filter | app/src/main/java/com/example/siraj/viewmodel/QuranViewModel.kt:97-106 | the result holds exactly the matching cards of the input, and is no longer than it |
| ViewModel.FilterAppend | app/src/main/java/com/example/siraj/viewmodel/QuranViewModel.kt:97-106 | filtering a concatenation concatenates the filtered parts |
| ViewModel.FilterSingleton | app/src/main/java/com/example/siraj/viewmodel/QuranViewModel.kt:97-106 | a single card is kept exactly when it matches |
| ViewModel.FilterIsSubsequence | app/src/main/java/com/example/siraj/viewmodel/QuranViewModel.kt:97-106 | the results keep the loaded order |
| ViewModel.BeginLoad | app/src/main/java/com/example/siraj/viewmodel/QuranViewModel.kt:37 | a load starts with the loading flag up and no error, nothing else changed |
| ViewModel.LoadChapters | app/src/main/java/com/example/siraj/viewmodel/QuranViewModel.kt:35-56 | success stores the chapters and exactly the adapter's cards for them, one verse-less card per chapter that gives the chapter back, with no error; failure stores the message and keeps the content; loading ends and nothing else changes |
| ViewModel.Refresh | app/src/main/java/com/example/siraj/viewmodel/QuranViewModel.kt:131-133 | a refresh has the outcome of the first load: the chapters and their adapter cards with no error, or the failure's message with the content kept; loading ends and nothing else changes |
| ViewModel.Created | app/src/main/java/com/example/siraj/viewmodel/QuranViewModel.kt:31-33 | a new view model is the initial state with the chapters and their adapter cards, or the initial state with the failure's message |
| ViewModel.LoadChapterVerses | app/src/main/java/com/example/siraj/viewmodel/QuranViewModel.kt:58-86 | success replaces the matching cards, records the first chapter with that number (or none) and the verses; failure stores the message and keeps the content |
| ViewModel.SearchVerses | app/src/main/java/com/example/siraj/viewmodel/QuranViewModel.kt:88-113 | a blank query only empties the results; any other query stores the filtered cards, not loading and without error |
| ViewModel.SearchResultsAreTheMatches | app/src/main/java/com/example/siraj/viewmodel/QuranViewModel.kt:97-106 | the results are exactly the loaded cards mentioning the query, in loaded order |
| ViewModel.SearchNeedsLoadedCards | app/src/main/java/com/example/siraj/viewmodel/QuranViewModel.kt:97 | without loaded cards no query finds anything |
| ViewModel.ClearError | app/src/main/java/com/example/siraj/viewmodel/QuranViewModel.kt:115-117 | only the error is cleared |
| ViewModel.ClearSearchResults | app/src/main/java/com/example/siraj/viewmodel/QuranViewModel.kt:119-121 | only the results are cleared |
| ViewModel.ClearErrorAfterFailedLoad | app/src/main/java/com/example/siraj/viewmodel/QuranViewModel.kt:48-53 | dismissing a failed load's error restores the state from before the load |
| ViewModel.EmptyResponseBlanksCard | app/src/main/java/com/example/siraj/viewmodel/QuranViewModel.kt:65-69 | an empty verse list replaces the chapter's card with the blank card of id 0 |
| ViewModel.PreloadPopularChapters | app/src/main/java/com/example/siraj/viewmodel/QuranViewModel.kt:135-157 | after the preload each popular chapter's card holds its fetched verses, failures leave the card, and nothing but the cards changes |
| ViewModel.TransitionsKeepAligned | app/src/main/java/com/example/siraj/viewmodel/QuranViewModel.kt:35-121 | every operation keeps one card per chapter, each with its chapter's number or 0 |
| ViewModel.PreloadKeepsAligned | app/src/main/java/com/example/siraj/viewmodel/QuranViewModel.kt:135-157 | the preload keeps cards and chapters aligned |
| DownloadService.GetSourateInfo | app/src/main/java/com/example/siraj/service/OptimizedQuranApiService.kt:202-213 | the table entry, or Al-Fatiha's for an unknown id; the entry describes the requested chapter exactly for the seven essential ones |
| DownloadService.ZipAyahs | app/src/main/java/com/example/siraj/service/OptimizedQuranApiService.kt:130-143 | one verse per Arabic ayah with the translation at the same index; it fails exactly when the translation array is shorter |
| DownloadService.ZipIgnoresExtraTranslations | app/src/main/java/com/example/siraj/service/OptimizedQuranApiService.kt:132-134 | translation ayahs past the Arabic count do not change the result |
| DownloadService.DownloadSingleSourate | app/src/main/java/com/example/siraj/service/OptimizedQuranApiService.kt:113-168 | a card exactly when the response is usable, with the requested id, the table's names and audio, an empty transliteration, and the zipped verses |
| DownloadService.FallbackKeepsRequestedId | app/src/main/java/com/example/siraj/service/OptimizedQuranApiService.kt:145-153 | a chapter outside the table is named Al-Fatiha but keeps its own id |
| DownloadService.TestDownloadAlFatiha | app/src/main/java/com/example/siraj/service/OptimizedQuranApiService.kt:21-84 | a card exactly when the response is usable, with id 1 and text "سورة الفاتحة" |
| DownloadService.TestDownloadMatchesChapterOne | app/src/main/java/com/example/siraj/service/OptimizedQuranApiService.kt:59-66 | the test download equals the regular download of chapter 1 except for its text |
| DownloadService.SucceededIds | app/src/main/java/com/example/siraj/service/OptimizedQuranApiService.kt:94-105 | exactly the requested ids whose download succeeds |
| DownloadService.SucceededIdsStep | app/src/main/java/com/example/siraj/service/OptimizedQuranApiService.kt:94-105 | one more request appends its id exactly when it succeeded |
| DownloadService.DownloadEssentialSourates | app/src/main/java/com/example/siraj/service/OptimizedQuranApiService.kt:87-110 | every essential id is announced in order; the result holds one card per successful request, in request order, and skips failures |
| DownloadService.DownloadedCardsKeepRequestOrder | app/src/main/java/com/example/siraj/service/OptimizedQuranApiService.kt:94-100 | the downloaded cards' ids are the successful ids in order |
| DownloadService.NoneSucceed | app/src/main/java/com/example/siraj/service/OptimizedQuranApiService.kt:94-105 | when every request fails nothing is kept |
| DownloadService.AllSucceed | app/src/main/java/com/example/siraj/service/OptimizedQuranApiService.kt:94-105 | when every request succeeds every id is kept, in order |
| SearchScreen.OnValueChange | app/src/main/java/com/example/siraj/ui/QuranSearchScreen.kt:115-121 | the field takes the text; a `length` of two or more UTF-16 units searches, an empty field clears, a single character of the Basic Multilingual Plane does nothing else |
| SearchScreen.OnImeSearch | app/src/main/java/com/example/siraj/ui/QuranSearchScreen.kt:135-140 | the keyboard action searches exactly when the field is not empty, and never clears |
| SearchScreen.OnClear | app/src/main/java/com/example/siraj/ui/QuranSearchScreen.kt:72-76 | a clear button empties the field and clears the results |
| SearchScreen.Dispatch | app/src/main/java/com/example/siraj/MainActivity.kt:60-63 | no call leaves the view model alone; a clear changes only the results |
| SearchScreen.TypingDrivesTheViewModel | app/src/main/java/com/example/siraj/ui/QuranSearchScreen.kt:115-121 | a text of one UTF-16 unit leaves the view model as it was; an empty field or a clear button empties only the results; a non-blank text of two or more units stores the filtered cards |
| SearchScreen.SupplementaryCharacterSearches | app/src/main/java/com/example/siraj/ui/QuranSearchScreen.kt:117-118 | a lone character outside the Basic Multilingual Plane, such as an emoji, already starts a search |
| SearchScreen.ImeSearchAgreesWithTyping | app/src/main/java/com/example/siraj/ui/QuranSearchScreen.kt:115-140 | the keyboard action matches typing from two units on, searches for a single unit that typing ignores, and does nothing on an empty field where typing clears |
| SearchScreen.ScreenLayout | app/src/main/java/com/example/siraj/ui/QuranSearchScreen.kt:166-243 | tips, spinner and error card each show under their own condition; "no results" and the list show only outside loading and error |
| SearchScreen.TipsExcludePane | app/src/main/java/com/example/siraj/ui/QuranSearchScreen.kt:166-243 | tips and a result pane never show together, and outside loading and error exactly one of them does |
| SearchScreen.MoreVersesCount | app/src/main/java/com/example/siraj/ui/QuranSearchScreen.kt:505-513 | the "autre(s) verset(s)" line shows exactly for cards with more than one verse and counts all but the first |
| SearchScreen.CardPreview | app/src/main/java/com/example/siraj/ui/QuranSearchScreen.kt:482-535 | a card with verses previews its first verse; otherwise its text, and its translation only when not empty |
| SearchScreen.PreviewAndCountCoverTheVerses | app/src/main/java/com/example/siraj/ui/QuranSearchScreen.kt:482-513 | the previewed verse and the counted ones add up to the card's verses |
| ListScreen.Initial | app/src/main/java/com/example/siraj/ui/QuranListScreen.kt:55-59 | nothing playing, translation on, transliteration off, no card open, card mode |
| ListScreen.Flip | app/src/main/java/com/example/siraj/ui/QuranListScreen.kt:73-80 | each top-bar button flips its own switch and nothing else |
| ListScreen.FlipInvolutive | app/src/main/java/com/example/siraj/ui/QuranListScreen.kt:73-80 | flipping twice is no change, and flips commute |
| ListScreen.ToggleExpand | app/src/main/java/com/example/siraj/ui/QuranListScreen.kt:131-134 | the card's id joins or leaves the open set, other ids are untouched, and its chapter is requested exactly when it opens |
| ListScreen.ToggleExpandTwice | app/src/main/java/com/example/siraj/ui/QuranListScreen.kt:131-134 | two presses restore the state and request the chapter once |
| ListScreen.OpeningLoadsItsChapter | app/src/main/java/com/example/siraj/MainActivity.kt:83 | opening a known chapter's card replaces that card with one holding the fetched verses and keeps the others |
| ListScreen.TogglePlay | app/src/main/java/com/example/siraj/ui/QuranListScreen.kt:135-138 | pressing the playing card stops it; any other card becomes current and plays its audio |
| ListScreen.TogglePlayTwice | app/src/main/java/com/example/siraj/ui/QuranListScreen.kt:135-138 | two presses play and then stop, leaving nothing current |
| ListScreen.AdaptedCardsPlayEmptyAudio | app/src/main/java/com/example/siraj/ui/QuranListScreen.kt:138 | a card from the adapters asks the player for the empty audio key |
| ListScreen.ScreenBranch | app/src/main/java/com/example/siraj/ui/QuranListScreen.kt:100-114 | loading beats an error, which beats the list |
| ListScreen.BranchFollowsLoads | app/src/main/java/com/example/siraj/ui/QuranListScreen.kt:100-114 | the spinner shows from the start of a load; once it has finished, the list after a success or a failure without message, the error card with the message otherwise |
| ListScreen.HeaderTranslation | app/src/main/java/com/example/siraj/ui/QuranListScreen.kt:255-264 | the header's translation shows only when switched on and not empty |
| ListScreen.LoadedHeaderTranslation | app/src/main/java/com/example/siraj/ui/QuranListScreen.kt:255-264 | after the chapter list has loaded, each header shows its chapter's English name meaning under the optional-line rule |
| ListScreen.Optional | app/src/main/java/com/example/siraj/ui/QuranListScreen.kt:363 | an optional line shows only when switched on and not empty |
| ListScreen.ReadingLabel | app/src/main/java/com/example/siraj/ui/QuranListScreen.kt:353 | the ornament is "۞ " followed by digits that read back as the position plus one |
| ListScreen.CardDetail | app/src/main/java/com/example/siraj/ui/QuranListScreen.kt:188-214 | closed unless open or in reading mode; for cards without verses the text with its transliteration and translation under their switches, otherwise reading layout or verse cards; Bismillah exactly for ids other than 9 |
| ListScreen.ReadingLayout | app/src/main/java/com/example/siraj/ui/QuranListScreen.kt:334-392 | each reading line has its verse's text, a position that reads back, its transliteration and translation under their switches, and a divider after all but the last verse |
| ListScreen.DividerCountSuffix | app/src/main/java/com/example/siraj/ui/QuranListScreen.kt:388 | the lines from position k on hold exactly n - 1 - k dividers |
| ListScreen.ReadingDividers | app/src/main/java/com/example/siraj/ui/QuranListScreen.kt:388 | a chapter of n verses is read with n - 1 dividers |
| ListScreen.CardLayout | app/src/main/java/com/example/siraj/ui/QuranListScreen.kt:401-475 | each verse card is labelled with a number that reads back as the verse's number, shows its transliteration under the switch, and its translation whenever translations are on |
| ListScreen.Elapsed | app/src/main/java/com/example/siraj/ui/QuranListScreen.kt:545-552 | the counter stops at the first "not playing" answer or at 90, whichever comes first |
| ListScreen.TimeLabel | app/src/main/java/com/example/siraj/ui/QuranListScreen.kt:571 | under any locale's digit set, minutes and seconds read back from the label give the elapsed seconds, with seconds below 60 |
| ListScreen.ElapsedLabelWidth | app/src/main/java/com/example/siraj/ui/QuranListScreen.kt:545-571 | whatever the locale's digits, the counter label always has five characters |
| ListScreen.TotalDurationLabel | app/src/main/java/com/example/siraj/ui/QuranListScreen.kt:543-576 | example: the total's label reads "01:30" under Latin digits and "٠١:٣٠" under Arabic-Indic ones |
| RappelsScreen.Click | app/src/main/java/com/example/siraj/ui/RappelsScreen.kt:68-76 | ignored once finished; the 33rd click of a phrase moves on with the count back at 0; reachable states stay reachable |
| RappelsScreen.Clicks | app/src/main/java/com/example/siraj/ui/RappelsScreen.kt:68-76 | any number of presses keeps the clicker in a reachable state |
| RappelsScreen.ClicksFromReset | app/src/main/java/com/example/siraj/ui/RappelsScreen.kt:68-80 | after k ≤ 99 presses from a reset, phrase k / 33 is current with k % 33 clicks |
| RappelsScreen.FinishesAfter99 | app/src/main/java/com/example/siraj/ui/RappelsScreen.kt:35-37 | the clicker is finished exactly from the 99th press on |
| RappelsScreen.PhraseLine | app/src/main/java/com/example/siraj/ui/RappelsScreen.kt:211 | the current phrase while not finished, the closing line after |
| RappelsScreen.ClickButton | app/src/main/java/com/example/siraj/ui/RappelsScreen.kt:219-225 | the button is enabled and reads "Cliquez" exactly while not finished |
| RappelsScreen.ButtonFollowsClicks | app/src/main/java/com/example/siraj/ui/RappelsScreen.kt:68-76 | the button is enabled exactly when a press would change the clicker, and reads "Cliquez" for the first 99 presses from a reset, "Terminé" after |
| RappelsScreen.PhraseOrder | app/src/main/java/com/example/siraj/ui/RappelsScreen.kt:35 | the three phrases appear in order, 33 presses apart, then the closing line |
| DhikrScreen.Initial | app/src/main/java/com/example/siraj/ui/DhikrScreen.kt:37-38 | the first phrase with nothing counted |
| DhikrScreen.Select | app/src/main/java/com/example/siraj/ui/DhikrScreen.kt:72-75 | a chip selects its phrase and restarts the count |
| DhikrScreen.OneChipSelected | app/src/main/java/com/example/siraj/ui/DhikrScreen.kt:71 | exactly one chip is shown selected |
| DhikrScreen.Increment | app/src/main/java/com/example/siraj/ui/DhikrScreen.kt:124 | "+1" adds one and keeps the phrase |
| DhikrScreen.ResetCount | app/src/main/java/com/example/siraj/ui/DhikrScreen.kt:133 | "Reset" zeroes the count and keeps the phrase |
| DhikrScreen.ResetRestartsTheGoal | app/src/main/java/com/example/siraj/ui/DhikrScreen.kt:124-149 | after "Reset" the goal line is gone and comes back exactly on the 33rd press, on the same phrase |
| DhikrScreen.Presses | app/src/main/java/com/example/siraj/ui/DhikrScreen.kt:124 | any number of presses keeps the state reachable |
| DhikrScreen.PressesCount | app/src/main/java/com/example/siraj/ui/DhikrScreen.kt:124 | n presses add n |
| DhikrScreen.GoalAfter33 | app/src/main/java/com/example/siraj/ui/DhikrScreen.kt:143-149 | after selecting a phrase the goal line shows exactly from the 33rd press on |
| HomeScreen.Prev | app/src/main/java/com/example/siraj/ui/HomeScreen.kt:80-81 | the back arrow moves back exactly when enabled, staying in range |
| HomeScreen.Next | app/src/main/java/com/example/siraj/ui/HomeScreen.kt:121-122 | the next arrow moves on exactly when enabled, staying in range |
| HomeScreen.ArrowsUndoEachOther | app/src/main/java/com/example/siraj/ui/HomeScreen.kt:80-122 | where enabled, each arrow undoes the other |
| HomeScreen.Moves | app/src/main/java/com/example/siraj/ui/HomeScreen.kt:80-122 | any sequence of presses stays on a menu entry |
| HomeScreen.ForwardFrom | app/src/main/java/com/example/siraj/ui/HomeScreen.kt:121-122 | n forward presses advance n entries, stopping at the last |
| HomeScreen.ForwardPresses | app/src/main/java/com/example/siraj/ui/HomeScreen.kt:40-122 | from the start, forward presses reach each entry in turn and then stay on the last |
| HomeScreen.CenterClick | app/src/main/java/com/example/siraj/ui/HomeScreen.kt:33-38 | the centre navigates to the shown entry's route, one of the four |
| HomeScreen.AnyPressesOpenARoute | app/src/main/java/com/example/siraj/ui/HomeScreen.kt:40-122 | whatever the presses, the centre opens one of the four routes |
| SliderScreen.PageAt | app/src/main/java/com/example/siraj/ui/RappelsSliderScreen.kt:44-48 | pages 0, 1 and 2 show dhikr, douas and verses; other indices show nothing |
| SliderScreen.Drag | app/src/main/java/com/example/siraj/ui/RappelsSliderScreen.kt:37-40 | a drag past 50 turns one page within bounds, a smaller one keeps the page |
| SliderScreen.Step | app/src/main/java/com/example/siraj/ui/RappelsSliderScreen.kt:37-52 | an icon jumps to its page, a drag turns; both keep the page in range |
| SliderScreen.Run | app/src/main/java/com/example/siraj/ui/RappelsSliderScreen.kt:24-52 | any event sequence keeps the page in range |
| SliderScreen.AlwaysOnAPage | app/src/main/java/com/example/siraj/ui/RappelsSliderScreen.kt:24-48 | from the opening page, some page is always shown |
| SliderScreen.OneIconHighlighted | app/src/main/java/com/example/siraj/ui/RappelsSliderScreen.kt:81-111 | exactly one bottom-bar icon is highlighted |
| SliderScreen.SwipesStopAtTheEnd | app/src/main/java/com/example/siraj/ui/RappelsSliderScreen.kt:37-40 | examples: swipes stop at the first and last pages |
| TajwidScreen.SimulateCorrection | app/src/main/java/com/example/siraj/ui/TajwidCorrectionScreen.kt:94-102 | the Qaf hint for text containing "قل", the retry message for blank text, the beta message otherwise |
| TajwidScreen.BlankHasNoQul | app/src/main/java/com/example/siraj/ui/TajwidCorrectionScreen.kt:95-97 | blank text never contains "قل" |
| TajwidScreen.CorrectionClassifies | app/src/main/java/com/example/siraj/ui/TajwidCorrectionScreen.kt:94-102 | each message corresponds exactly to one class of text, whatever the test order |
| TajwidScreen.Transcript | app/src/main/java/com/example/siraj/ui/TajwidCorrectionScreen.kt:32-33 | the first hypothesis, or "" when there is none |
| TajwidScreen.OnResult | app/src/main/java/com/example/siraj/ui/TajwidCorrectionScreen.kt:31-36 | only a successful result changes the screen: the transcript and its correction |
| TajwidScreen.Shown | app/src/main/java/com/example/siraj/ui/TajwidCorrectionScreen.kt:80-89 | each block shows exactly when its text is not blank |
| TajwidScreen.SuccessAlwaysShowsCorrection | app/src/main/java/com/example/siraj/ui/TajwidCorrectionScreen.kt:31-89 | after a successful recognition a correction is always shown; with no hypothesis only the retry message shows |
| DownloadScreen.PanelOf | app/src/main/java/com/example/siraj/ui/OptimizedDownloadScreen.kt:66-190 | completed beats downloading, which beats the error panel, which beats ready |
| DownloadScreen.Start | app/src/main/java/com/example/siraj/ui/OptimizedDownloadScreen.kt:167-170 | a started or retried download runs without error |
| DownloadScreen.Finish | app/src/main/java/com/example/siraj/ui/OptimizedDownloadScreen.kt:175-180 | the download stops running; success completes it, failure raises the error |
| DownloadScreen.Step | app/src/main/java/com/example/siraj/ui/OptimizedDownloadScreen.kt:166-236 | each event acts only in the panel or phase where it can happen |
| DownloadScreen.Run | app/src/main/java/com/example/siraj/ui/OptimizedDownloadScreen.kt:166-236 | the flags stay consistent, and completion is never undone |
| DownloadScreen.PanelsFollowFlags | app/src/main/java/com/example/siraj/ui/OptimizedDownloadScreen.kt:30-190 | from the start each panel matches one flag, and the completed panel is final |
| DownloadScreen.TypicalRuns | app/src/main/java/com/example/siraj/ui/OptimizedDownloadScreen.kt:166-236 | examples: download-success and download-failure-retry-success reach the expected panels |

## Left out

- HTTP requests, JSON decoding and Volley callbacks. A response is an input value: decoded records or a failure. `QuranRepository` is not part of this model.
- Coroutines and concurrency. Each view-model operation is one atomic step from the state before the call to the state after its fetch. Interleavings of concurrent loads are not modelled.
- File I/O: `saveToFile`, `loadEssentialSourates` and the file side of `hasEssentialSourates`.
- DownloadService.HasEssentialSourates: a bare definition (the file exists and holds more than 1000 bytes) over the file's existence and length as inputs. No file system is modelled, so nothing relates it to the download.
- Exception messages and logging in the download service. A failed chapter is simply absent.
- DownloadService.DownloadEssentialSourates: reports the announced chapter ids rather than the progress strings. `ProgressMessage` gives the text sent for each id.
- The 500 ms delay between requests, and the other timing.
- `AudioPlayer` playback and its seek and pause controls. The list screen only emits `Play(audio)` or `Stop`.
- ListScreen.Elapsed: models the one-second ticks as a sequence of "is playing" answers. The float progress ratio is left out; `progress < 1` is taken as `timePassed < 90`.
- The text-zoom slider, which only scales font sizes.
- Compose rendering: colours, sizes, images and the keyboard hiding after a search.
- The device locale is a parameter, not a setting: `ListScreen.TimeLabel` takes the zero of the locale's digit set (`Text.ZeroDigit`). Locales whose digits do not form ten consecutive characters are not modelled.
- Kotlin's Unicode case-insensitive comparison. `contains(..., ignoreCase = true)` takes a `fold` parameter that decides which characters count as equal.
- DhikrScreen.Increment: the count is an unbounded integer. The 32-bit `Int` wrap-around would need 2^31 presses.
- SliderScreen.Drag: the drag amount is a real number. Float NaN and infinity are not modelled.
- DownloadScreen.Step: treats a press and the start of its coroutine as one step. In the source, the retry button first clears `hasError`, and the ready panel shows until the coroutine sets `isDownloading`. In that window a second press would start a second download.
- `downloadCompleteQuran` and `loadLocalQuran` are called by the download screen but not defined with those signatures in the source (OptimizedDownloadScreen.kt:100, 172, 226). The model treats the download as an outcome, and the "Accéder au Coran" button is left out.
- The source passes an `audio` argument to `Verset` (QuranApiAdapter.kt:33), which has no such field. The model drops the argument.
- `TestApiScreen`, the prayer-times screen, the douas and verses pages, and the names-of-Allah list of the reminders screen. They are outside the core.
