/** The chapter list screen: its per-screen toggles, the expand and play
    toggles of a card, which branch of the screen shows, what an open card
    contains in each mode, and the elapsed-time label of the audio controls. */
module ListScreen {
  import opened Results
  import opened Model
  import opened Network
  import Adapter
  import ViewModel
  import Text

  /** The screen's local state; the text zoom is left out. */
  datatype ListState = ListState(
    currentVerse: Option<QuranVerse>,
    showTranslation: bool,
    showTransliteration: bool,
    expandedVerses: set<int>,
    readingMode: bool)

  /** Nothing playing, translation on, transliteration off, nothing open,
      card mode. */
  function Initial(): (st: ListState)
    ensures st.currentVerse.None? && st.expandedVerses == {}
    ensures st.showTranslation && !st.showTransliteration && !st.readingMode
  {
    ListState(None, true, false, {}, false)
  }

  /** The three top-bar switches. */
  datatype Switch = ReadingSwitch | TranslationSwitch | TransliterationSwitch

  /** A top-bar button flips its own switch and nothing else. */
  function Flip(st: ListState, w: Switch): (r: ListState)
    ensures w == ReadingSwitch ==> r.readingMode == !st.readingMode && r.(readingMode := st.readingMode) == st
    ensures w == TranslationSwitch ==>
      r.showTranslation == !st.showTranslation && r.(showTranslation := st.showTranslation) == st
    ensures w == TransliterationSwitch ==>
      r.showTransliteration == !st.showTransliteration && r.(showTransliteration := st.showTransliteration) == st
  {
    match w
    case ReadingSwitch => st.(readingMode := !st.readingMode)
    case TranslationSwitch => st.(showTranslation := !st.showTranslation)
    case TransliterationSwitch => st.(showTransliteration := !st.showTransliteration)
  }

  /** Pressing a switch twice changes nothing; switches commute. */
  lemma FlipInvolutive(st: ListState, w: Switch, w': Switch)
    ensures Flip(Flip(st, w), w) == st
    ensures Flip(Flip(st, w), w') == Flip(Flip(st, w'), w)
  {
  }

  /** `onExpandToggle` of the card with id `id`: the id leaves or joins the
      open set, and the chapter's verses are requested exactly when the card
      opens. */
  function ToggleExpand(st: ListState, id: int): (r: (ListState, Option<int>))
    ensures id in r.0.expandedVerses <==> id !in st.expandedVerses
    ensures forall x :: x != id ==> (x in r.0.expandedVerses <==> x in st.expandedVerses)
    ensures r.0.(expandedVerses := st.expandedVerses) == st
    ensures r.1 == Some(id) <==> id !in st.expandedVerses
    ensures r.1.None? <==> id in st.expandedVerses
  {
    if id in st.expandedVerses then (st.(expandedVerses := st.expandedVerses - {id}), None)
    else (st.(expandedVerses := st.expandedVerses + {id}), Some(id))
  }

  /** Opening and then closing a card (or the reverse) restores the state,
      and the two presses request the verses exactly once. */
  lemma ToggleExpandTwice(st: ListState, id: int)
    ensures ToggleExpand(ToggleExpand(st, id).0, id).0 == st
    ensures ToggleExpand(st, id).1.Some? != ToggleExpand(ToggleExpand(st, id).0, id).1.Some?
  {
    var r := ToggleExpand(ToggleExpand(st, id).0, id).0;
    assert r.expandedVerses == st.expandedVerses;
  }

  /** Opening a collapsed card asks the view model for that chapter's
      verses; when the chapter is known and the fetch brings verses back, the
      card is replaced by one with the chapter's number and exactly those
      verses, and the other cards stay as they were. */
  lemma OpeningLoadsItsChapter(st: ListState, s: ViewModel.QuranUiState, id: int, vs: seq<Verse>, i: int)
    requires id !in st.expandedVerses
    requires 0 <= i < |s.verses| && s.verses[i].id == id && |vs| > 0
    requires exists j :: 0 <= j < |s.chapters| && s.chapters[j].number == id
    ensures var request := ToggleExpand(st, id).1;
      && request == Some(id)
      && var r := ViewModel.LoadChapterVerses(s, request.value, Success(vs));
      && r.verses[i].id == id
      && Adapter.VersetsToVerses(r.verses[i].versets) == vs
      && (forall k :: 0 <= k < |s.verses| && s.verses[k].id != id ==> r.verses[k] == s.verses[k])
  {
    var r := ViewModel.LoadChapterVerses(s, id, Success(vs));
    assert r.currentChapter.Some?;
  }

  /** The audio command a play button sends. */
  datatype AudioCommand = Play(audio: string) | Stop

  /** `onPlayToggle` of card `v`: pressing the playing card stops it; pressing
      any other card makes it the current one and plays its audio. Cards are
      compared structurally, as Kotlin data classes are. */
  function TogglePlay(st: ListState, v: QuranVerse): (r: (ListState, AudioCommand))
    ensures r.0.(currentVerse := st.currentVerse) == st
    ensures st.currentVerse == Some(v) ==> r.0.currentVerse.None? && r.1 == Stop
    ensures st.currentVerse != Some(v) ==> r.0.currentVerse == Some(v) && r.1 == Play(v.audio)
    ensures r.1.Play? <==> r.0.currentVerse == Some(v)
  {
    var cur := if st.currentVerse == Some(v) then None else Some(v);
    (st.(currentVerse := cur), if cur == Some(v) then Play(v.audio) else Stop)
  }

  /** Pressing the same card twice plays it and then stops with nothing
      current, whatever was playing before. */
  lemma TogglePlayTwice(st: ListState, v: QuranVerse)
    requires st.currentVerse != Some(v)
    ensures var once := TogglePlay(st, v);
      var twice := TogglePlay(once.0, v);
      once.1 == Play(v.audio) && twice.1 == Stop && twice.0 == st.(currentVerse := None)
  {
  }

  /** Every card the adapters build has an empty audio key, so its play
      button asks the player for "". */
  lemma AdaptedCardsPlayEmptyAudio(st: ListState, v: QuranVerse)
    requires Adapter.Adapted(v) && st.currentVerse != Some(v)
    ensures TogglePlay(st, v).1 == Play("")
  {
  }

  /** The screen below the top bar. */
  datatype Branch = Spinner | ErrorCard(message: string) | CardList

  /** Loading wins over an error, and an error over the list. */
  function ScreenBranch(isLoading: bool, error: Option<string>): (b: Branch)
    ensures b == Spinner <==> isLoading
    ensures b.ErrorCard? <==> !isLoading && error.Some?
    ensures b.ErrorCard? ==> b.message == error.value
    ensures b == CardList <==> !isLoading && error.None?
  {
    if isLoading then Spinner
    else if error.Some? then ErrorCard(error.value)
    else CardList
  }

  /** The header's translation line shows only when switched on and not
      empty. */
  function HeaderTranslation(v: QuranVerse, showTranslation: bool): (t: Option<string>)
    ensures t.Some? <==> showTranslation && |v.traduction| > 0
    ensures t.Some? ==> t.value == v.traduction
  {
    if showTranslation && |v.traduction| > 0 then Some(v.traduction) else None
  }

  /** The branch follows the view model's loads: the spinner from the start
      of a load, and once it has finished the list after a success or a
      failure without message, the error card with the message otherwise. */
  lemma BranchFollowsLoads(s: ViewModel.QuranUiState, fc: Fetch<seq<Chapter>>, n: int, fv: Fetch<seq<Verse>>)
    ensures var b := ViewModel.BeginLoad(s); ScreenBranch(b.isLoading, b.error) == Spinner
    ensures var r := ViewModel.LoadChapters(s, fc);
      ScreenBranch(r.isLoading, r.error) ==
        (if fc.Failure? && fc.message.Some? then ErrorCard(fc.message.value) else CardList)
    ensures var r := ViewModel.LoadChapterVerses(s, n, fv);
      ScreenBranch(r.isLoading, r.error) ==
        (if fv.Failure? && fv.message.Some? then ErrorCard(fv.message.value) else CardList)
  {
  }

  /** After the chapter list has loaded, the header of card `i` shows the
      English meaning of chapter `i`'s name, under the same rule as every
      optional line: switched on and not empty. */
  lemma LoadedHeaderTranslation(s: ViewModel.QuranUiState, cs: seq<Chapter>, i: int, on: bool)
    requires 0 <= i < |cs|
    ensures HeaderTranslation(ViewModel.LoadChapters(s, Success(cs)).verses[i], on)
      == Optional(on, cs[i].englishNameTranslation)
  {
  }

  // ---- the open part of a card ----

  /** One verse in reading mode: its text, the ornament with its position
      (counted from 1, not its number), the optional lines under it, and a
      divider after every verse but the last. */
  datatype ReadingVerse = ReadingVerse(
    arabe: string,
    marker: string,
    transliteration: Option<string>,
    traduction: Option<string>,
    dividerAfter: bool)

  /** One verse in card mode: its own number as label, the optional
      transliteration, and the translation whenever translations are on,
      even when it is empty. */
  datatype VersetCard = VersetCard(
    marker: string,
    arabe: string,
    transliteration: Option<string>,
    traduction: Option<string>)

  /** What an open card shows. */
  datatype Detail =
    | Closed
    | Reading(bismillah: bool, bismillahTranslation: bool, lines: seq<ReadingVerse>)
    | VersetCards(cards: seq<VersetCard>)
    | SimpleText(texte: string, transliteration: Option<string>, traduction: Option<string>)

  /** A line that is shown only when its switch is on and it has text. */
  function Optional(on: bool, s: string): (o: Option<string>)
    ensures o.Some? <==> on && |s| > 0
    ensures o.Some? ==> o.value == s
  {
    if on && |s| > 0 then Some(s) else None
  }

  /** The reading-mode ornament of the verse at position `index`. */
  function ReadingLabel(index: nat): (s: string)
    ensures |s| >= 3 && s[..2] == "۞ " && Text.AllDigits(s[2..])
    ensures Text.ParseNat(s[2..]) == index + 1
  {
    var d := Text.NatToString(index + 1);
    Text.NatToStringRoundTrip(index + 1);
    assert ("۞ " + d)[2..] == d;
    "۞ " + d
  }

  function ReadingLines(ws: seq<Verset>, showTranslation: bool, showTransliteration: bool): (ls: seq<ReadingVerse>)
    ensures |ls| == |ws|
  {
    seq(|ws|, i requires 0 <= i < |ws| =>
      ReadingVerse(
        ws[i].arabe,
        ReadingLabel(i),
        Optional(showTransliteration, ws[i].transliteration),
        Optional(showTranslation, ws[i].traduction),
        i < |ws| - 1))
  }

  function VersetCardsOf(ws: seq<Verset>, showTranslation: bool, showTransliteration: bool): (cs: seq<VersetCard>)
    ensures |cs| == |ws|
  {
    seq(|ws|, i requires 0 <= i < |ws| =>
      VersetCard(
        Text.IntToString(ws[i].numero),
        ws[i].arabe,
        Optional(showTransliteration, ws[i].transliteration),
        if showTranslation then Some(ws[i].traduction) else None))
  }

  /** The open part of card `v`: nothing unless the card is open or reading
      mode is on; then a card without verses shows its text, and one with
      verses shows them in reading layout or as verse cards. */
  function CardDetail(v: QuranVerse, isExpanded: bool, st: ListState): (d: Detail)
    ensures d == Closed <==> !isExpanded && !st.readingMode
    ensures d.SimpleText? <==> (isExpanded || st.readingMode) && |v.versets| == 0
    ensures d.Reading? <==> st.readingMode && |v.versets| > 0
    ensures d.VersetCards? <==> isExpanded && !st.readingMode && |v.versets| > 0
    ensures d.Reading? ==> (d.bismillah <==> v.id != 9) && (d.bismillahTranslation <==> v.id != 9 && st.showTranslation)
    ensures d.Reading? ==> |d.lines| == |v.versets|
    ensures d.VersetCards? ==> |d.cards| == |v.versets|
    ensures d.SimpleText? ==>
      && d.texte == v.texte
      && d.transliteration == Optional(st.showTransliteration, v.transliteration)
      && d.traduction == Optional(st.showTranslation, v.traduction)
  {
    if !isExpanded && !st.readingMode then Closed
    else if |v.versets| == 0 then
      SimpleText(v.texte, Optional(st.showTransliteration, v.transliteration), Optional(st.showTranslation, v.traduction))
    else if st.readingMode then
      Reading(v.id != 9, v.id != 9 && st.showTranslation,
        ReadingLines(v.versets, st.showTranslation, st.showTransliteration))
    else VersetCards(VersetCardsOf(v.versets, st.showTranslation, st.showTransliteration))
  }

  /** In reading mode each verse is shown with its own text, its position
      can be read back from the ornament, its transliteration and
      translation lines follow their switches, and exactly the last verse has
      no divider after it. */
  lemma ReadingLayout(v: QuranVerse, isExpanded: bool, st: ListState, i: int)
    requires st.readingMode && 0 <= i < |v.versets|
    ensures var d := CardDetail(v, isExpanded, st);
      && d.lines[i].arabe == v.versets[i].arabe
      && Text.ParseNat(d.lines[i].marker[2..]) == i + 1
      && (d.lines[i].dividerAfter <==> i != |v.versets| - 1)
      && d.lines[i].transliteration == Optional(st.showTransliteration, v.versets[i].transliteration)
      && d.lines[i].traduction == Optional(st.showTranslation, v.versets[i].traduction)
  {
    var d := CardDetail(v, isExpanded, st);
    assert d.lines[i] == ReadingLines(v.versets, st.showTranslation, st.showTransliteration)[i];
    var l := ReadingLabel(i);
  }

  /** Number of dividers in a reading layout. */
  function DividerCount(ls: seq<ReadingVerse>): nat {
    if |ls| == 0 then 0 else (if ls[0].dividerAfter then 1 else 0) + DividerCount(ls[1..])
  }

  lemma {:induction false} DividerCountSuffix(ws: seq<Verset>, t: bool, tl: bool, k: nat)
    requires k < |ws|
    ensures DividerCount(ReadingLines(ws, t, tl)[k..]) == |ws| - 1 - k
    decreases |ws| - k
  {
    var ls := ReadingLines(ws, t, tl);
    assert ls[k..][1..] == ls[k + 1..];
    if k + 1 < |ws| {
      DividerCountSuffix(ws, t, tl, k + 1);
    } else {
      assert ls[k + 1..] == [];
    }
  }

  /** A chapter of n >= 1 verses is read with n - 1 dividers. */
  lemma ReadingDividers(v: QuranVerse, isExpanded: bool, st: ListState)
    requires st.readingMode && |v.versets| > 0
    ensures DividerCount(CardDetail(v, isExpanded, st).lines) == |v.versets| - 1
  {
    var ls := ReadingLines(v.versets, st.showTranslation, st.showTransliteration);
    DividerCountSuffix(v.versets, st.showTranslation, st.showTransliteration, 0);
    assert ls[0..] == ls;
  }

  /** In card mode each verse is labelled with its own number, which can be
      read back, shows its transliteration under the switch, and carries its
      translation whenever translations are on, even an empty one. */
  lemma CardLayout(v: QuranVerse, st: ListState, i: int)
    requires !st.readingMode && 0 <= i < |v.versets| && v.versets[i].numero >= 0
    ensures var d := CardDetail(v, true, st);
      && d.cards[i].arabe == v.versets[i].arabe
      && Text.ParseNat(d.cards[i].marker) == v.versets[i].numero
      && d.cards[i].transliteration == Optional(st.showTransliteration, v.versets[i].transliteration)
      && (d.cards[i].traduction.Some? <==> st.showTranslation)
      && (st.showTranslation ==> d.cards[i].traduction.value == v.versets[i].traduction)
  {
    var d := CardDetail(v, true, st);
    assert d.cards[i] == VersetCardsOf(v.versets, st.showTranslation, st.showTransliteration)[i];
    Text.NatToStringRoundTrip(v.versets[i].numero);
  }

  // ---- audio controls ----

  /** The length every recitation is assumed to have, in seconds. */
  const TotalDuration: nat := 90

  /** The seconds counter of the audio controls: starting at `t`, it goes up
      once per second while the fraction played is below one and the player
      answers `checks[t]` = playing, and stops for good at the first "no". */
  function Elapsed(checks: seq<bool>, t: nat): (r: nat)
    requires t <= TotalDuration
    ensures t <= r <= TotalDuration
    ensures r > t ==> r <= |checks|
    ensures forall k :: t <= k < r ==> checks[k]
    ensures r < TotalDuration ==> r >= |checks| || !checks[r]
    decreases TotalDuration - t
  {
    if t < TotalDuration && t < |checks| && checks[t] then Elapsed(checks, t + 1) else t
  }

  /** `String.format("%02d:%02d", t / 60, t % 60)` under the device's
      default locale, whose digit set starts at `zero`: minutes and seconds,
      each at least two digits of that set, around a colon. */
  function TimeLabel(t: nat, zero: Text.ZeroDigit): (s: string)
    ensures |s| >= 5 && s[|s| - 3] == ':'
    ensures Text.AllLocalDigits(s[..|s| - 3], zero) && Text.AllLocalDigits(s[|s| - 2..], zero)
    ensures Text.ParseLocal(s[..|s| - 3], zero) * 60 + Text.ParseLocal(s[|s| - 2..], zero) == t
    ensures Text.ParseLocal(s[|s| - 2..], zero) < 60
    ensures t < 6000 ==> |s| == 5
  {
    var m := Text.LocalPad2(t / 60, zero);
    var sec := Text.LocalPad2(t % 60, zero);
    var s := m + ":" + sec;
    assert s[..|s| - 3] == m;
    assert s[|s| - 2..] == sec;
    s
  }

  /** Whatever the digit set, the counter's label never needs more than
      five characters. */
  lemma ElapsedLabelWidth(checks: seq<bool>, zero: Text.ZeroDigit)
    ensures |TimeLabel(Elapsed(checks, 0), zero)| == 5
  {
  }

  /** The total's label: "01:30" under a Latin-digit locale, "٠١:٣٠" under
      one with Arabic-Indic digits. */
  lemma TotalDurationLabel()
    ensures TimeLabel(TotalDuration, '0') == "01:30"
    ensures TimeLabel(TotalDuration, '\U{0660}') == "٠١:٣٠"
  {
    assert TotalDuration / 60 == 1 && TotalDuration % 60 == 30;
    assert Text.Pad2(1) == "01";
    assert Text.Pad2(30) == "30" by {
      assert Text.NatToString(3) == "3";
      assert Text.NatToString(30) == Text.NatToString(3) + "0";
    }
    Text.LatinDigitsUnchanged("01");
    Text.LatinDigitsUnchanged("30");
  }
}
