/** Total maps from the wire records (`Chapter`, `Verse`) to the display
    records (`QuranVerse`, `Verset`), with fixed defaults for every field the
    API does not provide. */
module Adapter {
  import opened Results
  import opened Network
  import opened Model
  import Text

  /** Shape every adapter output has: the fields the API cannot fill
      (audio, transliteration, verse translations) are empty, and
      `texteArabe` is left at its default, the main text. */
  predicate Adapted(q: QuranVerse) {
    && q.texteArabe == q.texte
    && q.audio == ""
    && q.transliteration == ""
    && forall i :: 0 <= i < |q.versets| ==>
         q.versets[i].traduction == "" && q.versets[i].transliteration == ""
  }

  // ---- verses ----

  /** One wire verse as a display verse, with no translation yet. */
  function VerseToVerset(v: Verse): (w: Verset)
    ensures VersetToVerse(w) == v
    ensures w.traduction == "" && w.transliteration == ""
  {
    Verset(numero := v.number, arabe := v.text, traduction := "", transliteration := "")
  }

  /** Inverse of `VerseToVerset`: the number and text a display verse came from. */
  function VersetToVerse(w: Verset): Verse {
    Verse(w.numero, w.arabe)
  }

  /** `verses.map { verseToVerset(it) }`: same length, same order. */
  function MapVersets(vs: seq<Verse>): (ws: seq<Verset>)
    ensures |ws| == |vs|
    ensures forall i :: 0 <= i < |vs| ==> ws[i] == VerseToVerset(vs[i])
  {
    if |vs| == 0 then [] else [VerseToVerset(vs[0])] + MapVersets(vs[1..])
  }

  /** The wire verses a list of display verses came from. */
  function VersetsToVerses(ws: seq<Verset>): (vs: seq<Verse>)
    ensures |vs| == |ws|
  {
    seq(|ws|, i requires 0 <= i < |ws| => VersetToVerse(ws[i]))
  }

  /** Mapping the verses loses nothing: they can be read back in order. */
  lemma MapVersetsRoundTrip(vs: seq<Verse>)
    ensures VersetsToVerses(MapVersets(vs)) == vs
  {
    var back := VersetsToVerses(MapVersets(vs));
    forall i | 0 <= i < |vs| ensures back[i] == vs[i] {
      assert VersetToVerse(VerseToVerset(vs[i])) == vs[i];
    }
  }

  // ---- chapters ----

  /** The title a chapter card carries: English name, " - ", Arabic name. */
  function ChapterTitle(c: Chapter): string {
    c.englishName + " - " + c.name
  }

  /** Reads back the chapter a card was built from, when its title has the
      shape `englishName + " - " + texte`. */
  function ChapterOf(q: QuranVerse): Option<Chapter> {
    var n := |q.sourate|;
    var k := |q.texte| + 3;
    if n >= k && q.sourate[n - k..] == " - " + q.texte then
      Some(Chapter(q.id, q.texte, q.sourate[..n - k], q.traduction))
    else None
  }

  lemma ChapterTitleSplits(c: Chapter)
    ensures var t := ChapterTitle(c);
      var k := |c.name| + 3;
      |t| >= k && t[|t| - k..] == " - " + c.name && t[..|t| - k] == c.englishName
  {
    var t := ChapterTitle(c);
    assert t == c.englishName + (" - " + c.name);
  }

  /** `chapterToQuranVerse`: a chapter and its verses as one card. The
      chapter and the verses can both be read back from the card. */
  function ChapterToQuranVerse(c: Chapter, verses: seq<Verse>): (q: QuranVerse)
    ensures ChapterOf(q) == Some(c)
    ensures VersetsToVerses(q.versets) == verses
    ensures Adapted(q)
  {
    ChapterTitleSplits(c);
    MapVersetsRoundTrip(verses);
    QuranVerse(
      id := c.number,
      sourate := ChapterTitle(c),
      texte := c.name,
      traduction := c.englishNameTranslation,
      audio := "",
      versets := MapVersets(verses))
  }

  /** `chaptersToQuranVerses`: the chapter list as cards without verses, one
      per chapter, in order. */
  function ChaptersToQuranVerses(cs: seq<Chapter>): (qs: seq<QuranVerse>)
    ensures |qs| == |cs|
    ensures forall i :: 0 <= i < |cs| ==> qs[i] == ChapterToQuranVerse(cs[i], [])
  {
    if |cs| == 0 then [] else [ChapterToQuranVerse(cs[0], [])] + ChaptersToQuranVerses(cs[1..])
  }

  /** Each card of the chapter list carries its chapter's number as id, the
      chapter can be read back from it and it has no verses. */
  lemma ChaptersToQuranVersesShape(cs: seq<Chapter>, i: int)
    requires 0 <= i < |cs|
    ensures var q := ChaptersToQuranVerses(cs)[i];
      q.id == cs[i].number && ChapterOf(q) == Some(cs[i]) && q.versets == [] && Adapted(q)
  {
    var q := ChaptersToQuranVerses(cs)[i];
    assert |VersetsToVerses(q.versets)| == 0;
  }

  /** The card `versesToQuranVerse` returns for an empty verse list. */
  const EmptyCard: QuranVerse :=
    QuranVerse(id := 0, sourate := "", texte := "", traduction := "", audio := "", versets := [])

  /** Number of an optional chapter, 0 when absent (`chapter?.number ?: 0`). */
  function NumberOr0(ch: Option<Chapter>): int {
    if ch.Some? then ch.value.number else 0
  }

  /** `versesToQuranVerse`: a chapter's verses as one card. An empty list
      gives the blank card whatever the chapter; otherwise the card takes the
      chapter's number and names, falling back to 0, "Sourate 0" and "". */
  function VersesToQuranVerse(verses: seq<Verse>, ch: Option<Chapter>): (q: QuranVerse)
    ensures |verses| == 0 ==> q == EmptyCard
    ensures |verses| > 0 ==> VersetsToVerses(q.versets) == verses && q.id == NumberOr0(ch)
    ensures |verses| > 0 && ch.Some? ==>
      q.sourate == ch.value.englishName && q.texte == ch.value.name
      && q.traduction == ch.value.englishNameTranslation
    ensures |verses| > 0 && ch.None? ==> q.sourate == "Sourate 0" && q.texte == "" && q.traduction == ""
    ensures Adapted(q)
  {
    if |verses| == 0 then EmptyCard
    else
      var n := NumberOr0(ch);
      MapVersetsRoundTrip(verses);
      QuranVerse(
        id := n,
        sourate := if ch.Some? then ch.value.englishName else "Sourate " + Text.IntToString(n),
        texte := if ch.Some? then ch.value.name else "",
        traduction := if ch.Some? then ch.value.englishNameTranslation else "",
        audio := "",
        versets := MapVersets(verses))
  }

  /** With a known chapter and at least one verse, the two chapter adapters
      agree on everything except the title: `versesToQuranVerse` drops the
      " - name" suffix. */
  lemma VersesAgreeWithChapterCard(verses: seq<Verse>, c: Chapter)
    requires |verses| > 0
    ensures VersesToQuranVerse(verses, Some(c)) == ChapterToQuranVerse(c, verses).(sourate := c.englishName)
  {
  }

  /** `singleVerseToQuranVerse`: one verse as a card of its own whose text is
      the verse's text. */
  function SingleVerseToQuranVerse(v: Verse, ch: Option<Chapter>): (q: QuranVerse)
    ensures |q.versets| == 1 && VersetToVerse(q.versets[0]) == v
    ensures q.texte == v.text && q.id == NumberOr0(ch) && q.traduction == ""
    ensures ch.Some? ==> q.sourate == ch.value.englishName
    ensures ch.None? ==> q.sourate == "Sourate 0"
    ensures Adapted(q)
  {
    var n := NumberOr0(ch);
    QuranVerse(
      id := n,
      sourate := if ch.Some? then ch.value.englishName else "Sourate " + Text.IntToString(n),
      texte := v.text,
      traduction := "",
      audio := "",
      versets := [VerseToVerset(v)])
  }
}
