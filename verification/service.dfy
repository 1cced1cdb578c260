/** The download service's pure part: assembling a chapter card from the
    Arabic and French editions of one chapter, the fixed metadata table, the
    essential-chapters download loop and the cache-presence threshold. The
    HTTP request and the JSON decoding are inputs: a response is either a
    failure or the two already-decoded `ayahs` arrays. */
module DownloadService {
  import opened Results
  import opened Model
  import Text

  /** One element of an edition's `ayahs` array. */
  datatype Ayah = Ayah(numberInSurah: int, text: string)

  /** The decoded `data[0].ayahs` (Arabic) and `data[1].ayahs` (translation). */
  datatype Editions = Editions(arabic: seq<Ayah>, translation: seq<Ayah>)

  /** Fixed metadata of a chapter the service knows by number. */
  datatype SourateInfo = SourateInfo(id: int, nom: string, nomArabe: string, traduction: string, audio: string)

  /** Chapters downloaded by `downloadEssentialSourates`, in request order. */
  const EssentialSourates: seq<int> := [1, 112, 113, 114, 110, 108, 109]

  /** The metadata table of `getSourateInfo`, keyed by chapter number. */
  function SourateTable(id: int): Option<SourateInfo> {
    match id
    case 1 => Some(SourateInfo(1, "Al-Fatiha", "الفاتحة", "L'Ouverture", "al_fatiha"))
    case 112 => Some(SourateInfo(112, "Al-Ikhlas", "الإخلاص", "Le Monothéisme Pur", "al_ikhlas"))
    case 113 => Some(SourateInfo(113, "Al-Falaq", "الفلق", "L'Aube Naissante", "al_falaq"))
    case 114 => Some(SourateInfo(114, "An-Nas", "الناس", "Les Hommes", "an_nas"))
    case 110 => Some(SourateInfo(110, "An-Nasr", "النصر", "Les Secours", "an_nasr"))
    case 108 => Some(SourateInfo(108, "Al-Kawthar", "الكوثر", "L'Abondance", "al_kawthar"))
    case 109 => Some(SourateInfo(109, "Al-Kafirun", "الكافرون", "Les Infidèles", "al_kafirun"))
    case _ => None
  }

  /** Al-Fatiha's entry, the fallback of `getSourateInfo`. */
  const FatihaInfo: SourateInfo := SourateInfo(1, "Al-Fatiha", "الفاتحة", "L'Ouverture", "al_fatiha")

  /** `getSourateInfo`: the table entry, or Al-Fatiha's for an unknown id.
      The entry found describes the requested chapter exactly when that
      chapter is one of the essential ones. */
  function GetSourateInfo(id: int): (info: SourateInfo)
    ensures SourateTable(id).Some? ==> info == SourateTable(id).value
    ensures SourateTable(id).None? ==> info == FatihaInfo
    ensures info.id == id <==> id in EssentialSourates
  {
    match SourateTable(id)
    case Some(info) => info
    case None => FatihaInfo
  }

  // ---- assembling the verses ----

  /** The verse built from Arabic ayah `a` and translation ayah `t`. */
  function ZippedVerset(a: Ayah, t: Ayah): Verset {
    Verset(numero := a.numberInSurah, arabe := a.text, traduction := t.text, transliteration := "")
  }

  /** The `for (i in 0 until arabicAyahs.length())` loop: one verse per
      Arabic ayah, taking its translation from the same index. Reading a
      translation index that does not exist throws, so a translation array
      shorter than the Arabic one fails with no partial result. */
  function ZipAyahs(arabic: seq<Ayah>, translation: seq<Ayah>): (r: Option<seq<Verset>>)
    ensures r.None? <==> |translation| < |arabic|
    ensures r.Some? ==> |r.value| == |arabic|
    ensures r.Some? ==> forall i :: 0 <= i < |arabic| ==>
      && r.value[i].numero == arabic[i].numberInSurah
      && r.value[i].arabe == arabic[i].text
      && r.value[i].traduction == translation[i].text
      && r.value[i].transliteration == ""
  {
    if |arabic| == 0 then Some([])
    else if |translation| == 0 then None
    else
      match ZipAyahs(arabic[1..], translation[1..])
      case None => None
      case Some(rest) => Some([ZippedVerset(arabic[0], translation[0])] + rest)
  }

  /** Translation ayahs past the Arabic count are never read. */
  lemma {:induction false} ZipIgnoresExtraTranslations(arabic: seq<Ayah>, translation: seq<Ayah>, extra: seq<Ayah>)
    requires |translation| >= |arabic|
    ensures ZipAyahs(arabic, translation + extra) == ZipAyahs(arabic, translation)
    decreases |arabic|
  {
    if |arabic| > 0 {
      assert (translation + extra)[1..] == translation[1..] + extra;
      ZipIgnoresExtraTranslations(arabic[1..], translation[1..], extra);
    }
  }

  // ---- downloading ----

  /** A response the assembly can turn into a card: the request succeeded
      and there is a translation ayah for every Arabic one. */
  predicate Succeeds(response: Fetch<Editions>) {
    response.Success? && |response.value.translation| >= |response.value.arabic|
  }

  /** The card `downloadSingleSourate(id)` resumes with, or `None` when the
      request or the assembly threw. The card keeps the requested id even
      when the metadata fell back to Al-Fatiha's. */
  function DownloadSingleSourate(id: int, response: Fetch<Editions>): (r: Option<QuranVerse>)
    ensures r.Some? <==> Succeeds(response)
    ensures r.Some? ==>
      var info := GetSourateInfo(id);
      && r.value.id == id
      && r.value.sourate == info.nom + " (" + info.traduction + ")"
      && r.value.texte == info.nomArabe && r.value.texteArabe == info.nomArabe
      && r.value.audio == info.audio && r.value.traduction == info.traduction
      && r.value.transliteration == ""
      && ZipAyahs(response.value.arabic, response.value.translation) == Some(r.value.versets)
  {
    match response
    case Failure(_) => None
    case Success(p) =>
      match ZipAyahs(p.arabic, p.translation)
      case None => None
      case Some(versets) =>
        var info := GetSourateInfo(id);
        Some(QuranVerse(
          id := id,
          sourate := info.nom + " (" + info.traduction + ")",
          texte := info.nomArabe,
          audio := info.audio,
          traduction := info.traduction,
          versets := versets))
  }

  /** A chapter outside the table is labelled Al-Fatiha but keeps its own id
      and its own verses. */
  lemma FallbackKeepsRequestedId(id: int, response: Fetch<Editions>)
    requires id !in EssentialSourates
    requires DownloadSingleSourate(id, response).Some?
    ensures var q := DownloadSingleSourate(id, response).value;
      q.id == id && q.texte == FatihaInfo.nomArabe && q.sourate == FatihaInfo.nom + " (" + FatihaInfo.traduction + ")"
  {
  }

  /** `testDownloadAlFatiha`: the same assembly with the card's metadata
      written out in place. */
  function TestDownloadAlFatiha(response: Fetch<Editions>): (r: Option<QuranVerse>)
    ensures r.Some? <==> Succeeds(response)
    ensures r.Some? ==> r.value.id == 1 && r.value.texte == "سورة الفاتحة"
  {
    match response
    case Failure(_) => None
    case Success(p) =>
      match ZipAyahs(p.arabic, p.translation)
      case None => None
      case Some(versets) =>
        Some(QuranVerse(
          id := 1,
          sourate := "Al-Fatiha (L'Ouverture)",
          texte := "سورة الفاتحة",
          audio := "al_fatiha",
          traduction := "L'Ouverture",
          versets := versets))
  }

  /** The test download and the regular download of chapter 1 give the same
      card except for its text: the test spells out "sourate of the Opening",
      the table gives the bare name. */
  lemma TestDownloadMatchesChapterOne(response: Fetch<Editions>)
    ensures TestDownloadAlFatiha(response).Some? == DownloadSingleSourate(1, response).Some?
    ensures TestDownloadAlFatiha(response).Some? ==>
      var t := TestDownloadAlFatiha(response).value;
      var d := DownloadSingleSourate(1, response).value;
      t == d.(texte := "سورة الفاتحة", texteArabe := "سورة الفاتحة")
  {
  }

  /** The ids among `ids` whose download succeeds, in order. */
  function SucceededIds(ids: seq<int>, fetch: int -> Fetch<Editions>): (r: seq<int>)
    ensures |r| <= |ids|
    ensures forall x :: x in r <==> x in ids && Succeeds(fetch(x))
  {
    if |ids| == 0 then []
    else
      var last := ids[|ids| - 1];
      SucceededIds(ids[..|ids| - 1], fetch) + (if Succeeds(fetch(last)) then [last] else [])
  }

  /** One more request extends the successful ids by that request's id when
      it succeeded. */
  lemma SucceededIdsStep(ids: seq<int>, i: nat, fetch: int -> Fetch<Editions>)
    requires i < |ids|
    ensures SucceededIds(ids[..i + 1], fetch) ==
      SucceededIds(ids[..i], fetch) + (if Succeeds(fetch(ids[i])) then [ids[i]] else [])
  {
    assert ids[..i + 1][..i] == ids[..i];
  }

  /** The text handed to `onProgress` before a chapter's request. */
  function ProgressMessage(id: int): string {
    "Téléchargement sourate " + Text.IntToString(id) + "..."
  }

  /** `downloadEssentialSourates`: request each essential chapter in turn,
      keep the cards that arrived, skip the failures without stopping.
      `announced` lists the ids passed to `onProgress`, each reported as
      `ProgressMessage(id)` just before its request. */
  method DownloadEssentialSourates(fetch: int -> Fetch<Editions>) returns (downloaded: seq<QuranVerse>, announced: seq<int>)
    ensures announced == EssentialSourates
    ensures var ok := SucceededIds(EssentialSourates, fetch);
      && |downloaded| == |ok|
      && forall k :: 0 <= k < |ok| ==> DownloadSingleSourate(ok[k], fetch(ok[k])) == Some(downloaded[k])
  {
    downloaded := [];
    announced := [];
    for i := 0 to |EssentialSourates|
      invariant announced == EssentialSourates[..i]
      invariant var ok := SucceededIds(EssentialSourates[..i], fetch);
        && |downloaded| == |ok|
        && forall k :: 0 <= k < |ok| ==> DownloadSingleSourate(ok[k], fetch(ok[k])) == Some(downloaded[k])
    {
      var id := EssentialSourates[i];
      announced := announced + [id];
      SucceededIdsStep(EssentialSourates, i, fetch);
      var sourate := DownloadSingleSourate(id, fetch(id));
      if sourate.Some? {
        downloaded := downloaded + [sourate.value];
      }
    }
    assert EssentialSourates[..|EssentialSourates|] == EssentialSourates;
  }

  /** Every card in the aggregate carries the id it was requested under, so
      the aggregate's ids are the successful requests in request order. */
  lemma DownloadedCardsKeepRequestOrder(fetch: int -> Fetch<Editions>, downloaded: seq<QuranVerse>)
    requires var ok := SucceededIds(EssentialSourates, fetch);
      && |downloaded| == |ok|
      && forall k :: 0 <= k < |ok| ==> DownloadSingleSourate(ok[k], fetch(ok[k])) == Some(downloaded[k])
    ensures forall k :: 0 <= k < |downloaded| ==> downloaded[k].id == SucceededIds(EssentialSourates, fetch)[k]
  {
  }

  /** When no request succeeds nothing is kept. */
  lemma {:induction false} NoneSucceed(ids: seq<int>, fetch: int -> Fetch<Editions>)
    requires forall k :: 0 <= k < |ids| ==> !Succeeds(fetch(ids[k]))
    ensures SucceededIds(ids, fetch) == []
    decreases |ids|
  {
    if |ids| > 0 {
      NoneSucceed(ids[..|ids| - 1], fetch);
    }
  }

  /** When every request succeeds every id is kept, in order. */
  lemma {:induction false} AllSucceed(ids: seq<int>, fetch: int -> Fetch<Editions>)
    requires forall k :: 0 <= k < |ids| ==> Succeeds(fetch(ids[k]))
    ensures SucceededIds(ids, fetch) == ids
    decreases |ids|
  {
    if |ids| > 0 {
      AllSucceed(ids[..|ids| - 1], fetch);
      assert ids == ids[..|ids| - 1] + [ids[|ids| - 1]];
    }
  }

  /** `hasEssentialSourates`: the cache file counts as present only when it
      exists and is larger than 1000 bytes. */
  function HasEssentialSourates(exists_: bool, length: int): (r: bool)
    ensures r ==> exists_
    ensures exists_ ==> (r <==> length > 1000)
  {
    exists_ && length > 1000
  }
}
