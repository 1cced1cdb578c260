/** Wire records decoded from the Quran content API
    (`GET /v1/surah` and `GET /v1/surah/{n}`). */
module Network {

  /** One entry of the chapter list: its 1-based number and three names. */
  datatype Chapter = Chapter(number: int, name: string, englishName: string, englishNameTranslation: string)

  /** One ayah of a chapter as the Uthmani edition sends it. */
  datatype Verse = Verse(number: int, text: string)
}
