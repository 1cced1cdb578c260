/** Display records shared by the screens, the cache and the adapters. Field
    defaults are those of the Kotlin data classes: `texteArabe` falls back to
    `texte`, the optional strings to "" and the verse list to empty. */
module Model {

  /** One numbered line of a chapter with its translation. */
  datatype Verset = Verset(numero: int, arabe: string, traduction: string, transliteration: string := "")

  /** A chapter card: title, main text, audio key and its verses. */
  datatype QuranVerse = QuranVerse(
    id: int,
    sourate: string,
    texte: string,
    audio: string,
    texteArabe: string := texte,
    traduction: string := "",
    transliteration: string := "",
    versets: seq<Verset> := [])

  /** Building a record with only the four required fields leaves every
      optional field at its declared default. */
  lemma QuranVerseDefaults(id: int, sourate: string, texte: string, audio: string)
    ensures var q := QuranVerse(id, sourate, texte, audio);
      && q.texteArabe == texte
      && q.traduction == ""
      && q.transliteration == ""
      && q.versets == []
  {
  }

  /** A verse built without a transliteration has an empty one. */
  lemma VersetDefaults(numero: int, arabe: string, traduction: string)
    ensures Verset(numero, arabe, traduction).transliteration == ""
  {
  }
}
