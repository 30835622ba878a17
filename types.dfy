/** Value types shared by the translator: the two languages, the translation
    direction, a history entry and the session record. */
module Types {

  /** The language a request is translated into (`Language` enum). */
  datatype Language = English | Persian

  /** The active language pair: `'en-to-fa'` or `'fa-to-en'`. */
  datatype Direction = EnToFa | FaToEn

  /** `string | null` in the source. */
  datatype Option<T> = None | Some(value: T)

  /** One completed translation, as it is stored in the history list. */
  datatype HistoryItem = HistoryItem(
    id: string,
    sourceText: string,
    translatedText: string,
    direction: Direction,
    timestamp: int)

  /** The single record that drives the translator screen. */
  datatype TranslationState = TranslationState(
    sourceText: string,
    translatedText: string,
    isLoading: bool,
    error: Option<string>,
    direction: Direction)

  /** The other direction: what the swap button switches to. */
  function Flip(d: Direction): (r: Direction)
    ensures r != d
  {
    if d == EnToFa then FaToEn else EnToFa
  }

  /** The language a request in direction `d` is sent to the provider with. */
  function TargetLanguage(d: Direction): (l: Language)
    ensures l == Persian <==> d == EnToFa
  {
    if d == EnToFa then Persian else English
  }

  /** Flipping twice gives the direction back. */
  lemma FlipInvolutive(d: Direction)
    ensures Flip(Flip(d)) == d
  {
  }

  /** After a swap, requests go to the other language. */
  lemma FlipChangesTarget(d: Direction)
    ensures TargetLanguage(Flip(d)) != TargetLanguage(d)
  {
  }
}
