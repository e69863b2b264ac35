/**
 * Translation lookup and the current display language
 * (src/contexts/LanguageContext.tsx). Only the keys the modelled screens use
 * are kept from the two translation tables.
 */
module Language {
  import opened Wrappers

  datatype Lang = En | Hi

  /** The code stored in the browser's local storage for a language. */
  function Code(l: Lang): string
  {
    match l
    case En => "en"
    case Hi => "hi"
  }

  const StorageKey: string := "app-language"

  function Table(l: Lang): map<string, string>
  {
    match l
    case En => map[
      "settings.editQuestion" := "Edit Question", "settings.addQuestion" := "Add New Question",
      "settings.yesNo" := "Yes/No", "settings.images" := "Images",
      "form.addAllRightWrongImages" := "Please add both question images and both answer icon images",
      "form.enterQuestion" := "Please enter a question",
      "form.addImageAnswers" := "Please add at least one image answer",
      "app.yes" := "Yes", "app.no" := "No", "app.right" := "Right", "app.wrong" := "Wrong"]
    case Hi => map[
      "settings.editQuestion" := "प्रश्न संपादित करें", "settings.addQuestion" := "नया प्रश्न जोड़ें",
      "settings.yesNo" := "हाँ/नहीं", "settings.images" := "तस्वीरें",
      "form.addAllRightWrongImages" := "कृपया दोनों प्रश्न छवियां और दोनों उत्तर आइकन छवियां जोड़ें",
      "form.enterQuestion" := "कृपया एक प्रश्न दर्ज करें",
      "form.addImageAnswers" := "कृपया कम से कम एक छवि उत्तर जोड़ें",
      "app.yes" := "हाँ", "app.no" := "नहीं", "app.right" := "सही", "app.wrong" := "गलत"]
  }

  /** `t(key)`: the entry of the current language, or the key itself when the entry is missing or empty. */
  function T(l: Lang, key: string): (r: string)
    ensures key in Table(l) && Table(l)[key] != "" ==> r == Table(l)[key]
    ensures !(key in Table(l) && Table(l)[key] != "") ==> r == key
    ensures r != "" || key == ""
  {
    if key in Table(l) && Table(l)[key] != "" then Table(l)[key] else key
  }

  /** The canonical answer texts differ between the two languages. */
  lemma AnswerTexts()
    ensures T(En, "app.yes") == "Yes" && T(Hi, "app.yes") == "हाँ"
    ensures T(En, "app.no") == "No" && T(Hi, "app.no") == "नहीं"
    ensures T(En, "app.right") == "Right" && T(Hi, "app.right") == "सही"
    ensures T(En, "app.wrong") == "Wrong" && T(Hi, "app.wrong") == "गलत"
  {
    var en, hi := Table(En), Table(Hi);
    assert en["app.yes"] == "Yes" && en["app.no"] == "No" && en["app.right"] == "Right" && en["app.wrong"] == "Wrong";
    assert hi["app.yes"] == "हाँ" && hi["app.no"] == "नहीं" && hi["app.right"] == "सही" && hi["app.wrong"] == "गलत";
  }

  /**
   * The initial language exactly as the source computes it: the saved string
   * when there is a non-empty one, else "hi". Nothing checks that the saved
   * string names a language.
   */
  function InitialLanguageAsWritten(saved: Option<string>): (code: string)
    ensures saved.Some? && saved.value != "" ==> code == saved.value
    ensures saved.None? || saved == Some("") ==> code == Code(Hi)
  {
    if saved.Some? && saved.value != "" then saved.value else "hi"
  }

  /** A stored value outside the two codes becomes the language; `t` then has no table to read. */
  lemma UnknownSavedLanguageIsKept()
    ensures var code := InitialLanguageAsWritten(Some("fr"));
            code != Code(En) && code != Code(Hi)
  {
  }

  /** The initial language as intended: the saved language when it names one, else Hindi. */
  function InitialLanguage(saved: Option<string>): (l: Lang)
    ensures saved == Some(Code(En)) ==> l == En
    ensures saved != Some(Code(En)) ==> l == Hi
  {
    if saved == Some("en") then En else Hi
  }

  /** The corrected initial language agrees with the source whenever the source's result names a language. */
  lemma InitialLanguageAgrees(saved: Option<string>)
    requires InitialLanguageAsWritten(saved) in {Code(En), Code(Hi)}
    ensures Code(InitialLanguage(saved)) == InitialLanguageAsWritten(saved)
  {
  }

  function Lookup(storage: map<string, string>, key: string): Option<string>
  {
    if key in storage then Some(storage[key]) else None
  }

  /** The language provider: the current language and the browser storage it persists to. */
  class LanguageProvider {
    var language: Lang
    var storage: map<string, string>

    /** Mount: read the saved language, then the effect stores the current one. */
    constructor (saved: map<string, string>)
      ensures language == InitialLanguage(Lookup(saved, StorageKey))
      ensures storage == saved[StorageKey := Code(language)]
    {
      language := InitialLanguage(Lookup(saved, StorageKey));
      storage := saved;
      new;
      PersistLanguage();
    }

    /** The effect that runs on every language change: store the current language. */
    method PersistLanguage()
      modifies this`storage
      ensures storage == old(storage)[StorageKey := Code(language)]
    {
      storage := storage[StorageKey := Code(language)];
    }

    /** `setLanguage(l)`: switch language and store it; the effect then stores it again. */
    method SetLanguage(l: Lang)
      modifies this
      ensures language == l
      ensures storage == old(storage)[StorageKey := Code(l)]
    {
      language := l;
      storage := storage[StorageKey := Code(l)];
      PersistLanguage();
    }

    /** `t(key)` in the current language. */
    function Translate(key: string): (r: string)
      reads this
      ensures key in Table(language) && Table(language)[key] != "" ==> r == Table(language)[key]
      ensures !(key in Table(language) && Table(language)[key] != "") ==> r == key
      ensures r == T(language, key)
    {
      T(language, key)
    }
  }
}
