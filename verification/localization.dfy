/** Localized display texts (src/utils/localization.js): the languages the interface
    offers and the fallback chain that picks one text out of a localized value. */
module Localization {
  import opened JsText

  /** A language the selector offers: its code and its own name for itself. */
  datatype Language = Language(code: string, labelText: string)

  /** `supportedLanguages`, common languages first. */
  const SUPPORTED_LANGUAGES: seq<Language> := [
    Language("en", "English"),
    Language("de", "Deutsch"),
    Language("fr", "Français"),
    Language("es", "Español"),
    Language("it", "Italiano"),
    Language("pt", "Português"),
    Language("pt-BR", "Português (BR)"),
    Language("ru", "Русский"),
    Language("ja", "日本語"),
    Language("kr", "한국어"),
    Language("zh-CN", "简体中文"),
    Language("zh-TW", "繁體中文"),
    Language("pl", "Polski"),
    Language("tr", "Türkçe"),
    Language("uk", "Українська"),
    Language("da", "Dansk"),
    Language("no", "Norsk"),
    Language("hr", "Hrvatski"),
    Language("sr", "Srpski"),
    Language("he", "עברית")
  ]

  /** A field read with JavaScript truthiness: present and not the empty string. */
  predicate Truthy(v: Option<string>) {
    v.Some? && v.value != ""
  }

  /** `getLocalizedValue(data, language)`: nothing gives '', a bare string is returned
      as it is, and an object gives its truthy `language` entry, else its truthy `en`
      entry, else its first value when that is truthy, else ''. */
  function GetLocalizedValue(data: Option<Text>, language: string): (r: string)
    ensures data.None? ==> r == ""
    ensures data.Some? && data.value.Plain? ==> r == data.value.s
    ensures data.Some? && data.value.ByLang? ==>
              r == "" || exists i :: 0 <= i < |data.value.entries| && data.value.entries[i].1 == r
    ensures data.Some? && data.value.ByLang? && Truthy(Lookup(data.value.entries, language)) ==>
              r == Lookup(data.value.entries, language).value
  {
    match data
    case None => ""
    case Some(Plain(s)) => s
    case Some(ByLang(es)) =>
      var wanted := Lookup(es, language);
      var english := Lookup(es, "en");
      if Truthy(wanted) then wanted.value
      else if Truthy(english) then english.value
      else if es != [] then es[0].1
      else ""
  }

  /** Without a truthy entry for the language, a truthy English entry is used. */
  lemma EnglishFallback(es: seq<(string, string)>, language: string)
    requires !Truthy(Lookup(es, language)) && Truthy(Lookup(es, "en"))
    ensures GetLocalizedValue(Some(ByLang(es)), language) == Lookup(es, "en").value
  {
  }

  /** Without either, the first value is used as it is, even when it is empty and a
      later value is not. */
  lemma FirstValueFallback(es: seq<(string, string)>, language: string)
    requires !Truthy(Lookup(es, language)) && !Truthy(Lookup(es, "en"))
    ensures GetLocalizedValue(Some(ByLang(es)), language) == if es == [] then "" else es[0].1
  {
  }

  /** The English text the data builder picks (`t.en`) is what every language falls
      back to, so a text with English is never shown empty. */
  lemma EnglishNeverEmpty(t: Text, language: string)
    requires English(Some(t)).Some?
    ensures GetLocalizedValue(Some(t), language) != ""
    ensures GetLocalizedValue(Some(t), "en") == English(Some(t)).value
  {
  }

  /** The language codes are distinct. */
  lemma LanguageCodesDistinct()
    ensures forall i, j :: 0 <= i < j < |SUPPORTED_LANGUAGES| ==>
              SUPPORTED_LANGUAGES[i].code != SUPPORTED_LANGUAGES[j].code
  {
  }

  /** English comes first, and there are twenty languages. */
  lemma EnglishFirst()
    ensures |SUPPORTED_LANGUAGES| == 20
    ensures SUPPORTED_LANGUAGES[0] == Language("en", "English")
  {
  }
}
