/** Choosing the language the interview questions are written in: the
    detector's verdict on the tech-stack text, with a fixed fallback, mapped
    through a five-entry table of language names. */
module Language {

  datatype Option<T> = None | Some(value: T)

  /** The code used when detection fails. */
  const DefaultCode: string := "en"

  /** The code-to-name table; any code not in it means English. */
  const LanguageNames: map<string, string> :=
    map["en" := "English", "hi" := "Hindi", "es" := "Spanish", "fr" := "French", "de" := "German"]

  /** `lang_map.get(lang_code, "English")`: exactly the four non-English
      codes of the table give their own language, and every other code, known
      or not, gives English. */
  function LanguageName(code: string): (name: string)
    ensures name == "Hindi" <==> code == "hi"
    ensures name == "Spanish" <==> code == "es"
    ensures name == "French" <==> code == "fr"
    ensures name == "German" <==> code == "de"
    ensures name == "English" <==> code !in {"hi", "es", "fr", "de"}
  {
    if code in LanguageNames then LanguageNames[code] else "English"
  }

  /** The detector's verdict, or the default code when it raised; the
      fallback is a code the table knows. */
  function DetectedCode(detected: Option<string>): (code: string)
    ensures detected.Some? ==> code == detected.value
    ensures detected.None? ==> code == DefaultCode && code in LanguageNames
  {
    match detected
    case Some(code) => code
    case None => DefaultCode
  }

  /** The language name handed to the question generator: a failed detection
      gives English, and a successful one gives the table's name for the code
      (English when the table does not have it). */
  function QuestionLanguage(detected: Option<string>): (name: string)
    ensures detected.None? ==> name == "English"
    ensures name in LanguageNames.Values
    ensures detected.Some? ==> name == LanguageName(detected.value)
  {
    var name := LanguageName(DetectedCode(detected));
    assert LanguageNames["en"] == "English";
    name
  }
}
