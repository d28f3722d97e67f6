/** How each engine adapter rewrites the user's language hint
    (`transcribe_with_whisper` and `transcribe_with_speech_recognition` of main.py). */
module Language {
  import opened Wrappers

  /** The hint that asks the service to detect the language. */
  const Auto := "auto"

  /** The locale the Google recogniser is given when the hint is `Auto`. */
  const GoogleDefault := "uz-UZ"

  /** The locale tags the Whisper adapter rewrites to two-letter language codes. */
  const WhisperCodes: map<string, string> := map["uz-UZ" := "uz", "ru-RU" := "ru", "en-US" := "en"]

  /** The `language=` argument Whisper receives: no hint for `Auto` (Whisper detects the
      language itself), the language part of the three known locale tags, and any other
      hint unchanged. */
  function WhisperLanguage(hint: string): (r: Option<string>)
    ensures r.None? <==> hint == Auto
    ensures hint in WhisperCodes ==> r == Some(hint[..2])
    ensures r.Some? && r.value != hint ==> hint in WhisperCodes
  {
    assert "uz-UZ"[..2] == "uz" && "ru-RU"[..2] == "ru" && "en-US"[..2] == "en";
    if hint == Auto then None
    else if hint in WhisperCodes then Some(WhisperCodes[hint])
    else Some(hint)
  }

  /** The `language=` argument Google receives: `GoogleDefault` for `Auto`, any other hint
      unchanged; it is never `Auto`. */
  function GoogleLanguage(hint: string): (r: string)
    ensures r != Auto
    ensures r != hint <==> hint == Auto
    ensures hint == Auto ==> r == GoogleDefault
  {
    if hint == Auto then GoogleDefault else hint
  }

  /** The two engines are asked for the same language except on `Auto`: whenever Whisper
      gets a hint, it is a prefix of the locale Google gets; on `Auto` Whisper gets none
      while Google gets the fixed default. */
  lemma EnginesAgreeOnLanguage(hint: string)
    ensures WhisperLanguage(hint).Some? ==> WhisperLanguage(hint).value <= GoogleLanguage(hint)
    ensures WhisperLanguage(hint).None? ==> GoogleLanguage(hint) == GoogleDefault
  {
  }
}
