/** The two engine adapters of main.py, `transcribe_with_whisper` and
    `transcribe_with_speech_recognition`, with the engines themselves as inputs. */
module Engines {
  import opened Wrappers
  import opened Text
  import opened Language
  import opened ModelCache

  /** The `(text, error)` pair every adapter returns. */
  datatype EngineResult = EngineResult(text: Option<string>, error: Option<string>)

  /** The adapters' invariant: exactly one of text and error is set. */
  predicate ExactlyOne(r: EngineResult) {
    r.text.Some? != r.error.Some?
  }

  /** What `model.transcribe(path, language=...)` does: return a raw transcript, or raise
      with a message. */
  datatype Inference = Transcribed(raw: string) | InferenceRaised(message: string)

  /** What reading the WAV file and calling `recognize_google` does: return text, signal
      that no speech was recognised, fail at the service, or raise anything else. */
  datatype Recognition =
    | Recognized(text: string)
    | NoSpeech
    | ServiceError(message: string)
    | RecognitionRaised(message: string)

  const ModelLoadFailed := "Whisper modelini yuklashda xatolik"
  const TranscriptionFailedPrefix := "Transkripsiya xatoligi: "
  const NoSpeechDetected := "Audio da nutq aniqlanmadi"
  // Written in two pieces: the verifier reasons more easily about shorter literals.
  const ServiceFailedPrefix := "Google Speech Recognition " + "xizmati xatoligi: "

  /** The messages the adapters report: the two fixed ones, and those built on the two
      prefixes. */
  predicate AdapterMessage(m: string) {
    m == ModelLoadFailed || m == NoSpeechDetected
    || TranscriptionFailedPrefix <= m || ServiceFailedPrefix <= m
  }

  /** `transcribe_with_whisper` once the cache has answered with `model`; `infer` stands
      for the network's inference, asked with the mapped language hint. The transcript is
      returned stripped: it keeps the raw transcript's words and neither starts nor ends
      with whitespace. A missing model and a raising inference are errors with a
      non-empty message. */
  function WhisperAdapter(model: Option<Model>, language: string, infer: (Model, Option<string>) -> Inference)
    : (r: EngineResult)
    ensures ExactlyOne(r)
    ensures r.error.Some? ==> r.error.value != [] && AdapterMessage(r.error.value)
    ensures model.None? ==> r.error == Some(ModelLoadFailed)
    ensures r.text.Some? <==> model.Some? && infer(model.value, WhisperLanguage(language)).Transcribed?
    ensures model.Some? && infer(model.value, WhisperLanguage(language)).InferenceRaised? ==>
              r.error == Some(TranscriptionFailedPrefix + infer(model.value, WhisperLanguage(language)).message)
    ensures r.text.Some? ==> r.text.value == Strip(infer(model.value, WhisperLanguage(language)).raw)
    ensures r.text.Some? ==>
              var raw := infer(model.value, WhisperLanguage(language)).raw;
              Words(r.text.value) == Words(raw) && |r.text.value| <= |raw|
              && (r.text.value == [] <==> AllSpace(raw))
              && (r.text.value != [] ==> !IsSpace(r.text.value[0]) && !IsSpace(r.text.value[|r.text.value| - 1]))
  {
    match model
    case None => EngineResult(None, Some(ModelLoadFailed))
    case Some(m) =>
      match infer(m, WhisperLanguage(language))
      case Transcribed(raw) =>
        WordsOfStrip(raw);
        EngineResult(Some(Strip(raw)), None)
      case InferenceRaised(e) => EngineResult(None, Some(TranscriptionFailedPrefix + e))
  }

  /** `transcribe_with_whisper(path, language, model_name)`: consults the cache, then
      transcribes. `load` stands for the loader and `infer` for the inference. */
  method TranscribeWithWhisper(cache: WhisperCache, language: string, modelName: string,
                               load: LoadResult, infer: (Model, Option<string>) -> Inference)
    returns (r: EngineResult)
    modifies cache
    ensures r == WhisperAdapter(Fetch(old(cache.slot), modelName, load).model, language, infer)
    ensures cache.slot == Fetch(old(cache.slot), modelName, load).slot
    ensures cache.loads == old(cache.loads) + (if Holds(old(cache.slot), modelName) then [] else [modelName])
  {
    var model := cache.Load(modelName, load);
    r := WhisperAdapter(model, language, infer);
  }

  /** `transcribe_with_speech_recognition(path, language)`; `recognize` stands for reading
      the file and calling the Google recogniser with the mapped locale. Recognised text is
      returned exactly as the service gave it; every failure is an error with a non-empty
      message. */
  function GoogleAdapter(language: string, recognize: string -> Recognition): (r: EngineResult)
    ensures ExactlyOne(r)
    ensures r.error.Some? ==> r.error.value != [] && AdapterMessage(r.error.value)
    ensures r.text.Some? <==> recognize(GoogleLanguage(language)).Recognized?
    ensures r.text.Some? ==> r.text.value == recognize(GoogleLanguage(language)).text
    ensures recognize(GoogleLanguage(language)).NoSpeech? ==> r.error == Some(NoSpeechDetected)
    ensures recognize(GoogleLanguage(language)).ServiceError? ==>
              r.error == Some(ServiceFailedPrefix + recognize(GoogleLanguage(language)).message)
    ensures recognize(GoogleLanguage(language)).RecognitionRaised? ==>
              r.error == Some(TranscriptionFailedPrefix + recognize(GoogleLanguage(language)).message)
  {
    match recognize(GoogleLanguage(language))
    case Recognized(text) => EngineResult(Some(text), None)
    case NoSpeech => EngineResult(None, Some(NoSpeechDetected))
    case ServiceError(e) => EngineResult(None, Some(ServiceFailedPrefix + e))
    case RecognitionRaised(e) => EngineResult(None, Some(TranscriptionFailedPrefix + e))
  }

  /** The hint "uz-UZ" reaches Whisper as "uz", and Google unchanged. */
  lemma UzbekHintPerEngine(m: Model, infer: (Model, Option<string>) -> Inference, recognize: string -> Recognition)
    ensures WhisperAdapter(Some(m), "uz-UZ", infer).text.Some? <==> infer(m, Some("uz")).Transcribed?
    ensures GoogleAdapter("uz-UZ", recognize).text.Some? <==> recognize("uz-UZ").Recognized?
    ensures WhisperAdapter(Some(m), "uz-UZ", infer) == WhisperAdapter(Some(m), "uz", infer)
  {
    assert WhisperLanguage("uz-UZ") == Some("uz");
    assert WhisperLanguage("uz") == Some("uz");
  }

  /** The hint "auto" reaches Whisper as no hint at all, and Google as the default locale. */
  lemma AutoHintPerEngine(m: Model, infer: (Model, Option<string>) -> Inference, recognize: string -> Recognition)
    ensures WhisperAdapter(Some(m), "auto", infer).text.Some? <==> infer(m, None).Transcribed?
    ensures GoogleAdapter("auto", recognize).text.Some? <==> recognize(GoogleDefault).Recognized?
    ensures GoogleAdapter("auto", recognize) == GoogleAdapter("uz-UZ", recognize)
  {
  }
}
