/** The `/transcribe` request handler of main.py (`transcribe_audio`): upload checks,
    conversion, the Whisper-then-Google fallback chain and the JSON envelope. */
module Service {
  import opened Wrappers
  import opened Text
  import opened Upload
  import opened Language
  import opened ModelCache
  import opened Engines

  /** What the handler reads from a POST: the uploaded files by form field, each given by
      its client-side filename, and the text form fields. */
  datatype Request = Request(files: map<string, string>, form: map<string, string>)

  /** Everything outside main.py that decides a request: whether each engine library is
      present, whether saving the upload into the temporary directory and converting it
      to WAV succeed, and what the loader and the two engines do. */
  datatype Environment = Environment(
    whisperAvailable: bool,
    srAvailable: bool,
    saved: bool,
    converted: bool,
    load: LoadResult,
    infer: (Model, Option<string>) -> Inference,
    recognize: string -> Recognition)

  /** The JSON body: `{success: true, text, word_count, char_count}` or
      `{success: false, error}`. */
  datatype Envelope = Success(text: string, wordCount: nat, charCount: nat) | Failure(error: string)

  datatype Engine = Whisper | Google

  /** How the engine chain ended: no library at all, or the `(text, error)` pair it kept
      and the engines it ran, in order. */
  datatype ChainResult = NoBackend | Ran(result: EngineResult, calls: seq<Engine>)

  /** One request's effect: the envelope, the model-cache slot afterwards and the engines
      that ran. */
  datatype Outcome = Outcome(response: Envelope, slot: Option<Model>, calls: seq<Engine>)

  const AudioField := "audio_file"
  const DefaultModel := "base"

  const MissingFile := "Audio fayl topilmadi"
  const NoFileChosen := "Fayl tanlanmagan"
  const WrongFileType := "Noto'g'ri fayl turi"
  const ConversionFailed := "Audio faylni qayta ishlashda xatolik"
  // Written in two pieces: the verifier reasons more easily about shorter literals.
  const NoBackendAvailable := "Hech qanday transkripsiya " + "kutubxonasi mavjud emas"
  const TranscriptionFailed := "Transkripsiya amalga oshmadi"
  const ServerError := "Server xatoligi"

  /** `request.form.get(key, default)`. */
  function FormValue(form: map<string, string>, key: string, default: string): (v: string)
    ensures key in form ==> v == form[key]
    ensures key !in form ==> v == default
  {
    if key in form then form[key] else default
  }

  /** The upload checks, in the handler's order; `None` when the upload passes. An upload
      passes exactly when it is present and its name has an allowed extension. */
  function Validate(req: Request): (e: Option<string>)
    ensures e.None? <==> AudioField in req.files && AllowedFile(req.files[AudioField])
    ensures AudioField !in req.files ==> e == Some(MissingFile)
    ensures AudioField in req.files && req.files[AudioField] == [] ==> e == Some(NoFileChosen)
    ensures AudioField in req.files && req.files[AudioField] != [] && !AllowedFile(req.files[AudioField])
            ==> e == Some(WrongFileType)
  {
    if AudioField !in req.files then Some(MissingFile)
    else if req.files[AudioField] == "" then Some(NoFileChosen)
    else if !AllowedFile(req.files[AudioField]) then Some(WrongFileType)
    else None
  }

  /** The engine chain given what each adapter would return if run. Whisper, when
      present, always runs and runs first; Google runs only when present and Whisper is
      absent or gave no text; the pair kept is that of the last engine run. */
  function Chain(whisperAvailable: bool, srAvailable: bool, whisper: EngineResult, google: EngineResult)
    : (c: ChainResult)
    ensures c.NoBackend? <==> !whisperAvailable && !srAvailable
    ensures c.Ran? ==> c.calls in {[Whisper], [Whisper, Google], [Google]}
    ensures c.Ran? ==> (Whisper in c.calls <==> whisperAvailable)
    ensures c.Ran? ==> (Google in c.calls <==> srAvailable && (!whisperAvailable || whisper.text.None?))
    ensures c.Ran? ==> c.result == (if c.calls[|c.calls| - 1] == Google then google else whisper)
  {
    if whisperAvailable then
      if whisper.text.None? && srAvailable then Ran(google, [Whisper, Google])
      else Ran(whisper, [Whisper])
    else if srAvailable then Ran(google, [Google])
    else NoBackend
  }

  /** The envelope built from the chain's pair: success exactly when there is text, with
      the text itself, its `str.split()` word count and its length; otherwise the error,
      or the generic message when the error is missing or empty. */
  function Report(r: EngineResult): (e: Envelope)
    ensures e.Success? <==> r.text.Some?
    ensures e.Success? ==> e.text == r.text.value && e.charCount == |e.text|
                           && e.wordCount == |Words(e.text)| && e.wordCount <= e.charCount
    ensures e.Failure? ==> e.error != []
    ensures e.Failure? && r.error.Some? && r.error.value != [] ==> e.error == r.error.value
    ensures e.Failure? && (r.error.None? || r.error.value == []) ==> e.error == TranscriptionFailed
  {
    if r.text.None? then
      Failure(if r.error.Some? && r.error.value != [] then r.error.value else TranscriptionFailed)
    else
      Success(r.text.value, |Words(r.text.value)|, |r.text.value|)
  }

  /** The language hint of a request. */
  function LanguageOf(req: Request): (hint: string)
    ensures "language" in req.form ==> hint == req.form["language"]
    ensures "language" !in req.form ==> hint == Auto
  {
    FormValue(req.form, "language", Auto)
  }

  /** The model size name of a request. */
  function ModelNameOf(req: Request): (name: string)
    ensures "model" in req.form ==> name == req.form["model"]
    ensures "model" !in req.form ==> name == DefaultModel
  {
    FormValue(req.form, "model", DefaultModel)
  }

  /** What Whisper's adapter returns for this request when the cache holds `slot`. */
  function WhisperOf(req: Request, env: Environment, slot: Option<Model>): EngineResult {
    WhisperAdapter(Fetch(slot, ModelNameOf(req), env.load).model, LanguageOf(req), env.infer)
  }

  /** What Google's adapter returns for this request. */
  function GoogleOf(req: Request, env: Environment): EngineResult {
    GoogleAdapter(LanguageOf(req), env.recognize)
  }

  /** The upload was accepted, saved and converted: the engines are reached. */
  predicate ReachesEngines(req: Request, env: Environment) {
    Validate(req).None? && env.saved && env.converted
  }

  /** `transcribe_audio` as a function of the request, the environment and the cache slot. */
  function Transcribe(req: Request, env: Environment, slot: Option<Model>): (o: Outcome)
    ensures !ReachesEngines(req, env) ==> o.calls == [] && o.slot == slot && o.response.Failure?
    ensures o.response.Success? ==> ReachesEngines(req, env) && o.calls != []
  {
    match Validate(req)
    case Some(e) => Outcome(Failure(e), slot, [])
    case None =>
      if !env.saved then Outcome(Failure(ServerError), slot, [])
      else if !env.converted then Outcome(Failure(ConversionFailed), slot, [])
      else
        match Chain(env.whisperAvailable, env.srAvailable, WhisperOf(req, env, slot), GoogleOf(req, env))
        case NoBackend => Outcome(Failure(NoBackendAvailable), slot, [])
        case Ran(r, calls) =>
          var slot' := if env.whisperAvailable then Fetch(slot, ModelNameOf(req), env.load).slot else slot;
          Outcome(Report(r), slot', calls)
  }

  /** The handler itself, step by step, against the process-wide cache. */
  method TranscribeAudio(cache: WhisperCache, req: Request, env: Environment) returns (response: Envelope)
    modifies cache
    ensures response == Transcribe(req, env, old(cache.slot)).response
    ensures cache.slot == Transcribe(req, env, old(cache.slot)).slot
    ensures Whisper !in Transcribe(req, env, old(cache.slot)).calls ==> cache.loads == old(cache.loads)
    ensures Whisper in Transcribe(req, env, old(cache.slot)).calls ==>
              cache.loads == old(cache.loads) + (if Holds(old(cache.slot), ModelNameOf(req)) then [] else [ModelNameOf(req)])
  {
    if AudioField !in req.files {
      return Failure(MissingFile);
    }
    var filename := req.files[AudioField];
    if filename == "" {
      return Failure(NoFileChosen);
    }
    if !AllowedFile(filename) {
      return Failure(WrongFileType);
    }
    var language := FormValue(req.form, "language", Auto);
    var modelName := FormValue(req.form, "model", DefaultModel);
    if !env.saved {
      return Failure(ServerError);
    }
    if !env.converted {
      return Failure(ConversionFailed);
    }
    var text: Option<string>, error: Option<string>;
    if env.whisperAvailable {
      var w := TranscribeWithWhisper(cache, language, modelName, env.load, env.infer);
      text, error := w.text, w.error;
      if text.None? && env.srAvailable {
        var g := GoogleAdapter(language, env.recognize);
        text, error := g.text, g.error;
      }
    } else if env.srAvailable {
      var g := GoogleAdapter(language, env.recognize);
      text, error := g.text, g.error;
    } else {
      return Failure(NoBackendAvailable);
    }
    if text.None? {
      return Failure(if error.Some? && error.value != [] then error.value else TranscriptionFailed);
    }
    response := Success(text.value, |Words(text.value)|, |text.value|);
  }

  // ---------------------------------------------------------------- properties

  /** A rejected upload fails with its own message before anything else happens: no
      engine runs and the cache is untouched, whatever the environment. */
  lemma RejectedUploadRunsNothing(req: Request, env: Environment, slot: Option<Model>)
    requires Validate(req).Some?
    ensures Transcribe(req, env, slot) == Outcome(Failure(Validate(req).value), slot, [])
  {
  }

  /** A failed conversion of an accepted upload stops the request before any engine. */
  lemma ConversionFailureRunsNothing(req: Request, env: Environment, slot: Option<Model>)
    requires Validate(req).None? && env.saved && !env.converted
    ensures Transcribe(req, env, slot) == Outcome(Failure(ConversionFailed), slot, [])
  {
  }

  /** The "no transcription library" error is reported only for an accepted upload that
      was saved and converted, when neither engine library is present. */
  lemma NoBackendOnlyAfterConversion(req: Request, env: Environment, slot: Option<Model>)
    ensures Transcribe(req, env, slot).response == Failure(NoBackendAvailable)
            <==> Validate(req).None? && env.saved && env.converted
                 && !env.whisperAvailable && !env.srAvailable
  {
    var o := Transcribe(req, env, slot);
    if o.response == Failure(NoBackendAvailable) {
      assert NoBackendAvailable[0] == 'H';
      assert MissingFile[0] != 'H' && NoFileChosen[0] != 'H' && WrongFileType[0] != 'H';
      assert ServerError[0] != 'H' && ConversionFailed[0] != 'H';
      if Validate(req).None? && env.saved && env.converted && (env.whisperAvailable || env.srAvailable) {
        var c := Chain(env.whisperAvailable, env.srAvailable, WhisperOf(req, env, slot), GoogleOf(req, env));
        ReportIsNeverNoBackend(c.result);
      }
    }
  }

  /** No adapter's pair, reported, reads like the "no library" error. */
  lemma ReportIsNeverNoBackend(r: EngineResult)
    requires r.error.Some? ==> AdapterMessage(r.error.value)
    ensures Report(r) != Failure(NoBackendAvailable)
  {
    assert NoBackendAvailable[0] == 'H';
    assert TranscriptionFailed[0] != 'H' && ModelLoadFailed[0] != 'H' && NoSpeechDetected[0] != 'H';
    if r.error.Some? && TranscriptionFailedPrefix <= r.error.value {
      assert r.error.value[0] == TranscriptionFailedPrefix[0] == 'T';
    }
    if r.error.Some? && ServiceFailedPrefix <= r.error.value {
      assert r.error.value[0] == ServiceFailedPrefix[0] == 'G';
    }
  }

  /** The fallback order: Whisper runs exactly when the engines are reached and its library
      is present, and then first; Google runs exactly when the engines are reached, its
      library is present, and Whisper is absent or returned no text. */
  lemma FallbackOrder(req: Request, env: Environment, slot: Option<Model>)
    ensures var o := Transcribe(req, env, slot);
            (Whisper in o.calls <==> ReachesEngines(req, env) && env.whisperAvailable)
            && (Google in o.calls <==> ReachesEngines(req, env) && env.srAvailable
                                       && (!env.whisperAvailable || WhisperOf(req, env, slot).text.None?))
            && (Whisper in o.calls ==> o.calls[0] == Whisper)
            && |o.calls| <= 2
  {
  }

  /** Any Whisper text ends the request as a success, the empty text included; Google is
      never asked. */
  lemma WhisperTextIsFinal(req: Request, env: Environment, slot: Option<Model>, t: string)
    requires ReachesEngines(req, env) && env.whisperAvailable
    requires WhisperOf(req, env, slot).text == Some(t)
    ensures Transcribe(req, env, slot).calls == [Whisper]
    ensures Transcribe(req, env, slot).response == Success(t, |Words(t)|, |t|)
  {
  }

  /** A Whisper transcript that is only whitespace is reported as a successful empty text
      with no words, without falling back to Google. */
  lemma SilentWhisperTranscriptSucceeds(req: Request, env: Environment, slot: Option<Model>)
    requires ReachesEngines(req, env) && env.whisperAvailable
    requires Fetch(slot, ModelNameOf(req), env.load).model.Some?
    requires var m := Fetch(slot, ModelNameOf(req), env.load).model.value;
             env.infer(m, WhisperLanguage(LanguageOf(req))).Transcribed?
             && AllSpace(env.infer(m, WhisperLanguage(LanguageOf(req))).raw)
    ensures Transcribe(req, env, slot).calls == [Whisper]
    ensures Transcribe(req, env, slot).response == Success([], 0, 0)
  {
    var t := WhisperOf(req, env, slot).text.value;
    assert t == [];
    WhisperTextIsFinal(req, env, slot, t);
  }

  /** When Google runs and recognises text, the response carries exactly that text. */
  lemma FallbackTextIsGoogles(req: Request, env: Environment, slot: Option<Model>, t: string)
    requires Google in Transcribe(req, env, slot).calls
    requires env.recognize(GoogleLanguage(LanguageOf(req))) == Recognized(t)
    ensures Transcribe(req, env, slot).response == Success(t, |Words(t)|, |t|)
  {
  }

  /** When both engines run and both fail, the error reported is Google's. */
  lemma BothFailedReportsGoogle(req: Request, env: Environment, slot: Option<Model>)
    requires ReachesEngines(req, env) && env.whisperAvailable && env.srAvailable
    requires WhisperOf(req, env, slot).text.None? && GoogleOf(req, env).text.None?
    ensures Transcribe(req, env, slot).calls == [Whisper, Google]
    ensures Transcribe(req, env, slot).response == Failure(GoogleOf(req, env).error.value)
  {
  }

  /** Every failure carries a non-empty message, and once an engine has run it is that
      engine's own message: the generic "not transcribed" message is never reported. */
  lemma FailureIsExplained(req: Request, env: Environment, slot: Option<Model>)
    ensures var o := Transcribe(req, env, slot);
            o.response.Failure? ==> o.response.error != []
    ensures var o := Transcribe(req, env, slot);
            var last := if Google in o.calls then GoogleOf(req, env) else WhisperOf(req, env, slot);
            o.response.Failure? && o.calls != [] ==> last.error.Some? && o.response.error == last.error.value
  {
  }

  /** A success reports the text's length and its number of words, counted by the
      reference counter, and never more words than characters. */
  lemma SuccessCounts(req: Request, env: Environment, slot: Option<Model>)
    ensures var o := Transcribe(req, env, slot);
            o.response.Success? ==>
              o.response.charCount == |o.response.text|
              && o.response.wordCount == CountRuns(o.response.text, false)
              && o.response.wordCount <= o.response.charCount
  {
    var o := Transcribe(req, env, slot);
    if o.response.Success? {
      WordCountIsRunCount(o.response.text);
    }
  }

  /** Only a Whisper run touches the cache; after one whose model loaded, the slot holds
      the requested size. */
  lemma CacheChangesOnlyThroughWhisper(req: Request, env: Environment, slot: Option<Model>)
    ensures var o := Transcribe(req, env, slot);
            Whisper !in o.calls ==> o.slot == slot
    ensures var o := Transcribe(req, env, slot);
            var step := Fetch(slot, ModelNameOf(req), env.load);
            Whisper in o.calls && step.model.Some? ==> SlotName(o.slot) == Some(ModelNameOf(req))
    ensures var o := Transcribe(req, env, slot);
            var step := Fetch(slot, ModelNameOf(req), env.load);
            Whisper in o.calls && step.model.None? ==> o.slot == slot
  {
  }
}
