# Audio-to-text service: verified model of the request logic

The service is a small Flask application (`main.py`) that accepts an uploaded audio
file on `POST /transcribe`, converts it to WAV, and transcribes it with Whisper,
falling back to the Google recogniser. The transcription itself, the conversion and
the web framework are outside code; what this project models is the decision logic
that main.py wraps around them:

- **Upload gate** (`upload.dfy`, module `Upload`): `ALLOWED_EXTENSIONS` and
  `allowed_file`, with `str.rsplit('.', 1)` modelled in module `Upload` and `str.lower()`
  in module `Text`.
- **Language hints** (`language.dfy`, module `Language`): how the Whisper adapter
  rewrites the hint (`auto` to no hint, three locale tags to language codes) and how
  the Google adapter does (`auto` to `uz-UZ`).
- **Model cache** (`model_cache.dfy`, module `ModelCache`): the global `whisper_model`
  slot as class `WhisperCache` with method `Load` (`load_whisper_model`), specified by
  the pure step `Fetch` and studied over sequences of calls with `Replay`.
- **Engine adapters** (`engines.dfy`, module `Engines`): `transcribe_with_whisper`
  and `transcribe_with_speech_recognition`, returning the source's `(text, error)` pair.
- **Request handler** (`service.dfy`, module `Service`): `transcribe_audio` as the
  pure function `Transcribe` of the request, the environment and the cache slot, and
  as the imperative `TranscribeAudio` that runs against the cache and is proved equal
  to it.
- **String built-ins** (`text.dfy`, module `Text`): Python's whitespace set,
  `str.strip()` and `str.split()` (for `word_count`), with a reference word counter.

Everything the code cannot decide by itself is an input: whether each engine library
is present, whether saving the upload succeeded, whether conversion succeeded
(`Environment.saved`, `Environment.converted`), what `whisper.load_model` does
(`LoadResult`), what the model's inference returns for a given model and language
hint (`Environment.infer`), and what the Google recogniser returns for a given locale
(`Environment.recognize`).

The model follows the code where a reader might expect otherwise: the fallback test is
`text is None` only (main.py:205 and main.py:213), so a Whisper transcript that is
empty after stripping is a success with no words and Google is never asked
(`Service.SilentWhisperTranscriptSucceeds`). Likewise the generic message
`Transkripsiya amalga oshmadi` is modelled (`Service.Report`) but cannot be reached,
since every adapter failure carries a non-empty message (`Service.FailureIsExplained`).

## Model

| member | source | states |
|---|---|---|
| `Text.TrimStart` | main.py:132 | the left half of `strip()`: a suffix of the text, everything cut off is whitespace, and it does not start with whitespace |
| `Text.TrimEnd` | main.py:132 | the right half of `strip()`: a prefix of the text, everything cut off is whitespace, and it does not end with whitespace |
| `Text.CutEnds` | main.py:132 | cutting an all-whitespace prefix and then an all-whitespace suffix up to non-whitespace leaves a contiguous piece of the text, empty exactly when the text is all whitespace |
| `Text.Strip` | main.py:132 | the stripped transcript is the raw one with only an all-whitespace prefix and an all-whitespace suffix removed (a contiguous piece, inner whitespace kept); it is empty exactly when the raw one is all whitespace, and otherwise neither starts nor ends with whitespace |
| `Text.WordsOfStrip` | main.py:132 | stripping a text never changes its words |
| `Text.Words` | main.py:221 | `text.split()` yields non-empty, whitespace-free words, never more words than characters, and no word exactly when the text is all whitespace |
| `Text.WordCountIsRunCount` | main.py:221 | `len(text.split())` equals the number of maximal non-whitespace runs counted by an independent state-machine counter |
| `Text.WordsKeepText` | main.py:221 | the words of `text.split()`, joined, are exactly the non-whitespace characters of the text in order |
| `Text.Lower` | main.py:59 | `.lower()` keeps the length, lower-cases each character in place, and leaves no upper-case ASCII letter |
| `Text.LowerIdempotent` | main.py:59 | lower-casing an extension twice is lower-casing it once |
| `Text.LowerKeepsDots` | main.py:59 | lower-casing neither adds nor removes a dot |
| `Upload.RSplitDot` | main.py:59 | `rsplit('.', 1)` has no text after a last dot exactly on names with no dot, and otherwise returns a head and a dot-free tail that rebuild the name |
| `Upload.AllowedFile` | main.py:56-59 | a name is accepted iff it holds a dot and the lower-cased text after its last dot is an allowed extension; the empty name is never accepted |
| `Upload.RSplitDotOfJoin` | main.py:59 | splitting head + "." + dot-free tail at the last dot gives back exactly that head and tail |
| `Upload.AllowedFileByExtension` | main.py:56-59 | a name with final extension `e` is accepted iff lower-cased `e` is one of mp3, wav, ogg, m4a, flac, aac, wma |
| `Upload.NoDotRejected` | main.py:58 | a name without a dot is rejected |
| `Upload.AllowedFileIgnoresCase` | main.py:59 | the case of the final extension never changes the verdict |
| `Upload.EveryAllowedExtensionPasses` | main.py:37 | every listed extension is accepted after any head |
| `Upload.InnerExtensionRejected` | main.py:56-59 | `a.wav.exe` is rejected: only the final suffix counts |
| `Upload.UpperCaseExtensionAccepted` | main.py:56-59 | `a.exe.MP3` is accepted |
| `Upload.BareExtensionAccepted` | main.py:56-59 | `.mp3` is accepted |
| `Upload.TrailingDotRejected` | main.py:56-59 | `a.` has an empty extension and is rejected |
| `Language.WhisperLanguage` | main.py:119-126 | Whisper gets no hint exactly for `auto`; `uz-UZ`, `ru-RU`, `en-US` become their two-letter language part; every other hint passes unchanged |
| `Language.GoogleLanguage` | main.py:148-149 | Google gets `uz-UZ` for `auto` and any other hint unchanged, so never `auto` |
| `Language.EnginesAgreeOnLanguage` | main.py:119-126 | whenever Whisper gets a hint it is a prefix of Google's locale; on `auto` Whisper gets none while Google gets `uz-UZ` |
| `ModelCache.Fetch` | main.py:42-54 | the loader runs exactly when the slot does not hold the requested name; a returned model has that name and is what the slot holds; on a miss with a successful load it is exactly the loader's network; a failed load returns None and leaves the slot unchanged; a hit returns the resident model |
| `ModelCache.WhisperCache.constructor` | main.py:40 | the process starts with an empty slot and no loads |
| `ModelCache.WhisperCache.Load` | main.py:42-54 | `load_whisper_model` updates the single slot as `Fetch` says, stores and returns the loader's network on a successful miss, and logs a load exactly on a miss |
| `ModelCache.LoadsFollowNameChanges` | main.py:46-49 | when loads succeed, the loader runs once per change of requested size and never for a repeated size |
| `ModelCache.ResidentNameNeverReloads` | main.py:46 | requests for the resident size load nothing and keep the same model |
| `ModelCache.LastSuccessfulRequestWins` | main.py:48-49 | after a successful last request the single slot holds that request's size, whatever came before |
| `ModelCache.FailedLoadsKeepSlot` | main.py:52-54 | loads that raise never change the slot |
| `ModelCache.BaseThenSmall` | main.py:42-54 | `base` then `small` loads each once and `small` replaces `base` |
| `Engines.WhisperAdapter` | main.py:110-136 | exactly one of text and error; a missing model gives the load error; text exactly when inference succeeds with the mapped hint, and then it is the raw transcript stripped (same words, no surrounding whitespace); a raising inference gives `Transkripsiya xatoligi: ` followed by its message; errors are non-empty adapter messages |
| `Engines.TranscribeWithWhisper` | main.py:110-116 | consults the cache first, then behaves as `WhisperAdapter` with the model the cache returned |
| `Engines.GoogleAdapter` | main.py:138-160 | exactly one of text and error; text exactly when recognition succeeds, unchanged; no speech gives its fixed message; a service error gives `Google Speech Recognition xizmati xatoligi: ` and any other exception `Transkripsiya xatoligi: `, each followed by its message |
| `Engines.UzbekHintPerEngine` | main.py:119-126 | the hint `uz-UZ` reaches Whisper as `uz` and Google unchanged: Whisper's whole result for `uz-UZ` equals its result for `uz`, Whisper gives text exactly when inference at `uz` transcribes, and Google exactly when it recognises at `uz-UZ` |
| `Engines.AutoHintPerEngine` | main.py:148-149 | the hint `auto` reaches Whisper as no hint and Google as `uz-UZ`: Google's whole result for `auto` equals its result for `uz-UZ`, and Whisper gives text exactly when inference with no hint transcribes |
| `Service.FormValue` | main.py:187-188 | `request.form.get(key, default)`: the field's value when present, otherwise the default |
| `Service.LanguageOf` | main.py:187 | the language hint is the `language` field, `auto` when absent |
| `Service.ModelNameOf` | main.py:188 | the model size is the `model` field, `base` when absent |
| `Service.Validate` | main.py:176-184 | an upload passes iff present with an allowed name; missing file, empty name and wrong type give their own messages, in that order |
| `Service.Chain` | main.py:203-211 | no backend iff both libraries are absent; Whisper runs iff present and first; Google runs iff present and Whisper is absent or gave no text; the last engine's pair is kept |
| `Service.Report` | main.py:213-223 | success iff there is text, with the text, its length and its word count (at most its length); otherwise the error, or the generic message when it is None or empty |
| `Service.Transcribe` | main.py:167-227 | a request stopped before the engines runs none and leaves the cache alone; a success has passed every check and run an engine |
| `Service.TranscribeAudio` | main.py:167-227 | the handler's response and the cache slot afterwards are those of `Transcribe`; the loader ran once, logged with the requested size, exactly when Whisper ran and the slot did not hold that size, and not at all otherwise |
| `Service.RejectedUploadRunsNothing` | main.py:176-184 | a rejected upload fails with its own message before any engine runs or the cache changes |
| `Service.ConversionFailureRunsNothing` | main.py:197-200 | a failed conversion stops the request before any engine |
| `Service.NoBackendOnlyAfterConversion` | main.py:208-211 | the no-library error is reported iff the upload was accepted, saved and converted and neither library is present |
| `Service.ReportIsNeverNoBackend` | main.py:213-214 | no adapter failure is reported with the no-library message |
| `Service.FallbackOrder` | main.py:203-209 | Whisper runs iff reached and present, and first; Google runs iff reached, present, and Whisper is absent or returned no text; at most two engines run |
| `Service.WhisperTextIsFinal` | main.py:204-205 | any Whisper text, the empty one included, is the response and Google is never called |
| `Service.SilentWhisperTranscriptSucceeds` | main.py:132 | an all-whitespace Whisper transcript is a success with empty text and no words, without fallback |
| `Service.FallbackTextIsGoogles` | main.py:205-207 | when Google runs and recognises text, the response carries exactly that text |
| `Service.BothFailedReportsGoogle` | main.py:205-214 | when both engines run and fail, the reported error is Google's |
| `Service.FailureIsExplained` | main.py:213-214 | every failure has a non-empty message, and after an engine ran it is that engine's message |
| `Service.SuccessCounts` | main.py:218-223 | `char_count` is the text's length, `word_count` its number of whitespace-separated runs, and `word_count <= char_count` |
| `Service.CacheChangesOnlyThroughWhisper` | main.py:203-204 | only a Whisper run changes the cache; after a successful load the slot holds the requested size, after a failed one it is unchanged |

## Left out

- Flask routing, `render_template`, the `/` and `/health` endpoints, `jsonify` and the
  `MAX_CONTENT_LENGTH` limit (main.py:29-30): framework plumbing; the JSON body is the
  `Envelope` datatype.
- `check_ffmpeg` and `convert_audio_to_wav` (main.py:61-108): they probe `PATH` and call
  pydub/ffmpeg; conversion is the boolean input `Environment.converted`. The
  `check_ffmpeg` call at main.py:172-174 only logs and does not change the response.
- `whisper.load_model`, `model.transcribe`, `sr.AudioFile`/`record` and `recognize_google`:
  foreign model and network calls, taken as the inputs `LoadResult`, `Environment.infer`
  and `Environment.recognize`.
- `tempfile.TemporaryDirectory`, `secure_filename` and `file.save` (main.py:191-198):
  filesystem I/O and a werkzeug function; whether they raise before conversion is the
  input `Environment.saved`, and raising leads to the catch-all `Server xatoligi` response
  (main.py:225-227), the only way the model reaches it. Removing the temporary directory
  when control leaves the `with` block (main.py:191) happens after the handler has chosen
  its response, and after Whisper may already have changed the cache; a failure there
  would replace any response, a success included, with `Server xatoligi`. That failure on
  exit is not modelled: the model always returns the response chosen inside the block.
- The import-time flags `WHISPER_AVAILABLE` and `SR_AVAILABLE` (main.py:14-26) are inputs,
  not modelled import behaviour.
- Logging, and the `print` banners at start-up.
- Concurrent requests racing on the unsynchronised `whisper_model` global: the cache is
  modelled sequentially.
- `Text.Lower` folds only ASCII `A`-`Z`, where Python's `str.lower()` folds all of
  Unicode; no non-ASCII character lower-cases to letters of the allow-list, so
  `allowed_file`'s verdict is unaffected.
- Uploaded filenames are strings: werkzeug files parsed from a multipart body always
  carry one, so a `None` filename is not modelled.
- test.py is a live HTTP client with no logic of its own.
