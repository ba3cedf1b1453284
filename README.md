# Pipecat end-of-turn analysis, XTTS output framing and Sarvam STT dispatch, in Dafny

This project models three parts of the pipecat voice-agent framework and
proves what they guarantee.

- **The smart-turn end-of-turn analyzer** (`BaseSmartTurn`). Each audio
  session owns one analyzer with four mutable fields:
  - the buffered `(time, chunk)` entries;
  - the speech-triggered flag;
  - the silence accumulated since the last speech;
  - the speech start time.

  `append_audio` and `analyze_end_of_turn` change these fields in place, so
  the analyzer is the class `SmartTurn.SmartTurnAnalyzer`. Each of its
  methods is proved to follow a pure transition function: `AppendStep`,
  `AnalyzeStep`, `Cleared` or `ProcessSegment`. The module
  `SmartTurnProperties` proves facts about those functions:
  - when the silence timer completes a turn (the first chunk that reaches
    `stop_secs`);
  - what every reset leaves behind;
  - how stale audio is trimmed before speech;
  - which samples the endpoint classifier sees.
- **The XTTS text-to-speech service.** The module `Xtts` covers:
  - `language_to_xtts_language`: a table, then the lower-cased base code of
    a regional variant;
  - the text sanitising;
  - `run_tts`. It posts the request, and on status 200 appends each
    received chunk to a byte buffer. Every full 48000-byte head goes to the
    resampler, and so does the remainder at the end of the stream. The
    frames are wrapped between a started and a stopped frame.

  `RunTts` and `StreamAudio` are imperative, with the nested loop of the
  source. `XttsProperties` proves three things about them: frame order, the
  single error frame on a failed request, and that the byte pieces are
  lossless and well cut.
- **The Sarvam streaming speech-to-text service.** The module `SarvamStt`
  covers:
  - the two language tables, with a Hindi default;
  - the dispatch of socket messages to actions;
  - the choice of the transcribe or translate endpoint by whether the model
    name contains "saarika", in any case;
  - the no-socket guard of `run_stt`.

  `SarvamSttProperties` proves the round trips between the tables and what
  each message kind does.

Supporting modules:
- `Languages` models pipecat's `Language` string enumeration by its value.
- `Strings` models the few Python `str` operations the services use:
  `lower`, `split(sep)[0]`, `strip`, `replace`, `in` and `str(int)`.
- `Wrappers` holds `Option`.

Modelling choices:
- The clock is explicit. `append_audio` reads it when it stamps the chunk
  (`now`) and again afterwards (`later`). The speech start is the second
  reading, and so is the trim cutoff's.
- Audio samples are integers.
- Durations are exact reals.
- The endpoint classifier and the audio resampler are function values
  supplied from outside.
- An HTTP reply is its status, its text and its body as a sequence of
  received byte chunks.

Two behaviours of the code are kept as written:
- `analyze_end_of_turn` can find buffered audio with no speech start time
  recorded. An INCOMPLETE analysis keeps the turn armed but forgets the
  start, and the next silence chunk is then buffered. In that case the code
  subtracts from `None` and raises. The model returns `SpeechStartUnset` there
  and leaves the state unchanged (`AnalysisAfterIncompleteCanRaise`).
- The speech start is read after the triggering chunk was stamped, so that
  chunk is older than the start. With no pre-speech padding, the search for
  the segment's first entry skips it. When nothing newer is buffered, the
  search falls back to the head of the buffer, and the classifier is given
  the buffered pre-speech audio as well
  (`FirstSpeechChunkPullsInPreSpeechAudio`).
- The duration clamp uses Python slicing. A limit of `0` samples
  (`seg[-0:]`) keeps the whole segment, and a negative limit drops samples
  from the front. `ClampSegment` models exactly this.

## Model

| member | source | states |
|---|---|---|
| `SmartTurn.DefaultParams` | src/pipecat/audio/turn/base_smart_turn.py:17-27 | the defaults give a 3000 ms stop threshold, no pre-speech padding and an 11-second retention window before speech |
| `SmartTurn.ChunkMs` | src/pipecat/audio/turn/base_smart_turn.py:67 | a chunk's duration in ms is never negative, and positive for a non-empty chunk |
| `SmartTurn.Cleared` | src/pipecat/audio/turn/base_smart_turn.py:98-105 | a reset empties the buffer, forgets the start time and zeroes the silence; the turn stays armed iff the reset is INCOMPLETE |
| `SmartTurn.AppendStep` | src/pipecat/audio/turn/base_smart_turn.py:50-88 | one `append_audio` call: COMPLETE iff a silence chunk after speech brings the silence to `stop_secs * 1000`, and then the state is reset; otherwise the turn is armed iff it was or the chunk is speech, and the new chunk is the last buffered entry unless the trim dropped everything |
| `SmartTurn.AnalyzeStep` | src/pipecat/audio/turn/base_smart_turn.py:90-96 | one `analyze_end_of_turn` call: it raises iff audio is buffered with no start time, and then changes nothing; every completed analysis resets the state to its outcome |
| `SmartTurn.TrimStaleKeepsFreshSuffix` | src/pipecat/audio/turn/base_smart_turn.py:77-86 | the trim keeps a suffix of the buffer; every dropped entry is older than the cutoff, and the first kept entry is not |
| `SmartTurn.FirstAtOrAfter` | src/pipecat/audio/turn/base_smart_turn.py:114-119 | the search index: every earlier entry is older than the start time, and the entry at the index is not |
| `SmartTurn.SegmentStart` | src/pipecat/audio/turn/base_smart_turn.py:113-119 | the segment starts at the first entry not older than the start time; it starts at the head when there is none |
| `SmartTurn.Concat` | src/pipecat/audio/turn/base_smart_turn.py:124-125 | no entries give no samples |
| `SmartTurnProperties.ConcatOfJoin` | src/pipecat/audio/turn/base_smart_turn.py:124-125 | the samples of two runs of entries are those of the first followed by those of the second |
| `SmartTurn.Trunc` | src/pipecat/audio/turn/base_smart_turn.py:130 | `int(x)` truncates toward zero, for either sign |
| `SmartTurn.ClampSegment` | src/pipecat/audio/turn/base_smart_turn.py:129-133 | a positive limit keeps the last `min(len, m)` samples; a zero limit keeps everything; a negative limit drops the first `-m` samples |
| `SmartTurn.MaxSamples` | src/pipecat/audio/turn/base_smart_turn.py:130 | for a non-negative duration, the sample limit is the whole number of samples in `max_duration_secs` at the sample rate, rounded down |
| `SmartTurn.SpeechSegment` | src/pipecat/audio/turn/base_smart_turn.py:113-133 | the classified audio is a tail of the samples buffered from the start entry on |
| `SmartTurn.ProcessSegment` | src/pipecat/audio/turn/base_smart_turn.py:107-153 | an empty buffer is INCOMPLETE and the classifier is not run; the classifier only ever sees a non-empty segment |
| `SmartTurn.SmartTurnAnalyzer.constructor` | src/pipecat/audio/turn/base_smart_turn.py:33-44 | a new analyzer has an empty buffer, is not triggered, has zero silence and no start time |
| `SmartTurn.SmartTurnAnalyzer.AppendAudio` | src/pipecat/audio/turn/base_smart_turn.py:50-88 | the new fields and the returned state are those of `AppendStep` on the old fields and both clock readings, including the trim loop's result |
| `SmartTurn.SmartTurnAnalyzer.TrimBuffer` | src/pipecat/audio/turn/base_smart_turn.py:83-86 | the pop loop leaves exactly the fresh suffix `TrimStale` keeps: every popped head entry was older than the cutoff |
| `SmartTurn.SmartTurnAnalyzer.AnalyzeEndOfTurn` | src/pipecat/audio/turn/base_smart_turn.py:90-96 | the new fields and the outcome are those of `AnalyzeStep`: the analyzer always clears after an analysis |
| `SmartTurn.SmartTurnAnalyzer.Clear` | src/pipecat/audio/turn/base_smart_turn.py:98-105 | the fields become `Cleared(turnState)` |
| `SmartTurn.SmartTurnAnalyzer.ProcessSpeechSegment` | src/pipecat/audio/turn/base_smart_turn.py:107-153 | the search loop, the clamp and the classifier call give exactly `ProcessSegment` on the buffer |
| `SmartTurn.SmartTurnAnalyzer.FindSegmentStart` | src/pipecat/audio/turn/base_smart_turn.py:113-119 | the search loop stops at the first entry not older than the start time, and falls back to index 0 when there is none |
| `SmartTurnProperties.SpeechChunkEffects` | src/pipecat/audio/turn/base_smart_turn.py:54-63 | a speech chunk is appended, nothing is removed, the silence is zeroed, the turn is armed, only the first speech sets the start time (to the second clock reading), and the result is INCOMPLETE |
| `SmartTurnProperties.SilenceAfterSpeech` | src/pipecat/audio/turn/base_smart_turn.py:65-75 | after speech, a silence chunk completes iff the accumulated silence reaches `stop_secs * 1000`; otherwise it is appended and its duration added |
| `SmartTurnProperties.SilenceBeforeSpeech` | src/pipecat/audio/turn/base_smart_turn.py:76-86 | before speech, a silence chunk is INCOMPLETE and accumulates nothing; it leaves an in-order suffix of the appended buffer, dropping only entries older than `later - retention`, where `later` is the second clock reading |
| `SmartTurnProperties.CompleteResets` | src/pipecat/audio/turn/base_smart_turn.py:70-105 | after COMPLETE, from the timer or from the classifier, the buffer is empty, the turn is disarmed, the start time is unset and the silence is zero |
| `SmartTurnProperties.IncompleteAnalysisKeepsTrigger` | src/pipecat/audio/turn/base_smart_turn.py:90-105 | an INCOMPLETE analysis resets everything but keeps the turn armed; the raising path changes nothing |
| `SmartTurnProperties.FreshIsConsistent` | src/pipecat/audio/turn/base_smart_turn.py:39-44 | a new analyzer satisfies the invariant: silence is non-negative, and an unarmed analyzer has no start time and no silence |
| `SmartTurnProperties.AppendKeepsConsistent` | src/pipecat/audio/turn/base_smart_turn.py:50-88 | `append_audio` preserves that invariant |
| `SmartTurnProperties.AnalyzeKeepsConsistent` | src/pipecat/audio/turn/base_smart_turn.py:90-105 | `analyze_end_of_turn` preserves that invariant |
| `SmartTurnProperties.AppendKeepsTimesSorted` | src/pipecat/audio/turn/base_smart_turn.py:50-88 | with a clock that does not run backwards, buffered timestamps stay sorted and not in the future |
| `SmartTurnProperties.RetentionWindow` | src/pipecat/audio/turn/base_smart_turn.py:77-86 | before speech, after a silence chunk every buffered entry arrived no later than the stamp `now` and within `pre_speech_ms/1000 + stop_secs + max_duration_secs` of the second reading `later` |
| `SmartTurnProperties.IdleSilenceNeverCompletes` | src/pipecat/audio/turn/base_smart_turn.py:76-86 | any run of silence chunks before speech returns INCOMPLETE every time |
| `SmartTurnProperties.CompletesAtFirstCrossing` | src/pipecat/audio/turn/base_smart_turn.py:66-75 | in a run of silence chunks after speech, chunk k returns COMPLETE iff the silence reaches the threshold at k and had not reached it before k |
| `SmartTurnProperties.ThirtiethSilenceChunkCompletes` | src/pipecat/audio/turn/base_smart_turn.py:66-75 | with the defaults at 16 kHz, 100 ms silence chunks after speech complete on the 30th chunk and on no other |
| `SmartTurnProperties.EmptyBufferSkipsClassifier` | src/pipecat/audio/turn/base_smart_turn.py:110-111 | an empty buffer gives INCOMPLETE and the classifier is not run |
| `SmartTurnProperties.ClassifierDecides` | src/pipecat/audio/turn/base_smart_turn.py:137-142 | with a start time set, a non-empty segment goes to the classifier and prediction 1, and only 1, gives COMPLETE; an empty segment is INCOMPLETE and not classified |
| `SmartTurnProperties.SegmentIsRecentTail` | src/pipecat/audio/turn/base_smart_turn.py:113-133 | a positive sample limit keeps exactly `min(len, max_samples)` samples of the audio from the start entry on |
| `SmartTurnProperties.MaxDurationClamp` | src/pipecat/audio/turn/base_smart_turn.py:129-133 | with the defaults at 16 kHz, a 10-second segment is cut to its last 128000 samples |
| `SmartTurnProperties.AnalysisAfterIncompleteCanRaise` | src/pipecat/audio/turn/base_smart_turn.py:90-114 | speech, then an INCOMPLETE analysis, then silence leaves audio with no start time; the next analysis reaches the raising path |
| `SmartTurnProperties.FirstSpeechChunkPullsInPreSpeechAudio` | src/pipecat/audio/turn/base_smart_turn.py:54-63 | with the defaults, silence then a first speech chunk leave both entries buffered with the second clock reading as start; the next analysis classifies silence and speech together when the readings differ, and the speech alone when they coincide |
| `Strings.Lower` | src/pipecat/services/xtts/tts.py:74 | `lower()` keeps the length, maps each letter A-Z to a-z and leaves every other character as it is |
| `Strings.BeforeFirst` | src/pipecat/services/xtts/tts.py:74 | `split(sep)[0]` is the longest prefix without `sep`; the character after it, if any, is `sep` |
| `Strings.IsSpaceOnAscii` | src/pipecat/services/sarvam/stt.py:364 | the characters `str.isspace()` accepts are, among ASCII, exactly tab, line feed, vertical tab, form feed, carriage return, 0x1C-0x1F and space, and never an upper-case letter |
| `Strings.Strip` | src/pipecat/services/sarvam/stt.py:364 | `strip()` is the text with a whitespace prefix and a whitespace suffix cut off; it is empty iff the text is all whitespace, and otherwise starts and ends with non-whitespace |
| `Strings.Remove` | src/pipecat/services/xtts/tts.py:191 | `replace(x, "")` leaves no `x` and keeps every other character with its multiplicity |
| `Strings.Contains` | src/pipecat/services/sarvam/stt.py:226 | `sub in s`: the empty string is in every string, and a contained string is no longer than the text |
| `Strings.ContainsInfix` | src/pipecat/services/sarvam/stt.py:226 | a string is in any text that has it as a piece |
| `Strings.DecimalString` | src/pipecat/services/sarvam/stt.py:258 | `str(n)` is a non-empty string of decimal digits |
| `Strings.DecimalRoundTrip` | src/pipecat/services/sarvam/stt.py:258 | reading the digits of `str(n)` back gives `n` |
| `Xtts.BaseCode` | src/pipecat/services/xtts/tts.py:73-74 | the base code has no "-" and no upper case |
| `Xtts.LanguageToXtts` | src/pipecat/services/xtts/tts.py:39-83 | a table language maps to its table code; every result is None or a table value |
| `Xtts.TableValues` | src/pipecat/services/xtts/tts.py:48-66 | the table's codes are the 15 base codes and "zh-cn" |
| `Xtts.TableKey` | src/pipecat/services/xtts/tts.py:48-66 | every table language maps to its own value, except Chinese, which maps to "zh-cn" |
| `Xtts.LanguageToXttsByBaseCode` | src/pipecat/services/xtts/tts.py:68-81 | for every language, the result is "zh-cn" for base code "zh", the base code if it is supported, and None otherwise |
| `Xtts.RegionalVariant` | src/pipecat/services/xtts/tts.py:71-81 | `code-REGION` maps to its base code ("zh-cn" for any Chinese variant) |
| `Xtts.LanguageToXttsFixpoint` | src/pipecat/services/xtts/tts.py:48-83 | a result, read back as a language, maps to itself |
| `Xtts.SanitizeText` | src/pipecat/services/xtts/tts.py:191 | the sent text has no '.' and no '*', and keeps every other character with its multiplicity |
| `Xtts.SanitizeTextOfJoin` | src/pipecat/services/xtts/tts.py:191 | sanitising works piece by piece, so the kept characters stay in order |
| `Xtts.SanitizeTextIdentity` | src/pipecat/services/xtts/tts.py:191 | a text without '.' and '*' is sent unchanged |
| `Xtts.SanitizeTextIdempotent` | src/pipecat/services/xtts/tts.py:191 | sanitising twice is sanitising once |
| `Xtts.NewXttsService` | src/pipecat/services/xtts/tts.py:114-124 | a new service has no studio speakers, and its language follows the base-code rule |
| `Xtts.Rechunk` | src/pipecat/services/xtts/tts.py:214-244 | the pieces concatenate to the stream; each piece is non-empty and at most 48000 bytes, and all but the last are exactly 48000 |
| `Xtts.RechunkUnique` | src/pipecat/services/xtts/tts.py:214-244 | any such split of a stream is the rechunked one |
| `Xtts.RechunkCount` | src/pipecat/services/xtts/tts.py:222-244 | there is one piece for every started 48000 bytes |
| `Xtts.AudioFrames` | src/pipecat/services/xtts/tts.py:230-244 | one mono audio frame per piece |
| `Xtts.TtsRequestFor` | src/pipecat/services/xtts/tts.py:186-197 | the request goes to `base_url + "/tts_stream"` with the sanitised text |
| `Xtts.StreamAudio` | src/pipecat/services/xtts/tts.py:212-244 | the buffer loop hands the resampler exactly the rechunked stream, and yields one audio frame per piece |
| `Xtts.EmitFullPieces` | src/pipecat/services/xtts/tts.py:221-234 | the inner loop leaves fewer than 48000 bytes buffered, emits only full pieces, loses and reorders no byte, and yields one audio frame per emitted piece |
| `Xtts.RunTtsSpec` | src/pipecat/services/xtts/tts.py:182-246 | nothing is posted iff there are no studio speakers; the voice is unknown iff there are speakers but none under the voice id; a posted request yields one frame per piece plus started and stopped on status 200, and only the error frame otherwise; there are no pieces iff the status failed or no byte arrived |
| `Xtts.RunTts` | src/pipecat/services/xtts/tts.py:171-246 | `run_tts` does what `RunTtsSpec` states: nothing without speakers, an error on an unknown voice, one error frame on a failed status, and otherwise started, audio and stopped frames |
| `XttsProperties.NoSpeakersYieldsNothing` | src/pipecat/services/xtts/tts.py:182-184 | with no studio speakers (None or empty), nothing is posted or yielded |
| `XttsProperties.FreshServiceYieldsNothing` | src/pipecat/services/xtts/tts.py:121 | before `start` has loaded speakers, a service synthesises nothing |
| `XttsProperties.PostedRequest` | src/pipecat/services/xtts/tts.py:186-197 | the request carries the sanitised text, the configured language, the speaker's conditioning, no WAV header and stream chunk size 20 |
| `XttsProperties.ErrorStatusYieldsOneError` | src/pipecat/services/xtts/tts.py:201-206 | a non-200 status yields exactly one error frame, carrying the status and the text, and nothing is resampled |
| `XttsProperties.SuccessfulRunFrames` | src/pipecat/services/xtts/tts.py:208-246 | on status 200, started comes first and stopped last, there is one audio frame per piece in order between them, and there is no error frame |
| `XttsProperties.SuccessfulRunPieces` | src/pipecat/services/xtts/tts.py:214-244 | on status 200, the resampled pieces concatenate to the received bytes, are well cut, and number `ceil(bytes / 48000)` |
| `XttsProperties.EmptyChunksIgnored` | src/pipecat/services/xtts/tts.py:216 | an empty received chunk changes nothing |
| `SarvamStt.LanguageToSarvam` | src/pipecat/services/sarvam/stt.py:83-109 | the result is always a code the reverse table knows; an unlisted language gives "hi-IN" |
| `SarvamStt.MapLanguageCodeToEnum` | src/pipecat/services/sarvam/stt.py:381-399 | the result is always a language the forward table knows; an unlisted code gives HI_IN |
| `SarvamStt.NewSarvamService` | src/pipecat/services/sarvam/stt.py:118-148 | the stored language string is a Sarvam code that maps back to the language (or to Hindi) |
| `SarvamStt.UsesSaarika` | src/pipecat/services/sarvam/stt.py:226 | the routing test: a name already holding "saarika" passes, and a passing name has at least seven characters |
| `SarvamStt.Connect` | src/pipecat/services/sarvam/stt.py:244-272 | a "saarika" model, in any case, opens the transcribe endpoint with the language code, and any other model opens translate with none; both use VAD signals, high sensitivity, the "wav" codec and the sample rate in decimal |
| `SarvamStt.RunStt` | src/pipecat/services/sarvam/stt.py:208-242 | no socket means no send; otherwise the audio goes as "audio/wav" at the service rate to the endpoint the model selects; one None is always yielded |
| `SarvamStt.HandleResponse` | src/pipecat/services/sarvam/stt.py:333-379 | a transcript is pushed iff the message is data with a non-blank transcript; the utterance ends iff the message is data; an event acts iff it is START_SPEECH; other types do nothing |
| `SarvamSttProperties.TablesInverse` | src/pipecat/services/sarvam/stt.py:384-398 | the reverse table inverts the forward table at lines 93-107, in both directions |
| `SarvamSttProperties.LanguageCodeLanguage` | src/pipecat/services/sarvam/stt.py:93-109 | language, then code, then language is the identity on the 13 listed languages and HI_IN for any other |
| `SarvamSttProperties.CodeLanguageCode` | src/pipecat/services/sarvam/stt.py:384-399 | code, then language, then code is the identity on the 13 listed codes and "hi-IN" for any other |
| `SarvamSttProperties.OdiaIsTheOnlyRenamedCode` | src/pipecat/services/sarvam/stt.py:93-107 | every listed language is sent under its own tag, except Odia |
| `SarvamSttProperties.OdiaRoundTrip` | src/pipecat/services/sarvam/stt.py:103 | OR_IN is sent as "od-IN" and read back as OR_IN; its own tag "or-IN" would read back as Hindi |
| `SarvamSttProperties.UnlistedLanguageBecomesHindi` | src/pipecat/services/sarvam/stt.py:109 | an unlisted language is sent as "hi-IN" and heard back as HI_IN |
| `SarvamSttProperties.RunSttUsesConnectedEndpoint` | src/pipecat/services/sarvam/stt.py:226-235 | `run_stt` sends to the endpoint `_connect` opened |
| `SarvamSttProperties.RoutingIgnoresCase` | src/pipecat/services/sarvam/stt.py:250-260 | "saarika" in any capitalisation, anywhere in the model name, opens the transcribe endpoint with the language |
| `SarvamSttProperties.UpperCaseModelTranscribes` | src/pipecat/services/sarvam/stt.py:250-260 | the model name "SAARIKA:v2.5" opens the transcribe endpoint |
| `SarvamSttProperties.DefaultModelTranscribes` | src/pipecat/services/sarvam/stt.py:122 | the default "saarika:v2.5" opens the transcribe endpoint with the configured language |
| `SarvamSttProperties.ConnectLanguageIsKnown` | src/pipecat/services/sarvam/stt.py:250-260 | a new service with a "saarika" model connects with a known code that maps back to its language, or to Hindi |
| `SarvamSttProperties.OtherModelTranslates` | src/pipecat/services/sarvam/stt.py:261-272 | a model name without "saarika" opens translate with no language |
| `SarvamSttProperties.NoSocketSendsNothing` | src/pipecat/services/sarvam/stt.py:217-220 | without a socket, nothing is sent and a single None is yielded |
| `SarvamSttProperties.DataMessageActions` | src/pipecat/services/sarvam/stt.py:353-375 | for data: stop TTFB, end the utterance, push the unstripped transcript unless it is blank (in the reported language, Hindi when none is reported), then stop processing metrics |
| `SarvamSttProperties.MissingLanguageIsHindi` | src/pipecat/services/sarvam/stt.py:357-359 | a transcript with no reported language is labelled HI_IN |
| `SarvamSttProperties.EventActions` | src/pipecat/services/sarvam/stt.py:342-351 | START_SPEECH starts metrics and fires `on_speech_started`; END_SPEECH does nothing |

## Left out

- Audio conversion: `append_audio` turns the bytes into int16 samples and then into float32 divided by 32768. The model keeps integer samples, so float rounding is not modelled.
- The clock in the trim loop: `append_audio` reads `time.time()` again every time it tests the head of the buffer. The model tests every entry against the one reading `later`. When the clock advances while the loop runs, the source can also drop entries that went stale in the meantime, and the model keeps those.
- The endpoint classifier `_predict_endpoint` is abstract in the source. It is the function value `predictEndpoint`, and its timing and logging are left out.
- `EndOfTurnState` and `BaseTurnAnalyzer` live in a file that is not part of this model. `EndOfTurnState` is the two-value `SmartTurn.EndOfTurnState`, and `sample_rate` is a positive constant of the analyzer.
- The `Language` enumeration's file is not part of this model. A language is its value string, and only the members the two services name are declared.
- The stream resampler keeps filter state across calls. It is modelled as a pure function of one piece and the two rates.
- `Xtts.RunTts`: a voice id missing from the studio speakers raises `KeyError`. This is modelled as the `UnknownVoice` outcome, not as an exception.
- `XTTSService.start` (fetching studio speakers over HTTP), the aiohttp session, `iter_chunked` and TTFB/usage metrics are network or metrics calls. The studio speakers are a field of the service, and the reply is an input.
- Sarvam network I/O is left out: `_connect`'s socket setup, its event handlers and listening task, `_disconnect`, `set_model`, `start`, `stop` and `cancel`. `Connect` models only the arguments `_connect` passes, and `RunStt` takes whether a socket is connected as an argument.
- `run_stt` base64-encodes the audio with a library call. The model sends the raw bytes.
- Exceptions raised by the Sarvam SDK while sending, connecting or handling a message, and the error frames pushed for them, are not modelled.
- `TranscriptionFrame`'s timestamp (`time_now_iso8601`) and its `result` payload are left out.
- Logging and tracing decorators are left out, and so are metrics other than the ordered metric actions of `_handle_response`.
- `Strings.Lower`: lower-cases ASCII letters only. Python's `str.lower` also maps other Unicode letters, and some of them to ASCII: KELVIN SIGN (U+212A) becomes `k`. The model assumes model names and language tags are ASCII, and under that assumption the routing test agrees with the source.
