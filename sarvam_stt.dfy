/**
 * The Sarvam AI streaming speech-to-text service: its two language tables,
 * the dispatch of the messages the socket delivers, and the choice between
 * the transcribe and the translate endpoint by model name.
 */
module SarvamStt {
  import opened Wrappers
  import opened Strings
  import opened Languages

  // ---------------------------------------------------------------------
  // Language tables
  // ---------------------------------------------------------------------

  /** The language codes Sarvam accepts; Odia is "od-IN" there. */
  const SarvamLanguages: map<Language, string> := map[
    BN_IN := "bn-IN", GU_IN := "gu-IN", HI_IN := "hi-IN", KN_IN := "kn-IN",
    ML_IN := "ml-IN", MR_IN := "mr-IN", TA_IN := "ta-IN", TE_IN := "te-IN",
    PA_IN := "pa-IN", OR_IN := "od-IN", EN_US := "en-US", EN_IN := "en-IN",
    AS_IN := "as-IN"]

  /** The languages Sarvam reports, by code. */
  const SarvamCodeLanguages: map<string, Language> := map[
    "bn-IN" := BN_IN, "gu-IN" := GU_IN, "hi-IN" := HI_IN, "kn-IN" := KN_IN,
    "ml-IN" := ML_IN, "mr-IN" := MR_IN, "ta-IN" := TA_IN, "te-IN" := TE_IN,
    "pa-IN" := PA_IN, "od-IN" := OR_IN, "en-US" := EN_US, "en-IN" := EN_IN,
    "as-IN" := AS_IN]

  /** The code used for any language or report the tables do not know: Hindi. */
  const DEFAULT_CODE := "hi-IN"

  /** `language_to_sarvam_language`: the table code, Hindi for any other language. */
  function LanguageToSarvam(language: Language): (code: string)
    ensures code in SarvamCodeLanguages
    ensures language !in SarvamLanguages ==> code == DEFAULT_CODE
  {
    if language in SarvamLanguages then SarvamLanguages[language] else DEFAULT_CODE
  }

  /** `_map_language_code_to_enum`: the table language, Hindi for any other code. */
  function MapLanguageCodeToEnum(code: string): (language: Language)
    ensures language in SarvamLanguages
    ensures code !in SarvamCodeLanguages ==> language == HI_IN
  {
    if code in SarvamCodeLanguages then SarvamCodeLanguages[code] else HI_IN
  }

  // ---------------------------------------------------------------------
  // The service
  // ---------------------------------------------------------------------

  /** The settings the service keeps; the socket itself is outside the model. */
  datatype SarvamService = SarvamService(
    model: string,
    languageCode: Language,
    languageString: string,
    sampleRate: nat,
    userId: string)

  /** The model used unless another is named. */
  const DEFAULT_MODEL := "saarika:v2.5"

  /** A service as constructed: its language already turned into a Sarvam code. */
  function NewSarvamService(model: string, language: Language, sampleRate: nat, userId: string)
    : (service: SarvamService)
    ensures service.languageString in SarvamCodeLanguages
    ensures MapLanguageCodeToEnum(service.languageString)
         == if language in SarvamLanguages then language else HI_IN
  {
    SarvamService(model, language, LanguageToSarvam(language), sampleRate, userId)
  }

  // ---------------------------------------------------------------------
  // Model routing: `_connect` and `run_stt`
  // ---------------------------------------------------------------------

  /**
   * A "saarika" model transcribes; any other model translates. The test is
   * on the lower-cased name, so a name already holding "saarika" matches.
   */
  predicate UsesSaarika(model: string)
    ensures Contains(model, "saarika") ==> UsesSaarika(model)
    ensures UsesSaarika(model) ==> |model| >= 7
  {
    ContainsOfLower(model, "saarika");
    Contains(Lower(model), "saarika")
  }

  datatype Endpoint = SpeechToTextStreaming | SpeechToTextTranslateStreaming

  /** The arguments `_connect` opens the socket with. */
  datatype ConnectRequest = ConnectRequest(
    endpoint: Endpoint,
    languageCode: Option<string>,
    model: string,
    vadSignals: bool,
    highVadSensitivity: bool,
    sampleRate: string,
    inputAudioCodec: string)

  /** `_connect`: the endpoint by model; only the transcribe endpoint is given the language. */
  function Connect(service: SarvamService): (request: ConnectRequest)
    ensures request.endpoint == SpeechToTextStreaming <==> UsesSaarika(service.model)
    ensures request.languageCode.Some? <==> UsesSaarika(service.model)
    ensures request.languageCode.Some? ==> request.languageCode.value == service.languageString
    ensures request.model == service.model
    ensures request.vadSignals && request.highVadSensitivity && request.inputAudioCodec == "wav"
    ensures DecimalValue(request.sampleRate) == service.sampleRate
  {
    DecimalRoundTrip(service.sampleRate);
    if UsesSaarika(service.model) then
      ConnectRequest(SpeechToTextStreaming, Some(service.languageString), service.model,
                     true, true, DecimalString(service.sampleRate), "wav")
    else
      ConnectRequest(SpeechToTextTranslateStreaming, None, service.model,
                     true, true, DecimalString(service.sampleRate), "wav")
  }

  /** One audio send on the socket: `transcribe` or `translate`. */
  datatype AudioSend = AudioSend(endpoint: Endpoint, audio: seq<bv8>, encoding: string, sampleRate: nat)

  /** The transcript frame pushed downstream. */
  datatype TranscriptionFrame = TranscriptionFrame(text: string, userId: string, language: Language)

  /** What one `run_stt` call does: at most one send, and the values it yields. */
  datatype SttRun = SttRun(send: Option<AudioSend>, yielded: seq<Option<TranscriptionFrame>>)

  /**
   * `run_stt`: without a socket nothing is sent; otherwise the audio goes to
   * the endpoint the model selects. Either way the call yields one `None`.
   */
  function RunStt(service: SarvamService, connected: bool, audio: seq<bv8>): (run: SttRun)
    ensures run.yielded == [None]
    ensures !connected <==> run.send == None
    ensures run.send.Some? ==>
      && run.send.value.audio == audio
      && run.send.value.encoding == "audio/wav"
      && run.send.value.sampleRate == service.sampleRate
      && (run.send.value.endpoint == SpeechToTextStreaming <==> UsesSaarika(service.model))
  {
    if !connected then SttRun(None, [None])
    else if UsesSaarika(service.model) then
      SttRun(Some(AudioSend(SpeechToTextStreaming, audio, "audio/wav", service.sampleRate)), [None])
    else
      SttRun(Some(AudioSend(SpeechToTextTranslateStreaming, audio, "audio/wav", service.sampleRate)), [None])
  }

  // ---------------------------------------------------------------------
  // `_handle_response`
  // ---------------------------------------------------------------------

  datatype VadSignal = StartSpeech | EndSpeech

  /** A message from the socket, by its `type` field. */
  datatype SarvamMessage =
    | Events(signal: VadSignal, occurredAt: real)
    | Data(requestId: string, transcript: string, languageCode: Option<string>)
    | OtherMessage(kind: string)

  /** What handling a message does, in order. */
  datatype SttAction =
    | StartMetrics
    | OnSpeechStarted
    | StopTtfbMetrics
    | OnUtteranceEnd
    | PushTranscription(frame: TranscriptionFrame)
    | StopProcessingMetrics

  /** Whether handling pushes a transcript frame. */
  predicate Pushes(actions: seq<SttAction>) {
    exists i :: 0 <= i < |actions| && actions[i].PushTranscription?
  }

  /**
   * `_handle_response`: a START_SPEECH event starts metrics and fires
   * `on_speech_started`; a data message fires `on_utterance_end` and pushes
   * its transcript, in the reported language (Hindi when none), unless it is blank.
   */
  function HandleResponse(userId: string, message: SarvamMessage): (actions: seq<SttAction>)
    ensures Pushes(actions) <==> message.Data? && !IsBlank(message.transcript)
    ensures message.Data? <==> OnUtteranceEnd in actions
    ensures message.Events? ==> (actions != [] <==> message.signal == StartSpeech)
    ensures message.OtherMessage? ==> actions == []
  {
    match message
    case Events(signal, _) =>
      if signal == StartSpeech then [StartMetrics, OnSpeechStarted] else []
    case Data(_, transcript, languageCode) =>
      var code := if languageCode == None then DEFAULT_CODE else languageCode.value;
      var language := MapLanguageCodeToEnum(code);
      var push :=
        if transcript != [] && Strip(transcript) != [] then
          [PushTranscription(TranscriptionFrame(transcript, userId, language))]
        else [];
      var actions := [StopTtfbMetrics, OnUtteranceEnd] + push + [StopProcessingMetrics];
      assert actions[1] == OnUtteranceEnd;
      assert push != [] ==> actions[2].PushTranscription?;
      actions
    case OtherMessage(_) => []
  }
}

/** The properties of the Sarvam tables, dispatch and routing. */
module SarvamSttProperties {
  import opened Wrappers
  import opened Strings
  import opened Languages
  import opened SarvamStt

  /** The two tables are inverse to each other. */
  lemma TablesInverse()
    ensures forall l :: l in SarvamLanguages ==>
      SarvamLanguages[l] in SarvamCodeLanguages && SarvamCodeLanguages[SarvamLanguages[l]] == l
    ensures forall c :: c in SarvamCodeLanguages ==>
      SarvamCodeLanguages[c] in SarvamLanguages && SarvamLanguages[SarvamCodeLanguages[c]] == c
  {
    LanguageTableInverse();
    CodeTableInverse();
  }

  lemma LanguageTableInverse()
    ensures forall l :: l in SarvamLanguages ==>
      SarvamLanguages[l] in SarvamCodeLanguages && SarvamCodeLanguages[SarvamLanguages[l]] == l
  {
    forall l | l in SarvamLanguages
      ensures SarvamLanguages[l] in SarvamCodeLanguages && SarvamCodeLanguages[SarvamLanguages[l]] == l
    {
      if l == BN_IN || l == GU_IN || l == HI_IN || l == KN_IN {
        LanguagesInverseFirst(l);
      } else if l == ML_IN || l == MR_IN || l == TA_IN {
        LanguagesInverseSecond(l);
      } else if l == TE_IN || l == PA_IN || l == OR_IN {
        LanguagesInverseThird(l);
      } else {
        LanguagesInverseFourth(l);
      }
    }
  }

  lemma CodeTableInverse()
    ensures forall c :: c in SarvamCodeLanguages ==>
      SarvamCodeLanguages[c] in SarvamLanguages && SarvamLanguages[SarvamCodeLanguages[c]] == c
  {
    forall c | c in SarvamCodeLanguages
      ensures SarvamCodeLanguages[c] in SarvamLanguages && SarvamLanguages[SarvamCodeLanguages[c]] == c
    {
      if c == "bn-IN" || c == "gu-IN" || c == "hi-IN" || c == "kn-IN" {
        CodesInverseFirst(c);
      } else if c == "ml-IN" || c == "mr-IN" || c == "ta-IN" {
        CodesInverseSecond(c);
      } else if c == "te-IN" || c == "pa-IN" || c == "od-IN" {
        CodesInverseThird(c);
      } else {
        CodesInverseFourth(c);
      }
    }
  }

  // The table entries, a few at a time.

  lemma LanguagesInverseFirst(l: Language)
    requires l == BN_IN || l == GU_IN || l == HI_IN || l == KN_IN
    ensures SarvamLanguages[l] in SarvamCodeLanguages && SarvamCodeLanguages[SarvamLanguages[l]] == l
  {
  }

  lemma LanguagesInverseSecond(l: Language)
    requires l == ML_IN || l == MR_IN || l == TA_IN
    ensures SarvamLanguages[l] in SarvamCodeLanguages && SarvamCodeLanguages[SarvamLanguages[l]] == l
  {
  }

  lemma LanguagesInverseThird(l: Language)
    requires l == TE_IN || l == PA_IN || l == OR_IN
    ensures SarvamLanguages[l] in SarvamCodeLanguages && SarvamCodeLanguages[SarvamLanguages[l]] == l
  {
  }

  lemma LanguagesInverseFourth(l: Language)
    requires l == EN_US || l == EN_IN || l == AS_IN
    ensures SarvamLanguages[l] in SarvamCodeLanguages && SarvamCodeLanguages[SarvamLanguages[l]] == l
  {
  }

  lemma CodesInverseFirst(c: string)
    requires c == "bn-IN" || c == "gu-IN" || c == "hi-IN" || c == "kn-IN"
    ensures SarvamCodeLanguages[c] in SarvamLanguages && SarvamLanguages[SarvamCodeLanguages[c]] == c
  {
  }

  lemma CodesInverseSecond(c: string)
    requires c == "ml-IN" || c == "mr-IN" || c == "ta-IN"
    ensures SarvamCodeLanguages[c] in SarvamLanguages && SarvamLanguages[SarvamCodeLanguages[c]] == c
  {
  }

  lemma CodesInverseThird(c: string)
    requires c == "te-IN" || c == "pa-IN" || c == "od-IN"
    ensures SarvamCodeLanguages[c] in SarvamLanguages && SarvamLanguages[SarvamCodeLanguages[c]] == c
  {
  }

  lemma CodesInverseFourth(c: string)
    requires c == "en-US" || c == "en-IN" || c == "as-IN"
    ensures SarvamCodeLanguages[c] in SarvamLanguages && SarvamLanguages[SarvamCodeLanguages[c]] == c
  {
  }

  /** Language, code, language: the identity on the 13 table languages, Hindi on any other. */
  lemma LanguageCodeLanguage(language: Language)
    ensures MapLanguageCodeToEnum(LanguageToSarvam(language))
         == if language in SarvamLanguages then language else HI_IN
  {
    TablesInverse();
  }

  /** Code, language, code: the identity on the 13 table codes, Hindi's code on any other. */
  lemma CodeLanguageCode(code: string)
    ensures LanguageToSarvam(MapLanguageCodeToEnum(code))
         == if code in SarvamCodeLanguages then code else DEFAULT_CODE
  {
    TablesInverse();
  }

  /**
   * Every table language is sent under its own tag except Odia, whose tag
   * "or-IN" is sent as "od-IN" and read back as Odia.
   */
  lemma OdiaIsTheOnlyRenamedCode(language: Language)
    requires language in SarvamLanguages
    ensures LanguageToSarvam(language) == language.value <==> language != OR_IN
  {
  }

  lemma OdiaRoundTrip()
    ensures LanguageToSarvam(OR_IN) == "od-IN"
    ensures MapLanguageCodeToEnum("od-IN") == OR_IN
    ensures MapLanguageCodeToEnum(OR_IN.value) == HI_IN
  {
  }

  /** A language outside the table is heard back as Hindi. */
  lemma UnlistedLanguageBecomesHindi(language: Language)
    requires language !in SarvamLanguages
    ensures LanguageToSarvam(language) == "hi-IN"
    ensures MapLanguageCodeToEnum(LanguageToSarvam(language)) == HI_IN
  {
  }

  /** `run_stt` sends to the endpoint `_connect` opened: both route on the same test. */
  lemma RunSttUsesConnectedEndpoint(service: SarvamService, audio: seq<bv8>)
    ensures RunStt(service, true, audio).send.value.endpoint == Connect(service).endpoint
  {
  }

  /**
   * The routing ignores case: "saarika" in any capitalisation, anywhere in
   * the model name, selects the transcribe endpoint with the language.
   */
  lemma {:induction false} RoutingIgnoresCase(service: SarvamService, prefix: string, name: string, suffix: string)
    requires Lower(name) == "saarika"
    requires service.model == prefix + name + suffix
    ensures UsesSaarika(service.model)
    ensures Connect(service).endpoint == SpeechToTextStreaming
    ensures Connect(service).languageCode == Some(service.languageString)
  {
    var lowered := Lower(service.model);
    assert lowered[|prefix|..|prefix| + 7] == Lower(name) by {
      forall k | 0 <= k < 7
        ensures lowered[|prefix| + k] == Lower(name)[k]
      {
        assert service.model[|prefix| + k] == name[k];
      }
    }
    assert OccursAt(lowered, "saarika", |prefix|);
  }

  /** An upper-case model name still transcribes. */
  lemma UpperCaseModelTranscribes(service: SarvamService)
    requires service.model == "SAARIKA:v2.5"
    ensures Connect(service).endpoint == SpeechToTextStreaming
  {
    assert Lower("SAARIKA") == "saarika";
    assert service.model == [] + "SAARIKA" + ":v2.5";
    RoutingIgnoresCase(service, [], "SAARIKA", ":v2.5");
  }

  /** The default model transcribes, in the configured language. */
  lemma DefaultModelTranscribes(service: SarvamService)
    requires service.model == DEFAULT_MODEL
    ensures Connect(service).endpoint == SpeechToTextStreaming
    ensures Connect(service).languageCode == Some(service.languageString)
  {
    assert Lower(DEFAULT_MODEL)[0..7] == "saarika";
    assert OccursAt(Lower(DEFAULT_MODEL), "saarika", 0);
  }

  /** A constructed service with a "saarika" model connects with a code Sarvam knows. */
  lemma ConnectLanguageIsKnown(model: string, language: Language, sampleRate: nat, userId: string)
    requires UsesSaarika(model)
    ensures var request := Connect(NewSarvamService(model, language, sampleRate, userId));
      && request.languageCode.Some?
      && request.languageCode.value in SarvamCodeLanguages
      && MapLanguageCodeToEnum(request.languageCode.value)
         == if language in SarvamLanguages then language else HI_IN
  {
  }

  /** A model name that lacks "saarika" in any case translates, with no language. */
  lemma OtherModelTranslates(service: SarvamService)
    requires !UsesSaarika(service.model)
    ensures Connect(service).endpoint == SpeechToTextTranslateStreaming
    ensures Connect(service).languageCode == None
  {
  }

  /** Without a socket, `run_stt` sends nothing and yields one `None`. */
  lemma NoSocketSendsNothing(service: SarvamService, audio: seq<bv8>)
    ensures RunStt(service, false, audio) == SttRun(None, [None])
  {
  }

  /**
   * A data message: metrics stop, the utterance ends, and a non-blank
   * transcript is pushed as received (not stripped), in the reported
   * language or Hindi when none is reported; processing metrics stop last.
   */
  lemma DataMessageActions(userId: string, requestId: string, transcript: string, code: Option<string>)
    ensures var actions := HandleResponse(userId, Data(requestId, transcript, code));
      var language := MapLanguageCodeToEnum(if code == None then "hi-IN" else code.value);
      actions == [StopTtfbMetrics, OnUtteranceEnd]
                 + (if IsBlank(transcript) then []
                    else [PushTranscription(TranscriptionFrame(transcript, userId, language))])
                 + [StopProcessingMetrics]
  {
    if transcript == [] {
      assert IsBlank(transcript);
    }
  }

  /** A transcript with no reported language is labelled Hindi. */
  lemma MissingLanguageIsHindi(userId: string, requestId: string, transcript: string)
    requires !IsBlank(transcript)
    ensures HandleResponse(userId, Data(requestId, transcript, None))[2]
         == PushTranscription(TranscriptionFrame(transcript, userId, HI_IN))
  {
    DataMessageActions(userId, requestId, transcript, None);
  }

  /** Only START_SPEECH acts; END_SPEECH and unknown message types do nothing. */
  lemma EventActions(userId: string, at: real)
    ensures HandleResponse(userId, Events(StartSpeech, at)) == [StartMetrics, OnSpeechStarted]
    ensures HandleResponse(userId, Events(EndSpeech, at)) == []
  {
  }
}
