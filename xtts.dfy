/**
 * The Coqui XTTS text-to-speech service: the mapping from a `Language` to
 * the server's language code, and one `run_tts` call, which sends the
 * sanitised text to the streaming endpoint and cuts the streamed 24 kHz
 * PCM bytes into 48000-byte pieces for the resampler.
 */
module Xtts {
  import opened Wrappers
  import opened Strings
  import opened Languages

  // ---------------------------------------------------------------------
  // language_to_xtts_language
  // ---------------------------------------------------------------------

  /** The languages XTTS supports, by their server code. */
  const XttsBaseLanguages: map<Language, string> := map[
    CS := "cs", DE := "de", EN := "en", ES := "es", FR := "fr", HI := "hi",
    HU := "hu", IT := "it", JA := "ja", KO := "ko", NL := "nl", PL := "pl",
    PT := "pt", RU := "ru", TR := "tr", ZH := "zh-cn"]

  /** The lower-cased part of a language's value before its first "-" (`es-ES` gives `es`). */
  function BaseCode(language: Language): (code: string)
    ensures '-' !in code && NoUpper(code)
    ensures |code| <= |language.value|
  {
    Lower(BeforeFirst(language.value, '-'))
  }

  /** `language_to_xtts_language`: the table first, then the base code of a regional variant. */
  function LanguageToXtts(language: Language): (r: Option<string>)
    ensures r.Some? ==> r.value in XttsBaseLanguages.Values
    ensures language in XttsBaseLanguages ==> r == Some(XttsBaseLanguages[language])
  {
    if language in XttsBaseLanguages then
      Some(XttsBaseLanguages[language])
    else
      var base := BaseCode(language);
      if base == "zh" then
        assert XttsBaseLanguages[ZH] == "zh-cn";
        Some("zh-cn")
      else if base in XttsBaseLanguages.Values then Some(base)
      else None
  }

  /** The base codes XTTS accepts, Chinese aside. */
  const XttsBaseCodes: set<string> :=
    {"cs", "de", "en", "es", "fr", "hi", "hu", "it", "ja", "ko", "nl", "pl", "pt", "ru", "tr"}

  /**
   * The rule by base code alone: "zh" is Chinese, any other base code is
   * its own server code when XTTS supports it.
   */
  function XttsByBaseCode(language: Language): Option<string> {
    var base := BaseCode(language);
    if base == "zh" then Some("zh-cn")
    else if base in XttsBaseCodes then Some(base)
    else None
  }

  lemma TableValues()
    ensures XttsBaseLanguages.Values == XttsBaseCodes + {"zh-cn"}
  {
    assert XttsBaseLanguages[CS] == "cs" && XttsBaseLanguages[DE] == "de";
    assert XttsBaseLanguages[EN] == "en" && XttsBaseLanguages[ES] == "es";
    assert XttsBaseLanguages[FR] == "fr" && XttsBaseLanguages[HI] == "hi";
    assert XttsBaseLanguages[HU] == "hu" && XttsBaseLanguages[IT] == "it";
    assert XttsBaseLanguages[JA] == "ja" && XttsBaseLanguages[KO] == "ko";
    assert XttsBaseLanguages[NL] == "nl" && XttsBaseLanguages[PL] == "pl";
    assert XttsBaseLanguages[PT] == "pt" && XttsBaseLanguages[RU] == "ru";
    assert XttsBaseLanguages[TR] == "tr" && XttsBaseLanguages[ZH] == "zh-cn";
  }

  /** A tag without "-" and without upper case is its own base code. */
  lemma BaseCodeOfPlain(code: string)
    requires '-' !in code && NoUpper(code)
    ensures BaseCode(Language(code)) == code
  {
    BeforeFirstOfJoin(code, '-', []);
    assert code + ['-'] + [] == code + ['-'];
    BeforeFirstOfPlain(code);
    LowerOfNoUpper(code);
  }

  lemma {:induction false} BeforeFirstOfPlain(s: string)
    requires '-' !in s
    ensures BeforeFirst(s, '-') == s
  {
    if s != [] {
      BeforeFirstOfPlain(s[1..]);
    }
  }

  /** Every key of the table is a base code, mapped to itself except Chinese. */
  lemma TableKey(language: Language)
    requires language in XttsBaseLanguages
    ensures language.value in XttsBaseCodes || language.value == "zh"
    ensures XttsBaseLanguages[language] == if language.value == "zh" then "zh-cn" else language.value
  {
  }

  lemma PlainCode(code: string)
    requires code in XttsBaseCodes || code == "zh"
    ensures '-' !in code && NoUpper(code)
  {
  }

  /**
   * The table lookup and the base-code fallback agree with the base-code
   * rule on every language: the table only lists base codes, and Chinese.
   */
  lemma LanguageToXttsByBaseCode(language: Language)
    ensures LanguageToXtts(language) == XttsByBaseCode(language)
  {
    if language in XttsBaseLanguages {
      TableKey(language);
      PlainCode(language.value);
      BaseCodeOfPlain(language.value);
    } else {
      TableValues();
      var base := BaseCode(language);
      assert '-' in "zh-cn";
      assert base in XttsBaseLanguages.Values <==> base in XttsBaseCodes;
    }
  }

  /** A regional variant of a supported base language maps to that base language. */
  lemma RegionalVariant(code: string, region: string)
    requires code in XttsBaseCodes || code == "zh"
    ensures LanguageToXtts(Language(code + "-" + region))
         == Some(if code == "zh" then "zh-cn" else code)
  {
    var l := Language(code + "-" + region);
    PlainCode(code);
    BeforeFirstOfJoin(code, '-', region);
    assert code + "-" + region == code + ['-'] + region;
    LowerOfNoUpper(code);
    assert BaseCode(l) == code;
    LanguageToXttsByBaseCode(l);
  }

  /** Every result is a fixpoint: a server code read back as a language maps to itself. */
  lemma LanguageToXttsFixpoint(language: Language)
    requires LanguageToXtts(language).Some?
    ensures var code := LanguageToXtts(language).value;
      LanguageToXtts(Language(code)) == Some(code)
  {
    TableValues();
    var code := LanguageToXtts(language).value;
    if code == "zh-cn" {
      assert "zh" + "-" + "cn" == "zh-cn";
      RegionalVariant("zh", "cn");
    } else {
      assert code in XttsBaseCodes;
      PlainCode(code);
      BaseCodeOfPlain(code);
      LanguageToXttsByBaseCode(Language(code));
    }
  }

  // ---------------------------------------------------------------------
  // run_tts
  // ---------------------------------------------------------------------

  /** Bytes handed to the resampler at a time: 0.5 s of 16-bit audio at 24 kHz. */
  const PIECE_BYTES := 48000

  /** The rate at which the XTTS server streams audio. */
  const XTTS_SAMPLE_RATE := 24000

  /** The text sent to the server: the input without its '.' and '*' characters. */
  function SanitizeText(text: string): (r: string)
    ensures '.' !in r && '*' !in r
    ensures multiset(r) == multiset(text)['.' := 0]['*' := 0]
  {
    var r := Remove(Remove(text, '.'), '*');
    assert multiset(Remove(text, '.'))['.'] == 0;
    assert multiset(r)['.'] == 0;
    r
  }

  /** Sanitising works character by character, so the kept characters keep their order. */
  lemma SanitizeTextOfJoin(a: string, b: string)
    ensures SanitizeText(a + b) == SanitizeText(a) + SanitizeText(b)
  {
    RemoveOfJoin(a, b, '.');
    RemoveOfJoin(Remove(a, '.'), Remove(b, '.'), '*');
  }

  /** A text without '.' and '*' is sent as it is; in particular sanitising is idempotent. */
  lemma SanitizeTextIdentity(text: string)
    requires '.' !in text && '*' !in text
    ensures SanitizeText(text) == text
  {
    RemoveIdentity(text, '.');
    RemoveIdentity(text, '*');
  }

  lemma SanitizeTextIdempotent(text: string)
    ensures SanitizeText(SanitizeText(text)) == SanitizeText(text)
  {
    SanitizeTextIdentity(SanitizeText(text));
  }

  /** A studio speaker's voice-cloning conditioning, as the server's `/studio_speakers` lists it. */
  datatype Speaker = Speaker(speakerEmbedding: seq<real>, gptCondLatent: seq<seq<real>>)

  /**
   * The service's settings. `language` is the already mapped server code;
   * `studioSpeakers` is what `start` loaded (`None` before it succeeded).
   */
  datatype XttsService = XttsService(
    voiceId: string,
    baseUrl: string,
    language: Option<string>,
    sampleRate: nat,
    studioSpeakers: Option<map<string, Speaker>>)

  /** A service as constructed: its language mapped, no studio speakers yet. */
  function NewXttsService(voiceId: string, baseUrl: string, language: Language, sampleRate: nat)
    : (service: XttsService)
    ensures service.studioSpeakers == None
    ensures service.language.Some? ==> service.language.value in XttsBaseLanguages.Values
    ensures service.language == XttsByBaseCode(language)
  {
    LanguageToXttsByBaseCode(language);
    XttsService(voiceId, baseUrl, LanguageToXtts(language), sampleRate, None)
  }

  /** The JSON body posted to `/tts_stream`. */
  datatype TtsRequest = TtsRequest(
    url: string,
    text: string,
    language: Option<string>,
    speakerEmbedding: seq<real>,
    gptCondLatent: seq<seq<real>>,
    addWavHeader: bool,
    streamChunkSize: int)

  /** The server's reply: its status, its text (read on error), and the body as received chunks. */
  datatype HttpResponse = HttpResponse(status: int, body: string, chunks: seq<seq<bv8>>)

  datatype TtsFrame =
    | TtsStarted
    | TtsAudio(audio: seq<bv8>, sampleRate: nat, numChannels: nat)
    | TtsStopped
    | TtsError(status: int, body: string)

  /** What one `run_tts` call does. */
  datatype TtsRun =
      /** No studio speakers are loaded: nothing is sent and nothing is yielded. */
    | NoStudioSpeakers
      /** The voice is not a studio speaker: the lookup raises before anything is sent. */
    | UnknownVoice
      /** The request was posted; `pieces` went to the resampler, `frames` were yielded. */
    | Posted(request: TtsRequest, pieces: seq<seq<bv8>>, frames: seq<TtsFrame>)

  function Flatten(pieces: seq<seq<bv8>>): (r: seq<bv8>)
    ensures pieces == [] ==> r == []
  {
    if pieces == [] then [] else pieces[0] + Flatten(pieces[1..])
  }

  lemma {:induction false} FlattenSnoc(pieces: seq<seq<bv8>>, piece: seq<bv8>)
    ensures Flatten(pieces + [piece]) == Flatten(pieces) + piece
  {
    if pieces == [] {
      assert pieces + [piece] == [piece];
    } else {
      assert (pieces + [piece])[1..] == pieces[1..] + [piece];
      FlattenSnoc(pieces[1..], piece);
    }
  }

  /** Every piece is exactly one resampler piece long. */
  predicate AllFull(pieces: seq<seq<bv8>>) {
    forall i :: 0 <= i < |pieces| ==> |pieces[i]| == PIECE_BYTES
  }

  /** Non-empty pieces of at most `PIECE_BYTES`, all full but the last. */
  predicate WellCut(pieces: seq<seq<bv8>>) {
    forall i :: 0 <= i < |pieces| ==>
      && 0 < |pieces[i]| <= PIECE_BYTES
      && (i < |pieces| - 1 ==> |pieces[i]| == PIECE_BYTES)
  }

  /** The stream cut into full pieces and one shorter, non-empty remainder. */
  function Rechunk(data: seq<bv8>): (pieces: seq<seq<bv8>>)
    ensures WellCut(pieces)
    ensures Flatten(pieces) == data
    decreases |data|
  {
    if data == [] then []
    else if |data| < PIECE_BYTES then [data]
    else
      assert data == data[..PIECE_BYTES] + data[PIECE_BYTES..];
      [data[..PIECE_BYTES]] + Rechunk(data[PIECE_BYTES..])
  }

  /** Rechunking is the only well-cut split of a stream. */
  lemma {:induction false} RechunkUnique(pieces: seq<seq<bv8>>)
    requires WellCut(pieces)
    ensures Rechunk(Flatten(pieces)) == pieces
  {
    if pieces != [] {
      var p := pieces[0];
      var rest := pieces[1..];
      assert WellCut(rest);
      if rest == [] {
        assert Flatten(pieces) == p;
        if |p| == PIECE_BYTES {
          assert p[..PIECE_BYTES] == p && p[PIECE_BYTES..] == [];
        }
      } else {
        assert |p| == PIECE_BYTES;
        var tail := Flatten(rest);
        assert rest[0] != [] && tail == rest[0] + Flatten(rest[1..]);
        assert (p + tail)[..PIECE_BYTES] == p && (p + tail)[PIECE_BYTES..] == tail;
        RechunkUnique(rest);
      }
    }
  }

  /** One piece per started 48000 bytes. */
  lemma {:induction false} RechunkCount(data: seq<bv8>)
    ensures |Rechunk(data)| == (|data| + PIECE_BYTES - 1) / PIECE_BYTES
    decreases |data|
  {
    if |data| >= PIECE_BYTES {
      RechunkCount(data[PIECE_BYTES..]);
    }
  }

  /** The audio frame made of one resampled piece. */
  function AudioFrames(pieces: seq<seq<bv8>>, resample: (seq<bv8>, nat, nat) -> seq<bv8>, sampleRate: nat)
    : (frames: seq<TtsFrame>)
    ensures |frames| == |pieces|
    ensures forall i :: 0 <= i < |frames| ==> frames[i].TtsAudio? && frames[i].numChannels == 1
  {
    seq(|pieces|, i requires 0 <= i < |pieces| =>
      TtsAudio(resample(pieces[i], XTTS_SAMPLE_RATE, sampleRate), sampleRate, 1))
  }

  lemma AudioFramesSnoc(pieces: seq<seq<bv8>>, piece: seq<bv8>,
                        resample: (seq<bv8>, nat, nat) -> seq<bv8>, sampleRate: nat)
    ensures AudioFrames(pieces + [piece], resample, sampleRate)
         == AudioFrames(pieces, resample, sampleRate)
            + [TtsAudio(resample(piece, XTTS_SAMPLE_RATE, sampleRate), sampleRate, 1)]
  {
  }

  /** Full pieces followed by a non-empty remainder shorter than a piece are well cut. */
  lemma FullThenRemainder(pieces: seq<seq<bv8>>, rest: seq<bv8>)
    requires AllFull(pieces) && |rest| < PIECE_BYTES
    ensures rest != [] ==> WellCut(pieces + [rest])
    ensures rest == [] ==> WellCut(pieces)
  {
  }

  /** The request `run_tts` posts for `text` with the given speaker. */
  function TtsRequestFor(service: XttsService, text: string, speaker: Speaker): (request: TtsRequest)
    ensures request.url == service.baseUrl + "/tts_stream"
    ensures '.' !in request.text && '*' !in request.text
  {
    TtsRequest(service.baseUrl + "/tts_stream", SanitizeText(text), service.language,
               speaker.speakerEmbedding, speaker.gptCondLatent, false, 20)
  }

  /** No studio speakers: `None` or an empty map. */
  predicate NoSpeakers(service: XttsService) {
    service.studioSpeakers == None || service.studioSpeakers.value == map[]
  }

  /** What `run_tts` does, stated on the whole received stream. */
  function RunTtsSpec(service: XttsService, text: string, response: HttpResponse,
                      resample: (seq<bv8>, nat, nat) -> seq<bv8>): (run: TtsRun)
    ensures run.NoStudioSpeakers? <==> NoSpeakers(service)
    ensures run.UnknownVoice? <==> !NoSpeakers(service) && service.voiceId !in service.studioSpeakers.value
    ensures run.Posted? ==> |run.frames| == |run.pieces| + (if response.status == 200 then 2 else 1)
    ensures run.Posted? ==> (run.pieces == [] <==> response.status != 200 || Flatten(response.chunks) == [])
  {
    if NoSpeakers(service) then NoStudioSpeakers
    else if service.voiceId !in service.studioSpeakers.value then UnknownVoice
    else
      var request := TtsRequestFor(service, text, service.studioSpeakers.value[service.voiceId]);
      if response.status != 200 then
        Posted(request, [], [TtsError(response.status, response.body)])
      else
        var pieces := Rechunk(Flatten(response.chunks));
        Posted(request, pieces,
               [TtsStarted] + AudioFrames(pieces, resample, service.sampleRate) + [TtsStopped])
  }

  /**
   * The body of `run_tts` after a 200 status: it appends each non-empty
   * received chunk to a byte buffer, hands every full 48000-byte head of the
   * buffer to the resampler as soon as there is one, and at the end of the
   * stream hands over the remainder, if any.
   */
  method StreamAudio(chunks: seq<seq<bv8>>, resample: (seq<bv8>, nat, nat) -> seq<bv8>, sampleRate: nat)
    returns (pieces: seq<seq<bv8>>, audio: seq<TtsFrame>)
    ensures pieces == Rechunk(Flatten(chunks))
    ensures audio == AudioFrames(pieces, resample, sampleRate)
  {
    pieces, audio := [], [];
    var buffer: seq<bv8> := [];
    for i := 0 to |chunks|
      invariant |buffer| < PIECE_BYTES
      invariant AllFull(pieces)
      invariant Flatten(pieces) + buffer == Flatten(chunks[..i])
      invariant audio == AudioFrames(pieces, resample, sampleRate)
    {
      assert Flatten(chunks[..i + 1]) == Flatten(chunks[..i]) + chunks[i] by {
        assert chunks[..i + 1] == chunks[..i] + [chunks[i]];
        FlattenSnoc(chunks[..i], chunks[i]);
      }
      if |chunks[i]| > 0 {
        pieces, audio, buffer := EmitFullPieces(pieces, audio, buffer + chunks[i], resample, sampleRate);
      }
    }
    assert chunks[..|chunks|] == chunks;
    FullThenRemainder(pieces, buffer);
    if |buffer| > 0 {
      FlattenSnoc(pieces, buffer);
      AudioFramesSnoc(pieces, buffer, resample, sampleRate);
      pieces := pieces + [buffer];
      audio := audio + [TtsAudio(resample(buffer, XTTS_SAMPLE_RATE, sampleRate), sampleRate, 1)];
    } else {
      assert Flatten(pieces) + buffer == Flatten(pieces);
    }
    RechunkUnique(pieces);
  }

  /** The inner loop of `run_tts`: while 48000 bytes are buffered, hand the head over. */
  method EmitFullPieces(pieces: seq<seq<bv8>>, audio: seq<TtsFrame>, buffer: seq<bv8>,
                        resample: (seq<bv8>, nat, nat) -> seq<bv8>, sampleRate: nat)
    returns (pieces': seq<seq<bv8>>, audio': seq<TtsFrame>, buffer': seq<bv8>)
    requires AllFull(pieces) && audio == AudioFrames(pieces, resample, sampleRate)
    ensures AllFull(pieces') && audio' == AudioFrames(pieces', resample, sampleRate)
    ensures |buffer'| < PIECE_BYTES
    ensures Flatten(pieces') + buffer' == Flatten(pieces) + buffer
  {
    pieces', audio', buffer' := pieces, audio, buffer;
    while |buffer'| >= PIECE_BYTES
      invariant AllFull(pieces')
      invariant Flatten(pieces') + buffer' == Flatten(pieces) + buffer
      invariant audio' == AudioFrames(pieces', resample, sampleRate)
      decreases |buffer'|
    {
      var piece := buffer'[..PIECE_BYTES];
      assert buffer' == piece + buffer'[PIECE_BYTES..];
      buffer' := buffer'[PIECE_BYTES..];
      FlattenSnoc(pieces', piece);
      AudioFramesSnoc(pieces', piece, resample, sampleRate);
      pieces' := pieces' + [piece];
      audio' := audio' + [TtsAudio(resample(piece, XTTS_SAMPLE_RATE, sampleRate), sampleRate, 1)];
    }
  }

  /**
   * `run_tts`: the studio-speaker guard, the speaker lookup, the request,
   * the status check, and the audio wrapped in started and stopped frames.
   */
  method RunTts(service: XttsService, text: string, response: HttpResponse,
                resample: (seq<bv8>, nat, nat) -> seq<bv8>) returns (run: TtsRun)
    ensures run == RunTtsSpec(service, text, response, resample)
  {
    if NoSpeakers(service) {
      return NoStudioSpeakers;
    }
    var speakers := service.studioSpeakers.value;
    if service.voiceId !in speakers {
      return UnknownVoice;
    }
    var speaker := speakers[service.voiceId];
    var request := TtsRequest(service.baseUrl + "/tts_stream", SanitizeText(text), service.language,
                              speaker.speakerEmbedding, speaker.gptCondLatent, false, 20);
    if response.status != 200 {
      return Posted(request, [], [TtsError(response.status, response.body)]);
    }
    var pieces, audio := StreamAudio(response.chunks, resample, service.sampleRate);
    run := Posted(request, pieces, [TtsStarted] + audio + [TtsStopped]);
  }
}
