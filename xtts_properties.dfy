/** What a `run_tts` call yields, in each of its cases. */
module XttsProperties {
  import opened Wrappers
  import opened Languages
  import opened Xtts

  /** A service whose studio speakers are not loaded posts nothing and yields nothing. */
  lemma NoSpeakersYieldsNothing(service: XttsService, text: string, response: HttpResponse,
                                resample: (seq<bv8>, nat, nat) -> seq<bv8>)
    requires service.studioSpeakers == None || service.studioSpeakers == Some(map[])
    ensures RunTtsSpec(service, text, response, resample) == NoStudioSpeakers
  {
  }

  /** A freshly constructed service synthesises nothing until `start` has loaded speakers. */
  lemma FreshServiceYieldsNothing(voiceId: string, baseUrl: string, language: Language, sampleRate: nat,
                                  text: string, response: HttpResponse,
                                  resample: (seq<bv8>, nat, nat) -> seq<bv8>)
    ensures RunTtsSpec(NewXttsService(voiceId, baseUrl, language, sampleRate), text, response, resample)
         == NoStudioSpeakers
  {
  }

  /** The posted request: the sanitised text, the speaker's conditioning, no WAV header, chunk size 20. */
  lemma PostedRequest(service: XttsService, text: string, response: HttpResponse,
                      resample: (seq<bv8>, nat, nat) -> seq<bv8>)
    requires RunTtsSpec(service, text, response, resample).Posted?
    ensures service.studioSpeakers.Some? && service.voiceId in service.studioSpeakers.value
    ensures var request := RunTtsSpec(service, text, response, resample).request;
      var speaker := service.studioSpeakers.value[service.voiceId];
      && request.url == service.baseUrl + "/tts_stream"
      && request.text == SanitizeText(text)
      && request.language == service.language
      && request.speakerEmbedding == speaker.speakerEmbedding
      && request.gptCondLatent == speaker.gptCondLatent
      && !request.addWavHeader && request.streamChunkSize == 20
  {
  }

  /** A non-200 status yields exactly one error frame and nothing reaches the resampler. */
  lemma ErrorStatusYieldsOneError(service: XttsService, text: string, response: HttpResponse,
                                  resample: (seq<bv8>, nat, nat) -> seq<bv8>)
    requires RunTtsSpec(service, text, response, resample).Posted?
    requires response.status != 200
    ensures var run := RunTtsSpec(service, text, response, resample);
      run.pieces == [] && run.frames == [TtsError(response.status, response.body)]
  {
  }

  /**
   * On status 200 the frames are one started frame, one audio frame per
   * piece in order, and one stopped frame; the pieces are the received bytes,
   * cut into full 48000-byte pieces and a shorter non-empty remainder.
   */
  lemma SuccessfulRunFrames(service: XttsService, text: string, response: HttpResponse,
                            resample: (seq<bv8>, nat, nat) -> seq<bv8>)
    requires RunTtsSpec(service, text, response, resample).Posted?
    requires response.status == 200
    ensures var run := RunTtsSpec(service, text, response, resample);
      && |run.frames| == |run.pieces| + 2
      && run.frames[0] == TtsStarted
      && run.frames[|run.frames| - 1] == TtsStopped
      && (forall i :: 0 <= i < |run.pieces| ==>
            run.frames[i + 1] == TtsAudio(resample(run.pieces[i], XTTS_SAMPLE_RATE, service.sampleRate),
                                          service.sampleRate, 1))
      && (forall f :: f in run.frames ==> !f.TtsError?)
  {
    var run := RunTtsSpec(service, text, response, resample);
    var pieces := Rechunk(Flatten(response.chunks));
    var middle := AudioFrames(pieces, resample, service.sampleRate);
    assert run.pieces == pieces;
    assert run.frames == [TtsStarted] + middle + [TtsStopped];
    forall i | 0 <= i < |pieces|
      ensures run.frames[i + 1] == middle[i]
    {
    }
    forall f | f in run.frames
      ensures !f.TtsError?
    {
      var j :| 0 <= j < |run.frames| && run.frames[j] == f;
      if 0 < j < |run.frames| - 1 {
        assert f == middle[j - 1];
      }
    }
  }

  /** Nothing is lost or reordered: the pieces concatenate to the received bytes, and are well cut. */
  lemma SuccessfulRunPieces(service: XttsService, text: string, response: HttpResponse,
                            resample: (seq<bv8>, nat, nat) -> seq<bv8>)
    requires RunTtsSpec(service, text, response, resample).Posted?
    requires response.status == 200
    ensures var pieces := RunTtsSpec(service, text, response, resample).pieces;
      && Flatten(pieces) == Flatten(response.chunks)
      && (forall i :: 0 <= i < |pieces| ==> 0 < |pieces[i]| <= PIECE_BYTES)
      && (forall i :: 0 <= i < |pieces| - 1 ==> |pieces[i]| == PIECE_BYTES)
      && |pieces| == (|Flatten(response.chunks)| + PIECE_BYTES - 1) / PIECE_BYTES
  {
    RechunkCount(Flatten(response.chunks));
  }

  /** Empty received chunks change nothing. */
  lemma {:induction false} EmptyChunksIgnored(chunks: seq<seq<bv8>>, i: nat)
    requires i <= |chunks|
    ensures Flatten(chunks[..i] + [[]] + chunks[i..]) == Flatten(chunks)
  {
    if i == 0 {
      assert (chunks[..i] + [[]] + chunks[i..])[1..] == chunks;
    } else {
      assert (chunks[..i] + [[]] + chunks[i..])[1..] == chunks[1..][..i - 1] + [[]] + chunks[1..][i - 1..];
      EmptyChunksIgnored(chunks[1..], i - 1);
    }
  }
}
