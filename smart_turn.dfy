/**
 * End-of-turn analyzer ("smart turn"). One instance per audio session keeps
 * the audio received since the last turn boundary and decides when the user
 * has finished speaking: at once, when the silence after speech reaches
 * `stop_secs`, or on demand by running an endpoint classifier on the buffered
 * speech segment.
 *
 * The pure functions below (`AppendStep`, `AnalyzeStep` and their parts) are
 * the specification; the class `SmartTurnAnalyzer` is the analyzer itself,
 * and every one of its methods is proved to follow them.
 */
module SmartTurn {
  import opened Wrappers

  // ---------------------------------------------------------------------
  // Configuration
  // ---------------------------------------------------------------------

  const STOP_SECS: real := 3.0
  const PRE_SPEECH_MS: real := 0.0
  const MAX_DURATION_SECONDS: real := 8.0
  /** Hard-wired: after every analysis the buffered segment is dropped. */
  const USE_ONLY_LAST_VAD_SEGMENT: bool := true

  datatype SmartTurnParams = SmartTurnParams(stopSecs: real, preSpeechMs: real, maxDurationSecs: real)

  function DefaultParams(): (p: SmartTurnParams)
    ensures p.stopSecs * 1000.0 == 3000.0
    ensures p.preSpeechMs == 0.0
    ensures RetentionSecs(p) == 11.0
  {
    SmartTurnParams(STOP_SECS, PRE_SPEECH_MS, MAX_DURATION_SECONDS)
  }

  /** How long audio is kept while no speech has been seen, in seconds. */
  function RetentionSecs(p: SmartTurnParams): real {
    p.preSpeechMs / 1000.0 + p.stopSecs + p.maxDurationSecs
  }

  // ---------------------------------------------------------------------
  // State
  // ---------------------------------------------------------------------

  datatype EndOfTurnState = Complete | Incomplete

  /** What the endpoint classifier returns. */
  datatype Prediction = Prediction(prediction: int, probability: real)

  /** One buffered chunk: the time it arrived and its 16-bit samples. */
  datatype Entry = Entry(time: real, samples: seq<int>)

  /** The four mutable fields of an analyzer. */
  datatype TurnState = TurnState(
    buffer: seq<Entry>,
    triggered: bool,
    silenceMs: real,
    speechStart: Option<real>)

  const Fresh := TurnState([], false, 0.0, None)

  /**
   * Outcome of one analysis: a decision and the segment the classifier was
   * run on (None when it was not run), or the error raised when the buffer
   * holds audio but no speech start time is recorded.
   */
  datatype Analysis =
    | Analysed(state: EndOfTurnState, classified: Option<seq<int>>)
    | SpeechStartUnset

  // ---------------------------------------------------------------------
  // Transitions
  // ---------------------------------------------------------------------

  /** Duration of a chunk of `n` samples, in milliseconds. */
  function ChunkMs(sampleRate: nat, n: nat): (ms: real)
    requires sampleRate > 0
    ensures ms >= 0.0
    ensures n > 0 ==> ms > 0.0
  {
    (n as real) / ((sampleRate as real) / 1000.0)
  }

  /** State after a reset; the speech flag survives only an INCOMPLETE reset. */
  function Cleared(turnState: EndOfTurnState): (s: TurnState)
    ensures s.buffer == [] && s.speechStart == None && s.silenceMs == 0.0
    ensures s.triggered <==> turnState == Incomplete
  {
    TurnState([], turnState == Incomplete, 0.0, None)
  }

  /**
   * Drops buffered entries from the head while they are older than `cutoff`:
   * what survives is a suffix of `buffer` whose first entry is not older.
   */
  function TrimStale(buffer: seq<Entry>, cutoff: real): seq<Entry> {
    if buffer != [] && buffer[0].time < cutoff then TrimStale(buffer[1..], cutoff) else buffer
  }

  lemma {:induction false} TrimStaleKeepsFreshSuffix(buffer: seq<Entry>, cutoff: real)
    ensures var r := TrimStale(buffer, cutoff);
      && |r| <= |buffer| && r == buffer[|buffer| - |r|..]
      && (forall k :: 0 <= k < |buffer| - |r| ==> buffer[k].time < cutoff)
      && (r == [] || r[0].time >= cutoff)
  {
    if buffer != [] && buffer[0].time < cutoff {
      var tail := buffer[1..];
      TrimStaleKeepsFreshSuffix(tail, cutoff);
      var r := TrimStale(tail, cutoff);
      assert TrimStale(buffer, cutoff) == r;
      assert tail[|tail| - |r|..] == buffer[|buffer| - |r|..];
      forall k | 0 <= k < |buffer| - |r|
        ensures buffer[k].time < cutoff
      {
        if k > 0 {
          assert buffer[k] == tail[k - 1];
        }
      }
    }
  }

  /**
   * One call of `append_audio`. The clock is read when the chunk is stamped
   * (`now`) and again afterwards (`later`): a speech chunk records `later` as
   * the speech start when none is recorded, and a silence chunk before any
   * speech trims against `later`.
   */
  function AppendStep(sampleRate: nat, p: SmartTurnParams, s: TurnState,
                      samples: seq<int>, isSpeech: bool, now: real, later: real): (r: (TurnState, EndOfTurnState))
    requires sampleRate > 0
    ensures r.1 == Complete ==> r.0 == Cleared(Complete)
    ensures r.1 == Complete <==>
              !isSpeech && s.triggered && s.silenceMs + ChunkMs(sampleRate, |samples|) >= p.stopSecs * 1000.0
    ensures r.1 == Incomplete ==> r.0.triggered == (isSpeech || s.triggered)
    ensures r.1 == Incomplete ==> r.0.buffer == [] || r.0.buffer[|r.0.buffer| - 1] == Entry(now, samples)
  {
    var buffer := s.buffer + [Entry(now, samples)];
    if isSpeech then
      var start := if s.speechStart == None then Some(later) else s.speechStart;
      (TurnState(buffer, true, 0.0, start), Incomplete)
    else if s.triggered then
      var silence := s.silenceMs + ChunkMs(sampleRate, |samples|);
      if silence >= p.stopSecs * 1000.0 then (Cleared(Complete), Complete)
      else (TurnState(buffer, true, silence, s.speechStart), Incomplete)
    else
      TrimStaleKeepsFreshSuffix(buffer, later - RetentionSecs(p));
      (TurnState(TrimStale(buffer, later - RetentionSecs(p)), s.triggered, s.silenceMs, s.speechStart),
       Incomplete)
  }

  /** Index of the first entry not older than `cutoff`, or `|buffer|`. */
  function FirstAtOrAfter(buffer: seq<Entry>, cutoff: real): (k: nat)
    ensures k <= |buffer|
    ensures forall j :: 0 <= j < k ==> buffer[j].time < cutoff
    ensures k < |buffer| ==> buffer[k].time >= cutoff
  {
    if buffer == [] || buffer[0].time >= cutoff then 0 else 1 + FirstAtOrAfter(buffer[1..], cutoff)
  }

  /** Where the speech segment starts: the first entry not older than `cutoff`, else the head. */
  function SegmentStart(buffer: seq<Entry>, cutoff: real): (k: nat)
    ensures buffer != [] ==> k < |buffer|
    ensures 0 < k ==> k < |buffer| && buffer[k].time >= cutoff
    ensures forall j :: 0 <= j < k ==> buffer[j].time < cutoff
    ensures k == 0 && buffer != [] && buffer[0].time < cutoff ==>
              forall j :: 0 <= j < |buffer| ==> buffer[j].time < cutoff
  {
    var k := FirstAtOrAfter(buffer, cutoff);
    if k == |buffer| then 0 else k
  }

  /** All samples of `buffer`, in order. */
  function Concat(buffer: seq<Entry>): (r: seq<int>)
    ensures buffer == [] ==> r == []
  {
    if buffer == [] then [] else buffer[0].samples + Concat(buffer[1..])
  }

  /** Python's `int(x)`: truncation toward zero. */
  function Trunc(x: real): (n: int)
    ensures 0.0 <= x ==> 0 <= n && n as real <= x < n as real + 1.0
    ensures x < 0.0 ==> n <= 0 && n as real - 1.0 < x <= n as real
  {
    if x >= 0.0 then x.Floor else -((-x).Floor)
  }

  /**
   * `seg = seg[-m:] if len(seg) > m else seg`, with Python's slicing: for
   * m > 0 the last m samples; `seg[-0:]` is the whole of `seg`; a negative m
   * drops the first -m samples.
   */
  function ClampSegment(seg: seq<int>, m: int): (r: seq<int>)
    ensures 0 < m ==> r == seg[|seg| - (if |seg| < m then |seg| else m)..]
    ensures m == 0 ==> r == seg
    ensures m < 0 ==> r == seg[(if |seg| < -m then |seg| else -m)..]
  {
    if |seg| > m then
      var start := if -m < 0 then -m + |seg| else -m;
      seg[(if start < 0 then 0 else if start > |seg| then |seg| else start)..]
    else seg
  }

  /** `int(max_duration_secs * sample_rate)`: how many samples the classifier may see. */
  function MaxSamples(sampleRate: nat, p: SmartTurnParams): (n: int)
    ensures 0.0 <= p.maxDurationSecs ==>
              0 <= n && n as real <= p.maxDurationSecs * sampleRate as real < n as real + 1.0
  {
    Trunc(p.maxDurationSecs * sampleRate as real)
  }

  /** The audio handed to the classifier, for a recorded speech start `start`. */
  function SpeechSegment(sampleRate: nat, p: SmartTurnParams, buffer: seq<Entry>, start: real): (segment: seq<int>)
    ensures var all := Concat(buffer[SegmentStart(buffer, start - p.preSpeechMs / 1000.0)..]);
      |segment| <= |all| && segment == all[|all| - |segment|..]
  {
    var from := SegmentStart(buffer, start - p.preSpeechMs / 1000.0);
    ClampSegment(Concat(buffer[from..]), MaxSamples(sampleRate, p))
  }

  /** `_process_speech_segment`: classify the buffered segment. */
  function ProcessSegment(sampleRate: nat, p: SmartTurnParams, buffer: seq<Entry>,
                          speechStart: Option<real>, predict: seq<int> -> Prediction): (a: Analysis)
    ensures buffer == [] ==> a == Analysed(Incomplete, None)
    ensures a.Analysed? && a.classified.Some? ==> a.classified.value != []
  {
    if buffer == [] then Analysed(Incomplete, None)
    else if speechStart == None then SpeechStartUnset
    else Classify(SpeechSegment(sampleRate, p, buffer, speechStart.value), predict)
  }

  /** With audio and a start time, the analysis classifies the segment from the start entry. */
  lemma ProcessSegmentFrom(sampleRate: nat, p: SmartTurnParams, buffer: seq<Entry>, start: real,
                           k: nat, predict: seq<int> -> Prediction)
    requires buffer != [] && k == SegmentStart(buffer, start - p.preSpeechMs / 1000.0)
    ensures ProcessSegment(sampleRate, p, buffer, Some(start), predict)
         == Classify(ClampSegment(Concat(buffer[k..]), MaxSamples(sampleRate, p)), predict)
  {
  }

  /** The classifier's verdict on a segment; an empty segment is not classified. */
  function Classify(segment: seq<int>, predict: seq<int> -> Prediction): Analysis {
    if |segment| > 0 then
      Analysed(if predict(segment).prediction == 1 then Complete else Incomplete, Some(segment))
    else Analysed(Incomplete, None)
  }

  /** One call of `analyze_end_of_turn`. */
  function AnalyzeStep(sampleRate: nat, p: SmartTurnParams, s: TurnState,
                       predict: seq<int> -> Prediction): (r: (TurnState, Analysis))
    ensures r.1.SpeechStartUnset? <==> s.buffer != [] && s.speechStart == None
    ensures r.1.SpeechStartUnset? ==> r.0 == s
    ensures r.1.Analysed? ==> r.0 == Cleared(r.1.state)
  {
    var a := ProcessSegment(sampleRate, p, s.buffer, s.speechStart, predict);
    if a.SpeechStartUnset? then (s, a)
    else if a.state == Complete || USE_ONLY_LAST_VAD_SEGMENT then (Cleared(a.state), a)
    else (s, a)
  }

  // ---------------------------------------------------------------------
  // The analyzer
  // ---------------------------------------------------------------------

  class SmartTurnAnalyzer {
    const sampleRate: nat
    const params: SmartTurnParams
    const stopMs: real
    /** The endpoint classifier a concrete analyzer supplies. */
    const predictEndpoint: seq<int> -> Prediction

    var audioBuffer: seq<Entry>
    var speechTriggered: bool
    var silenceMs: real
    var speechStartTime: Option<real>

    ghost predicate Valid()
      reads this
    {
      sampleRate > 0 && stopMs == params.stopSecs * 1000.0
    }

    function State(): TurnState
      reads this
    {
      TurnState(audioBuffer, speechTriggered, silenceMs, speechStartTime)
    }

    constructor (sampleRate: nat, params: SmartTurnParams, predictEndpoint: seq<int> -> Prediction)
      requires sampleRate > 0
      ensures Valid()
      ensures this.sampleRate == sampleRate && this.params == params
      ensures this.predictEndpoint == predictEndpoint
      ensures State() == Fresh
    {
      this.sampleRate := sampleRate;
      this.params := params;
      this.predictEndpoint := predictEndpoint;
      stopMs := params.stopSecs * 1000.0;
      audioBuffer := [];
      speechTriggered := false;
      silenceMs := 0.0;
      speechStartTime := None;
    }

    /** `append_audio`, with the clock readings `now` (the stamp) and `later` (see `AppendStep`). */
    method AppendAudio(samples: seq<int>, isSpeech: bool, now: real, later: real) returns (state: EndOfTurnState)
      requires Valid()
      modifies this
      ensures Valid()
      ensures (State(), state) == AppendStep(sampleRate, params, old(State()), samples, isSpeech, now, later)
    {
      ghost var s0 := State();
      ghost var appended := s0.buffer + [Entry(now, samples)];
      audioBuffer := audioBuffer + [Entry(now, samples)];
      state := Incomplete;
      if isSpeech {
        silenceMs := 0.0;
        speechTriggered := true;
        if speechStartTime == None {
          speechStartTime := Some(later);
        }
        assert State() == TurnState(appended, true, 0.0,
                                    if s0.speechStart == None then Some(later) else s0.speechStart);
      } else if speechTriggered {
        ghost var silence := s0.silenceMs + ChunkMs(sampleRate, |samples|);
        silenceMs := silenceMs + ChunkMs(sampleRate, |samples|);
        assert silenceMs == silence;
        if silenceMs >= stopMs {
          state := Complete;
          Clear(state);
        } else {
          assert State() == TurnState(appended, true, silence, s0.speechStart);
        }
      } else {
        var maxBufferTime := params.preSpeechMs / 1000.0 + params.stopSecs + params.maxDurationSecs;
        assert later - maxBufferTime == later - RetentionSecs(params);
        TrimBuffer(later - maxBufferTime);
      }
    }

    /** The trim loop of `append_audio`: pops head entries older than `cutoff`. */
    method TrimBuffer(cutoff: real)
      modifies this`audioBuffer
      ensures audioBuffer == TrimStale(old(audioBuffer), cutoff)
    {
      while audioBuffer != [] && audioBuffer[0].time < cutoff
        invariant TrimStale(audioBuffer, cutoff) == TrimStale(old(audioBuffer), cutoff)
        decreases |audioBuffer|
      {
        audioBuffer := audioBuffer[1..];
      }
    }

    /** `analyze_end_of_turn`. */
    method AnalyzeEndOfTurn() returns (outcome: Analysis)
      requires Valid()
      modifies this
      ensures Valid()
      ensures (State(), outcome) == AnalyzeStep(sampleRate, params, old(State()), predictEndpoint)
    {
      outcome := ProcessSpeechSegment(audioBuffer);
      if outcome.SpeechStartUnset? {
        return;
      }
      if outcome.state == Complete || USE_ONLY_LAST_VAD_SEGMENT {
        Clear(outcome.state);
      }
    }

    /** `_clear`. */
    method Clear(turnState: EndOfTurnState)
      modifies this
      ensures State() == Cleared(turnState)
    {
      speechTriggered := turnState == Incomplete;
      audioBuffer := [];
      speechStartTime := None;
      silenceMs := 0.0;
    }

    /** `_process_speech_segment`: searches the start entry, then classifies. */
    method ProcessSpeechSegment(buffer: seq<Entry>) returns (a: Analysis)
      requires Valid()
      ensures a == ProcessSegment(sampleRate, params, buffer, speechStartTime, predictEndpoint)
    {
      if buffer == [] {
        return Analysed(Incomplete, None);
      }
      if speechStartTime == None {
        return SpeechStartUnset;
      }
      var startTime := speechStartTime.value - params.preSpeechMs / 1000.0;
      var startIndex := FindSegmentStart(buffer, startTime);
      var segment := ClampSegment(Concat(buffer[startIndex..]), MaxSamples(sampleRate, params));
      ProcessSegmentFrom(sampleRate, params, buffer, speechStartTime.value, startIndex, predictEndpoint);
      if |segment| > 0 {
        var result := predictEndpoint(segment);
        a := Analysed(if result.prediction == 1 then Complete else Incomplete, Some(segment));
      } else {
        a := Analysed(Incomplete, None);
      }
    }

    /** The search loop of `_process_speech_segment`: the first entry at or after `cutoff`, else 0. */
    method FindSegmentStart(buffer: seq<Entry>, cutoff: real) returns (startIndex: nat)
      ensures startIndex == SegmentStart(buffer, cutoff)
    {
      ghost var first := FirstAtOrAfter(buffer, cutoff);
      startIndex := 0;
      for i := 0 to |buffer|
        invariant i <= first
        invariant startIndex == 0
      {
        if buffer[i].time >= cutoff {
          startIndex := i;
          break;
        }
      }
    }
  }
}
