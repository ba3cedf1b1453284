/**
 * What the end-of-turn analyzer guarantees, stated over the transition
 * functions `AppendStep` and `AnalyzeStep` that its methods are proved to
 * follow.
 */
module SmartTurnProperties {
  import opened Wrappers
  import opened SmartTurn

  // ---------------------------------------------------------------------
  // One call of append_audio
  // ---------------------------------------------------------------------

  /** A speech chunk is appended, clears the silence, arms the turn and keeps the first start time. */
  lemma SpeechChunkEffects(sampleRate: nat, p: SmartTurnParams, s: TurnState, samples: seq<int>,
                           now: real, later: real)
    requires sampleRate > 0
    ensures var (s', d) := AppendStep(sampleRate, p, s, samples, true, now, later);
      && d == Incomplete
      && s'.buffer == s.buffer + [Entry(now, samples)]
      && s'.triggered && s'.silenceMs == 0.0
      && (s.speechStart.Some? ==> s'.speechStart == s.speechStart)
      && (s.speechStart.None? ==> s'.speechStart == Some(later))
  {
  }

  /**
   * A silence chunk after speech adds its duration to the silence, and the
   * turn completes exactly when the silence reaches `stop_secs`.
   */
  lemma SilenceAfterSpeech(sampleRate: nat, p: SmartTurnParams, s: TurnState, samples: seq<int>,
                           now: real, later: real)
    requires sampleRate > 0 && s.triggered
    ensures var (s', d) := AppendStep(sampleRate, p, s, samples, false, now, later);
      && (d == Complete <==> s.silenceMs + ChunkMs(sampleRate, |samples|) >= p.stopSecs * 1000.0)
      && (d == Incomplete ==>
            && s'.buffer == s.buffer + [Entry(now, samples)]
            && s'.triggered && s'.speechStart == s.speechStart
            && s'.silenceMs == s.silenceMs + ChunkMs(sampleRate, |samples|))
  {
  }

  /**
   * A silence chunk before any speech never completes and never accumulates
   * silence; it only drops stale entries from the head of the buffer.
   */
  lemma SilenceBeforeSpeech(sampleRate: nat, p: SmartTurnParams, s: TurnState, samples: seq<int>,
                            now: real, later: real)
    requires sampleRate > 0 && !s.triggered
    ensures var (s', d) := AppendStep(sampleRate, p, s, samples, false, now, later);
      var appended := s.buffer + [Entry(now, samples)];
      var cutoff := later - RetentionSecs(p);
      && d == Incomplete
      && !s'.triggered && s'.silenceMs == s.silenceMs && s'.speechStart == s.speechStart
      && |s'.buffer| <= |appended| && s'.buffer == appended[|appended| - |s'.buffer|..]
      && (forall k :: 0 <= k < |appended| - |s'.buffer| ==> appended[k].time < cutoff)
      && (s'.buffer == [] || s'.buffer[0].time >= cutoff)
  {
    TrimStaleKeepsFreshSuffix(s.buffer + [Entry(now, samples)], later - RetentionSecs(p));
  }

  /** A COMPLETE decision, from either path, resets the analyzer. */
  lemma CompleteResets(sampleRate: nat, p: SmartTurnParams, s: TurnState, samples: seq<int>,
                       isSpeech: bool, now: real, later: real, predict: seq<int> -> Prediction)
    requires sampleRate > 0
    ensures AppendStep(sampleRate, p, s, samples, isSpeech, now, later).1 == Complete ==>
              AppendStep(sampleRate, p, s, samples, isSpeech, now, later).0 == TurnState([], false, 0.0, None)
    ensures var (s', a) := AnalyzeStep(sampleRate, p, s, predict);
      a.Analysed? && a.state == Complete ==> s' == TurnState([], false, 0.0, None)
  {
  }

  /** An INCOMPLETE analysis drops the segment but keeps the turn armed. */
  lemma IncompleteAnalysisKeepsTrigger(sampleRate: nat, p: SmartTurnParams, s: TurnState,
                                       predict: seq<int> -> Prediction)
    ensures var (s', a) := AnalyzeStep(sampleRate, p, s, predict);
      a.Analysed? && a.state == Incomplete ==> s' == TurnState([], true, 0.0, None)
    ensures var (s', a) := AnalyzeStep(sampleRate, p, s, predict);
      a.SpeechStartUnset? ==> s' == s
  {
  }

  // ---------------------------------------------------------------------
  // Invariants over any sequence of calls
  // ---------------------------------------------------------------------

  /** An idle analyzer has no speech start and no silence; silence is never negative. */
  ghost predicate Consistent(s: TurnState) {
    && s.silenceMs >= 0.0
    && (!s.triggered ==> s.speechStart == None && s.silenceMs == 0.0)
  }

  lemma FreshIsConsistent()
    ensures Consistent(Fresh)
  {
  }

  lemma AppendKeepsConsistent(sampleRate: nat, p: SmartTurnParams, s: TurnState, samples: seq<int>,
                              isSpeech: bool, now: real, later: real)
    requires sampleRate > 0 && Consistent(s)
    ensures Consistent(AppendStep(sampleRate, p, s, samples, isSpeech, now, later).0)
  {
  }

  lemma AnalyzeKeepsConsistent(sampleRate: nat, p: SmartTurnParams, s: TurnState,
                               predict: seq<int> -> Prediction)
    requires Consistent(s)
    ensures Consistent(AnalyzeStep(sampleRate, p, s, predict).0)
  {
  }

  /** Timestamps in the buffer never decrease. */
  ghost predicate TimesSorted(buffer: seq<Entry>) {
    forall i, j :: 0 <= i < j < |buffer| ==> buffer[i].time <= buffer[j].time
  }

  /** Every buffered chunk arrived no later than `now`. */
  ghost predicate NotAfter(buffer: seq<Entry>, now: real) {
    forall i :: 0 <= i < |buffer| ==> buffer[i].time <= now
  }

  /** With a clock that does not go backwards, buffered timestamps stay sorted. */
  lemma AppendKeepsTimesSorted(sampleRate: nat, p: SmartTurnParams, s: TurnState, samples: seq<int>,
                               isSpeech: bool, now: real, later: real)
    requires sampleRate > 0 && TimesSorted(s.buffer) && NotAfter(s.buffer, now)
    ensures TimesSorted(AppendStep(sampleRate, p, s, samples, isSpeech, now, later).0.buffer)
    ensures NotAfter(AppendStep(sampleRate, p, s, samples, isSpeech, now, later).0.buffer, now)
  {
    var appended := s.buffer + [Entry(now, samples)];
    SnocKeepsOrder(s.buffer, Entry(now, samples));
    var r := AppendStep(sampleRate, p, s, samples, isSpeech, now, later).0.buffer;
    if isSpeech {
      assert r == appended;
    } else if s.triggered {
      assert r == [] || r == appended;
    } else {
      TrimStaleKeepsFreshSuffix(appended, later - RetentionSecs(p));
      SuffixKeepsOrder(appended, r, now);
    }
  }

  lemma SnocKeepsOrder(b: seq<Entry>, e: Entry)
    requires TimesSorted(b) && NotAfter(b, e.time)
    ensures TimesSorted(b + [e]) && NotAfter(b + [e], e.time)
  {
  }

  lemma SuffixKeepsOrder(b: seq<Entry>, r: seq<Entry>, now: real)
    requires TimesSorted(b) && NotAfter(b, now)
    requires |r| <= |b| && r == b[|b| - |r|..]
    ensures TimesSorted(r) && NotAfter(r, now)
  {
    var off := |b| - |r|;
    assert forall i :: 0 <= i < |r| ==> r[i] == b[off + i];
  }

  /**
   * Retention window: while no speech has been seen, a silence chunk leaves
   * only audio that arrived within `pre_speech_ms + stop_secs +
   * max_duration_secs` of the clock's second reading `later` (given sorted
   * timestamps).
   */
  lemma {:induction false} RetentionWindow(sampleRate: nat, p: SmartTurnParams, s: TurnState,
                                           samples: seq<int>, now: real, later: real)
    requires sampleRate > 0 && !s.triggered
    requires TimesSorted(s.buffer) && NotAfter(s.buffer, now)
    ensures var b := AppendStep(sampleRate, p, s, samples, false, now, later).0.buffer;
      forall i :: 0 <= i < |b| ==> later - RetentionSecs(p) <= b[i].time <= now
  {
    AppendKeepsTimesSorted(sampleRate, p, s, samples, false, now, later);
    var b := AppendStep(sampleRate, p, s, samples, false, now, later).0.buffer;
    TrimStaleKeepsFreshSuffix(s.buffer + [Entry(now, samples)], later - RetentionSecs(p));
    if b != [] {
      assert b[0].time >= later - RetentionSecs(p);
      forall i | 0 <= i < |b| ensures later - RetentionSecs(p) <= b[i].time {
        if i > 0 {
          assert b[0].time <= b[i].time;
        }
      }
    }
  }

  // ---------------------------------------------------------------------
  // Silence runs: when the timer path completes
  // ---------------------------------------------------------------------

  /**
   * The decisions returned by a run of silence chunks; `times[k]` holds the
   * two clock readings of the k-th call (see `AppendStep`).
   */
  function FeedSilence(sampleRate: nat, p: SmartTurnParams, s: TurnState,
                       chunks: seq<seq<int>>, times: seq<(real, real)>): (ds: seq<EndOfTurnState>)
    requires sampleRate > 0 && |times| == |chunks|
    ensures |ds| == |chunks|
    decreases |chunks|
  {
    if chunks == [] then []
    else
      var (s1, d) := AppendStep(sampleRate, p, s, chunks[0], false, times[0].0, times[0].1);
      [d] + FeedSilence(sampleRate, p, s1, chunks[1..], times[1..])
  }

  /** Total duration of `chunks`, in milliseconds. */
  function SilenceMs(sampleRate: nat, chunks: seq<seq<int>>): (ms: real)
    requires sampleRate > 0
    ensures ms >= 0.0
  {
    if chunks == [] then 0.0 else ChunkMs(sampleRate, |chunks[0]|) + SilenceMs(sampleRate, chunks[1..])
  }

  lemma SilenceMsOfPrefix(sampleRate: nat, chunks: seq<seq<int>>, k: nat)
    requires sampleRate > 0 && k < |chunks|
    ensures SilenceMs(sampleRate, chunks[..k + 1])
         == ChunkMs(sampleRate, |chunks[0]|) + SilenceMs(sampleRate, chunks[1..][..k])
  {
    assert chunks[..k + 1][1..] == chunks[1..][..k];
  }

  lemma {:induction false} SilenceMsMonotone(sampleRate: nat, chunks: seq<seq<int>>, j: nat, k: nat)
    requires sampleRate > 0 && j <= k <= |chunks|
    ensures SilenceMs(sampleRate, chunks[..j]) <= SilenceMs(sampleRate, chunks[..k])
  {
    if j > 0 {
      SilenceMsOfPrefix(sampleRate, chunks, j - 1);
      SilenceMsOfPrefix(sampleRate, chunks, k - 1);
      SilenceMsMonotone(sampleRate, chunks[1..], j - 1, k - 1);
    }
  }

  /** Before any speech, silence never completes a turn. */
  lemma {:induction false} IdleSilenceNeverCompletes(sampleRate: nat, p: SmartTurnParams, s: TurnState,
                                                     chunks: seq<seq<int>>, times: seq<(real, real)>)
    requires sampleRate > 0 && |times| == |chunks| && !s.triggered
    ensures forall k :: 0 <= k < |chunks| ==> FeedSilence(sampleRate, p, s, chunks, times)[k] == Incomplete
    decreases |chunks|
  {
    if chunks != [] {
      var (s1, d) := AppendStep(sampleRate, p, s, chunks[0], false, times[0].0, times[0].1);
      IdleSilenceNeverCompletes(sampleRate, p, s1, chunks[1..], times[1..]);
    }
  }

  /**
   * After speech, a run of silence chunks yields COMPLETE exactly at the first
   * chunk where the silence accumulated since the last speech reaches
   * `stop_secs`, and at no other chunk.
   */
  lemma {:induction false} CompletesAtFirstCrossing(sampleRate: nat, p: SmartTurnParams, s: TurnState,
                                                    chunks: seq<seq<int>>, times: seq<(real, real)>)
    requires sampleRate > 0 && |times| == |chunks| && s.triggered
    ensures var ds := FeedSilence(sampleRate, p, s, chunks, times);
      forall k :: 0 <= k < |chunks| ==>
        (ds[k] == Complete <==>
          && s.silenceMs + SilenceMs(sampleRate, chunks[..k + 1]) >= p.stopSecs * 1000.0
          && (k == 0 || s.silenceMs + SilenceMs(sampleRate, chunks[..k]) < p.stopSecs * 1000.0))
    decreases |chunks|
  {
    if chunks == [] {
      return;
    }
    var stop := p.stopSecs * 1000.0;
    var ds := FeedSilence(sampleRate, p, s, chunks, times);
    var (s1, d) := AppendStep(sampleRate, p, s, chunks[0], false, times[0].0, times[0].1);
    var rest := FeedSilence(sampleRate, p, s1, chunks[1..], times[1..]);
    assert ds == [d] + rest;
    var d0 := ChunkMs(sampleRate, |chunks[0]|);
    assert SilenceMs(sampleRate, chunks[..1]) == d0 by {
      SilenceMsOfPrefix(sampleRate, chunks, 0);
    }
    if d == Complete {
      IdleSilenceNeverCompletes(sampleRate, p, s1, chunks[1..], times[1..]);
      forall k | 1 <= k < |chunks|
        ensures !(s.silenceMs + SilenceMs(sampleRate, chunks[..k]) < stop)
      {
        SilenceMsMonotone(sampleRate, chunks, 1, k);
      }
    } else {
      SilenceAfterSpeech(sampleRate, p, s, chunks[0], times[0].0, times[0].1);
      assert s1.triggered && s1.silenceMs == s.silenceMs + d0;
      assert s.silenceMs + d0 < stop;
      CompletesAtFirstCrossing(sampleRate, p, s1, chunks[1..], times[1..]);
      forall k | 1 <= k < |chunks|
        ensures ds[k] == Complete <==>
          && s.silenceMs + SilenceMs(sampleRate, chunks[..k + 1]) >= stop
          && s.silenceMs + SilenceMs(sampleRate, chunks[..k]) < stop
      {
        SilenceMsOfPrefix(sampleRate, chunks, k);
        SilenceMsOfPrefix(sampleRate, chunks, k - 1);
        assert ds[k] == rest[k - 1];
        assert rest[k - 1] == Complete <==>
          && s1.silenceMs + SilenceMs(sampleRate, chunks[1..][..k]) >= stop
          && (k - 1 == 0 || s1.silenceMs + SilenceMs(sampleRate, chunks[1..][..k - 1]) < stop);
        if k == 1 {
          assert chunks[1..][..0] == [];
        }
      }
    }
  }

  /** `k` chunks of `n` samples last `k` times as long as one. */
  lemma {:induction false} UniformSilenceMs(sampleRate: nat, chunks: seq<seq<int>>, n: nat)
    requires sampleRate > 0
    requires forall i :: 0 <= i < |chunks| ==> |chunks[i]| == n
    ensures SilenceMs(sampleRate, chunks) == (|chunks| as real) * ChunkMs(sampleRate, n)
  {
    if chunks != [] {
      UniformSilenceMs(sampleRate, chunks[1..], n);
    }
  }

  /**
   * With the default parameters at 16 kHz, one speech chunk followed by
   * 100 ms silence chunks completes on the 30th silence chunk and on no other.
   */
  lemma ThirtiethSilenceChunkCompletes(speech: seq<int>, t0: real, t0': real, chunks: seq<seq<int>>, times: seq<(real, real)>)
    requires |times| == |chunks| >= 30
    requires forall i :: 0 <= i < |chunks| ==> |chunks[i]| == 1600
    ensures var s1 := AppendStep(16000, DefaultParams(), Fresh, speech, true, t0, t0').0;
      forall k :: 0 <= k < |chunks| ==>
        (FeedSilence(16000, DefaultParams(), s1, chunks, times)[k] == Complete <==> k == 29)
  {
    var p := DefaultParams();
    var s1 := AppendStep(16000, p, Fresh, speech, true, t0, t0').0;
    assert s1.triggered && s1.silenceMs == 0.0;
    assert ChunkMs(16000, 1600) == 100.0;
    CompletesAtFirstCrossing(16000, p, s1, chunks, times);
    assert p.stopSecs * 1000.0 == 3000.0;
    var ds := FeedSilence(16000, p, s1, chunks, times);
    forall k | 0 <= k < |chunks|
      ensures ds[k] == Complete <==> k == 29
    {
      UniformSilenceMs(16000, chunks[..k], 1600);
      UniformSilenceMs(16000, chunks[..k + 1], 1600);
      assert SilenceMs(16000, chunks[..k + 1]) == (k + 1) as real * 100.0;
      assert SilenceMs(16000, chunks[..k]) == k as real * 100.0;
    }
  }

  // ---------------------------------------------------------------------
  // analyze_end_of_turn
  // ---------------------------------------------------------------------

  /** An empty buffer is INCOMPLETE without running the classifier. */
  lemma EmptyBufferSkipsClassifier(sampleRate: nat, p: SmartTurnParams, s: TurnState,
                                   predict: seq<int> -> Prediction)
    requires s.buffer == []
    ensures AnalyzeStep(sampleRate, p, s, predict).1 == Analysed(Incomplete, None)
  {
  }

  /**
   * With a speech start recorded, the classifier sees the speech segment
   * (when it is not empty) and its prediction 1, and only 1, completes the turn.
   */
  lemma ClassifierDecides(sampleRate: nat, p: SmartTurnParams, s: TurnState,
                          predict: seq<int> -> Prediction)
    requires s.buffer != [] && s.speechStart.Some?
    ensures var a := AnalyzeStep(sampleRate, p, s, predict).1;
      var segment := SpeechSegment(sampleRate, p, s.buffer, s.speechStart.value);
      && a.Analysed?
      && (segment == [] ==> a == Analysed(Incomplete, None))
      && (segment != [] ==> a.classified == Some(segment)
                            && (a.state == Complete <==> predict(segment).prediction == 1))
  {
  }

  /** Python's `int(...)` gives back a whole number of samples exactly. */
  lemma TruncOfWhole(n: int)
    ensures Trunc(n as real) == n
  {
  }

  /** All samples of `a + b` are those of `a` followed by those of `b`. */
  lemma {:induction false} ConcatOfJoin(a: seq<Entry>, b: seq<Entry>)
    ensures Concat(a + b) == Concat(a) + Concat(b)
  {
    if a == [] {
      assert a + b == b;
    } else {
      assert (a + b)[1..] == a[1..] + b;
      ConcatOfJoin(a[1..], b);
    }
  }

  /**
   * The segment holds the samples from the first chunk received at or after
   * `start - pre_speech_ms` (or from the head when none was), of which at
   * most the most recent `int(max_duration_secs * sample_rate)` are kept.
   */
  lemma SegmentIsRecentTail(sampleRate: nat, p: SmartTurnParams, buffer: seq<Entry>, start: real)
    requires MaxSamples(sampleRate, p) > 0
    ensures var from := SegmentStart(buffer, start - p.preSpeechMs / 1000.0);
      var all := Concat(buffer[from..]);
      var segment := SpeechSegment(sampleRate, p, buffer, start);
      |segment| == (if |all| < MaxSamples(sampleRate, p) then |all| else MaxSamples(sampleRate, p))
  {
    var from := SegmentStart(buffer, start - p.preSpeechMs / 1000.0);
    var all := Concat(buffer[from..]);
    var m := MaxSamples(sampleRate, p);
    ClampKeepsMostRecent(all, m);
    var segment := SpeechSegment(sampleRate, p, buffer, start);
    assert segment == ClampSegment(all, m);
  }

  /** A positive limit keeps exactly `min(len, m)` samples. */
  lemma ClampKeepsMostRecent(seg: seq<int>, m: int)
    requires m > 0
    ensures |ClampSegment(seg, m)| == if |seg| < m then |seg| else m
  {
    var k := if |seg| < m then |seg| else m;
    assert ClampSegment(seg, m) == seg[|seg| - k..];
  }

  /** With max_duration_secs = 8 at 16 kHz, a 10-second segment is cut to its last 128000 samples. */
  lemma MaxDurationClamp(buffer: seq<Entry>, start: real)
    requires forall i :: 0 <= i < |buffer| ==> buffer[i].time >= start
    requires |Concat(buffer)| == 160000
    ensures var segment := SpeechSegment(16000, DefaultParams(), buffer, start);
      |segment| == 128000 && segment == Concat(buffer)[32000..]
  {
    assert MaxSamples(16000, DefaultParams()) == 128000 by {
      TruncOfWhole(128000);
    }
    assert buffer != [];
    assert SegmentStart(buffer, start) == 0;
  }

  /**
   * The speech start is not always set when the buffer holds audio: after an
   * INCOMPLETE analysis the turn stays armed with no start time, so a
   * following silence chunk is buffered and the next analysis raises.
   */
  lemma AnalysisAfterIncompleteCanRaise(speech: seq<int>, silence: seq<int>,
                                        t0: real, t0': real, t1: real, t1': real)
    requires |silence| == 1600
    ensures var p := DefaultParams();
      var s1 := AppendStep(16000, p, Fresh, speech, true, t0, t0').0;
      var s2 := AnalyzeStep(16000, p, s1, _ => Prediction(0, 0.0)).0;
      var s3 := AppendStep(16000, p, s2, silence, false, t1, t1').0;
      && s3.buffer != [] && s3.speechStart == None
      && AnalyzeStep(16000, p, s3, _ => Prediction(0, 0.0)).1 == SpeechStartUnset
  {
    var p := DefaultParams();
    var s1 := AppendStep(16000, p, Fresh, speech, true, t0, t0').0;
    var s2 := AnalyzeStep(16000, p, s1, _ => Prediction(0, 0.0)).0;
    assert s2 == TurnState([], true, 0.0, None);
    assert ChunkMs(16000, 1600) == 100.0;
  }

  /**
   * The speech start is read from the clock after the triggering chunk was
   * stamped. With no pre-speech padding that chunk is then older than the
   * start; when nothing newer is buffered the search finds no entry and falls
   * back to the head, so the classifier is given the pre-speech silence too.
   * Only when both readings coincide does the segment start at the speech.
   */
  lemma FirstSpeechChunkPullsInPreSpeechAudio(silence: seq<int>, speech: seq<int>,
                                              t0: real, t: real, tb: real,
                                              predict: seq<int> -> Prediction)
    requires t0 < t <= tb && t - RetentionSecs(DefaultParams()) <= t0
    requires speech != [] && |silence| + |speech| <= 128000
    ensures var p := DefaultParams();
      var s1 := AppendStep(16000, p, Fresh, silence, false, t0, t0).0;
      var s2 := AppendStep(16000, p, s1, speech, true, t, tb).0;
      && s2.buffer == [Entry(t0, silence), Entry(t, speech)]
      && s2.speechStart == Some(tb)
      && AnalyzeStep(16000, p, s2, predict).1.classified
         == if t < tb then Some(silence + speech) else Some(speech)
  {
    var p := DefaultParams();
    var s1 := AppendStep(16000, p, Fresh, silence, false, t0, t0).0;
    assert s1.buffer == [Entry(t0, silence)];
    var s2 := AppendStep(16000, p, s1, speech, true, t, tb).0;
    var buffer := [Entry(t0, silence), Entry(t, speech)];
    assert s2.buffer == buffer && s2.speechStart == Some(tb);
    assert MaxSamples(16000, p) == 128000 by {
      assert p.maxDurationSecs * 16000 as real == 128000 as real;
      TruncOfWhole(128000);
    }
    assert Concat(buffer[1..]) == speech by {
      assert buffer[1..][1..] == [];
    }
    assert Concat(buffer) == silence + speech;
    if t < tb {
      assert FirstAtOrAfter(buffer[1..], tb) == 1 by {
        assert buffer[1..][1..] == [];
      }
      assert SegmentStart(buffer, tb - p.preSpeechMs / 1000.0) == 0;
      assert buffer[0..] == buffer;
    } else {
      assert SegmentStart(buffer, tb - p.preSpeechMs / 1000.0) == 1;
    }
  }
}
