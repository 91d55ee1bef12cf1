/**
  The capture side of the voice loop (module/realtime_transcription.py): the
  voice-activity detector that decides when an utterance has ended, the
  request stream fed to the streaming recogniser, and the assembly of the
  recogniser's responses into one transcript.

  Time is an integer number of milliseconds (the source reads `time.time()`
  in seconds); a frame is reduced to whether its RMS energy exceeds the
  silence threshold.
*/
module RealtimeTranscription {

  newtype byte = x: int | 0 <= x < 256

  /** SILENCE_DURATION, 2.0 s. */
  const SilenceDurationMs: int := 2000
  /** MIN_RECORDING_TIME, 1.0 s. */
  const MinRecordingTimeMs: int := 1000
  const SampleRateHertz: int := 16000
  const LanguageCode: string := "ja-JP"

  /** What realtime_transcribe returns when the recognition stream fails. */
  const TranscriptionFallback: string :=
    "何か挨拶か雑談をしてください（自己紹介, しゃべりかけてほしいとお願いする, 最近のトレンド情報を紹介するなど）"

  // ---------------------------------------------------------------------
  // Voice-activity detection
  // ---------------------------------------------------------------------

  /** The four detector fields of a RealtimeTranscriptionStream. */
  datatype VadState = VadState(
    isSpeaking: bool,
    lastSpeechTime: int,
    recordingStartTime: int,
    shouldStopRecording: bool)

  /** The detector fields as the constructor and realtime_transcribe set them. */
  const ResetState := VadState(false, 0, 0, false)

  /** One frame seen by the detector: `loud` stands for `rms > SILENCE_THRESHOLD`. */
  datatype Frame = Frame(loud: bool, now: int)

  /** The effect of one detect_speech call on the detector fields. */
  function Detect(s: VadState, loud: bool, now: int): (r: VadState)
    ensures s.shouldStopRecording ==> r.shouldStopRecording
    ensures r.shouldStopRecording && !s.shouldStopRecording ==> !loud && s.isSpeaking && !r.isSpeaking
  {
    if loud then
      var started := if s.isSpeaking then s else s.(isSpeaking := true, recordingStartTime := now);
      started.(lastSpeechTime := now)
    else if s.isSpeaking
      && now - s.recordingStartTime >= MinRecordingTimeMs
      && now - s.lastSpeechTime >= SilenceDurationMs then
      s.(isSpeaking := false, shouldStopRecording := true)
    else
      s
  }

  /** The detector fields after a sequence of detect_speech calls. */
  function DetectAll(s: VadState, frames: seq<Frame>): (r: VadState)
    ensures r.isSpeaking ==> s.isSpeaking || exists i :: 0 <= i < |frames| && frames[i].loud
    decreases |frames|
  {
    if frames == [] then s
    else
      var r := DetectAll(Detect(s, frames[0].loud, frames[0].now), frames[1..]);
      assert forall i :: 0 <= i < |frames| - 1 ==> frames[1..][i] == frames[i + 1];
      r
  }

  /** While speaking, the current utterance started no later than the last loud frame. */
  predicate Ordered(s: VadState)
  {
    s.isSpeaking ==> s.recordingStartTime <= s.lastSpeechTime
  }

  /** The clock never goes backwards across the frames. */
  predicate NonDecreasing(frames: seq<Frame>)
  {
    forall i, j :: 0 <= i < j < |frames| ==> frames[i].now <= frames[j].now
  }

  /** A loud frame starts an utterance if none is under way, always records the
      time as the last speech time, and leaves the stop flag alone. */
  lemma LoudFrame(s: VadState, now: int)
    ensures Detect(s, true, now).isSpeaking
    ensures Detect(s, true, now).lastSpeechTime == now
    ensures Detect(s, true, now).recordingStartTime == if s.isSpeaking then s.recordingStartTime else now
    ensures Detect(s, true, now).shouldStopRecording == s.shouldStopRecording
  {
  }

  /** A quiet frame outside an utterance changes nothing. */
  lemma QuietFrameWhileIdle(s: VadState, now: int)
    requires !s.isSpeaking
    ensures Detect(s, false, now) == s
  {
  }

  /** A quiet frame during an utterance ends it and raises the stop flag exactly
      when the utterance is long enough and the silence has lasted long enough;
      otherwise it changes nothing. */
  lemma QuietFrameWhileSpeaking(s: VadState, now: int)
    requires s.isSpeaking
    ensures var ends := now - s.recordingStartTime >= MinRecordingTimeMs && now - s.lastSpeechTime >= SilenceDurationMs;
      && (Detect(s, false, now) == s.(isSpeaking := false, shouldStopRecording := true) <==> ends)
      && (Detect(s, false, now) == s <==> !ends)
  {
  }

  /** From any idle state, a run of quiet frames changes no field; in particular
      from the reset state it never starts an utterance or asks to stop. */
  lemma {:induction false} AllQuietChangesNothing(s: VadState, frames: seq<Frame>)
    requires !s.isSpeaking
    requires forall i :: 0 <= i < |frames| ==> !frames[i].loud
    ensures DetectAll(s, frames) == s
    decreases |frames|
  {
    if frames != [] {
      QuietFrameWhileIdle(s, frames[0].now);
      AllQuietChangesNothing(s, frames[1..]);
    }
  }

  /** detect_speech never lowers the stop flag: once raised within a capture
      session it stays raised until realtime_transcribe resets it. */
  lemma {:induction false} StopFlagIsMonotone(s: VadState, frames: seq<Frame>)
    requires s.shouldStopRecording
    ensures DetectAll(s, frames).shouldStopRecording
    decreases |frames|
  {
    if frames != [] {
      StopFlagIsMonotone(Detect(s, frames[0].loud, frames[0].now), frames[1..]);
    }
  }

  /** One frame keeps Ordered when its time is not before the last speech time. */
  lemma DetectKeepsOrdered(s: VadState, loud: bool, now: int)
    requires Ordered(s) && s.lastSpeechTime <= now
    ensures Ordered(Detect(s, loud, now)) && Detect(s, loud, now).lastSpeechTime <= now
  {
  }

  /** With a clock that never goes backwards, Ordered holds after every frame. */
  lemma {:induction false} DetectAllKeepsOrdered(s: VadState, frames: seq<Frame>)
    requires Ordered(s)
    requires NonDecreasing(frames)
    requires frames != [] ==> s.lastSpeechTime <= frames[0].now
    ensures Ordered(DetectAll(s, frames))
    decreases |frames|
  {
    if frames != [] {
      var next := Detect(s, frames[0].loud, frames[0].now);
      DetectKeepsOrdered(s, frames[0].loud, frames[0].now);
      if |frames| > 1 {
        assert frames[1..][0] == frames[1];
      }
      DetectAllKeepsOrdered(next, frames[1..]);
    }
  }

  /** Given Ordered, the minimum-recording check is implied by the silence check,
      so a quiet frame ends an utterance exactly when the silence is long enough. */
  lemma QuietFrameEndsOnSilenceAlone(s: VadState, now: int)
    requires Ordered(s) && s.isSpeaking
    ensures Detect(s, false, now).shouldStopRecording
        <==> s.shouldStopRecording || now - s.lastSpeechTime >= SilenceDurationMs
    ensures !Detect(s, false, now).isSpeaking <==> now - s.lastSpeechTime >= SilenceDurationMs
  {
  }

  /** A burst of speech from `start` to `last` followed by a quiet frame at
      `now` raises the stop flag exactly when the silence reaches two seconds
      and the recording one second; the silence alone decides it. */
  lemma {:induction false} BurstThenSilence(start: int, last: int, now: int)
    requires 0 <= start <= last <= now
    ensures var s := DetectAll(ResetState, [Frame(true, start), Frame(true, last), Frame(false, now)]);
      && (s.shouldStopRecording <==> now - start >= MinRecordingTimeMs && now - last >= SilenceDurationMs)
      && (s.shouldStopRecording <==> now - last >= SilenceDurationMs)
      && s.isSpeaking != s.shouldStopRecording
  {
    var frames := [Frame(true, start), Frame(true, last), Frame(false, now)];
    var s1 := Detect(ResetState, true, start);
    var s2 := Detect(s1, true, last);
    assert frames[1..] == [Frame(true, last), Frame(false, now)];
    assert frames[1..][1..] == [Frame(false, now)];
    assert DetectAll(ResetState, frames) == DetectAll(s1, frames[1..]);
    assert DetectAll(s1, frames[1..]) == DetectAll(s2, frames[1..][1..]);
    assert DetectAll(s2, frames[1..][1..]) == DetectAll(Detect(s2, false, now), []);
    QuietFrameEndsOnSilenceAlone(s2, now);
  }

  // ---------------------------------------------------------------------
  // The audio queue and the request stream
  // ---------------------------------------------------------------------

  /** An item of the audio queue: PCM bytes, or the `None` end-of-stream marker. */
  datatype Chunk = Audio(pcm: seq<byte>) | EndOfStream

  datatype AudioEncoding = Linear16

  /** A StreamingRecognizeRequest: the configuration message or an audio payload. */
  datatype Request =
    | ConfigRequest(encoding: AudioEncoding, sampleRateHertz: int, languageCode: string, interimResults: bool)
    | AudioRequest(audioContent: seq<byte>)

  /** The first message of every request stream. */
  const StreamingConfig: Request := ConfigRequest(Linear16, SampleRateHertz, LanguageCode, false)

  /** The audio requests made from a queue: one per chunk, up to the first end marker. */
  function RequestsFrom(q: seq<Chunk>): (r: seq<Request>)
    ensures |r| <= |q|
    ensures forall i :: 0 <= i < |r| ==> q[i].Audio? && r[i] == AudioRequest(q[i].pcm)
  {
    if q == [] || q[0].EndOfStream? then [] else [AudioRequest(q[0].pcm)] + RequestsFrom(q[1..])
  }

  /** What is left of a queue once the request stream has stopped. */
  function AfterEndOfStream(q: seq<Chunk>): (r: seq<Chunk>)
    ensures |r| <= |q| && r == q[|q| - |r|..]
    ensures r != [] ==> |r| < |q| && q[|q| - |r| - 1] == EndOfStream
  {
    if q == [] then [] else if q[0].EndOfStream? then q[1..] else AfterEndOfStream(q[1..])
  }

  /** The queue a producer leaves after enqueuing PCM blocks and then the end marker. */
  function Enqueued(blocks: seq<seq<byte>>): (q: seq<Chunk>)
    ensures |q| == |blocks|
    ensures forall i :: 0 <= i < |blocks| ==> q[i] == Audio(blocks[i])
  {
    if blocks == [] then [] else [Audio(blocks[0])] + Enqueued(blocks[1..])
  }

  /** The request stream carries exactly the chunks before the first end marker,
      in FIFO order, and leaves the queue just after that marker. */
  lemma {:induction false} RequestsStopAtFirstEnd(q: seq<Chunk>, k: nat)
    requires k < |q| && q[k].EndOfStream?
    requires forall i :: 0 <= i < k ==> q[i].Audio?
    ensures |RequestsFrom(q)| == k
    ensures forall i :: 0 <= i < k ==> RequestsFrom(q)[i] == AudioRequest(q[i].pcm)
    ensures AfterEndOfStream(q) == q[k + 1..]
    decreases k
  {
    if k > 0 {
      assert q[1..][k - 1] == q[k];
      RequestsStopAtFirstEnd(q[1..], k - 1);
      forall i | 0 <= i < k ensures RequestsFrom(q)[i] == AudioRequest(q[i].pcm) {
        if i > 0 {
          assert q[1..][i - 1] == q[i];
        }
      }
      assert q[1..][k..] == q[k + 1..];
    }
  }

  /** A queue without an end marker is consumed whole. */
  lemma {:induction false} RequestsWithoutEnd(q: seq<Chunk>)
    requires EndOfStream !in q
    ensures |RequestsFrom(q)| == |q| && AfterEndOfStream(q) == []
    ensures forall i :: 0 <= i < |q| ==> RequestsFrom(q)[i] == AudioRequest(q[i].pcm)
    decreases |q|
  {
    if q != [] {
      assert q[0] != EndOfStream;
      assert forall c :: c in q[1..] ==> c in q;
      RequestsWithoutEnd(q[1..]);
    }
  }

  /** Producer and consumer round trip: what the capture task enqueues before its
      end marker is exactly what the request stream sends, in order. */
  lemma RequestsRoundTrip(blocks: seq<seq<byte>>, rest: seq<Chunk>)
    ensures RequestsFrom(Enqueued(blocks) + [EndOfStream] + rest)
         == seq(|blocks|, i requires 0 <= i < |blocks| => AudioRequest(blocks[i]))
    ensures AfterEndOfStream(Enqueued(blocks) + [EndOfStream] + rest) == rest
  {
    var q := Enqueued(blocks) + [EndOfStream] + rest;
    var k := |blocks|;
    assert q[k] == EndOfStream;
    assert forall i :: 0 <= i < k ==> q[i] == Audio(blocks[i]);
    RequestsStopAtFirstEnd(q, k);
    assert q[k + 1..] == rest;
  }

  // ---------------------------------------------------------------------
  // Transcript assembly
  // ---------------------------------------------------------------------

  datatype SpeechRecognitionAlternative = SpeechRecognitionAlternative(transcript: string)
  datatype StreamingRecognitionResult = StreamingRecognitionResult(alternatives: seq<SpeechRecognitionAlternative>)
  datatype StreamingRecognizeResponse = StreamingRecognizeResponse(results: seq<StreamingRecognitionResult>)

  /** What the recogniser delivered: the responses received, in order, and whether
      the stream (or the call that opened it) then raised an error. */
  datatype Recognition = Recognition(responses: seq<StreamingRecognizeResponse>, failed: bool)

  /** A response contributes a transcript when it has a result with an alternative. */
  predicate HasTranscript(r: StreamingRecognizeResponse)
  {
    |r.results| > 0 && |r.results[0].alternatives| > 0
  }

  /** The transcript of results[0].alternatives[0] of every response that has one, in order. */
  function Parts(responses: seq<StreamingRecognizeResponse>): (parts: seq<string>)
    ensures |parts| <= |responses|
    ensures (forall i :: 0 <= i < |responses| ==> HasTranscript(responses[i])) ==> |parts| == |responses|
  {
    if responses == [] then []
    else
      (if HasTranscript(responses[0]) then [responses[0].results[0].alternatives[0].transcript] else [])
      + Parts(responses[1..])
  }

  /** `"".join(parts)`. */
  function Join(parts: seq<string>): (text: string)
    ensures (forall i :: 0 <= i < |parts| ==> parts[i] == "") ==> text == ""
    ensures |parts| == 1 ==> text == parts[0]
  {
    if parts == [] then "" else parts[0] + Join(parts[1..])
  }

  lemma {:induction false} PartsAppend(a: seq<StreamingRecognizeResponse>, b: seq<StreamingRecognizeResponse>)
    ensures Parts(a + b) == Parts(a) + Parts(b)
    decreases |a|
  {
    if a != [] {
      assert (a + b)[0] == a[0];
      assert (a + b)[1..] == a[1..] + b;
      PartsAppend(a[1..], b);
    } else {
      assert a + b == b;
    }
  }

  lemma {:induction false} JoinAppend(a: seq<string>, b: seq<string>)
    ensures Join(a + b) == Join(a) + Join(b)
    decreases |a|
  {
    if a != [] {
      assert (a + b)[1..] == a[1..] + b;
      JoinAppend(a[1..], b);
    } else {
      assert a + b == b;
    }
  }

  /** The transcript of a concatenation of response streams is the concatenation
      of their transcripts: segments keep their arrival order. */
  lemma TranscriptAppend(a: seq<StreamingRecognizeResponse>, b: seq<StreamingRecognizeResponse>)
    ensures Join(Parts(a + b)) == Join(Parts(a)) + Join(Parts(b))
  {
    PartsAppend(a, b);
    JoinAppend(Parts(a), Parts(b));
  }

  /** A response without results or without alternatives has no effect on the
      transcript, wherever it arrives. */
  lemma TranscriptSkipsEmptyResponse(a: seq<StreamingRecognizeResponse>, r: StreamingRecognizeResponse,
                                     b: seq<StreamingRecognizeResponse>)
    requires !HasTranscript(r)
    ensures Join(Parts(a + [r] + b)) == Join(Parts(a + b))
  {
    PartsAppend(a + [r], b);
    PartsAppend(a, [r]);
    PartsAppend(a, b);
    assert [r][1..] == [];
    assert Parts([r]) == [];
    assert Parts(a + [r]) == Parts(a);
  }

  /** When no response carries a transcript, the result is the empty string. */
  lemma {:induction false} TranscriptOfEmptyResponses(responses: seq<StreamingRecognizeResponse>)
    requires forall i :: 0 <= i < |responses| ==> !HasTranscript(responses[i])
    ensures Join(Parts(responses)) == ""
    decreases |responses|
  {
    if responses != [] {
      assert !HasTranscript(responses[0]);
      assert Parts(responses) == Parts(responses[1..]);
      assert forall i :: 0 <= i < |responses| - 1 ==> responses[1..][i] == responses[i + 1];
      TranscriptOfEmptyResponses(responses[1..]);
    }
  }

  /** The fold of realtime_transcribe over the recogniser's responses: collect the
      top alternative of each response that has one, then join them; any stream
      error yields the fixed fallback prompt instead. */
  method AssembleTranscript(recognition: Recognition) returns (text: string)
    ensures recognition.failed ==> text == TranscriptionFallback
    ensures !recognition.failed ==> text == Join(Parts(recognition.responses))
  {
    var responses := recognition.responses;
    var transcriptParts: seq<string> := [];
    var i := 0;
    while i < |responses|
      invariant 0 <= i <= |responses|
      invariant transcriptParts == Parts(responses[..i])
    {
      var response := responses[i];
      PartsAppend(responses[..i], [response]);
      assert responses[..i + 1] == responses[..i] + [response];
      i := i + 1;
      if |response.results| == 0 {
        continue;
      }
      var result := response.results[0];
      if |result.alternatives| == 0 {
        continue;
      }
      transcriptParts := transcriptParts + [result.alternatives[0].transcript];
    }
    if recognition.failed {
      return TranscriptionFallback;
    }
    assert responses[..i] == responses;
    text := Join(transcriptParts);
  }

  // ---------------------------------------------------------------------
  // The stream object
  // ---------------------------------------------------------------------

  class RealtimeTranscriptionStream {
    var isSpeaking: bool
    var lastSpeechTime: int
    var recordingStartTime: int
    var shouldStopRecording: bool
    /** The asyncio.Queue shared by the capture task and the request stream. */
    var audioQueue: seq<Chunk>

    function State(): VadState
      reads this
    {
      VadState(isSpeaking, lastSpeechTime, recordingStartTime, shouldStopRecording)
    }

    constructor ()
      ensures State() == ResetState && audioQueue == []
    {
      isSpeaking := false;
      lastSpeechTime := 0;
      recordingStartTime := 0;
      shouldStopRecording := false;
      audioQueue := [];
    }

    /** detect_speech for a frame whose loudness is `loud`, seen at time `now`. */
    method DetectSpeech(loud: bool, now: int)
      modifies this
      ensures State() == Detect(old(State()), loud, now)
      ensures audioQueue == old(audioQueue)
    {
      if loud {
        if !isSpeaking {
          isSpeaking := true;
          recordingStartTime := now;
        }
        lastSpeechTime := now;
      } else {
        if isSpeaking {
          var silenceDuration := now - lastSpeechTime;
          var recordingDuration := now - recordingStartTime;
          if recordingDuration >= MinRecordingTimeMs && silenceDuration >= SilenceDurationMs {
            isSpeaking := false;
            shouldStopRecording := true;
          }
        }
      }
    }

    /** stream_requests run to its end: the configuration message, then one audio
        request per dequeued chunk until the end marker. `ended` is false when the
        queue ran dry first (the generator would then wait for more audio). */
    method StreamRequests() returns (requests: seq<Request>, ended: bool)
      modifies this`audioQueue
      ensures requests == [StreamingConfig] + RequestsFrom(old(audioQueue))
      ensures ended == (EndOfStream in old(audioQueue))
      ensures audioQueue == AfterEndOfStream(old(audioQueue))
    {
      requests := [StreamingConfig];
      ended := false;
      while |audioQueue| > 0
        invariant requests + RequestsFrom(audioQueue) == [StreamingConfig] + RequestsFrom(old(audioQueue))
        invariant (EndOfStream in audioQueue) == (EndOfStream in old(audioQueue))
        invariant AfterEndOfStream(audioQueue) == AfterEndOfStream(old(audioQueue))
        invariant !ended
        decreases |audioQueue|
      {
        var chunk := audioQueue[0];
        assert audioQueue == [chunk] + audioQueue[1..];
        audioQueue := audioQueue[1..];
        if chunk.EndOfStream? {
          ended := true;
          break;
        }
        requests := requests + [AudioRequest(chunk.pcm)];
      }
    }

    /** realtime_transcribe: reset the detector, drop stale audio, let the capture
        task enqueue the PCM `blocks` it recorded and then its end marker, stream
        them to the recogniser `recognize`, and fold the responses into one
        transcript (or the fallback on failure). */
    method RealtimeTranscribe(blocks: seq<seq<byte>>, recognize: seq<Request> -> Recognition)
      returns (text: string)
      modifies this
      ensures State() == ResetState
      ensures audioQueue == []
      ensures var audio := seq(|blocks|, i requires 0 <= i < |blocks| => AudioRequest(blocks[i]));
        var recognition := recognize([StreamingConfig] + audio);
        && (recognition.failed ==> text == TranscriptionFallback)
        && (!recognition.failed ==> text == Join(Parts(recognition.responses)))
    {
      isSpeaking := false;
      shouldStopRecording := false;
      lastSpeechTime := 0;
      recordingStartTime := 0;
      while |audioQueue| > 0
        invariant State() == ResetState
        decreases |audioQueue|
      {
        audioQueue := audioQueue[1..];
      }
      // the capture task's output, already on the queue: its blocks, then `None`
      audioQueue := audioQueue + Enqueued(blocks) + [EndOfStream];
      RequestsRoundTrip(blocks, []);
      assert audioQueue == Enqueued(blocks) + [EndOfStream] + [];
      var requests, _ := StreamRequests();
      var recognition := recognize(requests);
      text := AssembleTranscript(recognition);
    }
  }
}
