# Zundamon voice loop — a Dafny model

This project models the decision logic under a voice chatbot. The chatbot
listens to the microphone and transcribes each utterance with a streaming
recogniser. It sends the text to a hosted agent, checks the agent's reply
with a moderation service, and plays the approved reply through speech
synthesis. Four pieces of that loop are modelled and proved:

- **Voice-activity detection and transcript assembly**
  (`realtime_transcription.dfy`, module `RealtimeTranscription`). The four
  detector fields of `RealtimeTranscriptionStream` live in a class. The class
  methods `DetectSpeech`, `StreamRequests` and `RealtimeTranscribe` are proved
  against the specification functions `Detect`, `RequestsFrom`/`AfterEndOfStream`
  and `Parts`/`Join`. Lemmas state what the detector promises: a quiet run
  outside an utterance changes nothing, the stop flag only rises, and utterance start ≤ last
  speech. They also state that the request stream sends the queued chunks in
  FIFO order up to the first end marker, and that the transcript is the
  in-order concatenation of the top alternatives.
- **The turn loop** (`main_loop.dfy`, module `MainLoop`). `TurnLoop` runs the loop
  of `main.py` over the transcripts that successive transcriptions return. It
  is proved against the step function `Step`. The lemmas show that the pending
  input is empty at the top of every iteration. So the branch that would send
  earlier pending input never runs. Each non-empty transcript causes exactly
  one agent call, followed at once by playing its answer.
- **Reply reduction, moderation gate and sessions** (`zunda_agent.dfy`, module
  `Agent`). `ZundaAgent.CallAgentAsync` folds the runner's events, stops at
  an escalation, and substitutes the refusal when moderation blocks.
  `ZundaAgent.RunConversation` creates the session only when the lookup finds
  none.
- **Moderation verdict** (`model_armor.dfy`, module `ModelArmor`). This is the
  fail-closed decision of `call_model_armor_api`.

Time is integer milliseconds. A frame is reduced to `loud`, which stands for
`rms > SILENCE_THRESHOLD`. The recogniser, the agent runner and the Model
Armor client are function parameters: from the requests to the responses,
from the session key and query to the events, and from the sanitize request
to its outcome.

Where a comment or a name in the code promises more than the code does, the
model follows the code:

- When nothing is pending, a transcript of one or two characters meets the
  `pass` of main.py:26-28, which reads as "send nothing". But the `if True:`
  dispatch at main.py:37-40 runs afterwards anyway and sends the empty query
  (`StepWithoutPendingInput`).
- The name `MIN_RECORDING_TIME` (module/realtime_transcription.py:24)
  suggests that a burst of speech shorter than one second never ends an
  utterance. But the recording duration is measured up to the quiet frame,
  not up to the last loud one, so half a second of speech followed by two
  seconds of silence does end it. With a clock that never goes backwards, the
  minimum-recording test can never decide the outcome
  (`QuietFrameEndsOnSilenceAlone`, `BurstThenSilence`).
- The verdict at module/model_armor_plugin.py:50 compares
  `invocation_result` with Python's `True`, which equals the integer 1, so
  the model tests the value against 1.

## Model

| member | source | states |
|---|---|---|
| `RealtimeTranscription.Detect` | module/realtime_transcription.py:33-51 | one detect_speech call never lowers the stop flag, and raises it only on a quiet frame that ends an utterance under way |
| `RealtimeTranscription.DetectAll` | module/realtime_transcription.py:33-51 | after a series of detect_speech calls the detector can be speaking only if it already was or some frame was loud |
| `RealtimeTranscription.LoudFrame` | module/realtime_transcription.py:37-42 | a loud frame sets speaking, sets the start time only when not already speaking, always records the last speech time, and keeps the stop flag |
| `RealtimeTranscription.QuietFrameWhileIdle` | module/realtime_transcription.py:43-44 | a quiet frame while not speaking changes no field |
| `RealtimeTranscription.QuietFrameWhileSpeaking` | module/realtime_transcription.py:43-51 | a quiet frame while speaking ends the utterance and raises the stop flag iff recording ≥ 1000 ms and silence ≥ 2000 ms, and otherwise changes nothing |
| `RealtimeTranscription.AllQuietChangesNothing` | module/realtime_transcription.py:43-51 | from any idle state (the reset state in particular) a run of quiet frames leaves every field unchanged, so it never starts speaking or asks to stop |
| `RealtimeTranscription.StopFlagIsMonotone` | module/realtime_transcription.py:33-51 | no sequence of detect_speech calls lowers a raised stop flag |
| `RealtimeTranscription.DetectKeepsOrdered` | module/realtime_transcription.py:37-42 | one frame at a time not earlier than the last speech time keeps start ≤ last speech while speaking |
| `RealtimeTranscription.DetectAllKeepsOrdered` | module/realtime_transcription.py:37-51 | with a non-decreasing clock, start ≤ last speech holds whenever speaking, after any frame sequence |
| `RealtimeTranscription.QuietFrameEndsOnSilenceAlone` | module/realtime_transcription.py:45-50 | under that ordering the minimum-recording check is implied: a quiet frame ends the utterance iff silence ≥ 2000 ms |
| `RealtimeTranscription.BurstThenSilence` | module/realtime_transcription.py:37-51 | a burst from start to last followed by a quiet frame stops iff silence ≥ 2 s and recording ≥ 1 s, which reduces to the silence test |
| `RealtimeTranscription.RequestsFrom` | module/realtime_transcription.py:92-99 | there are at most as many audio requests as queue items, and request i carries the PCM of chunk i, which is audio |
| `RealtimeTranscription.AfterEndOfStream` | module/realtime_transcription.py:92-96 | what the stream leaves is a suffix of the queue, and when it is not empty it follows an end marker |
| `RealtimeTranscription.Enqueued` | module/realtime_transcription.py:62-76 | the capture task enqueues one audio chunk per recorded block, in recording order |
| `RealtimeTranscription.RequestsStopAtFirstEnd` | module/realtime_transcription.py:92-99 | the audio requests are exactly the chunks before the first end marker, in FIFO order, and the queue is left just after that marker |
| `RealtimeTranscription.RequestsWithoutEnd` | module/realtime_transcription.py:92-97 | with no end marker every chunk of the queue is sent, in order, as one audio request, and nothing is left |
| `RealtimeTranscription.RequestsRoundTrip` | module/realtime_transcription.py:76-99 | what the capture task enqueues before its end marker is what the request stream sends, in order |
| `RealtimeTranscription.Parts` | module/realtime_transcription.py:123-131 | at most one transcript segment per response, and exactly one per response when every response has a result with an alternative |
| `RealtimeTranscription.Join` | module/realtime_transcription.py:141-142 | joining empty segments gives the empty string, and a single segment is returned as it is |
| `RealtimeTranscription.TranscriptAppend` | module/realtime_transcription.py:123-142 | the transcript of two response streams back to back is the concatenation of their transcripts |
| `RealtimeTranscription.TranscriptSkipsEmptyResponse` | module/realtime_transcription.py:124-128 | a response without results or without alternatives changes nothing, wherever it arrives |
| `RealtimeTranscription.TranscriptOfEmptyResponses` | module/realtime_transcription.py:141-142 | with no usable response the transcript is the empty string |
| `RealtimeTranscription.AssembleTranscript` | module/realtime_transcription.py:118-142 | the result is the fallback prompt on any stream failure, otherwise the join of the top alternatives of the usable responses |
| `RealtimeTranscription.RealtimeTranscriptionStream.constructor` | module/realtime_transcription.py:19-31 | the detector starts not speaking, with times 0, no stop request and an empty queue |
| `RealtimeTranscription.RealtimeTranscriptionStream.DetectSpeech` | module/realtime_transcription.py:33-51 | the new detector fields are `Detect` of the old ones; the queue is untouched |
| `RealtimeTranscription.RealtimeTranscriptionStream.StreamRequests` | module/realtime_transcription.py:79-99 | the configuration message (LINEAR16, 16000 Hz, ja-JP, no interim results) comes first, then one audio request per chunk up to the first end marker; the queue keeps what follows it |
| `RealtimeTranscription.RealtimeTranscriptionStream.RealtimeTranscribe` | module/realtime_transcription.py:101-142 | all four detector fields are reset, stale queue content is dropped, the recogniser receives the configuration and then exactly the blocks this call's capture task recorded, in order, the queue ends empty, and the transcript (or fallback) depends only on that audio; this holds when no earlier call failed and left its capture task running |
| `ModelArmor.BuildRequest` | module/model_armor_plugin.py:41-45 | the request carries the configured template name and the text unchanged |
| `ModelArmor.Verdict` | module/model_armor_plugin.py:46-56 | the verdict allows exactly when the call returned without an exception and its invocation result equals `True` |
| `ModelArmor.CallModelArmorApi` | module/model_armor_plugin.py:39-56 | exactly one sanitize request is made, carrying the template name and the text, and the verdict is decided by that request's outcome: allowed iff it returned without an exception and with result `True` |
| `ModelArmor.AllowedIff` | module/model_armor_plugin.py:46-56 | the text passes iff the call returned without an exception and its invocation result equals `True` |
| `ModelArmor.ExceptionBlocks` | module/model_armor_plugin.py:53-55 | any exception from the client blocks (fail-closed) |
| `ModelArmor.NonTrueResultBlocks` | module/model_armor_plugin.py:50-52 | any invocation result other than `True` blocks |
| `Agent.EscalationText` | module/zunda_agent.py:84-85 | the escalation reply is the prefix plus the error message, or 'No specific message.' when that is absent or empty |
| `Agent.FinalResponse` | module/zunda_agent.py:78-86 | the reply is the default, the first part of some final event with content, or the escalation text of some escalating event |
| `Agent.InertEventsKeepReply` | module/zunda_agent.py:79-86 | events that neither carry final content nor escalate leave the reply unchanged |
| `Agent.NoFinalEventGivesDefault` | module/zunda_agent.py:78-81 | with no final event the reply is "Agent did not produce a final response." |
| `Agent.InertEventIgnored` | module/zunda_agent.py:79-86 | a non-final event, or a final one with neither content nor escalation, can be inserted anywhere without changing the reply |
| `Agent.LastContentWins` | module/zunda_agent.py:81-83 | without escalation the last final event with content gives the reply (`parts[0]`) |
| `Agent.FirstEscalationStops` | module/zunda_agent.py:84-86 | the first escalating event gives the reply, whatever content came before and whatever follows |
| `Agent.Gate` | module/zunda_agent.py:88-93 | a blocked reply becomes the fixed refusal; an allowed one is returned unchanged |
| `Agent.CreatesFor` | module/zunda_agent.py:97-107 | a series of conversations makes at most one create per conversation, and none when every session already exists |
| `Agent.CreatesAreNew` | module/zunda_agent.py:97-107 | every create is for a key that was asked for and that the store did not hold before the series |
| `Agent.CreatesAreDistinct` | module/zunda_agent.py:97-107 | no key is created twice over a series of conversations |
| `Agent.AtMostOneCreatePerSession` | module/zunda_agent.py:97-107 | over any series of conversations each session is created at most once, never when it exists, and only for a key asked for |
| `Agent.RepeatedKeyCreatesOnce` | module/zunda_agent.py:102-107 | a second conversation on the same key makes no second create |
| `Agent.SessionService.GetSession` | module/zunda_agent.py:97-101 | the lookup finds a session iff the store holds its key |
| `Agent.SessionService.CreateSession` | module/zunda_agent.py:103-107 | creating adds the key to the store and logs one create call |
| `Agent.ZundaAgent.constructor` | module/zunda_agent.py:19-27 | the agent keeps its user, session and template identifiers and owns an empty session store |
| `Agent.ZundaAgent.CallAgentAsync` | module/zunda_agent.py:75-93 | the returned text is the reduced reply of the runner's events if moderation allows it, and the refusal otherwise |
| `Agent.ZundaAgent.RunConversation` | module/zunda_agent.py:95-110 | the session exists afterwards, one create is logged only if it was absent, and the text is that of call_agent_async |
| `MainLoop.Step` | main.py:21-40 | an empty transcript changes nothing; any other leaves the pending input empty and appends at least one call to the log; the earlier log is kept as it was |
| `MainLoop.Run` | main.py:16-40 | a run only appends to the log: the earlier actions are kept as they were |
| `MainLoop.DispatchAppendsQuery` | main.py:38-39 | one dispatch adds exactly its query to the queries sent, and is followed by playing the agent's answer |
| `MainLoop.EmptyTranscriptSkips` | main.py:21-23 | an empty transcript skips the iteration: no call, no playback, pending input kept |
| `MainLoop.StepWithoutPendingInput` | main.py:25-40 | with no pending input a non-empty transcript makes exactly one call: the transcript verbatim from three characters on, the empty query below; the pending-input branch is not taken |
| `MainLoop.StepSendsOne` | main.py:21-40 | from empty pending input, one iteration sends exactly the queries its transcript leads to (none if empty), plays each answer right after its call, and leaves the pending input empty |
| `MainLoop.RunSendsFirstThenRest` | main.py:16-40 | if the iterations after the first send Sent of the remaining transcripts, the whole run sends Sent of all of them |
| `MainLoop.RunSendsEachTranscript` | main.py:16-40 | from empty pending input, the queries sent over a run are exactly one per non-empty transcript, in order: the transcript itself from three characters on, the empty query below |
| `MainLoop.RunPlaysEachAnswer` | main.py:16-40 | from empty pending input, the input is empty after every iteration and every call is followed at once by playing the answer it returned |
| `MainLoop.TurnLoop` | main.py:14-41 | the loop's log is that of the step function; its queries are one per non-empty transcript; each call is followed by playing its answer |

## Left out

- Microphone capture (`write_chunks_to_queue`) is left out: the sounddevice callback, the cross-thread hand-off to the event loop and the polling sleep. `RealtimeTranscribe` takes the PCM blocks the capture task recorded as the parameter `blocks`, and enqueues them followed by the end marker, as the capture task does when it stops.
- RealtimeTranscription.RealtimeTranscriptionStream.RealtimeTranscribe: the `detect_speech` calls made by the capture task during capture are not interleaved, so the model leaves the detector fields as reset. The request stream is drained before the recogniser's responses are read, so on a stream failure the model may consume more of the queue than the real generator. On a stream failure the fallback is returned at line 136 without awaiting or cancelling the capture task started at line 116. That task keeps calling `detect_speech` and enqueuing audio into the next call, whose reset at line 105 lowers its stop flag again, and its late end marker can end the next call's request stream early. The model gives every call one fresh producer that has stopped, so its promises about the recogniser's input and the empty queue hold only when every earlier call succeeded.
- The RMS energy and the float-to-PCM conversion are floating-point numerics and are left out. A frame is reduced to `loud`, the clock to integer milliseconds, and the 0.01 threshold lives inside `loud`.
- The Google Speech client, the Model Armor client and the agent runner are not reimplemented. Each is a function parameter. The runner's dependence on the session history is inside that function.
- module/speech_synthesis.py (VoiceVox HTTP calls, ID token, WAV playback) is not part of this model. Playback is the `PlaySpeech` action in the turn loop's log.
- `ZundaAgent.__init__`'s credential, Vertex AI and genai setup and `send_query` are left out. They are startup configuration and an `asyncio.run` wrapper.
- The agent-to-agent servers, agent cards and LLM agent configuration are left out. The 100-character reply rule is a prompt instruction, not code.
- `_test_transcription`, `time.sleep(0.01)` and all console output are left out.
- Agent.ZundaAgent.CallAgentAsync, Agent.ZundaAgent.RunConversation, MainLoop.TurnLoop: exceptions are not modelled. `call_agent_async` has no handler around `runner.run_async`, and `run_conversation` has none around `get_session` or `create_session`. A capture failure is re-raised when realtime_transcribe awaits the capture task. Each of these escapes main's `while True` loop, and only `KeyboardInterrupt` is caught at the top level, so one such error ends the program. The runner, session service, recogniser and agent parameters of the model are total, so `TurnLoop` always handles every transcript.
- MainLoop.TurnLoop: the `while True` loop is modelled over a finite sequence of transcripts, and the agent is abstract, given the earlier queries and the new one.
- Agent.Event: a part's text is taken to be present. A part without text, which would make the reply `None`, is not modelled.

