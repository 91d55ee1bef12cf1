/**
  The turn loop of main.py: each iteration takes one transcript, accumulates
  it as pending user input, sends the pending input to the agent and plays the
  answer. The agent and the player are abstract: the agent is a function of
  the queries sent earlier in the session and the new query, and both calls
  are recorded in a log of actions.

  As written, the dispatch at the end of every non-skipped iteration is
  unconditional, so the pending input is empty at the top of every iteration,
  the "unfinished sentence" branch never runs, and a transcript of one or two
  characters sends the empty query.
*/
module MainLoop {

  /** A side effect of the loop: a run_conversation call or a play_speech call. */
  datatype Action = RunConversation(query: string) | PlaySpeech(text: string)

  /** The agent's answer to a query, given the queries sent before it. */
  type AgentReply = (seq<string>, string) -> string

  /** The queries sent so far, in order. */
  function Queries(log: seq<Action>): seq<string>
    decreases |log|
  {
    if log == [] then []
    else
      var last := log[|log| - 1];
      Queries(log[..|log| - 1]) + (if last.RunConversation? then [last.query] else [])
  }

  /** `agent_output = run_conversation(query); play_speech(agent_output)`. */
  function Dispatch(log: seq<Action>, query: string, agent: AgentReply): seq<Action>
  {
    log + [RunConversation(query), PlaySpeech(agent(Queries(log), query))]
  }

  /** The loop's variables between iterations: `user_input` and what has been done. */
  datatype LoopState = LoopState(userInput: string, log: seq<Action>)

  const Start: LoopState := LoopState("", [])

  /** One iteration whose transcription returned `preUserInput`. */
  function Step(s: LoopState, preUserInput: string, agent: AgentReply): (r: LoopState)
    ensures preUserInput == "" ==> r == s
    ensures preUserInput != "" ==> r.userInput == "" && |r.log| > |s.log|
    ensures s.log <= r.log
  {
    if preUserInput == "" then s
    else
      var s' :=
        if |preUserInput| < 3 then
          if s.userInput == "" then s else LoopState("", Dispatch(s.log, s.userInput, agent))
        else
          s.(userInput := s.userInput + preUserInput);
      LoopState("", Dispatch(s'.log, s'.userInput, agent))
  }

  /** The loop run over a series of transcripts. */
  function Run(s: LoopState, transcripts: seq<string>, agent: AgentReply): (r: LoopState)
    ensures s.log <= r.log
    decreases |transcripts|
  {
    if transcripts == [] then s
    else
      var next := Step(s, transcripts[0], agent);
      var r := Run(next, transcripts[1..], agent);
      r
  }

  /** The queries one transcript leads to: none when it is empty, the transcript
      itself from three characters on, and the empty query below that. */
  function SentFor(transcript: string): seq<string>
  {
    if transcript == "" then [] else [if |transcript| >= 3 then transcript else ""]
  }

  /** The queries a series of transcripts leads to. */
  function Sent(transcripts: seq<string>): seq<string>
    decreases |transcripts|
  {
    if transcripts == [] then [] else SentFor(transcripts[0]) + Sent(transcripts[1..])
  }

  /** Every run_conversation is followed at once by playing the answer it returned. */
  ghost predicate Paired(log: seq<Action>, agent: AgentReply)
    decreases |log|
  {
    if log == [] then true
    else
      && |log| >= 2
      && var prefix := log[..|log| - 2];
      && log[|log| - 2].RunConversation?
      && log[|log| - 1] == PlaySpeech(agent(Queries(prefix), log[|log| - 2].query))
      && Paired(prefix, agent)
  }

  lemma DispatchAppendsQuery(log: seq<Action>, query: string, agent: AgentReply)
    ensures Queries(Dispatch(log, query, agent)) == Queries(log) + [query]
    ensures Paired(log, agent) ==> Paired(Dispatch(log, query, agent), agent)
  {
    var d := Dispatch(log, query, agent);
    assert d[..|d| - 1] == log + [RunConversation(query)];
    assert (log + [RunConversation(query)])[..|log|] == log;
    assert d[..|d| - 2] == log;
  }

  /** An empty transcript skips the iteration: no call, no playback, input kept. */
  lemma EmptyTranscriptSkips(s: LoopState, agent: AgentReply)
    ensures Step(s, "", agent) == s
  {
  }

  /** With no pending input, a non-empty transcript makes exactly one
      run_conversation call, followed by playing its answer: the transcript
      itself when it has three characters or more, the empty query otherwise.
      The branch that sends earlier pending input is never taken. */
  lemma StepWithoutPendingInput(s: LoopState, preUserInput: string, agent: AgentReply)
    requires s.userInput == "" && preUserInput != ""
    ensures Step(s, preUserInput, agent)
         == LoopState("", Dispatch(s.log, if |preUserInput| >= 3 then preUserInput else "", agent))
  {
    if |preUserInput| >= 3 {
      assert s.userInput + preUserInput == preUserInput;
    }
  }

  /** One iteration with no pending input sends the queries SentFor(t), each
      followed by playing its answer, and ends with no pending input. */
  lemma StepSendsOne(s: LoopState, t: string, agent: AgentReply)
    requires s.userInput == ""
    ensures Step(s, t, agent).userInput == ""
    ensures Queries(Step(s, t, agent).log) == Queries(s.log) + SentFor(t)
    ensures Paired(s.log, agent) ==> Paired(Step(s, t, agent).log, agent)
  {
    if t == "" {
      assert Queries(s.log) + [] == Queries(s.log);
    } else {
      StepWithoutPendingInput(s, t, agent);
      DispatchAppendsQuery(s.log, if |t| >= 3 then t else "", agent);
    }
  }

  /** One unfolding of RunSendsEachTranscript: if the rest of the run sends
      Sent(rest) after the first iteration, the whole run sends Sent(transcripts). */
  lemma RunSendsFirstThenRest(s: LoopState, transcripts: seq<string>, agent: AgentReply)
    requires s.userInput == "" && transcripts != []
    requires Queries(Run(Step(s, transcripts[0], agent), transcripts[1..], agent).log)
          == Queries(Step(s, transcripts[0], agent).log) + Sent(transcripts[1..])
    ensures Queries(Run(s, transcripts, agent).log) == Queries(s.log) + Sent(transcripts)
  {
    StepSendsOne(s, transcripts[0], agent);
    var before, now, later := Queries(s.log), SentFor(transcripts[0]), Sent(transcripts[1..]);
    assert Run(s, transcripts, agent) == Run(Step(s, transcripts[0], agent), transcripts[1..], agent);
    assert Sent(transcripts) == now + later;
    ConcatAssociates(before, now, later);
  }

  lemma ConcatAssociates<T>(a: seq<T>, b: seq<T>, c: seq<T>)
    ensures (a + b) + c == a + (b + c)
  {
  }

  /** Starting with no pending input, the queries sent are exactly Sent(transcripts). */
  lemma {:induction false} RunSendsEachTranscript(s: LoopState, transcripts: seq<string>, agent: AgentReply)
    requires s.userInput == ""
    ensures Queries(Run(s, transcripts, agent).log) == Queries(s.log) + Sent(transcripts)
    decreases |transcripts|
  {
    if transcripts == [] {
      assert Queries(s.log) + [] == Queries(s.log);
    } else {
      var next := Step(s, transcripts[0], agent);
      StepSendsOne(s, transcripts[0], agent);
      RunSendsEachTranscript(next, transcripts[1..], agent);
      RunSendsFirstThenRest(s, transcripts, agent);
    }
  }

  /** Starting with no pending input, the input is empty again after every
      iteration, and every call the loop makes is followed at once by playing
      the answer it returned. */
  lemma {:induction false} RunPlaysEachAnswer(s: LoopState, transcripts: seq<string>, agent: AgentReply)
    requires s.userInput == "" && Paired(s.log, agent)
    ensures Run(s, transcripts, agent).userInput == ""
    ensures Paired(Run(s, transcripts, agent).log, agent)
    decreases |transcripts|
  {
    if transcripts != [] {
      StepSendsOne(s, transcripts[0], agent);
      RunPlaysEachAnswer(Step(s, transcripts[0], agent), transcripts[1..], agent);
    }
  }

  /** main(): the loop over the transcripts that successive realtime_transcribe
      calls return. The log records the agent calls and playbacks in order. */
  method TurnLoop(transcripts: seq<string>, agent: AgentReply) returns (log: seq<Action>)
    ensures log == Run(Start, transcripts, agent).log
    ensures Queries(log) == Sent(transcripts)
    ensures Paired(log, agent)
  {
    var preUserInput := "";
    var userInput := "";
    log := [];
    var n := 0;
    while n < |transcripts|
      invariant 0 <= n <= |transcripts|
      invariant Run(LoopState(userInput, log), transcripts[n..], agent) == Run(Start, transcripts, agent)
    {
      assert transcripts[n..][0] == transcripts[n] && transcripts[n..][1..] == transcripts[n + 1..];
      preUserInput := transcripts[n];
      n := n + 1;
      if preUserInput == "" {
        continue;
      }
      if |preUserInput| < 3 {
        if userInput == "" {
        } else {
          var agentOutput := agent(Queries(log), userInput);
          log := log + [RunConversation(userInput), PlaySpeech(agentOutput)];
          userInput := "";
        }
      } else {
        userInput := userInput + preUserInput;
      }
      // the unconditional dispatch of every non-skipped iteration
      var agentOutput := agent(Queries(log), userInput);
      log := log + [RunConversation(userInput), PlaySpeech(agentOutput)];
      userInput := "";
    }
    RunSendsEachTranscript(Start, transcripts, agent);
    RunPlaysEachAnswer(Start, transcripts, agent);
  }
}
