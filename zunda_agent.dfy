/**
  The conversation side of the voice loop (module/zunda_agent.py): reducing the
  agent runner's event stream to one reply, gating that reply through the
  moderation check, and creating the conversation session on first use.

  The agent runner and the Model Armor client are parameters: the runner is a
  function from the session key and the query to the events of that turn, the
  client a function from a sanitize request to its outcome.
*/
module Agent {
  import ModelArmor

  const AppName: string := "zundamon_app"
  const NoFinalResponse: string := "Agent did not produce a final response."
  const EscalationPrefix: string := "Agent escalated: "
  const NoSpecificMessage: string := "No specific message."
  /** The reply substituted for one the moderation check blocks. */
  const Refusal: string := "申し訳ないのだが、その内容にはお答えできないのだ。別の質問をお願いするのだ〜。"

  datatype Option<T> = None | Some(value: T)

  /** One runner event: whether is_final_response() holds, the texts of
      content.parts (empty when the content or its parts are missing),
      actions.escalate, and error_message. */
  datatype Event = Event(isFinal: bool, parts: seq<string>, escalate: bool, errorMessage: Option<string>)

  /** A final event with content: its first part becomes the reply. */
  predicate CarriesContent(e: Event)
  {
    e.isFinal && |e.parts| > 0
  }

  /** A final event without content that escalates: the reply is the escalation
      text and no further event is read. */
  predicate Escalates(e: Event)
  {
    e.isFinal && |e.parts| == 0 && e.escalate
  }

  /** Every other event leaves the reply alone. */
  predicate Inert(e: Event)
  {
    !CarriesContent(e) && !Escalates(e)
  }

  /** `f"Agent escalated: {error_message or 'No specific message.'}"`. */
  function EscalationText(message: Option<string>): (t: string)
    ensures message.Some? && message.value != "" ==> t == EscalationPrefix + message.value
    ensures message.None? || message.value == "" ==> t == EscalationPrefix + NoSpecificMessage
  {
    EscalationPrefix + if message.Some? && message.value != "" then message.value else NoSpecificMessage
  }

  /** The reply left in final_response_text after reading `events` with `reply` so far. */
  function FinalResponse(events: seq<Event>, reply: string): (r: string)
    ensures r == reply
         || (exists e :: e in events && CarriesContent(e) && r == e.parts[0])
         || (exists e :: e in events && Escalates(e) && r == EscalationText(e.errorMessage))
    decreases |events|
  {
    if events == [] then reply
    else
      assert forall e :: e in events[1..] ==> e in events;
      if CarriesContent(events[0]) then FinalResponse(events[1..], events[0].parts[0])
      else if Escalates(events[0]) then EscalationText(events[0].errorMessage)
      else FinalResponse(events[1..], reply)
  }

  /** Events that neither carry content nor escalate leave the reply unchanged;
      in particular a stream with no final event yields the default reply. */
  lemma {:induction false} InertEventsKeepReply(events: seq<Event>, reply: string)
    requires forall j :: 0 <= j < |events| ==> Inert(events[j])
    ensures FinalResponse(events, reply) == reply
    decreases |events|
  {
    if events != [] {
      assert forall j :: 0 <= j < |events| - 1 ==> events[1..][j] == events[j + 1];
      InertEventsKeepReply(events[1..], reply);
    }
  }

  /** If no event is final, the reply is "Agent did not produce a final response.". */
  lemma NoFinalEventGivesDefault(events: seq<Event>)
    requires forall j :: 0 <= j < |events| ==> !events[j].isFinal
    ensures FinalResponse(events, NoFinalResponse) == NoFinalResponse
  {
    InertEventsKeepReply(events, NoFinalResponse);
  }

  /** An inert event, such as a non-final one, may be inserted anywhere in the
      stream without changing the reply. */
  lemma {:induction false} InertEventIgnored(a: seq<Event>, e: Event, b: seq<Event>, reply: string)
    requires Inert(e)
    ensures FinalResponse(a + [e] + b, reply) == FinalResponse(a + b, reply)
    decreases |a|
  {
    if a == [] {
      assert a + [e] + b == [e] + b;
      assert ([e] + b)[1..] == b;
      assert a + b == b;
    } else {
      assert (a + [e] + b)[0] == a[0] && (a + b)[0] == a[0];
      assert (a + [e] + b)[1..] == a[1..] + [e] + b;
      assert (a + b)[1..] == a[1..] + b;
      if CarriesContent(a[0]) {
        InertEventIgnored(a[1..], e, b, a[0].parts[0]);
      } else if !Escalates(a[0]) {
        InertEventIgnored(a[1..], e, b, reply);
      }
    }
  }

  /** Without escalation, the last event that carries content sets the reply. */
  lemma {:induction false} LastContentWins(events: seq<Event>, reply: string, k: nat)
    requires k < |events| && CarriesContent(events[k])
    requires forall j :: 0 <= j < |events| ==> !Escalates(events[j])
    requires forall j :: k < j < |events| ==> !CarriesContent(events[j])
    ensures FinalResponse(events, reply) == events[k].parts[0]
    decreases k
  {
    var rest := events[1..];
    assert forall j :: 0 <= j < |rest| ==> rest[j] == events[j + 1];
    if k == 0 {
      InertEventsKeepReply(rest, events[0].parts[0]);
    } else if CarriesContent(events[0]) {
      LastContentWins(rest, events[0].parts[0], k - 1);
    } else {
      LastContentWins(rest, reply, k - 1);
    }
  }

  /** The first escalating event decides the reply, whatever came before it with
      content and whatever follows it. */
  lemma {:induction false} FirstEscalationStops(events: seq<Event>, reply: string, k: nat)
    requires k < |events| && Escalates(events[k])
    requires forall j :: 0 <= j < k ==> !Escalates(events[j])
    ensures FinalResponse(events, reply) == EscalationText(events[k].errorMessage)
    decreases k
  {
    if k > 0 {
      var rest := events[1..];
      assert forall j :: 0 <= j < |rest| ==> rest[j] == events[j + 1];
      if CarriesContent(events[0]) {
        FirstEscalationStops(rest, events[0].parts[0], k - 1);
      } else {
        FirstEscalationStops(rest, reply, k - 1);
      }
    }
  }

  /** The moderation gate: a blocked reply becomes the fixed refusal. */
  function Gate(reply: string, allowed: bool): (text: string)
    ensures !allowed ==> text == Refusal
    ensures allowed ==> text == reply
  {
    if allowed then reply else Refusal
  }

  // ---------------------------------------------------------------------
  // Sessions
  // ---------------------------------------------------------------------

  datatype SessionKey = SessionKey(appName: string, userId: string, sessionId: string)

  /** The create_session calls made by a series of run_conversation calls on
      `keys`, against a store that already holds `sessions`. */
  function CreatesFor(sessions: set<SessionKey>, keys: seq<SessionKey>): (creates: seq<SessionKey>)
    ensures |creates| <= |keys|
    ensures (forall i :: 0 <= i < |keys| ==> keys[i] in sessions) ==> creates == []
    decreases |keys|
  {
    if keys == [] then []
    else (if keys[0] in sessions then [] else [keys[0]]) + CreatesFor(sessions + {keys[0]}, keys[1..])
  }

  /** A session is created only when it does not exist yet, and only for a key
      that was asked for. */
  lemma {:induction false} CreatesAreNew(sessions: set<SessionKey>, keys: seq<SessionKey>)
    ensures forall k :: k in CreatesFor(sessions, keys) ==> k !in sessions && k in keys
    decreases |keys|
  {
    if keys != [] {
      CreatesAreNew(sessions + {keys[0]}, keys[1..]);
      assert forall x :: x in keys[1..] ==> x in keys;
    }
  }

  /** No session is created twice. */
  lemma {:induction false} CreatesAreDistinct(sessions: set<SessionKey>, keys: seq<SessionKey>)
    ensures forall i, j :: 0 <= i < j < |CreatesFor(sessions, keys)| ==>
      CreatesFor(sessions, keys)[i] != CreatesFor(sessions, keys)[j]
    decreases |keys|
  {
    if keys != [] && keys[0] !in sessions {
      var rest := CreatesFor(sessions + {keys[0]}, keys[1..]);
      CreatesAreDistinct(sessions + {keys[0]}, keys[1..]);
      CreatesAreNew(sessions + {keys[0]}, keys[1..]);
      var creates := [keys[0]] + rest;
      assert CreatesFor(sessions, keys) == creates;
      forall i, j | 0 <= i < j < |creates|
        ensures creates[i] != creates[j]
      {
        assert creates[j] == rest[j - 1] && rest[j - 1] in rest;
        if i > 0 {
          assert creates[i] == rest[i - 1];
        }
      }
    } else if keys != [] {
      CreatesAreDistinct(sessions + {keys[0]}, keys[1..]);
    }
  }

  /** Each session is created at most once, never when it already exists, and
      only for a key that was asked for. */
  lemma AtMostOneCreatePerSession(sessions: set<SessionKey>, keys: seq<SessionKey>)
    ensures forall i :: 0 <= i < |CreatesFor(sessions, keys)| ==>
      CreatesFor(sessions, keys)[i] !in sessions && CreatesFor(sessions, keys)[i] in keys
    ensures forall i, j :: 0 <= i < j < |CreatesFor(sessions, keys)| ==>
      CreatesFor(sessions, keys)[i] != CreatesFor(sessions, keys)[j]
  {
    CreatesAreNew(sessions, keys);
    CreatesAreDistinct(sessions, keys);
  }

  /** A repeated conversation on the same key makes no second create. */
  lemma RepeatedKeyCreatesOnce(sessions: set<SessionKey>, key: SessionKey)
    ensures CreatesFor(sessions, [key, key]) == CreatesFor(sessions, [key])
  {
    assert [key, key][1..] == [key];
    assert [key][1..] == [];
  }

  /** The in-memory session service the agent owns. */
  class SessionService {
    var sessions: set<SessionKey>
    /** Every create_session call, in order. */
    var createCalls: seq<SessionKey>

    constructor ()
      ensures sessions == {} && createCalls == []
    {
      sessions := {};
      createCalls := [];
    }

    method GetSession(key: SessionKey) returns (found: bool)
      ensures found <==> key in sessions
    {
      found := key in sessions;
    }

    method CreateSession(key: SessionKey)
      modifies this
      ensures sessions == old(sessions) + {key}
      ensures createCalls == old(createCalls) + [key]
    {
      sessions := sessions + {key};
      createCalls := createCalls + [key];
    }
  }

  class ZundaAgent {
    const userId: string
    const sessionId: string
    const sessionService: SessionService
    /** The template name of the agent's ModelArmorPlugin. */
    const templateName: string

    constructor (userId: string, sessionId: string, templateName: string)
      ensures this.userId == userId && this.sessionId == sessionId && this.templateName == templateName
      ensures fresh(sessionService) && sessionService.sessions == {} && sessionService.createCalls == []
    {
      this.userId := userId;
      this.sessionId := sessionId;
      this.templateName := templateName;
      this.sessionService := new SessionService();
    }

    function Key(): SessionKey
    {
      SessionKey(AppName, userId, sessionId)
    }

    /** call_agent_async: read the runner's events for `query` into one reply, stop
        at an escalation, then return the reply if moderation allows it and the
        refusal otherwise. */
    method CallAgentAsync(query: string, runner: (SessionKey, string) -> seq<Event>,
                          sanitize: ModelArmor.SanitizeRequest -> ModelArmor.SanitizeOutcome)
      returns (text: string)
      ensures var reply := FinalResponse(runner(Key(), query), NoFinalResponse);
        text == Gate(reply, ModelArmor.CallModelArmorApi(templateName, reply, sanitize).allowed)
    {
      var events := runner(Key(), query);
      var finalResponseText := NoFinalResponse;
      var i := 0;
      while i < |events|
        invariant 0 <= i <= |events|
        invariant FinalResponse(events[i..], finalResponseText) == FinalResponse(events, NoFinalResponse)
      {
        var event := events[i];
        assert events[i..][0] == event && events[i..][1..] == events[i + 1..];
        if event.isFinal {
          if |event.parts| > 0 {
            finalResponseText := event.parts[0];
          } else if event.escalate {
            finalResponseText := EscalationText(event.errorMessage);
            break;
          }
        }
        i := i + 1;
      }
      var verdict := ModelArmor.CallModelArmorApi(templateName, finalResponseText, sanitize);
      if verdict.allowed {
        text := finalResponseText;
      } else {
        text := Refusal;
      }
    }

    /** run_conversation: create the session if the lookup finds none, then run
        the turn. */
    method RunConversation(query: string, runner: (SessionKey, string) -> seq<Event>,
                           sanitize: ModelArmor.SanitizeRequest -> ModelArmor.SanitizeOutcome)
      returns (text: string)
      modifies sessionService
      ensures sessionService.sessions == old(sessionService.sessions) + {Key()}
      ensures sessionService.createCalls == old(sessionService.createCalls) + CreatesFor(old(sessionService.sessions), [Key()])
      ensures var reply := FinalResponse(runner(Key(), query), NoFinalResponse);
        text == Gate(reply, ModelArmor.CallModelArmorApi(templateName, reply, sanitize).allowed)
    {
      var existing := sessionService.GetSession(Key());
      if !existing {
        sessionService.CreateSession(Key());
      }
      assert [Key()][1..] == [];
      text := CallAgentAsync(query, runner, sanitize);
    }
  }
}
