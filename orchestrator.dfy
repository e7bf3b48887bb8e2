/** The orchestrator (backend/src/agents/Orchestrator.ts): every message is
    routed first, then answered by exactly one specialist, whose answer is
    relabelled with the selected agent type; a failure that escapes the
    specialist becomes the technical-difficulties answer. */
module Orchestrator {
  import opened Text
  import opened Types
  import RouterAgent
  import KnowledgeAgent
  import ActionAgent
  import EscalationAgent

  const ErrorText := "I apologize, but I'm experiencing technical difficulties. Please try again in a moment."

  /** The answer given when a specialist lets a failure escape. */
  const ErrorResponse := AgentResponse(ErrorText, "error", 0.0, None, None)

  /** The agent type the router's answer selects. */
  function Selected(env: Env, message: string, history: seq<Message>): (t: AgentType)
    ensures t != Router
  {
    RouterAgent.GetSelectedAgent(RouterAgent.Process(env, message, history).response)
  }

  /** The selected specialist's own answer; only the escalation agent can fail.
      The default branch of the switch (a router type) answers like knowledge. */
  function Dispatch(env: Env, t: AgentType, message: string, history: seq<Message>): (r: Outcome<AgentResponse>)
    ensures r.Fail? <==> t == Escalation && env.generate(EscalationAgent.EscalationRequest(message, history)).Fail?
  {
    match t
    case Knowledge => Ok(KnowledgeAgent.Process(env, message, history))
    case Action => Ok(ActionAgent.Process(env, message, history))
    case Escalation => EscalationAgent.Process(env, message, history)
    case Router => Ok(KnowledgeAgent.Process(env, message, history))
  }

  /** `processMessage` */
  function ProcessMessage(env: Env, message: string, history: seq<Message>): (r: AgentResponse)
    ensures r.agent in {"knowledge", "action", "escalation", "error"}
    ensures r.agent == "error" <==>
      Selected(env, message, history) == Escalation
      && env.generate(EscalationAgent.EscalationRequest(message, history)).Fail?
    ensures r.agent == "error" ==> r == ErrorResponse
    ensures r.agent != "error" ==>
      r.agent == Selected(env, message, history).Value()
      && r == Dispatch(env, Selected(env, message, history), message, history).value.(agent := r.agent)
  {
    var selected := Selected(env, message, history);
    NamedAgents(selected);
    match Dispatch(env, selected, message, history)
    case Fail => ErrorResponse
    case Ok(answer) => answer.(agent := selected.Value())
  }

  /** The selected type names a specialist, never the error answer. */
  lemma NamedAgents(t: AgentType)
    requires t != Router
    ensures t.Value() in {"knowledge", "action", "escalation"} && t.Value() != "error"
  {
  }

  /** When the router's own call fails, the knowledge agent answers. */
  lemma RoutingFailureFallsBackToKnowledge(env: Env, message: string, history: seq<Message>)
    requires env.generate(RouterAgent.RoutingRequest(message, history)).Fail?
    ensures ProcessMessage(env, message, history) == KnowledgeAgent.Process(env, message, history)
  {
    RouterAgent.RoutingFailureSelectsKnowledge(env, message, history);
  }

  /** A router reply naming a specialist by its type name sends the message to
      that specialist, whatever the letter case. */
  lemma RoutedByName(env: Env, message: string, history: seq<Message>, t: AgentType)
    requires t != Router
    requires env.generate(RouterAgent.RoutingRequest(message, history)).Ok?
    requires RouterAgent.SelectedLabel(env.generate(RouterAgent.RoutingRequest(message, history)).value) == ToUpper(t.Value())
    ensures Selected(env, message, history) == t
  {
    RouterAgent.SelectedAgentRoundTrip(t);
    UpperTwice(t.Value());
  }

  /** Selection ignores letter case, so upper-casing first changes nothing. */
  lemma UpperTwice(s: string)
    ensures ToUpper(ToUpper(s)) == ToUpper(s)
  {
  }

  /** The knowledge and action agents never fail the whole request; only an
      escalation whose generation fails does. */
  lemma ErrorOnlyFromEscalation(env: Env, message: string, history: seq<Message>)
    requires Selected(env, message, history) != Escalation
    ensures ProcessMessage(env, message, history).agent == Selected(env, message, history).Value()
    ensures ProcessMessage(env, message, history).confidence > 0.0
  {
  }

  /** `handleFallback`: quotes the message and asks for more detail. */
  function HandleFallback(message: string): (r: AgentResponse)
    ensures r.agent == "fallback" && r.confidence == 0.3 && r.sources.None? && r.action.None?
    ensures Contains(r.response, "\"" + message + "\"")
  {
    var head := "I understand you're asking about ";
    var response := head + "\"" + message + "\""
      + ". While I process that, could you provide more details or rephrase your question?";
    assert OccursAt(response, "\"" + message + "\"", |head|);
    AgentResponse(response, "fallback", 0.3, None, None)
  }
}
