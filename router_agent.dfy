/** The router agent (backend/src/agents/RouterAgent.ts): it asks the model
    which specialist should answer, reads the AGENT and REASON lines of the
    reply, and maps its own answer onto an agent type. */
module RouterAgent {
  import opened Text
  import opened Types
  import opened Regex
  import opened BaseAgent

  const RouterMaxTokens: nat := 500

  const DefaultLabel := "KNOWLEDGE"
  const DefaultReason := "Default routing"
  const RoutingErrorReason := "Error in routing, defaulting to knowledge agent"

  function RoutingRequest(message: string, history: seq<Message>): Request {
    Request(RoutingInstructions, None, FormatConversationHistory(history), message, RouterMaxTokens)
  }

  /** The `AGENT:\s*(\w+)` word of a reply, upper-cased, or KNOWLEDGE. */
  function SelectedLabel(reply: string): (r: string)
    ensures r != []
    ensures forall k :: 0 <= k < |r| ==> IsWordChar(r[k]) && !IsAsciiLower(r[k])
  {
    var found := FindLabelled(reply, "AGENT:", IsWordChar);
    if found.Some? then
      UpperWord(found.value);
      ToUpper(found.value)
    else DefaultLabel
  }

  /** Upper-casing a word leaves a word with no lower-case letter. */
  lemma UpperWord(w: string)
    requires forall k :: 0 <= k < |w| ==> IsWordChar(w[k])
    ensures forall k :: 0 <= k < |w| ==> IsWordChar(ToUpper(w)[k]) && !IsAsciiLower(ToUpper(w)[k])
  {
  }

  /** The trimmed `REASON:\s*(.+)` line of a reply, or 'Default routing'. */
  function Reason(reply: string): (r: string)
    ensures FindLabelled(reply, "REASON:", NotLineTerminator).None? ==> r == DefaultReason
    ensures FindLabelled(reply, "REASON:", NotLineTerminator).Some? ==>
      r == Trim(FindLabelled(reply, "REASON:", NotLineTerminator).value)
    ensures forall k :: 0 <= k < |r| ==> NotLineTerminator(r[k])
    ensures r != [] ==> !IsJsSpace(r[0]) && !IsJsSpace(r[|r| - 1])
  {
    var found := FindLabelled(reply, "REASON:", NotLineTerminator);
    if found.Some? then TrimmedLine(found.value) else DefaultReason
  }

  /** What the router answers once the model has replied. */
  function RoutingFromReply(reply: string): (r: AgentResponse)
    ensures r.agent == "router" && r.confidence == 0.9 && r.action.None?
    ensures r.sources == Some([Reason(reply)])
    ensures FindLabelled(reply, "AGENT:", IsWordChar).None? ==> r.response == DefaultLabel
    ensures FindLabelled(reply, "AGENT:", IsWordChar).Some? ==>
      r.response == ToUpper(FindLabelled(reply, "AGENT:", IsWordChar).value)
    ensures FindLabelled(reply, "REASON:", NotLineTerminator).None? ==> r.sources == Some([DefaultReason])
  {
    AgentResponse(SelectedLabel(reply), "router", 0.9, Some([Reason(reply)]), None)
  }

  /** `process`: a failed generation never propagates; it routes to KNOWLEDGE. */
  function Process(env: Env, message: string, history: seq<Message>): (r: AgentResponse)
    ensures r.agent == "router" && r.action.None?
    ensures r.sources.Some? && |r.sources.value| == 1
    ensures env.generate(RoutingRequest(message, history)).Fail? ==>
      r == AgentResponse(DefaultLabel, "router", 0.5, Some([RoutingErrorReason]), None)
    ensures env.generate(RoutingRequest(message, history)).Ok? ==>
      r.confidence == 0.9 && r == RoutingFromReply(env.generate(RoutingRequest(message, history)).value)
  {
    match env.generate(RoutingRequest(message, history))
    case Fail => AgentResponse(DefaultLabel, "router", 0.5, Some([RoutingErrorReason]), None)
    case Ok(reply) => RoutingFromReply(reply)
  }

  /** `getSelectedAgent`: ACTION wins over ESCALATION, and anything else is
      KNOWLEDGE, in any letter case; the router itself is never selected. */
  function GetSelectedAgent(routerResponse: string): (t: AgentType)
    ensures t != Router
    ensures t == Action <==> Contains(ToUpper(routerResponse), "ACTION")
    ensures t == Escalation <==>
      !Contains(ToUpper(routerResponse), "ACTION") && Contains(ToUpper(routerResponse), "ESCALATION")
  {
    var normalized := ToUpper(routerResponse);
    if Contains(normalized, "ACTION") then Action
    else if Contains(normalized, "ESCALATION") then Escalation
    else Knowledge
  }

  /** A string that contains `sub` at i contains it. */
  lemma ContainsAt(s: string, sub: string, i: nat)
    requires OccursAt(s, sub, i)
    ensures Contains(s, sub)
  {
  }

  /** The specialists' own type names select them back. */
  lemma SelectedAgentRoundTrip(t: AgentType)
    requires t != Router
    ensures GetSelectedAgent(t.Value()) == t
  {
    var u := ToUpper(t.Value());
    match t
    case Action =>
      assert u == "ACTION";
      ContainsAt(u, "ACTION", 0);
    case Escalation =>
      assert u == "ESCALATION";
      ContainsAt(u, "ESCALATION", 0);
      assert !Contains(u, "ACTION") by {
        forall i | 0 <= i <= |u| ensures !OccursAt(u, "ACTION", i) {
          if i + 6 <= |u| {
            assert u[i..i + 6][1] == u[i + 1];
            assert u[i..i + 6][0] == u[i];
          }
        }
      }
    case Knowledge =>
      KnowledgeWordSelectsKnowledge(t.Value());
  }

  /** Any spelling of KNOWLEDGE names neither of the other two specialists. */
  lemma KnowledgeWordSelectsKnowledge(x: string)
    requires ToUpper(x) == "KNOWLEDGE"
    ensures GetSelectedAgent(x) == Knowledge
  {
    var u := ToUpper(x);
    assert !Contains(u, "ACTION") by {
      forall i | 0 <= i <= |u| ensures !OccursAt(u, "ACTION", i) {
        if i + 6 <= |u| {
          assert u[i..i + 6][0] == u[i];
          assert u[i..i + 6][1] == u[i + 1];
        }
      }
    }
    assert !Contains(u, "ESCALATION") by {
      forall i | 0 <= i <= |u| ensures !OccursAt(u, "ESCALATION", i) {
        assert i + 10 > |u|;
      }
    }
  }

  /** A failed routing call sends the message to the knowledge agent. */
  lemma RoutingFailureSelectsKnowledge(env: Env, message: string, history: seq<Message>)
    requires env.generate(RoutingRequest(message, history)).Fail?
    ensures GetSelectedAgent(Process(env, message, history).response) == Knowledge
  {
    KnowledgeWordSelectsKnowledge(DefaultLabel);
  }

  /** A reply naming no agent word also sends the message to the knowledge agent. */
  lemma NoAgentLineSelectsKnowledge(reply: string)
    requires FindLabelled(reply, "AGENT:", IsWordChar).None?
    ensures GetSelectedAgent(RoutingFromReply(reply).response) == Knowledge
  {
    KnowledgeWordSelectsKnowledge(DefaultLabel);
  }
}
