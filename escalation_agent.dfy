/** The escalation agent (backend/src/agents/EscalationAgent.ts): it lets the
    model write an empathetic reply and appends the details of a mock support
    ticket numbered from the clock. Unlike the other agents it does not catch
    a failed generation: the failure reaches its caller. */
module EscalationAgent {
  import opened Text
  import opened Types
  import opened BaseAgent

  const EscalationMaxTokens: nat := 1000
  const TicketPrefix := "ESC-"

  function EscalationRequest(message: string, history: seq<Message>): Request {
    Request(EscalationInstructions, None, FormatConversationHistory(history), message, EscalationMaxTokens)
  }

  /** `ESC-` followed by the last six digits of the clock reading. */
  function TicketId(clock: nat): (r: string)
    ensures StartsWith(r, TicketPrefix)
    ensures 5 <= |r| <= 10 && AllDigits(r[4..])
    ensures DigitsValue(r[4..]) == clock % 1000000
    ensures clock >= 100000 ==> |r| == 10
  {
    var digits := SliceLast(Decimal(clock), 6);
    SliceLastDecimal(clock, 6);
    assert clock >= 100000 ==> |digits| == 6 by {
      if clock >= 100000 {
        assert Pow10(5) == 100000;
        DecimalLength(clock, 5);
      }
    }
    assert Pow10(6) == 1000000;
    assert (TicketPrefix + digits)[4..] == digits;
    TicketPrefix + digits
  }

  /** Two clock readings less than a million apart give different tickets. */
  lemma TicketIdsDiffer(c1: nat, c2: nat)
    requires c1 < c2 < c1 + 1000000
    ensures TicketId(c1) != TicketId(c2)
  {
    var a, b := c1 / 1000000, c1 % 1000000;
    var d := c2 - c1;
    if b + d < 1000000 {
      ModOfSum(c2, 1000000, a, b + d);
    } else {
      ModOfSum(c2, 1000000, a + 1, b + d - 1000000);
    }
    assert c1 % 1000000 != c2 % 1000000;
  }

  /** The block appended to the model's reply. */
  function EscalationDetails(ticketId: string): (r: string)
    ensures Contains(r, "Ticket ID: " + ticketId)
    ensures Contains(r, "Priority: High")
  {
    var head := "\n\n\U{1F4CB} Escalation Details:\n\U{2022} ";
    var upToPriority := head + "Ticket ID: " + ticketId + "\n\U{2022} ";
    var r := upToPriority + "Priority: High"
      + "\n\U{2022} Expected Response: Within 2-4 hours\n"
      + "\U{2022} Status: Assigned to support team\n\n"
      + "A senior support specialist will review your case and contact you shortly.";
    assert OccursAt(r, "Ticket ID: " + ticketId, |head|);
    assert OccursAt(r, "Priority: High", |upToPriority|);
    r
  }

  /** `process`: the reply, then the ticket details, at confidence 0.95, with a
      successful ESCALATE action carrying the ticket at high priority; a failed
      generation is passed on. */
  function Process(env: Env, message: string, history: seq<Message>): (r: Outcome<AgentResponse>)
    ensures r.Fail? <==> env.generate(EscalationRequest(message, history)).Fail?
    ensures r.Ok? ==>
      var reply := env.generate(EscalationRequest(message, history)).value;
      var ticket := TicketId(env.clock);
      && r.value.response == reply + EscalationDetails(ticket)
      && r.value.agent == "escalation" && r.value.confidence == 0.95 && r.value.sources.None?
      && r.value.action == Some(ActionResult("ESCALATE", true, Some(Ticket(ticket, "high")), None))
  {
    match env.generate(EscalationRequest(message, history))
    case Fail => Fail
    case Ok(reply) =>
      var ticketId := TicketId(env.clock);
      Ok(AgentResponse(reply + EscalationDetails(ticketId), "escalation", 0.95, None,
        Some(ActionResult("ESCALATE", true, Some(Ticket(ticketId, "high")), None))))
  }

  /** The reply keeps the model's words in front and quotes the same ticket the
      action carries. */
  lemma ReplyQuotesTicket(env: Env, message: string, history: seq<Message>)
    requires env.generate(EscalationRequest(message, history)).Ok?
    ensures Process(env, message, history).Ok?
    ensures var r := Process(env, message, history).value;
      StartsWith(r.response, env.generate(EscalationRequest(message, history)).value)
      && Contains(r.response, "Ticket ID: " + r.action.value.data.value.ticketId)
  {
    var reply := env.generate(EscalationRequest(message, history)).value;
    ContainsAfterPrefix(reply, EscalationDetails(TicketId(env.clock)), "Ticket ID: " + TicketId(env.clock));
  }
}
