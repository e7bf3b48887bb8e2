/** The records exchanged by the agents (backend/src/types/index.ts) and the
    interface of the external services they call. */
module Types {

  datatype Option<T> = None | Some(value: T)

  /** What a call into an external service produced: a value, or a thrown error
      (its message is only logged, so it is not kept). */
  datatype Outcome<T> = Ok(value: T) | Fail

  datatype Role = User | Assistant | System {
    function Value(): string {
      match this
      case User => "user"
      case Assistant => "assistant"
      case System => "system"
    }
  }

  /** One stored chat message; `metadata` is an opaque JSON object and is not kept. */
  datatype Message = Message(
    id: string,
    conversationId: string,
    role: Role,
    content: string,
    agentType: Option<string>,
    createdAt: int)

  /** The `data` payload of an action result: the text the mock handlers return,
      or the `{ticketId, priority}` object of an escalation. */
  datatype ActionData = Details(text: string) | Ticket(ticketId: string, priority: string)

  /** `ActionResult`; the field `type` is called `kind` here. */
  datatype ActionResult = ActionResult(
    kind: string,
    success: bool,
    data: Option<ActionData>,
    error: Option<string>)

  /** `AgentResponse`; an absent optional field is `None`. */
  datatype AgentResponse = AgentResponse(
    response: string,
    agent: string,
    confidence: real,
    sources: Option<seq<string>>,
    action: Option<ActionResult>)

  /** The `AgentType` enumeration and its string values. */
  datatype AgentType = Router | Knowledge | Action | Escalation {
    function Value(): string {
      match this
      case Router => "router"
      case Knowledge => "knowledge"
      case Action => "action"
      case Escalation => "escalation"
    }
  }

  type Embedding = seq<real>

  /** The metadata stored with a vector, as far as the knowledge agent reads it. */
  datatype HitMetadata = HitMetadata(title: Option<string>, text: Option<string>)

  /** One match returned by the vector search. */
  datatype Hit = Hit(score: Option<real>, metadata: Option<HitMetadata>)

  /** Which of the four fixed system prompts a generation request carries. */
  datatype Instructions = RoutingInstructions | KnowledgeInstructions | ActionInstructions | EscalationInstructions

  /** A text-generation request: the system prompt, the parts the user prompt is
      built from (retrieved context, formatted history, the user's message) and
      the output-token budget. */
  datatype Request = Request(
    instructions: Instructions,
    context: Option<string>,
    history: string,
    message: string,
    maxTokens: nat)

  /** The services one request may call: text generation, embedding and vector
      search, each of which may fail, and the clock reading (`Date.now()`). */
  datatype Env = Env(
    generate: Request -> Outcome<string>,
    embed: string -> Outcome<Embedding>,
    search: (Embedding, nat) -> Outcome<seq<Hit>>,
    clock: nat)
}
