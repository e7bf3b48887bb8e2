/** What every agent shares (backend/src/agents/BaseAgent.ts): its name, the
    rendering of the recent conversation into a prompt, and the heuristic
    confidence score of a generated reply. */
module BaseAgent {
  import opened Text
  import opened Types

  /** An agent knows its own name; nothing changes it after construction. */
  class Agent {
    const name: string

    constructor(name: string)
      ensures GetName() == name
    {
      this.name := name;
    }

    function GetName(): string {
      name
    }
  }

  /** How many of the most recent messages a prompt quotes. */
  const HistoryWindow: nat := 5

  /** `messages.slice(-5)` */
  function RecentMessages(h: seq<Message>): seq<Message> {
    if |h| <= HistoryWindow then h else h[|h| - HistoryWindow..]
  }

  /** One quoted message, "role: content". */
  function HistoryLine(m: Message): string {
    m.role.Value() + ": " + m.content
  }

  function HistoryLines(h: seq<Message>): (r: seq<string>)
    ensures |r| == |h| && forall k :: 0 <= k < |h| ==> r[k] == HistoryLine(h[k])
  {
    seq(|h|, k requires 0 <= k < |h| => HistoryLine(h[k]))
  }

  /** The last (up to) five messages, one line each, oldest first. */
  function FormatConversationHistory(h: seq<Message>): (r: string)
    ensures h == [] <==> r == []
  {
    Join("\n", HistoryLines(RecentMessages(h)))
  }

  /** Messages older than the last five never reach a prompt. */
  lemma HistoryIgnoresOlder(older: seq<Message>, recent: seq<Message>)
    requires |recent| >= HistoryWindow
    ensures FormatConversationHistory(older + recent) == FormatConversationHistory(recent)
  {
    var h := older + recent;
    assert h[|h| - HistoryWindow..] == recent[|recent| - HistoryWindow..];
  }

  /** While the conversation is shorter than the window, one more message adds
      one more line at the end. */
  lemma HistoryAppend(h: seq<Message>, m: Message)
    requires |h| < HistoryWindow
    ensures FormatConversationHistory(h + [m]) ==
      if h == [] then HistoryLine(m) else FormatConversationHistory(h) + "\n" + HistoryLine(m)
  {
    assert HistoryLines(h + [m]) == HistoryLines(h) + [HistoryLine(m)];
    JoinAppend("\n", HistoryLines(h), HistoryLine(m));
  }

  /** A reply longer than 50 characters counts as specific. */
  predicate HasSpecificInfo(reply: string) {
    |reply| > 50
  }

  /** A reply with a line break or a bullet counts as structured. */
  predicate HasStructure(reply: string) {
    Contains(reply, "\n") || Contains(reply, "\U{2022}")
  }

  /** A reply that admits neither "i'm not sure" nor "i don't know", in any case. */
  predicate NotUnsure(reply: string) {
    !Contains(ToLower(reply), "i'm not sure") && !Contains(ToLower(reply), "i don't know")
  }

  /** The confidence score: 0.5, plus 0.2 for specific, 0.15 for structured and
      0.15 for sure replies, capped at 1.0. */
  function Confidence(reply: string): (c: real)
    ensures 0.5 <= c <= 1.0
    ensures c == 0.5 <==> !HasSpecificInfo(reply) && !HasStructure(reply) && !NotUnsure(reply)
    ensures c == 1.0 <==> HasSpecificInfo(reply) && HasStructure(reply) && NotUnsure(reply)
    ensures reply == [] ==> c == 0.65
  {
    var c := 0.5 + (if HasSpecificInfo(reply) then 0.2 else 0.0)
                 + (if HasStructure(reply) then 0.15 else 0.0)
                 + (if NotUnsure(reply) then 0.15 else 0.0);
    if c < 1.0 then c else 1.0
  }

  /** `calculateConfidence`: the score accumulated step by step. */
  method CalculateConfidence(reply: string) returns (confidence: real)
    ensures confidence == Confidence(reply)
  {
    var hasSpecificInfo := HasSpecificInfo(reply);
    var hasStructure := HasStructure(reply);
    var notUnsure := NotUnsure(reply);
    confidence := 0.5;
    if hasSpecificInfo {
      confidence := confidence + 0.2;
    }
    if hasStructure {
      confidence := confidence + 0.15;
    }
    if notUnsure {
      confidence := confidence + 0.15;
    }
    confidence := if confidence < 1.0 then confidence else 1.0;
  }
}
