/** The knowledge agent (backend/src/agents/KnowledgeAgent.ts): it embeds the
    question, fetches the five nearest chunks, quotes them as numbered context
    sections, and answers with the generated reply, its confidence score and
    the distinct titles of the chunks it quoted. */
module KnowledgeAgent {
  import opened Text
  import opened Types
  import opened BaseAgent

  const TopK: nat := 5
  const KnowledgeMaxTokens: nat := 1500
  const SectionSeparator := "\n\n---\n\n"

  const KnowledgeApology := "I apologize, but I'm having trouble accessing our knowledge base right now. Could you please try again in a moment, or contact our support team directly?"

  /** `metadata.title || 'Unknown'` (an empty title is falsy too). */
  function ContextTitle(h: Hit): string {
    if h.metadata.Some? && h.metadata.value.title.Some? && h.metadata.value.title.value != []
    then h.metadata.value.title.value else "Unknown"
  }

  /** `metadata.text || ''` */
  function ContextText(h: Hit): string {
    if h.metadata.Some? && h.metadata.value.text.Some? then h.metadata.value.text.value else []
  }

  /** `match.score || 0` */
  function Score(h: Hit): real {
    if h.score.Some? then h.score.value else 0.0
  }

  /** The quoted form of the hit ranked idx (counting from 0). */
  function Section(idx: nat, h: Hit): (r: string)
    ensures StartsWith(r, "[Source " + Decimal(idx + 1) + ": " + ContextTitle(h) + " (Relevance: ")
  {
    "[Source " + Decimal(idx + 1) + ": " + ContextTitle(h) + " (Relevance: " + ToFixed1(Score(h) * 100.0) + "%)]\n"
      + ContextText(h)
  }

  function Sections(hits: seq<Hit>): (r: seq<string>)
    ensures |r| == |hits| && forall k :: 0 <= k < |hits| ==> r[k] == Section(k, hits[k])
  {
    seq(|hits|, k requires 0 <= k < |hits| => Section(k, hits[k]))
  }

  /** The context block: every section, in rank order, between separators. */
  function BuildContext(hits: seq<Hit>): (r: string)
    ensures hits == [] <==> r == []
  {
    Join(SectionSeparator, Sections(hits))
  }

  /** One more hit adds one more numbered section at the end. */
  lemma ContextAppend(hits: seq<Hit>, h: Hit)
    ensures BuildContext(hits + [h]) ==
      if hits == [] then Section(0, h) else BuildContext(hits) + SectionSeparator + Section(|hits|, h)
  {
    assert Sections(hits + [h]) == Sections(hits) + [Section(|hits|, h)];
    JoinAppend(SectionSeparator, Sections(hits), Section(|hits|, h));
  }

  function KnowledgeRequest(hits: seq<Hit>, message: string, history: seq<Message>): Request {
    Request(KnowledgeInstructions, Some(BuildContext(hits)), FormatConversationHistory(history), message, KnowledgeMaxTokens)
  }

  /** `match.metadata?.title || 'Unknown source'` */
  function SourceTitle(h: Hit): string {
    if h.metadata.Some? && h.metadata.value.title.Some? && h.metadata.value.title.value != []
    then h.metadata.value.title.value else "Unknown source"
  }

  function SourceTitles(hits: seq<Hit>): (r: seq<string>)
    ensures |r| == |hits| && forall k :: 0 <= k < |hits| ==> r[k] == SourceTitle(hits[k])
  {
    seq(|hits|, k requires 0 <= k < |hits| => SourceTitle(hits[k]))
  }

  /** `Array.prototype.indexOf`: the first index holding x, or -1. */
  function IndexOf(xs: seq<string>, x: string): (r: int)
    ensures r == -1 <==> x !in xs
    ensures r != -1 ==> 0 <= r < |xs| && xs[r] == x && forall k :: 0 <= k < r ==> xs[k] != x
  {
    if xs == [] then -1
    else if xs[0] == x then 0
    else
      var j := IndexOf(xs[1..], x);
      if j == -1 then -1 else j + 1
  }

  /** `arr.filter((t, idx, arr) => arr.indexOf(t) === idx)` over the first n
      entries: the entries that are the first occurrence of their value. */
  function KeepFirst(arr: seq<string>, n: nat): (r: seq<string>)
    requires n <= |arr|
    ensures |r| <= n
  {
    if n == 0 then []
    else KeepFirst(arr, n - 1) + (if IndexOf(arr, arr[n - 1]) == n - 1 then [arr[n - 1]] else [])
  }

  /** Reference definition: scan left to right, keeping each value the first
      time it is seen. */
  function Distinct(xs: seq<string>): (r: seq<string>)
    ensures forall x :: x in r <==> x in xs
    ensures forall p, q :: 0 <= p < q < |r| ==> r[p] != r[q]
  {
    if xs == [] then []
    else
      var u := Distinct(xs[..|xs| - 1]);
      assert xs == xs[..|xs| - 1] + [xs[|xs| - 1]];
      if xs[|xs| - 1] in u then u else u + [xs[|xs| - 1]]
  }

  /** The indexOf filter is exactly first-seen de-duplication. */
  lemma {:induction false} KeepFirstIsDistinct(arr: seq<string>, n: nat)
    requires n <= |arr|
    ensures KeepFirst(arr, n) == Distinct(arr[..n])
  {
    if n > 0 {
      var kept := KeepFirst(arr, n - 1);
      KeepFirstIsDistinct(arr, n - 1);
      KeepFirstStep(arr, n);
      DistinctStep(arr, n);
      if arr[n - 1] in arr[..n - 1] {
        calc {
          KeepFirst(arr, n);
          kept;
          Distinct(arr[..n]);
        }
      } else {
        calc {
          KeepFirst(arr, n);
          kept + [arr[n - 1]];
          Distinct(arr[..n]);
        }
      }
    }
  }

  /** The same step for the reference definition. */
  lemma DistinctStep(arr: seq<string>, n: nat)
    requires 0 < n <= |arr|
    ensures Distinct(arr[..n]) == if arr[n - 1] in arr[..n - 1] then Distinct(arr[..n - 1])
                                  else Distinct(arr[..n - 1]) + [arr[n - 1]]
  {
    assert arr[..n] == arr[..n - 1] + [arr[n - 1]];
    DistinctSnoc(arr[..n - 1], arr[n - 1]);
  }

  /** The n-th entry is kept exactly when it does not occur before. */
  lemma KeepFirstStep(arr: seq<string>, n: nat)
    requires 0 < n <= |arr|
    ensures KeepFirst(arr, n) == if arr[n - 1] in arr[..n - 1] then KeepFirst(arr, n - 1)
                                 else KeepFirst(arr, n - 1) + [arr[n - 1]]
  {
    FirstOccurrence(arr, n - 1);
  }

  /** One more element is kept exactly when it was not seen before. */
  lemma DistinctSnoc(prefix: seq<string>, x: string)
    ensures Distinct(prefix + [x]) == if x in prefix then Distinct(prefix) else Distinct(prefix) + [x]
  {
    assert (prefix + [x])[..|prefix|] == prefix;
  }

  /** `indexOf` finds position m exactly when its value does not occur before m. */
  lemma FirstOccurrence(arr: seq<string>, m: nat)
    requires m < |arr|
    ensures IndexOf(arr, arr[m]) == m <==> arr[m] !in arr[..m]
  {
    var x := arr[m];
    var i := IndexOf(arr, x);
    var prefix := arr[..m];
    if x in prefix {
      var k :| 0 <= k < m && prefix[k] == x;
      assert arr[k] == x;
    } else {
      assert forall k :: 0 <= k < m ==> prefix[k] != x;
      assert forall k :: 0 <= k < m ==> arr[k] != x;
    }
  }

  /** The source list of a set of hits: distinct titles, first-seen order. */
  function Sources(hits: seq<Hit>): (r: seq<string>)
    ensures r == Distinct(SourceTitles(hits))
    ensures forall t :: t in r <==> exists k :: 0 <= k < |hits| && SourceTitle(hits[k]) == t
    ensures forall p, q :: 0 <= p < q < |r| ==> r[p] != r[q]
    ensures |r| <= |hits| && (r == [] <==> hits == [])
  {
    var titles := SourceTitles(hits);
    KeepFirstIsDistinct(titles, |titles|);
    assert titles[..|titles|] == titles;
    DistinctShorter(titles);
    KeepFirst(titles, |titles|)
  }

  lemma {:induction false} DistinctShorter(xs: seq<string>)
    ensures |Distinct(xs)| <= |xs|
    ensures Distinct(xs) == [] <==> xs == []
  {
    if xs != [] {
      DistinctShorter(xs[..|xs| - 1]);
      assert xs[|xs| - 1] in xs;
    }
  }

  /** What the agent answers once the model has replied, given the hits it quoted. */
  function KnowledgeFromReply(hits: seq<Hit>, reply: string): (r: AgentResponse)
    ensures r.response == reply && r.agent == "knowledge" && r.action.None?
    ensures r.confidence == Confidence(reply) && 0.5 <= r.confidence <= 1.0
    ensures r.sources.None? <==> hits == []
    ensures r.sources.Some? ==> r.sources.value == Sources(hits)
  {
    var sources := Sources(hits);
    AgentResponse(reply, "knowledge", Confidence(reply), if |sources| > 0 then Some(sources) else None, None)
  }

  /** `process`: a failure of the embedding, the search or the generation gives
      the apology at confidence 0.3; otherwise the reply with its score. */
  function Process(env: Env, message: string, history: seq<Message>): (r: AgentResponse)
    ensures r.agent == "knowledge" && r.action.None?
    ensures env.embed(message).Fail? ==> r == AgentResponse(KnowledgeApology, "knowledge", 0.3, None, None)
    ensures env.embed(message).Ok? && env.search(env.embed(message).value, TopK).Fail? ==>
      r == AgentResponse(KnowledgeApology, "knowledge", 0.3, None, None)
    ensures env.embed(message).Ok? && env.search(env.embed(message).value, TopK).Ok? ==>
      var hits := env.search(env.embed(message).value, TopK).value;
      match env.generate(KnowledgeRequest(hits, message, history))
      case Fail => r == AgentResponse(KnowledgeApology, "knowledge", 0.3, None, None)
      case Ok(reply) => r == KnowledgeFromReply(hits, reply)
  {
    match env.embed(message)
    case Fail => AgentResponse(KnowledgeApology, "knowledge", 0.3, None, None)
    case Ok(query) =>
      match env.search(query, TopK)
      case Fail => AgentResponse(KnowledgeApology, "knowledge", 0.3, None, None)
      case Ok(hits) =>
        match env.generate(KnowledgeRequest(hits, message, history))
        case Fail => AgentResponse(KnowledgeApology, "knowledge", 0.3, None, None)
        case Ok(reply) => KnowledgeFromReply(hits, reply)
  }

  /** A successful answer is never scored below an apology. */
  lemma AnswerOutranksApology(env: Env, message: string, history: seq<Message>)
    ensures Process(env, message, history).response != KnowledgeApology ==>
      Process(env, message, history).confidence >= 0.5
  {
  }
}
