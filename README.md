# NexusAI agents and document ingestion, in Dafny

NexusAI is a customer-support backend. It answers each chat message in two steps.

1. A **router agent** asks a language model which specialist should answer and reads the `AGENT:` and `REASON:` lines of the reply.
2. The **orchestrator** hands the message to one specialist:
   - the **knowledge agent** embeds the question, fetches the five nearest document chunks from a vector index, quotes them as numbered context and answers with a heuristic confidence score and the distinct titles it quoted;
   - the **action agent** asks the model for an `ACTION:` / `PARAMETERS:` / `EXPLANATION:` triple and runs one of seven mock handlers;
   - the **escalation agent** lets the model write an empathetic reply and appends a mock support ticket numbered from the clock.

The orchestrator relabels the specialist's answer with the selected agent type. A failure that escapes the specialist becomes the technical-difficulties answer. All agents share a base that formats the last five messages of the conversation and scores replies.

The **document processor** feeds the vector index:

- it cuts a text into sentences with `/[^.!?]+[.!?]+/g`;
- it packs the sentences greedily into chunks of at most 1000 characters;
- it embeds every chunk and upserts one vector per chunk;
- it records the document with its chunk count.

For a batch of documents, it keeps the ids of those that were ingested and skips the ones that fail.

## Project layout

| file | module | models |
|---|---|---|
| `types.dfy` | `Types` | the records of `types/index.ts`, plus the interface of the external services (`Env`) |
| `text.dfy` | `Text` | the JavaScript string operations the code relies on: `\s`/`trim`, ASCII case mapping, `includes`, `join`, `toString`, `slice(-k)`, `toFixed(1)` |
| `regex.dfy` | `Regex` | the regular expressions, written as the scanners a backtracking matcher amounts to |
| `base_agent.dfy` | `BaseAgent` | `BaseAgent.ts` (mixed: `calculateConfidence` is a method) |
| `router_agent.dfy` | `RouterAgent` | `RouterAgent.ts` |
| `action_agent.dfy` | `ActionAgent` | `ActionAgent.ts` |
| `knowledge_agent.dfy` | `KnowledgeAgent` | `KnowledgeAgent.ts` |
| `escalation_agent.dfy` | `EscalationAgent` | `EscalationAgent.ts` |
| `orchestrator.dfy` | `Orchestrator` | `Orchestrator.ts` |
| `document_processor.dfy` | `DocumentProcessor` | `DocumentProcessor.ts` (imperative: the chunking loop, the embedding loop and the batch loop are methods with loop invariants, proved against specification functions) |

### How the collaborators are modelled

Each external service is a function parameter that either returns a value or fails (`Outcome`):

- the language model, the embedding service and the vector search (`Env`);
- the embedding service again, the uuid generator, the vector upsert and the database insert (`IngestEnv`).

The clock reading `Date.now()` is a number in `Env`.

A batch of documents is given one `IngestEnv` per position (`envs(k)`): the services as they behave while the k-th document is ingested. Two documents of a batch may therefore get different embeddings, uuids and insert results, even when they are equal. Within one document, the embedding is a function of the chunk text, and the uuid a function of the chunk index.

A thrown error is `Fail`. Its message is only logged, so it is not kept.

Each prompt is represented by a `Request`. A `Request` records which system prompt it uses, the parts the user prompt is built from, and the token budget. Within one request each prompt is issued at most once, so a deterministic model of the language model loses nothing.

### Chunking, as the code behaves

The sentence regex keeps only runs of other characters that end in `.`, `!` or `?`. When it finds at least one sentence, two parts of the text are dropped from the chunks:

- the text after the last terminator;
- the terminators before the first other character.

`SentencesCover` states this exactly.

When the regex finds no sentence at all, the whole text becomes the single "sentence" `[text]`, and nothing is dropped. This happens for a text with no terminator, but also for one such as `..abc`, whose terminators all come before its other characters. Such a text yields one chunk, its trimmed self, whatever its length. When the text is only whitespace, that chunk is blank.

A chunk is longer than 1000 characters only when it is a single over-long sentence.

## Model

| member | source | states |
|---|---|---|
| BaseAgent.Agent.constructor | backend/src/agents/BaseAgent.ts:7-9 | `getName` returns the name the agent was built with; the name never changes |
| BaseAgent.FormatConversationHistory | backend/src/agents/BaseAgent.ts:24-29 | the formatted history is empty exactly when the conversation is |
| BaseAgent.HistoryIgnoresOlder | backend/src/agents/BaseAgent.ts:24-26 | messages older than the last five never reach a prompt |
| BaseAgent.HistoryAppend | backend/src/agents/BaseAgent.ts:24-29 | below the window, one more message adds one `role: content` line at the end, after a line break |
| BaseAgent.Confidence | backend/src/agents/BaseAgent.ts:31-44 | the score lies in [0.5, 1.0]; it is 0.5 exactly when no criterion holds and 1.0 exactly when all three hold; an empty reply scores 0.65 |
| BaseAgent.CalculateConfidence | backend/src/agents/BaseAgent.ts:31-44 | the step-by-step accumulation yields the score `Confidence` specifies |
| RouterAgent.SelectedLabel | backend/src/agents/RouterAgent.ts:35-38 | the selected label is never empty and consists of word characters with no lower-case letter |
| RouterAgent.Reason | backend/src/agents/RouterAgent.ts:36-39 | 'Default routing' when no `REASON:` line matches; otherwise exactly the trimmed `(.+)` capture, which is on one line with no leading or trailing whitespace |
| RouterAgent.RoutingFromReply | backend/src/agents/RouterAgent.ts:35-48 | router answer at 0.9: the upper-cased `AGENT:` word, or KNOWLEDGE when there is none; the single source is the reason, or 'Default routing' when there is no `REASON:` line |
| RouterAgent.Process | backend/src/agents/RouterAgent.ts:9-59 | always answers as "router" with exactly one source; a failed generation gives KNOWLEDGE at 0.5 with the error reason, otherwise the parsed reply at 0.9 |
| RouterAgent.GetSelectedAgent | backend/src/agents/RouterAgent.ts:61-71 | in any letter case: ACTION wins, then ESCALATION, else KNOWLEDGE (both directions); never the router |
| RouterAgent.SelectedAgentRoundTrip | backend/src/agents/RouterAgent.ts:61-71 | each specialist's own type name selects that specialist |
| RouterAgent.KnowledgeWordSelectsKnowledge | backend/src/agents/RouterAgent.ts:61-71 | any spelling of KNOWLEDGE selects the knowledge agent |
| RouterAgent.RoutingFailureSelectsKnowledge | backend/src/agents/RouterAgent.ts:49-58 | a failed routing call sends the message to the knowledge agent |
| RouterAgent.NoAgentLineSelectsKnowledge | backend/src/agents/RouterAgent.ts:35-38 | a reply with no `AGENT:` word routes to the knowledge agent |
| Regex.LiteralAtCIAscii | backend/src/agents/RouterAgent.ts:35-36 | under the `i` flag an ASCII label such as `AGENT:` or `REASON:` matches only ASCII characters of the reply |
| Regex.FindLabelledFrom | backend/src/agents/RouterAgent.ts:35-36 | `match` of `LABEL\s*(C+)` gives null exactly when the pattern matches at no position; otherwise the group of a position where it matches, a non-empty run of the group's character class |
| Regex.SpacesThenWord | backend/src/agents/RouterAgent.ts:35 | `\s*(\w+)` captures the word right after the whitespace, or fails; backtracking never helps |
| Regex.SpacesThenLine | backend/src/agents/RouterAgent.ts:36 | `\s*(.+)` followed by non-whitespace captures the rest of that line |
| Regex.SpacesThenLineAtEnd | backend/src/agents/ActionAgent.ts:41-43 | a label followed only by whitespace up to the end still matches when that whitespace holds a non-line-break character (both directions), and the trimmed capture is then empty |
| Regex.LongRunFrom | backend/src/agents/ActionAgent.ts:105 | the leftmost position starting a run of at least n class characters; no earlier position starts one |
| Regex.LongRunIsMaximal | backend/src/agents/ActionAgent.ts:105 | the leftmost long run is a whole run, not the tail of a longer one |
| Regex.LongRunIsFirst | backend/src/agents/ActionAgent.ts:105 | the scan finds nothing exactly when no n class characters stand together; otherwise it finds the leftmost such place, taken as far as the class goes, and every such first run is the one it finds |
| Regex.OrderIdFrom | backend/src/agents/ActionAgent.ts:103 | a captured order id is at least five digits |
| Regex.OrderIdIsFirstLongDigitRun | backend/src/agents/ActionAgent.ts:103 | `#?(\d{5,})` captures the first run of five or more digits; the optional `#` never changes which digits are found |
| Regex.EmailFrom | backend/src/agents/ActionAgent.ts:104 | null exactly when the email pattern matches at no position; otherwise the match at some position, which contains `@` and occurs in the message |
| ActionAgent.CollapseSpaces | backend/src/agents/ActionAgent.ts:99 | `replace(/\s+/g, '_')` leaves no whitespace, is no longer than its input, and introduces no characters other than `_` |
| ActionAgent.CollapseSpacesNoop | backend/src/agents/ActionAgent.ts:99 | text without whitespace is left as it is |
| ActionAgent.CollapseSpacesRun | backend/src/agents/ActionAgent.ts:99 | a non-empty whitespace run on its own becomes a single `_` |
| ActionAgent.CollapseSpacesAppend | backend/src/agents/ActionAgent.ts:99 | collapsing works piece by piece wherever no whitespace run is cut in two; with the two rows above this determines the result |
| ActionAgent.CollapseSpacesJoin | backend/src/agents/ActionAgent.ts:99 | a whitespace run between two pieces that do not touch it becomes one `_` between their collapsed forms |
| ActionAgent.NormalizeAction | backend/src/agents/ActionAgent.ts:99 | a normalised action name has no whitespace and no lower-case letter |
| ActionAgent.NormalizeWord | backend/src/agents/ActionAgent.ts:99 | a name without whitespace is only upper-cased |
| ActionAgent.NormalizeJoin | backend/src/agents/ActionAgent.ts:99 | each whitespace run between two words becomes one `_` between their normal forms |
| ActionAgent.NormalizeIdempotent | backend/src/agents/ActionAgent.ts:99 | normalising twice is normalising once |
| ActionAgent.KnownActionsAreNormal | backend/src/agents/ActionAgent.ts:107-184 | every case label of the handler switch is its own normal form |
| ActionAgent.OrderId | backend/src/agents/ActionAgent.ts:103-109 | the order id is the first maximal run of at least five digits in the message, or 12345 when there is none |
| ActionAgent.TrackingNumber | backend/src/agents/ActionAgent.ts:105 | the first maximal run of at least ten `[A-Z0-9]` characters in the message, or FDX1234567890 when there is none |
| ActionAgent.Email | backend/src/agents/ActionAgent.ts:104 | no match of the email pattern gives the default text; any match gives an address containing `@` (which the default lacks) that occurs in the message |
| ActionAgent.RefundReferenceDigits | backend/src/agents/ActionAgent.ts:145 | the refund reference has at most six digits, exactly six from a clock reading of 100000 on, and denotes the clock reading modulo 10^6 |
| ActionAgent.OrderStatusText | backend/src/agents/ActionAgent.ts:113-118 | the order-status report opens with `Order #` and the order id |
| ActionAgent.CancelText | backend/src/agents/ActionAgent.ts:133-136 | the cancellation report opens with `Order #` and the order id |
| ActionAgent.RefundText | backend/src/agents/ActionAgent.ts:144-148 | the refund report quotes `RF-` and the reference, and `Order #` and the order id |
| ActionAgent.PasswordText | backend/src/agents/ActionAgent.ts:156-159 | the password report names the address the reset was sent to |
| ActionAgent.ShippingText | backend/src/agents/ActionAgent.ts:167-170 | the shipping report quotes `Order #` and the order id |
| ActionAgent.TrackingText | backend/src/agents/ActionAgent.ts:178-183 | the tracking report opens with `Package Tracking - `, the tracking number and a colon |
| ActionAgent.HandlerFor | backend/src/agents/ActionAgent.ts:107-191 | a handler is selected exactly for the seven known names, and it is the one of that name |
| ActionAgent.HandlerForName | backend/src/agents/ActionAgent.ts:107-184 | each handler is reached by its own name |
| ActionAgent.HandlerData | backend/src/agents/ActionAgent.ts:108-184 | each handler reports non-empty text quoting what it took from the message: status and cancel open with `Order #` and the order id; a refund quotes `RF-` and the clock reference and the order id; a reset names the email; a shipping update quotes the order; tracking opens with the tracking number; the account text is fixed |
| ActionAgent.ExecuteAction | backend/src/agents/ActionAgent.ts:96-201 | succeeds exactly for a name that normalises to a known action, reporting that normal name and the text of that action's handler for this message and clock; otherwise fails under the label as given with the not-recognised error |
| ActionAgent.ExecuteActionSpelling | backend/src/agents/ActionAgent.ts:99-107 | any spelling that normalises to a known action behaves as that action |
| ActionAgent.ActionLabel | backend/src/agents/ActionAgent.ts:41-53 | an action label exists exactly when `ACTION:\s*(.+)` matches, and is then exactly the trimmed capture: on one line, with no surrounding whitespace |
| ActionAgent.Field | backend/src/agents/ActionAgent.ts:42-55 | a missing field is the empty string; otherwise exactly the trimmed capture, on one line with no surrounding whitespace |
| ActionAgent.NeedsMoreInfo | backend/src/agents/ActionAgent.ts:58 | more information can be asked for only by a reply with a `PARAMETERS:` line |
| ActionAgent.ResultLine | backend/src/agents/ActionAgent.ts:71-76 | the appended line starts with a tick exactly for a success and with a cross exactly for a failure; a success with text shows that text |
| ActionAgent.ExecuteActionLine | backend/src/agents/ActionAgent.ts:71-76 | a known action's line is a tick and its handler's text; an unknown one's a cross and the not-recognised error |
| ActionAgent.ActionFromReply | backend/src/agents/ActionAgent.ts:41-85 | no `ACTION:` line asks for details at 0.4; NEED_MORE_INFO answers the explanation plus the request for information at 0.6; otherwise the action runs (both directions) and its outcome is appended at 0.85 |
| ActionAgent.MissingParametersRuns | backend/src/agents/ActionAgent.ts:54-58 | a reply without a `PARAMETERS:` line still runs its action |
| ActionAgent.ActionOutcomeShown | backend/src/agents/ActionAgent.ts:71-76 | a known action appends a tick and the handler's text; an unknown one appends a cross and the not-recognised error |
| ActionAgent.Process | backend/src/agents/ActionAgent.ts:9-94 | always answers as "action"; a failed generation gives the apology at 0.3, otherwise the reply is parsed and acted on |
| KnowledgeAgent.Section | backend/src/agents/KnowledgeAgent.ts:28-32 | the section of the hit ranked idx opens with `[Source idx+1: title (Relevance: ` |
| KnowledgeAgent.BuildContext | backend/src/agents/KnowledgeAgent.ts:27-34 | the context is empty exactly when there are no hits |
| KnowledgeAgent.ContextAppend | backend/src/agents/KnowledgeAgent.ts:27-34 | one more hit adds its numbered section at the end, after the `---` separator |
| KnowledgeAgent.IndexOf | backend/src/agents/KnowledgeAgent.ts:38 | `indexOf` gives -1 exactly when the value is absent, and otherwise its first position |
| KnowledgeAgent.Distinct | backend/src/agents/KnowledgeAgent.ts:36-38 | reference de-duplication: same values as its input, none repeated |
| KnowledgeAgent.KeepFirst | backend/src/agents/KnowledgeAgent.ts:38 | the `indexOf` filter over the first n titles keeps at most n of them |
| KnowledgeAgent.KeepFirstIsDistinct | backend/src/agents/KnowledgeAgent.ts:38 | the `indexOf` filter is exactly first-seen de-duplication |
| KnowledgeAgent.Sources | backend/src/agents/KnowledgeAgent.ts:36-38 | sources are the hits' titles, without repeats, in first-seen order; no longer than the hits, and empty exactly when there are none |
| KnowledgeAgent.KnowledgeFromReply | backend/src/agents/KnowledgeAgent.ts:64-74 | the answer is the reply at its confidence score; sources are absent exactly when there were no hits |
| KnowledgeAgent.Process | backend/src/agents/KnowledgeAgent.ts:11-83 | a failed embedding, search or generation gives the apology at 0.3; otherwise the answer built from the top five hits |
| KnowledgeAgent.AnswerOutranksApology | backend/src/agents/KnowledgeAgent.ts:65-81 | any answer other than the apology scores at least 0.5 |
| EscalationAgent.TicketId | backend/src/agents/EscalationAgent.ts:32 | the ticket id is `ESC-` and at most six digits, exactly six (ten characters in all) from a clock reading of 100000 on, denoting the clock reading modulo 10^6 |
| EscalationAgent.TicketIdsDiffer | backend/src/agents/EscalationAgent.ts:32 | readings less than a million milliseconds apart give different tickets |
| EscalationAgent.EscalationDetails | backend/src/agents/EscalationAgent.ts:34-42 | the appended block quotes the ticket id and states the high priority |
| EscalationAgent.Process | backend/src/agents/EscalationAgent.ts:9-54 | fails exactly when generation fails; otherwise the reply plus the details at 0.95, with a successful ESCALATE action carrying the ticket at high priority |
| EscalationAgent.ReplyQuotesTicket | backend/src/agents/EscalationAgent.ts:32-51 | when generation succeeds, the answer starts with the model's reply and quotes the same ticket the action carries |
| Orchestrator.Selected | backend/src/agents/Orchestrator.ts:29-30 | the router's answer never selects the router |
| Orchestrator.Dispatch | backend/src/agents/Orchestrator.ts:37-52 | the specialist's answer fails exactly when escalation is selected and its generation fails |
| Orchestrator.ProcessMessage | backend/src/agents/Orchestrator.ts:20-70 | the answer is the selected specialist's, relabelled with its type; the error answer occurs exactly when escalation is selected and its generation fails |
| Orchestrator.RoutingFailureFallsBackToKnowledge | backend/src/agents/Orchestrator.ts:29-39 | when the routing call fails, the knowledge agent answers |
| Orchestrator.RoutedByName | backend/src/agents/Orchestrator.ts:29-30 | a router reply naming a specialist, in any letter case, selects it |
| Orchestrator.ErrorOnlyFromEscalation | backend/src/agents/Orchestrator.ts:37-68 | with knowledge or action selected, the answer carries that type and a positive confidence |
| Orchestrator.HandleFallback | backend/src/agents/Orchestrator.ts:72-79 | the fallback answer quotes the message, at 0.3, with no sources and no action |
| Text.Trim | backend/src/services/DocumentProcessor.ts:79 | `trim` is a slice of its input with only whitespace outside it; it is empty exactly for all-whitespace text and otherwise neither starts nor ends with whitespace |
| Text.TrimmedLine | backend/src/agents/RouterAgent.ts:36-39 | a trimmed `(.+)` group still lies on one line and is unpadded |
| Text.DecimalRoundTrip | backend/src/agents/EscalationAgent.ts:32 | the decimal digits of n denote n |
| Text.SliceLastDecimal | backend/src/agents/EscalationAgent.ts:32 | the last k digits of `n.toString()` denote n modulo 10^k |
| Text.DecimalLength | backend/src/agents/EscalationAgent.ts:32 | a number of at least 10^k has more than k decimal digits |
| Text.ToFixed1 | backend/src/agents/KnowledgeAgent.ts:31 | `toFixed(1)` is a sign exactly for negatives, digits, a point and one digit |
| Text.JoinAppend | backend/src/agents/BaseAgent.ts:28 | joining one more element appends the separator and the element |
| DocumentProcessor.SentenceEnd | backend/src/services/DocumentProcessor.ts:70 | a sentence match starting at i ends after i and within the text |
| DocumentProcessor.Sentences | backend/src/services/DocumentProcessor.ts:70 | `match(...) \|\| [text]` is never empty; it is the whole text or a list of sentence matches, and the whole text when there is no terminator |
| DocumentProcessor.SentencesShape | backend/src/services/DocumentProcessor.ts:70 | every sentence match is non-terminators followed by terminators, both non-empty |
| DocumentProcessor.SentencesCover | backend/src/services/DocumentProcessor.ts:70 | the sentences, laid end to end, are the text without its leading terminators and its trailing unterminated fragment |
| DocumentProcessor.NoTerminatorNoSentence | backend/src/services/DocumentProcessor.ts:70 | text without `.`, `!` or `?` has no sentence match |
| DocumentProcessor.SentencesNonEmpty | backend/src/services/DocumentProcessor.ts:70 | the sentences of a non-empty text are non-empty |
| DocumentProcessor.GroupsFrom | backend/src/services/DocumentProcessor.ts:74-87 | the loop closes at most one group per remaining sentence, plus the open one |
| DocumentProcessor.Groups | backend/src/services/DocumentProcessor.ts:74-87 | at most one group per sentence |
| DocumentProcessor.Chunks | backend/src/services/DocumentProcessor.ts:68-90 | one chunk per closed group, each the trimmed text of its group |
| DocumentProcessor.GroupsPartition | backend/src/services/DocumentProcessor.ts:74-87 | packing loses, duplicates and reorders no sentence, and closes no empty group |
| DocumentProcessor.GroupsBounded | backend/src/services/DocumentProcessor.ts:75-81 | no group exceeds 1000 characters unless it is a single sentence |
| DocumentProcessor.GroupsGreedy | backend/src/services/DocumentProcessor.ts:75-82 | a group is closed only when the next group's first sentence would not fit in it |
| DocumentProcessor.ChunkingPromises | backend/src/services/DocumentProcessor.ts:68-90 | for non-empty text: the groups partition the sentences in order, none empty, each within 1000 characters or a single sentence, greedily closed, and each chunk no longer than its group |
| DocumentProcessor.ChunksOfEmpty | backend/src/services/DocumentProcessor.ts:70-87 | empty text gives no chunk |
| DocumentProcessor.ChunksWithoutSentence | backend/src/services/DocumentProcessor.ts:70-87 | text in which the regex finds no sentence is one chunk, its trimmed self, whatever its length |
| DocumentProcessor.ChunksWithoutTerminator | backend/src/services/DocumentProcessor.ts:70-87 | text without a terminator is one chunk, its trimmed self, whatever its length |
| DocumentProcessor.ChunksNotBlank | backend/src/services/DocumentProcessor.ts:70-87 | when the text has a sentence, no chunk is blank |
| DocumentProcessor.SplitIntoChunks | backend/src/services/DocumentProcessor.ts:68-90 | the loop's chunks are exactly `Chunks(text)` |
| DocumentProcessor.Vectors | backend/src/services/DocumentProcessor.ts:25-43 | one vector per chunk, in chunk order, carrying its embedding, text, index and the chunk count |
| DocumentProcessor.Ingest | backend/src/services/DocumentProcessor.ts:10-66 | ingestion succeeds exactly when every chunk embeds, the upsert succeeds and the insert returns an id; it stores one vector per chunk and records the chunk count and original length |
| DocumentProcessor.EmbedChunks | backend/src/services/DocumentProcessor.ts:25-43 | the embedding loop yields vectors exactly when every chunk embeds, and then exactly `Vectors` |
| DocumentProcessor.IngestDocument | backend/src/services/DocumentProcessor.ts:10-66 | the imperative ingestion computes exactly `Ingest` |
| DocumentProcessor.Outcomes | backend/src/services/DocumentProcessor.ts:97-104 | one outcome per document, in input order, each from that document's own ingestion |
| DocumentProcessor.KeptIds | backend/src/services/DocumentProcessor.ts:97-104 | at most one id per outcome |
| DocumentProcessor.KeptIdsAppend | backend/src/services/DocumentProcessor.ts:97-104 | the ids of a batch are those of its two halves, in order |
| DocumentProcessor.FailureSkipped | backend/src/services/DocumentProcessor.ts:98-103 | a failure adds no id and does not stop the documents after it |
| DocumentProcessor.KeptIdsAreSuccesses | backend/src/services/DocumentProcessor.ts:97-106 | an id is returned exactly when some document's ingestion produced it |
| DocumentProcessor.KeptIdsCount | backend/src/services/DocumentProcessor.ts:97-106 | at most one id per document, and one for each exactly when none failed |
| DocumentProcessor.FailingDocumentSkipped | backend/src/services/DocumentProcessor.ts:97-104 | a document whose ingestion fails adds no id, and the documents before and after it keep theirs |
| DocumentProcessor.OutcomesPrefix | backend/src/services/DocumentProcessor.ts:97-104 | the outcomes of the first j documents do not depend on the documents after them |
| DocumentProcessor.IngestMultipleDocuments | backend/src/services/DocumentProcessor.ts:92-107 | the batch loop returns exactly the ids of the ingested documents, in input order |

## Left out

- Case mapping is ASCII-only. `toUpperCase`/`toLowerCase` special cases outside ASCII are not modelled (`ß`, the dotless `ı`, the Kelvin sign). Without `u`, the case-insensitive regex flag never folds a non-ASCII character onto an ASCII one. Every literal matched case-insensitively here (`AGENT:`, `REASON:`, `ACTION:`, `PARAMETERS:`, `EXPLANATION:`) is ASCII, and so is `\w`, so comparing with the ASCII-only UpperChar is exact.
- Lengths count Unicode scalar values, not UTF-16 code units. They differ only for characters outside the Basic Multilingual Plane, in `length > 50`, the 1000-character chunk limit and `originalLength`.
- Confidence values are exact reals, not IEEE doubles. For example, 0.5 + 0.2 + 0.15 + 0.15 is exactly 1.0 here.
- `toFixed(1)` is modelled for magnitudes below 10^21. The exponent notation JavaScript uses beyond that is not modelled.
- The relevance figure `(score * 100).toFixed(1)` (KnowledgeAgent.ts:31) uses the exact real product. The rounding of the double product, which can differ in the last digit, is not modelled.
- The wording of the system prompts and user prompts is not modelled. A `Request` records which prompt and which parts it carries.
- Console logging and the processing-time measurement in `processMessage` are left out. They do not affect any result.
- The uuid generator and the clock are parameters. Vector ids are not claimed to be unique.
- Within one document, two chunks with the same text get the same embedding, since the embedding service is a function of the text there. A service that answers the same text differently within one document is not modelled.
- The ticket and refund numbers depend only on the clock reading.
- Message `metadata`, the `created_at` date type and the vector-store metadata beyond title and text are not kept.
- `getAllDocuments` (DocumentProcessor.ts:109-113) is a plain database read with no logic of its own and is left out.
- The conversation service, the HTTP routes and the service clients are outside the modelled core.
- The `catch` of `executeAction` is unreachable, because nothing in its `try` can throw. Its "error occurred" result is not modelled.
- The `parameters` argument of `executeAction` is never read by it, so the model does not take it.
- The asynchronous execution is modelled sequentially, in the order the awaits run. No two calls of one request overlap.
- The base class's default budget of 2000 tokens is never used, since every agent passes its own budget.
- `CHUNK_OVERLAP` (200) is declared but never read, so adjacent chunks share no text. The model keeps the constant and does not use it either.
- The upsert is modelled as succeeding or failing as a whole. A partial upsert is not modelled.
- A database insert that returns no row is modelled as a failed insert.
- Regex.EmailFrom: states that the result is the match at some position, not that it is the leftmost one, and does not restate the shape of the match (local part, domain, top-level part) that `EmailAt`/`DomainEnd` compute.
- Regex.FindLabelledFrom: states that the group comes from a position where the pattern matches, not that it is the leftmost such position, although the leftmost one is the one it computes.
