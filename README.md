# Support chatbot message pipeline, in Dafny

This project models the server side of a customer-support chatbot. It covers how one chat message is handled:

- **Session store** (`MessageMemory`). Conversation history is kept per session id. Each session is capped in length: on overflow it keeps the first message plus the most recent ones. Sessions idle for too long are swept.
- **FAQ matcher** (`FaqService`, over the static corpus in `FaqData`). First it looks for a question equal to the query, ignoring case and surrounding whitespace. Otherwise it runs a lexical fuzzy pass: each question is scored by the share of query tokens it shares. The best score of at least 0.7 wins, and ties go to corpus order.
- **Website-content retrieval** (`ContentRetrieval`). A small corpus of page snippets is embedded by an external model and rebuilt when stale. For a query, the snippets are stably sorted by similarity, filtered strictly above a threshold, and the first three are joined with a blank line.
- **Prompt shaping** for the two model providers:
  - `OpenAi`: a system message, holding the prompt plus either the context or an honesty note, goes ahead of the history.
  - `Gemini`: system messages are dropped, the system text is folded into the first user turn, roles become `user`/`model`, and the last turn is sent behind a context or honesty prefix.
- **Request handler** (`ChatController.ProcessMessage`):
  1. Validate the request.
  2. Record the user's message.
  3. Answer from the FAQ if it matches.
  4. Otherwise retrieve website context and ask the primary provider, then the other one if fallback is enabled.
  5. Record the reply and return the response record.

The store, the retriever and the handler are imperative. They are modelled as classes and methods whose postconditions state the new state through specification functions (`AfterAdd`, `Swept`, `KeepEmbedded(Attach(..))`, `Relevant`, `AiOutcome`). The matcher's loops are proved against `FaqMatch`. Everything outside the program is a parameter:

- Time is `now`, in milliseconds.
- The model providers, the embedding model and the similarity measure are oracle functions.

Two behaviours are proved as they are:

- With a cap of 1, a session grows on overflow (`AppendCapOneGrows`). The shipped configuration uses a cap of 20.
- A whitespace-only message passes the handler's validation and gets the first FAQ answer (`BlankQueryGetsFirstAnswer`). The client refuses blank input before sending.

`ChatTypes` holds the shared types. `Text` holds the JavaScript string operations the matcher uses (`toLowerCase`, `trim`, `split(/\s+/)`, `includes`, `join`), restricted to ASCII.

## Model

| member | source | states |
|---|---|---|
| Text.Lower | server/services/faqService.ts:7 | lower-casing keeps the length and maps each character through ASCII `A`–`Z` → `a`–`z` |
| Text.Trim | server/services/faqService.ts:7 | the result of `trim` never starts or ends with whitespace |
| Text.TrimStartIsSuffix | server/services/faqService.ts:7 | the leading part of the string without whitespace is a suffix of it, and everything before that suffix is whitespace |
| Text.TrimEndIsPrefix | server/services/faqService.ts:7 | the trailing part of the string without whitespace is a prefix of it, and everything after that prefix is whitespace |
| Text.TrimPadded | server/services/faqService.ts:7 | `trim` removes exactly the surrounding whitespace: `Trim(before + s + after) == s` for whitespace padding and a stripped `s` |
| Text.SplitTokensHaveNoSpace | server/services/faqService.ts:25-26 | no token of `split(/\s+/)` contains whitespace |
| Text.SplitJoin | server/services/faqService.ts:25-26 | splitting undoes joining non-empty, whitespace-free words with single spaces |
| Text.IncludesIff | server/services/faqService.ts:30 | `includes` holds iff the part occurs at some index |
| MessageMemory.SliceFrom | server/services/messageMemory.ts:57 | single-argument `slice`: a negative start counts from the end and is clamped at 0, so `slice(-0)` is the whole array |
| MessageMemory.AppendBelowCap | server/services/messageMemory.ts:51-52 | below the cap, adding a message gives exactly old messages ++ [message] |
| MessageMemory.AppendKeepsFirst | server/services/messageMemory.ts:52-58 | adding never drops the session's first message |
| MessageMemory.AppendKeepsNewest | server/services/messageMemory.ts:51-58 | for any cap of at least 1, the last stored message is the one just added |
| MessageMemory.AppendBounded | server/services/messageMemory.ts:52-59 | with cap ≥ 2 and at most cap messages before, the length becomes min(old + 1, cap) |
| MessageMemory.AppendOverflowDropsSecond | server/services/messageMemory.ts:54-58 | on overflow of a full session the result is [m0] ++ messages[2..] ++ [new]: message 1 is dropped |
| MessageMemory.AppendCapOneGrows | server/services/messageMemory.ts:57 | with cap 1, overflow duplicates message 0 and grows the session by two |
| MessageMemory.ReplayKeepsFirstAndRecent | server/services/messageMemory.ts:47-59 | after any sequence of adds with cap ≥ 2, the session holds min(n, cap) messages: the first ever added, then the most recent ones in order |
| MessageMemory.AppendKeepsFirstAndRecent | server/services/messageMemory.ts:51-59 | one capped append keeps the session as the first message ever added followed by the most recent ones |
| MessageMemory.WithSession | server/services/messageMemory.ts:35-45 | an unknown id gets an empty session stamped now; a known id and every other session are unchanged |
| MessageMemory.AfterAdd | server/services/messageMemory.ts:47-65 | only the target session changes (created if absent): capped append, `lastUpdated` = now, `createdAt` kept |
| MessageMemory.Swept | server/services/messageMemory.ts:24-33 | exactly the sessions with `now - lastUpdated > maxAge` (strict) are removed; the rest are unchanged |
| MessageMemory.Format | server/services/messageMemory.ts:75-78 | same length and order; each entry keeps role and content |
| MessageMemory.MessageMemoryService.constructor | server/services/messageMemory.ts:15-18 | empty store; age and cap fall back to 30 minutes and 20 messages when 0 |
| MessageMemory.MessageMemoryService.CleanupSessions | server/services/messageMemory.ts:24-33 | the deleting loop leaves exactly `Swept(old)` and preserves the cap invariant |
| MessageMemory.MessageMemoryService.GetSession | server/services/messageMemory.ts:35-45 | the store becomes `WithSession(old)` and the stored session is returned |
| MessageMemory.MessageMemoryService.AddMessage | server/services/messageMemory.ts:47-66 | the store becomes `AfterAdd(old)`; with cap ≥ 2 the cap invariant is preserved |
| MessageMemory.MessageMemoryService.GetMessages | server/services/messageMemory.ts:68-70 | returns the session's messages, creating the session if absent |
| MessageMemory.MessageMemoryService.GetFormattedChatHistory | server/services/messageMemory.ts:72-79 | returns `Format` of the session's messages, creating the session if absent |
| FaqService.MatchingWordsFilter | server/services/faqService.ts:29-31 | every kept token is a query token that matches some question token; when every query token matches, all are kept |
| FaqService.MatchingWordsSingle | server/services/faqService.ts:29-31 | a single query token is kept exactly when it is contained in, or contains, some question token |
| FaqService.MatchingWordsAppend | server/services/faqService.ts:29-31 | the filter distributes over concatenation, so each matching token is kept in its place and duplicates count once per occurrence |
| FaqService.ScoreBounds | server/services/faqService.ts:29-33 | 0 ≤ score ≤ 1 |
| FaqService.ScoreThreshold | server/services/faqService.ts:35 | score ≥ 0.7 iff 10 × matching tokens ≥ 7 × query tokens |
| FaqService.ScoresPointwise | server/services/faqService.ts:22-39 | entry `i` of the score list is the score of question `i` |
| FaqService.ExactFrom | server/services/faqService.ts:10-16 | finds the first question, in corpus order, whose lower-cased text equals the normalised query |
| FaqService.CandidatesAreIndexed | server/services/faqService.ts:22-39 | the candidates are exactly the questions scoring ≥ 0.7, in corpus order, each with its answer and score |
| FaqService.FirstMaxIndex | server/services/faqService.ts:42-45 | the chosen match has the maximal score and is the earliest such match (stable sort, then index 0) |
| FaqService.BestUpToIsBest | server/services/faqService.ts:35-45 | scanning in corpus order and switching only on a strictly higher score finds a winner iff some question scores ≥ 0.7, and the winner has the top score and comes earliest among ties |
| FaqService.CandidatesTopIsBest | server/services/faqService.ts:35-45 | the first highest-scoring candidate is that scan's winner, with its answer and score; there is a candidate iff there is a winner |
| FaqService.FuzzyPassPicksBest | server/services/faqService.ts:42-48 | null iff every score is below 0.7; otherwise the answer of a best-scoring question, ties to the earliest |
| FaqService.ExactMatchWins | server/services/faqService.ts:7-16 | an exact match returns the answer of the first matching question |
| FaqService.FuzzyMatchPicksBest | server/services/faqService.ts:19-48 | without an exact match: null iff no question scores ≥ 0.7, else the best (earliest on ties) |
| FaqService.AnswerFromCorpus | server/services/faqService.ts:5-48 | any non-null answer is one of the corpus answers |
| FaqService.NormalizePadded | server/services/faqService.ts:7 | normalising a whitespace-padded query gives its lower-cased core |
| FaqService.FlattenFirst | server/services/faqService.ts:10-11 | the nested category/entry loops visit the first category's first entry first |
| FaqService.CorpusStartsWithTracking | server/data/faq.ts:4-10 | the flattened corpus starts with the order-tracking question and answer |
| FaqService.TrackOrderQuery | server/services/faqService.ts:7-16 | "How can I track my order?" in any letter case, with any surrounding whitespace, gets the tracking answer from any corpus that opens with the tracking entry |
| FaqService.EmptyTokenScoresOne | server/services/faqService.ts:29-33 | the single empty token is contained in every question token, so every question scores 1 |
| FaqService.BlankQueryGetsFirstAnswer | server/services/faqService.ts:5-45 | a whitespace-only query matches no question exactly, scores 1 everywhere and gets the first answer |
| FaqService.FindFAQMatch | server/services/faqService.ts:5-48 | the two loops with early return compute `FaqMatch` |
| ContentRetrieval.ShouldRefreshIff | server/services/contentRetrieval.ts:32-40 | refresh iff never refreshed or more than `interval × 3 600 000` ms have elapsed (strict) |
| ContentRetrieval.RebuildKeepsSucceeded | server/services/contentRetrieval.ts:74-86 | the rebuilt corpus is exactly the items whose embedding succeeded, in input order, each with its embedding |
| ContentRetrieval.RebuildAllFailed | server/services/contentRetrieval.ts:74-86 | when every embedding fails, the rebuilt corpus is empty |
| ContentRetrieval.SortDescIsStableSort | server/services/contentRetrieval.ts:123 | the sort is descending, a permutation, and keeps equal-score items in input order |
| ContentRetrieval.AboveThreshold | server/services/contentRetrieval.ts:127 | every kept item scores strictly above the threshold |
| ContentRetrieval.AboveThresholdIsPrefix | server/services/contentRetrieval.ts:123-127 | on sorted scores the kept items are a prefix, and nothing after it clears the threshold |
| ContentRetrieval.ChosenIsBestPrefix | server/services/contentRetrieval.ts:126-128 | at most three, all above the threshold, a prefix of the sorted scores, none beaten by an unchosen item |
| ContentRetrieval.TopMatchesAreBest | server/services/contentRetrieval.ts:117-128 | the chosen snippets are the top (at most three) of the stably sorted scores, and fewer than three only when no other clears the threshold |
| ContentRetrieval.RelevantShape | server/services/contentRetrieval.ts:103-136 | null for an empty corpus or a failed query embedding; a non-null result is the non-empty blank-line join of 1 to 3 chosen snippets |
| ContentRetrieval.ContentRetrievalService.constructor | server/services/contentRetrieval.ts:19-24 | empty, never-refreshed corpus; the pages to embed are the built-in sample content; interval and threshold fall back when 0 |
| ContentRetrieval.ContentRetrievalService.ScrapeWebsite | server/services/contentRetrieval.ts:42-93 | the corpus becomes the successfully embedded fixture items and `lastRefresh` = now |
| ContentRetrieval.ContentRetrievalService.Initialize | server/services/contentRetrieval.ts:26-30 | rebuilds iff the corpus is empty or stale; otherwise corpus and `lastRefresh` are unchanged |
| ContentRetrieval.ContentRetrievalService.FindRelevantContent | server/services/contentRetrieval.ts:103-137 | initialises, then returns `Relevant` of the current corpus (errors become null) |
| OpenAi.SystemMessageShape | server/services/openai.ts:44-50 | the system message is the configured prompt (or the default), then the context introduction plus context, or the honesty note |
| OpenAi.EmptyContextIsNoContext | server/services/openai.ts:46-50 | an empty context gets the honesty note, as an absent one does |
| OpenAi.FullMessagesShape | server/services/openai.ts:52-55 | messages sent = [system] ++ history: one longer, history unchanged after it |
| OpenAi.ReplyText | server/services/openai.ts:68 | the reply is never empty: the model's text, or the apology when that is null or empty |
| OpenAi.GenerateChatResponseOutcome | server/services/openai.ts:39-73 | success iff the completion call succeeds; a failure is the backend's error unchanged |
| Gemini.SystemTextFallsBackToHistory | server/services/gemini.ts:31-35 | with no configured prompt, the system text is the first system message's content, or "" |
| Gemini.NonSystem | server/services/gemini.ts:38-39 | no system message survives the filter |
| Gemini.NonSystemAppend | server/services/gemini.ts:38-39 | the filter distributes over concatenation (so it keeps order) |
| Gemini.NonSystemKeepsConversation | server/services/gemini.ts:38-39 | a history without system messages passes unchanged |
| Gemini.ConvertShape | server/services/gemini.ts:40-51 | roles map user→user and assistant→model; text unchanged except the first user turn, which gets the system text and a blank line when that text is non-empty |
| Gemini.BuildRequestShape | server/services/gemini.ts:55-75 | fails iff every message is a system message; otherwise history ++ [last] is the converted list and the sent text is prompt prefix ++ last text |
| Gemini.GenerateChatResponse | server/services/gemini.ts:72-81 | the missing-last-turn error or the chat call's own result or error is returned |
| ChatController.AiOutcomeCases | server/controllers/chatController.ts:76-143 | reply recorded iff 200; primary reply or, after a primary failure with fallback, the other provider's reply; the 500 records; `noRelevantContentFound` mirrors retrieval |
| ChatController.FallbackOptionsAfterProviderReply | client/src/components/Chatbot/ChatProvider.tsx:104-107 | after a provider reply, the client shows fallback options iff retrieval was empty or the primary failed |
| ChatController.HistoryEndsWithUserMessage | server/controllers/chatController.ts:23-30 | the history given to providers ends with the user's message just recorded |
| ChatController.ProcessMessage | server/controllers/chatController.ts:10-148 | 400 for an invalid message, then an invalid session id, with nothing changed; FAQ hit gives 200 with `usedFAQ` and no retrieval; otherwise retrieval, then `AiOutcome`, recording the reply only on 200 |

## Left out

- Unicode: lower-casing, trimming and `\s` cover ASCII only.
- `cosineSimilarity`: the similarity between embeddings is an oracle returning a real. NaN results, e.g. for zero vectors, are not modelled.
- Floating point: the FAQ score and the refresh-hours quotient are exact rationals.
- The provider SDK calls, the embedding call, model names, temperatures and token limits: they are oracle parameters.
- The Gemini SDK's own validation of the chat history belongs to the oracle `send`.
- `Promise.all` in the rebuild: each item's embedding is attached in input order, which is the order `Promise.all` preserves. Concurrency between requests, which could interleave at each `await`, is not modelled.
- Time: the 15-minute sweep timer and `new Date()` are not modelled. Time is the `now` parameter, and one request uses a single `now` for all its timestamps.
- MessageMemory.MessageMemoryService.GetSession: the session is returned by value. Aliasing of the live JavaScript session object and its `messages` array is not captured.
- ContentRetrieval.ContentRetrievalService.constructor: `refreshIntervalHours` is an integer. The environment's `parseInt` fallback is the parameter `fallbackHours`; a fractional setting or `NaN` is not modelled, nor is the environment fallback for the base URL.
- ContentRetrieval.ContentRetrievalService: the hard-coded sample pages that a rebuild embeds are the constant field `pages`, set to `SampleContent`. Fetching the real website is not modelled, as the source does not fetch it either.
- FaqService.TrackOrderQuery: stated for any corpus whose first entry is the tracking question. `CorpusStartsWithTracking` proves this of `FaqData.Corpus`.
- ContentRetrieval.ContentRetrievalService.FindRelevantContent: one deterministic `embed` function serves both the rebuild and the query, so a query whose text equals a page's text shares that page's success or failure. The real embedding API promises no such thing; no proved property relies on it.
- ContentRetrieval.RebuildKeepsSucceeded: stated for items that carry no embedding beforehand, which is what the fixture holds.
- ContentRetrieval.ContentRetrievalService.ScrapeWebsite: the rethrow path is not modelled. Every embedding failure is caught per item, so a rebuild cannot fail.
- ChatController.ProcessMessage:
  - The FAQ corpus is the parameter `faq`; the running system passes `FaqData.Corpus`.
  - The quota classification of a primary failure only logs, so it is not modelled.
  - The catch-all "Internal server error" 500 cannot be reached: no modelled step throws.
- Express plumbing, the API-key check, console logging, the React client (apart from the fallback-options predicate) and the configuration file.
