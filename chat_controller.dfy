/** The request handler: validates the body, records the user's message,
    answers from the FAQ when it can, and otherwise asks the primary model
    provider (with the retrieved website context), falling back to the
    other provider when that is enabled. */
module ChatController {
  import opened ChatTypes
  import opened MessageMemory
  import FaqData
  import FaqService
  import ContentRetrieval
  import OpenAi
  import Gemini

  datatype Provider = OpenAiProvider | GeminiProvider

  /** The provider's name as configured and as it appears in error messages. */
  function ProviderName(p: Provider): string {
    match p
    case OpenAiProvider => "openai"
    case GeminiProvider => "gemini"
  }

  /** The provider tried on fallback. */
  function Other(p: Provider): Provider {
    match p
    case OpenAiProvider => GeminiProvider
    case GeminiProvider => OpenAiProvider
  }

  /** The provider settings the handler reads. */
  datatype AiConfig = AiConfig(primaryProvider: Provider, fallbackEnabled: bool,
                               openaiPrompt: string, geminiPrompt: string)

  /** The external calls: the OpenAI completion, the Gemini chat, the
      embedding model and the similarity measure between two embeddings. */
  datatype Backends = Backends(
    complete: seq<ChatTurn> -> Result<Option<string>, ProviderError>,
    send: Gemini.GeminiRequest -> Result<string, ProviderError>,
    embed: string -> Result<ContentRetrieval.Embedding, ProviderError>,
    similarity: (ContentRetrieval.Embedding, ContentRetrieval.Embedding) -> real)

  /** A request body field: a string, or anything else (missing, null, a
      number, an object). */
  datatype BodyField = StringField(value: string) | OtherField

  /** The JSON response and its status code; a 500's `usedFallback` field
      is either absent or `true`. */
  datatype ChatResponse =
    | Reply(message: string, noRelevantContentFound: bool, usedFallback: bool, usedFAQ: bool)
    | BadRequest(error: string)
    | Failure(error: string, noRelevantContentFound: bool, usedFallbackField: Option<bool>)

  function Status(r: ChatResponse): int {
    match r
    case Reply(_, _, _, _) => 200
    case BadRequest(_) => 400
    case Failure(_, _, _) => 500
  }

  const MessageRequired: string := "Message is required and must be a string"
  const SessionIdRequired: string := "Session ID is required and must be a string"
  const BothProvidersFailed: string := "Failed to generate response with both AI providers"

  function NoFallbackError(p: Provider): string {
    "Failed to generate response with " + ProviderName(p) + " and fallback is disabled"
  }

  /** `!field || typeof field !== 'string'` rejects the field. */
  predicate Valid(field: BodyField) {
    field.StringField? && field.value != ""
  }

  /** One provider's `generateChatResponse(history, context)`. */
  function CallProvider(p: Provider, cfg: AiConfig, backends: Backends, history: seq<ChatTurn>,
                        context: Option<string>): Result<string, ProviderError>
  {
    match p
    case OpenAiProvider => OpenAi.GenerateChatResponse(cfg.openaiPrompt, history, context, backends.complete)
    case GeminiProvider => Gemini.GenerateChatResponse(cfg.geminiPrompt, cfg.openaiPrompt, history, context, backends.send)
  }

  /** The response, and the assistant message to record (if any). */
  datatype Outcome = Outcome(response: ChatResponse, reply: Option<string>)

  /** The provider stage after an FAQ miss, given the retrieval result. */
  function AiOutcome(cfg: AiConfig, backends: Backends, history: seq<ChatTurn>, relevant: Option<string>): Outcome {
    var context := if Present(relevant) then relevant else None;
    var noRelevantContentFound := !Present(relevant);
    match CallProvider(cfg.primaryProvider, cfg, backends, history, context)
    case Ok(response) => Outcome(Reply(response, noRelevantContentFound, false, false), Some(response))
    case Err(_) =>
      if !cfg.fallbackEnabled then
        Outcome(Failure(NoFallbackError(cfg.primaryProvider), noRelevantContentFound, None), None)
      else
        match CallProvider(Other(cfg.primaryProvider), cfg, backends, history, context)
        case Ok(response) => Outcome(Reply(response, noRelevantContentFound, true, false), Some(response))
        case Err(_) => Outcome(Failure(BothProvidersFailed, noRelevantContentFound, Some(true)), None)
  }

  /** The provider stage: a message is recorded exactly when the response
      is a 200; it is the primary's reply when the primary succeeds and
      the other provider's (called with the same history and context) when
      the fallback is taken; `usedFallback` is set exactly when the primary
      failed and fallback is enabled; `noRelevantContentFound` always says
      whether retrieval came back empty. */
  lemma AiOutcomeCases(cfg: AiConfig, backends: Backends, history: seq<ChatTurn>, relevant: Option<string>)
    ensures var o := AiOutcome(cfg, backends, history, relevant);
      var context := if Present(relevant) then relevant else None;
      var primary := CallProvider(cfg.primaryProvider, cfg, backends, history, context);
      var fallback := CallProvider(Other(cfg.primaryProvider), cfg, backends, history, context);
      && (o.reply.Some? <==> Status(o.response) == 200)
      && (o.reply.Some? ==> o.response.message == o.reply.value && !o.response.usedFAQ)
      && Status(o.response) != 400
      && o.response.noRelevantContentFound == !Present(relevant)
      && (primary.Ok? ==> o.reply == Some(primary.value) && !o.response.usedFallback)
      && (primary.Err? && cfg.fallbackEnabled && fallback.Ok? ==>
            o.reply == Some(fallback.value) && o.response.usedFallback)
      && (primary.Err? && cfg.fallbackEnabled && fallback.Err? ==>
            o.response == Failure(BothProvidersFailed, !Present(relevant), Some(true)))
      && (primary.Err? && !cfg.fallbackEnabled ==>
            o.response == Failure(NoFallbackError(cfg.primaryProvider), !Present(relevant), None))
  {
  }

  /** The client shows its fallback options after a reply that is not from
      the FAQ and either found no website content or used the fallback. */
  predicate ShowFallbackOptions(r: ChatResponse)
    requires r.Reply?
  {
    (r.noRelevantContentFound || r.usedFallback) && !r.usedFAQ
  }

  /** After a provider reply, the options show exactly when retrieval came
      back empty or the primary provider failed. */
  lemma FallbackOptionsAfterProviderReply(cfg: AiConfig, backends: Backends, history: seq<ChatTurn>,
                                          relevant: Option<string>)
    ensures var o := AiOutcome(cfg, backends, history, relevant);
      var context := if Present(relevant) then relevant else None;
      o.response.Reply? ==>
        (ShowFallbackOptions(o.response) <==>
           !Present(relevant) || CallProvider(cfg.primaryProvider, cfg, backends, history, context).Err?)
  {
    AiOutcomeCases(cfg, backends, history, relevant);
  }

  /** The history handed to the providers ends with the user's message
      just recorded (for any cap of at least one message). */
  lemma HistoryEndsWithUserMessage(sessions: map<string, Session>, id: string, content: string, max: int, now: int)
    requires max >= 1
    ensures var history := Format(AfterAdd(sessions, id, Message(User, content, now), max, now)[id].messages);
      |history| > 0 && history[|history| - 1] == ChatTurn(User, content)
  {
    var m := Message(User, content, now);
    if id in sessions {
      AppendKeepsNewest(sessions[id].messages, m, max);
    }
  }

  /** `processMessage(req, res)`. `faq` is the FAQ corpus the matcher
      reads (`FaqData.Corpus` in the running system). All timestamps of one
      request are `now`. */
  method ProcessMessage(memory: MessageMemoryService, retriever: ContentRetrieval.ContentRetrievalService,
                        cfg: AiConfig, backends: Backends, faq: seq<FaqData.QA>,
                        message: BodyField, sessionId: BodyField, now: int)
    returns (r: ChatResponse)
    modifies memory, retriever
    ensures !Valid(message) ==> r == BadRequest(MessageRequired)
    ensures Valid(message) && !Valid(sessionId) ==> r == BadRequest(SessionIdRequired)
    ensures !Valid(message) || !Valid(sessionId) ==>
      memory.sessions == old(memory.sessions) &&
      retriever.content == old(retriever.content) && retriever.lastRefresh == old(retriever.lastRefresh)
    ensures Valid(message) && Valid(sessionId) ==>
      var id := sessionId.value;
      var max := memory.maxMessagesPerSession;
      var withUser := AfterAdd(old(memory.sessions), id, Message(User, message.value, now), max, now);
      var answer := FaqService.FaqMatch(faq, message.value);
      && (Present(answer) ==>
            && r == Reply(answer.value, false, false, true)
            && memory.sessions == AfterAdd(withUser, id, Message(Assistant, answer.value, now), max, now)
            && retriever.content == old(retriever.content) && retriever.lastRefresh == old(retriever.lastRefresh))
      && (!Present(answer) ==>
            && (old(retriever.NeedsRefresh(now)) ==>
                  retriever.content == ContentRetrieval.KeepEmbedded(
                    ContentRetrieval.Attach(retriever.pages, backends.embed)) &&
                  retriever.lastRefresh == Some(now))
            && (!old(retriever.NeedsRefresh(now)) ==>
                  retriever.content == old(retriever.content) && retriever.lastRefresh == old(retriever.lastRefresh))
            && var relevant := ContentRetrieval.Relevant(retriever.content, backends.embed(message.value),
                                                         backends.similarity, retriever.similarityThreshold);
               var o := AiOutcome(cfg, backends, Format(withUser[id].messages), relevant);
               && r == o.response
               && memory.sessions ==
                    (if o.reply.Some? then AfterAdd(withUser, id, Message(Assistant, o.reply.value, now), max, now)
                     else withUser))
  {
    if !Valid(message) {
      return BadRequest(MessageRequired);
    }
    if !Valid(sessionId) {
      return BadRequest(SessionIdRequired);
    }
    var id := sessionId.value;
    var text := message.value;

    memory.AddMessage(id, Message(User, text, now), now);
    var chatHistory := memory.GetFormattedChatHistory(id, now);

    var faqMatch := FaqService.FindFAQMatch(faq, text);
    if Present(faqMatch) {
      memory.AddMessage(id, Message(Assistant, faqMatch.value, now), now);
      return Reply(faqMatch.value, false, false, true);
    }

    var relevantContent := retriever.FindRelevantContent(text, now, backends.embed, backends.similarity);
    var noRelevantContentFound := !Present(relevantContent);
    var usedFallback := false;
    var context := if Present(relevantContent) then relevantContent else None;

    var response: string;
    var primary := CallProvider(cfg.primaryProvider, cfg, backends, chatHistory, context);
    if primary.Ok? {
      response := primary.value;
    } else if cfg.fallbackEnabled {
      usedFallback := true;
      var fallback := CallProvider(Other(cfg.primaryProvider), cfg, backends, chatHistory, context);
      if fallback.Err? {
        return Failure(BothProvidersFailed, noRelevantContentFound, Some(true));
      }
      response := fallback.value;
    } else {
      return Failure(NoFallbackError(cfg.primaryProvider), noRelevantContentFound, None);
    }

    memory.AddMessage(id, Message(Assistant, response, now), now);
    return Reply(response, noRelevantContentFound, usedFallback, false);
  }
}
