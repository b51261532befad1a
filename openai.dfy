/** Prompt shaping for the OpenAI provider: one system message (prompt plus
    either the retrieved context or an honesty instruction) ahead of the
    chat history; the completion call itself is an external oracle. */
module OpenAi {
  import opened ChatTypes
  import opened Text

  const DefaultSystemPrompt: string := "You are a helpful customer support AI assistant. Be concise and friendly."
  const ContextIntro: string := "\n\nUse the following relevant information from our website to answer the user's question:\n"
  const HonestyNote: string := "\n\nIf you don't know the answer based on our website content, be honest and say you're not sure."
  const Apology: string := "I apologize, but I couldn't generate a response."

  /** The configured prompt, or the default one when it is empty. */
  function BasePrompt(configuredPrompt: string): string {
    if configuredPrompt != "" then configuredPrompt else DefaultSystemPrompt
  }

  /** `systemMessage`: the base prompt followed by the context (when
      present and non-empty) or by the honesty note. */
  function SystemMessage(configuredPrompt: string, relevantContent: Option<string>): string {
    BasePrompt(configuredPrompt) + (if Present(relevantContent) then ContextIntro + relevantContent.value else HonestyNote)
  }

  lemma SystemMessageShape(configuredPrompt: string, relevantContent: Option<string>)
    ensures var m := SystemMessage(configuredPrompt, relevantContent);
      && StartsWith(m, BasePrompt(configuredPrompt))
      && BasePrompt(configuredPrompt) != ""
      && (configuredPrompt != "" ==> StartsWith(m, configuredPrompt))
      && (Present(relevantContent) ==>
            m[|BasePrompt(configuredPrompt)|..] == ContextIntro + relevantContent.value)
      && (!Present(relevantContent) ==> m[|BasePrompt(configuredPrompt)|..] == HonestyNote)
  {
    var base := BasePrompt(configuredPrompt);
    var tail := if Present(relevantContent) then ContextIntro + relevantContent.value else HonestyNote;
    assert (base + tail)[..|base|] == base;
    assert (base + tail)[|base|..] == tail;
  }

  /** An empty context counts as no context: it gets the honesty note. */
  lemma EmptyContextIsNoContext(configuredPrompt: string)
    ensures SystemMessage(configuredPrompt, Some("")) == SystemMessage(configuredPrompt, None)
  {
  }

  /** `fullMessages`: the system message, then the history unchanged. */
  function FullMessages(systemMessage: string, history: seq<ChatTurn>): (r: seq<ChatTurn>)
  {
    [ChatTurn(System, systemMessage)] + history
  }

  lemma FullMessagesShape(systemMessage: string, history: seq<ChatTurn>)
    ensures var r := FullMessages(systemMessage, history);
      && |r| == |history| + 1
      && r[0] == ChatTurn(System, systemMessage)
      && (forall i :: 0 <= i < |history| ==> r[i + 1] == history[i])
  {
  }

  /** `content || apology`: the first choice's text, or the apology when it
      is null or empty. */
  function ReplyText(content: Option<string>): (r: string)
    ensures r != ""
    ensures Present(content) ==> r == content.value
    ensures !Present(content) ==> r == Apology
  {
    if Present(content) then content.value else Apology
  }

  /** `generateChatResponse(messages, relevantContent)`: `complete` stands
      for the completion call, giving the first choice's content (maybe
      null) or the error it throws, which is passed on unchanged. */
  function GenerateChatResponse(configuredPrompt: string, history: seq<ChatTurn>, relevantContent: Option<string>,
                                complete: seq<ChatTurn> -> Result<Option<string>, ProviderError>)
    : (r: Result<string, ProviderError>)
  {
    match complete(FullMessages(SystemMessage(configuredPrompt, relevantContent), history))
    case Ok(content) => Ok(ReplyText(content))
    case Err(e) => Err(e)
  }

  /** A successful reply is never empty and is the model's text whenever
      that is non-empty; a failure is the backend's own error. */
  lemma GenerateChatResponseOutcome(configuredPrompt: string, history: seq<ChatTurn>, relevantContent: Option<string>,
                                    complete: seq<ChatTurn> -> Result<Option<string>, ProviderError>)
    ensures var sent := complete(FullMessages(SystemMessage(configuredPrompt, relevantContent), history));
      var r := GenerateChatResponse(configuredPrompt, history, relevantContent, complete);
      && r.Ok? == sent.Ok?
      && (r.Ok? ==> r.value != "" && (Present(sent.value) ==> r.value == sent.value.value))
      && (r.Ok? && !Present(sent.value) ==> r.value == Apology)
      && (r.Err? ==> r.error == sent.error)
  {
  }
}
