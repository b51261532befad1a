/** Prompt shaping for the Gemini provider, which has no system role: the
    system text is folded into the first user turn, roles are renamed, and
    the last turn is sent (prefixed by the context or an honesty
    instruction) on top of the earlier ones. The chat call is an oracle. */
module Gemini {
  import opened ChatTypes
  import opened Text

  const ContextIntro: string := "Use the following relevant information from our website to answer the user's question:\n"
  const HonestyPrompt: string := "If you don't know the answer based on our website content, be honest and say you're not sure.\n\n"
  const Separator: string := "\n\n"
  /** What reading `.parts` of the missing last turn throws. */
  const NoTurnError: ProviderError :=
    ProviderError("Cannot read properties of undefined (reading 'parts')", "", 0)

  /** `'user'` or `'model'` */
  datatype GeminiRole = UserRole | ModelRole

  datatype GeminiTurn = GeminiTurn(role: GeminiRole, text: string)

  /** What the chat session is started with and then sent. */
  datatype GeminiRequest = GeminiRequest(history: seq<GeminiTurn>, message: string)

  /** `messages.find(msg => msg.role === 'system')?.content || ''` */
  function FirstSystemContent(messages: seq<ChatTurn>): string {
    if messages == [] then ""
    else if messages[0].role == System then messages[0].content
    else FirstSystemContent(messages[1..])
  }

  /** The system text: Gemini's prompt, else OpenAI's, else the first
      system message of the history, else "". */
  function SystemText(geminiPrompt: string, openaiPrompt: string, messages: seq<ChatTurn>): string {
    if geminiPrompt != "" then geminiPrompt
    else if openaiPrompt != "" then openaiPrompt
    else FirstSystemContent(messages)
  }

  /** Message `i` is the first system message of `messages`. */
  predicate IsFirstSystem(messages: seq<ChatTurn>, i: int) {
    0 <= i < |messages| && messages[i].role == System && forall j :: 0 <= j < i ==> messages[j].role != System
  }

  /** The history's first system message is the one used when neither
      prompt is configured; without one the system text is "". */
  lemma {:induction false} SystemTextFallsBackToHistory(messages: seq<ChatTurn>)
    ensures forall i :: IsFirstSystem(messages, i) ==> SystemText("", "", messages) == messages[i].content
    ensures (forall i :: 0 <= i < |messages| ==> messages[i].role != System) ==> SystemText("", "", messages) == ""
  {
    if messages != [] && messages[0].role != System {
      SystemTextFallsBackToHistory(messages[1..]);
      forall i | IsFirstSystem(messages, i)
        ensures FirstSystemContent(messages) == messages[i].content
      {
        assert IsFirstSystem(messages[1..], i - 1);
      }
    }
  }

  /** `filter(msg => msg.role !== 'system')` */
  function NonSystem(messages: seq<ChatTurn>): (r: seq<ChatTurn>)
    ensures |r| <= |messages|
    ensures forall i :: 0 <= i < |r| ==> r[i].role != System
  {
    if messages == [] then []
    else (if messages[0].role != System then [messages[0]] else []) + NonSystem(messages[1..])
  }

  /** The filter keeps the non-system messages in order: it distributes over
      concatenation, keeps a non-system message and drops a system one. */
  lemma {:induction false} NonSystemAppend(a: seq<ChatTurn>, b: seq<ChatTurn>)
    ensures NonSystem(a + b) == NonSystem(a) + NonSystem(b)
  {
    if a != [] {
      assert (a + b)[1..] == a[1..] + b;
      NonSystemAppend(a[1..], b);
    } else {
      assert a + b == b;
    }
  }

  /** A history without system messages passes the filter unchanged. */
  lemma {:induction false} NonSystemKeepsConversation(messages: seq<ChatTurn>)
    requires forall i :: 0 <= i < |messages| ==> messages[i].role != System
    ensures NonSystem(messages) == messages
  {
    if messages != [] {
      NonSystemKeepsConversation(messages[1..]);
      assert messages == [messages[0]] + messages[1..];
    }
  }

  /** `msg.role === 'user' ? 'user' : 'model'` (system roles are filtered out first). */
  function GeminiRoleOf(role: Role): GeminiRole {
    if role == User then UserRole else ModelRole
  }

  /** The `map` step over the filtered messages; `seenUser` records whether
      the first user message has already gone by: only that one gets the
      system text and a blank line in front, and only when the system text
      is non-empty. */
  function Convert(messages: seq<ChatTurn>, systemText: string, seenUser: bool): (r: seq<GeminiTurn>)
    ensures |r| == |messages|
  {
    if messages == [] then []
    else
      var m := messages[0];
      var text := if m.role == User && !seenUser && systemText != "" then systemText + Separator + m.content
                  else m.content;
      [GeminiTurn(GeminiRoleOf(m.role), text)] + Convert(messages[1..], systemText, seenUser || m.role == User)
  }

  /** Message `i` is the first user message of `messages`. */
  predicate IsFirstUser(messages: seq<ChatTurn>, i: int) {
    0 <= i < |messages| && messages[i].role == User && forall j :: 0 <= j < i ==> messages[j].role != User
  }

  lemma {:induction false} ConvertFrom(messages: seq<ChatTurn>, systemText: string, seenUser: bool)
    ensures var r := Convert(messages, systemText, seenUser);
      forall i :: 0 <= i < |messages| ==>
        && r[i].role == GeminiRoleOf(messages[i].role)
        && r[i].text == (if !seenUser && IsFirstUser(messages, i) && systemText != ""
                         then systemText + Separator + messages[i].content
                         else messages[i].content)
  {
    if messages != [] {
      var m := messages[0];
      ConvertFrom(messages[1..], systemText, seenUser || m.role == User);
      forall i | 1 <= i < |messages|
        ensures IsFirstUser(messages, i) <==> m.role != User && IsFirstUser(messages[1..], i - 1)
      {
        if IsFirstUser(messages, i) {
          forall j | 0 <= j < i - 1
            ensures messages[1..][j].role != User
          {
            assert messages[1..][j] == messages[j + 1];
          }
        }
      }
    }
  }

  /** Conversion keeps every turn in place: roles become `'user'`/`'model'`,
      and the text is unchanged except for the first user turn, which gets
      the system text and a blank line in front when that text is non-empty. */
  lemma ConvertShape(messages: seq<ChatTurn>, systemText: string)
    ensures var r := Convert(messages, systemText, false);
      && |r| == |messages|
      && forall i :: 0 <= i < |messages| ==>
        && r[i].role == GeminiRoleOf(messages[i].role)
        && r[i].text == (if IsFirstUser(messages, i) && systemText != ""
                         then systemText + Separator + messages[i].content
                         else messages[i].content)
  {
    ConvertFrom(messages, systemText, false);
  }

  /** The context prefix, or the honesty prompt when there is no (non-empty) context. */
  function Prompt(relevantContent: Option<string>): string {
    if Present(relevantContent) then ContextIntro + relevantContent.value + Separator else HonestyPrompt
  }

  /** The request: all converted turns but the last as history, and the
      prompt followed by the last turn's text as the message. With no turn
      at all, reading the last one throws. */
  function BuildRequest(geminiPrompt: string, openaiPrompt: string, messages: seq<ChatTurn>,
                        relevantContent: Option<string>): Result<GeminiRequest, ProviderError>
  {
    var converted := Convert(NonSystem(messages), SystemText(geminiPrompt, openaiPrompt, messages), false);
    if |converted| == 0 then Err(NoTurnError)
    else Ok(GeminiRequest(converted[..|converted| - 1], Prompt(relevantContent) + converted[|converted| - 1].text))
  }

  /** The request fails exactly when every history message is a system
      message; otherwise its history and message together are the whole
      converted conversation, the last turn prefixed by the prompt. */
  lemma BuildRequestShape(geminiPrompt: string, openaiPrompt: string, messages: seq<ChatTurn>,
                          relevantContent: Option<string>)
    ensures var req := BuildRequest(geminiPrompt, openaiPrompt, messages, relevantContent);
      var converted := Convert(NonSystem(messages), SystemText(geminiPrompt, openaiPrompt, messages), false);
      && (req.Err? <==> forall i :: 0 <= i < |messages| ==> messages[i].role == System)
      && (req.Err? ==> req.error == NoTurnError)
      && (req.Ok? ==>
            && req.value.history + [GeminiTurn(converted[|converted| - 1].role, converted[|converted| - 1].text)] == converted
            && StartsWith(req.value.message, Prompt(relevantContent))
            && req.value.message[|Prompt(relevantContent)|..] == converted[|converted| - 1].text)
  {
    var converted := Convert(NonSystem(messages), SystemText(geminiPrompt, openaiPrompt, messages), false);
    AllSystemIff(messages);
    if |converted| > 0 {
      var p := Prompt(relevantContent);
      var last := converted[|converted| - 1].text;
      assert (p + last)[..|p|] == p;
      assert (p + last)[|p|..] == last;
      assert converted[..|converted| - 1] + [converted[|converted| - 1]] == converted;
    }
  }

  lemma {:induction false} AllSystemIff(messages: seq<ChatTurn>)
    ensures NonSystem(messages) == [] <==> forall i :: 0 <= i < |messages| ==> messages[i].role == System
  {
    if messages != [] {
      AllSystemIff(messages[1..]);
      if messages[0].role == System {
        forall i | 1 <= i < |messages| && messages[1..][i - 1].role == System
          ensures messages[i].role == System
        {
        }
      }
    }
  }

  /** `generateChatResponse(messages, relevantContent)`: `send` stands for
      starting the chat with the request's history and sending its message;
      any error, including the missing last turn, is passed on. */
  function GenerateChatResponse(geminiPrompt: string, openaiPrompt: string, messages: seq<ChatTurn>,
                                relevantContent: Option<string>, send: GeminiRequest -> Result<string, ProviderError>)
    : (r: Result<string, ProviderError>)
    ensures BuildRequest(geminiPrompt, openaiPrompt, messages, relevantContent).Err? ==> r == Err(NoTurnError)
    ensures BuildRequest(geminiPrompt, openaiPrompt, messages, relevantContent).Ok? ==>
      r == send(BuildRequest(geminiPrompt, openaiPrompt, messages, relevantContent).value)
  {
    match BuildRequest(geminiPrompt, openaiPrompt, messages, relevantContent)
    case Ok(request) => send(request)
    case Err(e) => Err(e)
  }
}
