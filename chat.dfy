/** The per-request conversation of `searchGPT` (index.js): the
    module-level `previousChat` list is reset to the system message, then
    the assistant message carrying the context and the user message carrying
    the question are pushed onto it, and the list is sent to the chat
    endpoint. The search request, the page fetch, the html-to-text converter
    and the chat request are parameters of the request. */
module Chat {
  import opened Context

  datatype Role = System | Assistant | User

  datatype ChatMessage = ChatMessage(role: Role, content: string)

  /** The fixed instruction in front of the user's question. */
  const QuestionPrefix: string := "With the information in the assistant's last message, answer this: "

  /** The fixed text in front of the date in the system message. */
  const SystemPrefix: string := "You are my AI assistant and I want you to assume today is "

  /** The system message's text, for the date `today` as
      `Date.prototype.toDateString` writes it: the fixed text, the date,
      then a full stop. */
  function SystemPrompt(today: string): (text: string)
    ensures SystemPrefix <= text && text[|SystemPrefix|..] == today + "."
  {
    SystemPrefix + today + "."
  }

  /** The user message's text: the fixed instruction, then the question. */
  function Question(prompt: string): (text: string)
    ensures QuestionPrefix <= text && text[|QuestionPrefix|..] == prompt
  {
    QuestionPrefix + prompt
  }

  /** The conversation sent for one request: three messages, system,
      assistant and user, in that order; the context is carried unchanged
      and nothing else is kept. */
  function Conversation(today: string, context: string, prompt: string): (chat: seq<ChatMessage>)
    ensures |chat| == 3
    ensures chat[0].role == System && chat[1].role == Assistant && chat[2].role == User
    ensures chat[1].content == context
  {
    [ChatMessage(System, SystemPrompt(today)),
     ChatMessage(Assistant, context),
     ChatMessage(User, Question(prompt))]
  }

  /** What the chat endpoint receives: exactly three messages, system then
      assistant then user, the assistant's context within the budget and
      free of line feeds, and the user's text opening with the fixed instruction. */
  predicate Grounded(chat: seq<ChatMessage>)
  {
    && |chat| == 3
    && chat[0].role == System
    && chat[1].role == Assistant && |chat[1].content| <= MaxContextLength && '\n' !in chat[1].content
    && chat[2].role == User && QuestionPrefix <= chat[2].content
  }

  /** A conversation built around `Finalize`d text is grounded: its
      context message keeps the budget bound and holds no line feed, and
      the question follows the fixed instruction. */
  lemma ConversationGrounded(today: string, raw: string, prompt: string)
    ensures Grounded(Conversation(today, Finalize(raw), prompt))
    ensures Conversation(today, Finalize(raw), prompt)[2].content[|QuestionPrefix|..] == prompt
  {
  }

  class Session {
    /** The messages of the current request (`previousChat`). */
    var previousChat: seq<ChatMessage>

    /** The session starts with an empty `previousChat`. */
    constructor ()
      ensures previousChat == []
    {
      previousChat := [];
    }

    /** One request: search, build the context from the first result's page
        and the other results' snippets, rebuild the conversation from
        scratch and send it. Returns the reply and the URL cited to the
        user, which is the first result's link. Whatever `previousChat` held
        before is discarded. */
    method SearchGPT(userPrompt: string, today: string,
                     search: string -> seq<SearchItem>,
                     fetch: string -> string,
                     convert: string -> string,
                     complete: seq<ChatMessage> -> string)
      returns (reply: string, citation: string)
      requires |search(userPrompt)| >= 1
      modifies this
      ensures previousChat
              == Conversation(today, AssembleContext(search(userPrompt), fetch, convert), userPrompt)
      ensures Grounded(previousChat)
      ensures reply == complete(previousChat)
      ensures citation == search(userPrompt)[0].link
    {
      previousChat := [ChatMessage(System, SystemPrompt(today))];

      var items := search(userPrompt);
      var firstPage, remainingPages := items[0], items[1..];
      var urlToCheck := firstPage.link;

      var html := fetch(urlToCheck);
      var context := convert(html);
      context := context + CleanSnippets(FoldSnippets("", remainingPages));
      assert context == RawContext(items, fetch, convert);
      context := Finalize(context);
      assert context == AssembleContext(items, fetch, convert);

      previousChat := previousChat + [ChatMessage(Assistant, context)];
      previousChat := previousChat + [ChatMessage(User, Question(userPrompt))];
      assert previousChat == Conversation(today, context, userPrompt);
      assert Grounded(previousChat);

      reply := complete(previousChat);
      citation := urlToCheck;
    }
  }
}
