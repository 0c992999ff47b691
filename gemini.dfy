/** The request shaping and title post-processing of services/geminiService.ts.
    The SDK calls themselves are inputs: the stream as a sequence of chunks,
    the title call as a `TitleReply`. */
module Gemini {
  import opened Types
  import opened Text
  import Constants

  const ModeSeparator: string := "\n\nMode: "

  /** The system instruction sent with every streamed request. */
  function SystemInstruction(role: AIRole, mode: AIMode): (r: string)
    ensures Constants.SystemPrompt(role) <= r
    ensures r[|Constants.SystemPrompt(role)|..] == ModeSeparator + Constants.ModeInstruction(mode)
  {
    var prompt := Constants.SystemPrompt(role);
    var tail := ModeSeparator + Constants.ModeInstruction(mode);
    ConcatSplits(prompt, tail);
    prompt + tail
  }

  /** A concatenation starts with its left part and continues with its right part. */
  lemma ConcatSplits(a: string, b: string)
    ensures a <= a + b && (a + b)[|a|..] == b
  {
  }

  datatype Part = Part(text: string)

  /** One turn of the backend's `contents` list. */
  datatype Content = Content(role: string, parts: seq<Part>)

  datatype StreamRequest = StreamRequest(model: string, contents: seq<Content>, systemInstruction: string)

  /** One message as a backend turn. */
  function ToContent(m: Message): (r: Content)
    ensures r.parts == [Part(m.content)]
    ensures r.role == "user" <==> m.role == User
    ensures r.role == "model" <==> m.role == Assistant
  {
    Content(if m.role == User then "user" else "model", [Part(m.content)])
  }

  /** `history.map(...)`: one turn per message, in order, carrying the
      message text; user turns stay `user`, assistant turns become `model`. */
  function ChatHistory(history: seq<Message>): (r: seq<Content>)
    ensures |r| == |history|
    ensures forall i :: 0 <= i < |history| ==>
      && (r[i].role == "user" <==> history[i].role == User)
      && (r[i].role == "model" <==> history[i].role == Assistant)
      && r[i].parts == [Part(history[i].content)]
  {
    if history == [] then [] else [ToContent(history[0])] + ChatHistory(history[1..])
  }

  /** The request contents: the mapped history, then one user turn with the prompt. */
  function RequestContents(history: seq<Message>, prompt: string): (r: seq<Content>)
    ensures |r| == |history| + 1
    ensures r[..|history|] == ChatHistory(history)
    ensures r[|history|] == Content("user", [Part(prompt)])
  {
    ChatHistory(history) + [Content("user", [Part(prompt)])]
  }

  /** The streamed request: the chosen model, the history followed by the
      prompt, and the persona's instruction leading the system instruction. */
  function BuildRequest(prompt: string, history: seq<Message>, mode: AIMode, role: AIRole, model: string): (r: StreamRequest)
    ensures r.model == model
    ensures |r.contents| == |history| + 1 && r.contents[|history|] == Content("user", [Part(prompt)])
    ensures forall i :: 0 <= i < |history| ==> r.contents[i].parts == [Part(history[i].content)]
    ensures Constants.SystemPrompt(role) <= r.systemInstruction
    ensures r.contents == RequestContents(history, prompt) && r.systemInstruction == SystemInstruction(role, mode)
  {
    StreamRequest(model, RequestContents(history, prompt), SystemInstruction(role, mode))
  }

  const TitlePromptHead: string := "Generate a short (max 5 words) descriptive title for a chat that starts with this prompt: \""
  const TitlePromptTail: string := "\". Just return the title text, nothing else."

  /** The text sent to the title call: the user's prompt, quoted verbatim
      between a fixed instruction and a fixed closing request. */
  function TitlePrompt(prompt: string): (r: string)
    ensures |r| == |TitlePromptHead| + |prompt| + |TitlePromptTail|
    ensures TitlePromptHead <= r
    ensures r[|TitlePromptHead|..|TitlePromptHead| + |prompt|] == prompt
    ensures r[|TitlePromptHead| + |prompt|..] == TitlePromptTail
  {
    TitlePromptHead + prompt + TitlePromptTail
  }

  /** What the title call produced: it threw, or it answered with a text
      that may be missing. */
  datatype TitleReply = Threw | Responded(text: Option<string>)

  /** `text.trim().replace(/"/g, '')` */
  function CleanTitle(text: string): (r: string)
    ensures |r| <= |text| && '"' !in r
    ensures '"' !in text ==> r == Trim(text)
  {
    RemoveAll(Trim(text), '"')
  }

  /** The title `generateTitle` returns: the cleaned reply, or the default
      title when the call threw, the text is missing or nothing is left. */
  function TitleFrom(reply: TitleReply): (r: string)
    ensures r != [] && '"' !in r
    ensures reply.Threw? || reply.text.None? || CleanTitle(reply.text.value) == [] ==> r == Constants.DefaultTitle
    ensures reply.Responded? && reply.text.Some? && CleanTitle(reply.text.value) != [] ==> r == CleanTitle(reply.text.value)
  {
    match reply
    case Threw => Constants.DefaultTitle
    case Responded(text) =>
      if text.Some? && CleanTitle(text.value) != [] then CleanTitle(text.value) else Constants.DefaultTitle
  }

  /** A reply that is already a clean title is used verbatim. */
  lemma TitleKeepsCleanReply(t: string)
    requires t != [] && '"' !in t
    requires !IsWhitespace(t[0]) && !IsWhitespace(t[|t| - 1])
    ensures TitleFrom(Responded(Some(t))) == t
  {
  }

  /** A reply that is a clean title wrapped in double quotes gives the
      title without them. */
  lemma TitleUnquotes(t: string)
    requires t != [] && '"' !in t
    ensures TitleFrom(Responded(Some("\"" + t + "\""))) == t
  {
    var q := "\"" + t + "\"";
    assert !IsWhitespace(q[0]) && !IsWhitespace(q[|q| - 1]);
    assert Trim(q) == q;
    RemoveAllConcat("\"" + t, "\"", '"');
    RemoveAllConcat("\"", t, '"');
    RemoveAllOne('"', '"');
    assert RemoveAll(q, '"') == t;
  }
}
