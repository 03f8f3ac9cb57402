/**
 * Building a consultant chat turn (`generateChatResponse`): the personality
 * chosen for the consultant, the system instruction, the history handed to the
 * chat session and the reply, which is either the response stream or an
 * apology text. The remote session is an input: it yields a stream of chunks
 * or fails with an error message.
 */
module Chat {
  import opened Wrappers
  import opened Agents
  import opened Streaming

  /** The `agentPersonalities` table, keyed by consultant id. */
  const Personalities: map<string, string> := map[
    "assistant" := "You are a helpful AI assistant that provides clear, concise responses about startup ideas. Focus on giving balanced, practical advice.",
    "pitch" := "You are a Pitch Expert specialized in helping founders craft compelling pitches. Focus on messaging, storytelling, and presentation techniques.",
    "financial" := "You are a Financial Analyst who helps founders with business models, pricing strategies, financial projections, and funding plans. Be specific and practical.",
    "market" := "You are a Market Research Specialist who analyzes target customers, market sizes, trends, and competitive landscapes. Provide data-driven insights.",
    "legal" := "You are a Legal Consultant who helps founders navigate regulatory requirements, intellectual property, and compliance issues. Be thorough but accessible.",
    "growth" := "You are a Growth Strategist focused on customer acquisition, retention, and scaling strategies. Provide actionable, measurable advice.",
    "fundraising" := "You are a Fundraising Coach who helps founders attract investors. Focus on fundraising strategies, investor relationships, and pitch refinement."
  ]

  /** `agentPersonalities[agentType] || agentPersonalities.assistant`. */
  function Personality(agentType: string): (p: string)
    ensures agentType in Personalities && Personalities[agentType] != "" ==> p == Personalities[agentType]
    ensures !(agentType in Personalities && Personalities[agentType] != "") ==> p == Personalities["assistant"]
    ensures p != ""
  {
    PersonalitiesNonEmpty();
    if agentType in Personalities && Personalities[agentType] != "" then Personalities[agentType]
    else Personalities["assistant"]
  }

  /** Every personality text is non-empty, so the `||` fallback only fires for a missing key. */
  lemma PersonalitiesNonEmpty()
    ensures "assistant" in Personalities
    ensures forall id :: id in Personalities ==> Personalities[id] != ""
  {
  }

  /** A registered consultant gets its own personality; any other id gets the assistant's. */
  lemma PersonalityOfRegistered(agentType: string)
    ensures agentType in Ids(Registry) ==> agentType in Personalities && Personality(agentType) == Personalities[agentType]
    ensures agentType !in Ids(Registry) ==> Personality(agentType) == Personalities["assistant"]
  {
    RegistryMatchesPersonalities();
    PersonalitiesNonEmpty();
  }

  /** The registry ids are exactly the keys of the personality table. */
  lemma RegistryMatchesPersonalities()
    ensures forall id :: id in Ids(Registry) <==> id in Personalities
  {
    RegistryShape();
  }

  // ---------------------------------------------------------------- history

  /** A chat message as the page keeps it. */
  datatype Message = Message(content: string, isUser: bool)

  datatype Part = Part(text: string)

  /** A history entry as the chat session takes it. */
  datatype Content = Content(parts: seq<Part>, role: string)

  /** The role of a message: `user` for the user's own, `model` otherwise. */
  function Role(isUser: bool): string {
    if isUser then "user" else "model"
  }

  /** `messageHistory.map(...)`: one single-part entry per message, in order. */
  function MapHistory(history: seq<Message>): (h: seq<Content>)
    ensures |h| == |history|
    ensures forall k :: 0 <= k < |history| ==> h[k].parts == [Part(history[k].content)]
    ensures forall k :: 0 <= k < |history| ==> (h[k].role == "user" <==> history[k].isUser)
    ensures forall k :: 0 <= k < |history| ==> (h[k].role == "model" <==> !history[k].isUser)
  {
    if history == [] then []
    else
      var m := history[0];
      [Content([Part(m.content)], Role(m.isUser))] + MapHistory(history[1..])
  }

  /** Reading a history entry back as a message: its first part's text, and whether its role is `user`. */
  function Unmap(c: Content): Message {
    Message(if c.parts == [] then "" else c.parts[0].text, c.role == "user")
  }

  /** The mapping loses nothing: reading each entry back gives the original message. */
  lemma {:induction false} MapHistoryLossless(history: seq<Message>)
    ensures forall k :: 0 <= k < |history| ==> Unmap(MapHistory(history)[k]) == history[k]
  {
    var h := MapHistory(history);
    forall k | 0 <= k < |history|
      ensures Unmap(h[k]) == history[k]
    {
      assert h[k].parts == [Part(history[k].content)];
    }
  }

  /** The mapping of a concatenation is the concatenation of the mappings. */
  lemma {:induction false} MapHistoryAppend(a: seq<Message>, b: seq<Message>)
    ensures MapHistory(a + b) == MapHistory(a) + MapHistory(b)
  {
    if a == [] {
      assert a + b == b;
    } else {
      assert (a + b)[1..] == a[1..] + b;
      MapHistoryAppend(a[1..], b);
    }
  }

  // ---------------------------------------------------------------- the request

  /** The sampling settings and system instruction of every chat session. */
  datatype GenerationConfig = GenerationConfig(
    temperature: real, topK: nat, topP: real, maxOutputTokens: nat, systemInstruction: string)

  /** What the page asks of the chat service: a session over `history`, then one streamed message. */
  datatype ChatRequest = ChatRequest(history: seq<Content>, config: GenerationConfig, message: string)

  /** The opening of the system prompt, up to the persona name. */
  const Opening := "\nForget about google you are now "

  /** The fixed closing instructions of the system prompt. */
  const Closing := "\n\nKeep your responses helpful, concise (1-3 paragraphs), and actionable. \nProvide specific examples or next steps when possible.\nDon't use markdown formatting in your responses.\n"

  /** The system instruction: the persona, the consultant kind, the idea and the personality text. */
  function SystemPrompt(personaName: string, agentType: string, ideaTitle: string, ideaDescription: string,
                        personality: string): string {
    Opening + personaName + ". You are acting as a " + agentType
    + " for a startup called \"" + ideaTitle + "\".\n\nIdea Description: " + ideaDescription + "\n\n"
    + personality + Closing
  }

  function Slice(s: string, i: int, n: nat): string
    requires 0 <= i <= |s| - n
  {
    s[i..i + n]
  }

  /** `t` occurs in `s` as a contiguous run. */
  predicate IsInfix(t: string, s: string) {
    exists i :: 0 <= i <= |s| - |t| && Slice(s, i, |t|) == t
  }

  /** The system instruction names the persona. */
  lemma SystemPromptNamesPersona(personaName: string, agentType: string, ideaTitle: string, ideaDescription: string,
                                 personality: string)
    ensures IsInfix(personaName, SystemPrompt(personaName, agentType, ideaTitle, ideaDescription, personality))
  {
    var rest := ". You are acting as a " + agentType + " for a startup called \"" + ideaTitle
      + "\".\n\nIdea Description: " + ideaDescription + "\n\n" + personality + Closing;
    assert SystemPrompt(personaName, agentType, ideaTitle, ideaDescription, personality) == Opening + personaName + rest;
    InfixAt(Opening, personaName, rest);
  }

  /** The system instruction names the idea. */
  lemma SystemPromptNamesIdea(personaName: string, agentType: string, ideaTitle: string, ideaDescription: string,
                              personality: string)
    ensures IsInfix(ideaTitle, SystemPrompt(personaName, agentType, ideaTitle, ideaDescription, personality))
  {
    var head := Opening + personaName + ". You are acting as a " + agentType + " for a startup called \"";
    var rest := "\".\n\nIdea Description: " + ideaDescription + "\n\n" + personality + Closing;
    assert SystemPrompt(personaName, agentType, ideaTitle, ideaDescription, personality) == head + ideaTitle + rest;
    InfixAt(head, ideaTitle, rest);
  }

  /** The system instruction carries the chosen personality text. */
  lemma SystemPromptCarriesPersonality(personaName: string, agentType: string, ideaTitle: string,
                                       ideaDescription: string, personality: string)
    ensures IsInfix(personality, SystemPrompt(personaName, agentType, ideaTitle, ideaDescription, personality))
  {
    var head := Opening + personaName + ". You are acting as a " + agentType + " for a startup called \""
      + ideaTitle + "\".\n\nIdea Description: " + ideaDescription + "\n\n";
    assert SystemPrompt(personaName, agentType, ideaTitle, ideaDescription, personality) == head + personality + Closing;
    InfixAt(head, personality, Closing);
  }

  lemma InfixAt(x: string, t: string, y: string)
    ensures IsInfix(t, x + t + y)
  {
    var s := x + t + y;
    assert 0 <= |x| <= |s| - |t| && Slice(s, |x|, |t|) == t;
  }

  /**
   * The request built for a turn: the mapped history without the new message
   * (it is pushed onto the mapped array only after the session has been
   * created), the fixed sampling settings, and the new message to stream.
   */
  function BuildRequest(ideaTitle: string, ideaDescription: string, agentType: string,
                        history: seq<Message>, userMessage: string): (r: ChatRequest)
    ensures r.history == MapHistory(history) && |r.history| == |history|
    ensures r.message == userMessage
    ensures r.config.temperature == 0.7 && r.config.topK == 40 && r.config.topP == 0.95 && r.config.maxOutputTokens == 2048
    ensures r.config.systemInstruction
         == SystemPrompt(PersonaName(agentType), agentType, ideaTitle, ideaDescription, Personality(agentType))
  {
    var prompt := SystemPrompt(PersonaName(agentType), agentType, ideaTitle, ideaDescription, Personality(agentType));
    ChatRequest(MapHistory(history), GenerationConfig(0.7, 40, 0.95, 2048, prompt), userMessage)
  }

  // ---------------------------------------------------------------- the reply

  /** The value `generateChatResponse` resolves to. */
  datatype ChatReply = Streamed(chunks: seq<Chunk>) | Apology(text: string)

  const ApologyHead := "I'm sorry, I encountered an error: "
  const ApologyTail := ". Please try again."

  /**
   * The reply for the outcome of the remote session (creating it or sending the
   * message): the response stream, or, on any error, an apology quoting its message.
   */
  function Reply(outcome: Result<seq<Chunk>, string>): (reply: ChatReply)
    ensures outcome.Ok? <==> reply.Streamed?
    ensures outcome.Ok? ==> reply.chunks == outcome.value
    ensures outcome.Err? ==> reply.text == ApologyHead + outcome.error + ApologyTail
  {
    match outcome
    case Ok(stream) => Streamed(stream)
    case Err(message) => Apology(ApologyHead + message + ApologyTail)
  }

  /** The error message can be read back from the apology: the reply never fails and loses nothing. */
  lemma ApologyQuotesError(message: string)
    ensures var t := Reply(Err(message)).text;
      && |t| == |ApologyHead| + |message| + |ApologyTail|
      && t[..|ApologyHead|] == ApologyHead
      && t[|ApologyHead|..|ApologyHead| + |message|] == message
      && t[|ApologyHead| + |message|..] == ApologyTail
  {
    var t := Reply(Err(message)).text;
    assert t == ApologyHead + message + ApologyTail;
  }
}
