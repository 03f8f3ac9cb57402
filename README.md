# idea-sage-dashboard core, modelled in Dafny

The idea-sage dashboard sends startup ideas to a generative-language API. It
turns the replies into an analysis record, charts two of that record's fields,
and hosts chats with seven persona-styled consultants. This project models the
deterministic rules in that front end and proves properties about them:

- **Streaming accumulator** (`Streaming`). A process-wide buffer appends each
  truthy chunk of a streamed chat reply, in arrival order. When the stream
  completes, the buffer is cleared and the cleared value is returned. When the
  stream rejects, the error propagates before the clear, and the partial reply
  stays in the buffer for the next call to extend.
- **Analysis extraction** (`Analysis`). The JSON span runs from the first `{`
  to the last `}`. A span that does not decode is a parse failure, with no
  fallback. Without a span, the fallback fills the thirteen known sections,
  each with a trimmed match or `No <section> provided`. The alternative
  section label puts a space before every capital and trims. The title request
  falls back to `My Startup Idea`.
- **Chat turn** (`Chat`). The personality table falls back to the assistant.
  The persona name comes from the registry and is `undefined` for an unknown
  id. The system instruction, the sampling settings and the history mapping to
  `user`/`model` roles build the request. The reply is either the stream or an
  apology.
- **Consultant registry** (`Agents`). A fixed table of seven consultants with
  distinct ids, looked up by id.
- **Dashboard chart data** (`Dashboard`):
  - decode if the field is a string, otherwise pass it through;
  - one `{name, value}` point per key, in key order, with the first character
    upper-cased;
  - pie colours cycle modulo four;
  - the component's effect sets the market series before the funding series.
- **Sidebar** (`Sidebar`):
  - a pure state machine over `collapsed` and `activeAgent`, with a class whose
    handlers are proved against it;
  - title truncation to 25 characters plus `...`;
  - the first three ideas, with the current one highlighted;
  - the consultant links, with the active one highlighted;
  - what a collapsed sidebar hides.

Two models of outside code are parameters:
- `JSON.parse` is a `Decoder` oracle (`string -> Option<Json>`).
- The fallback regular expression is a `Matcher` oracle. It takes the reply
  text, the section name and its label, and returns the captured block or no
  match.

Remote calls are inputs. A reply is `Ok(text)` or `Err(message)`, and a chat
session is `Ok(chunks)` or `Err(message)`. Whether the screen is mobile and
the stored ideas are inputs too.

Two places where the code does something other than what its shape
suggests, and the model follows the code:
- `streamGeminiResponse` fills `currentStreamingResponse` and then returns it,
  which only makes sense if it returns the accumulated reply. Because it
  resets the buffer first, it always returns `""` (see Findings).
- The dashboard's `|| {}` defaults make a missing or falsy field an empty
  chart, but its `JSON.parse` of a string field is not inside a `try`. A
  malformed string makes shaping throw (`Dashboard.MalformedFieldFails`). It
  does not yield an empty series.

Modelling conventions:
- A JSON object's fields are kept in `Object.keys` order. The decoder oracle is
  taken to produce no key twice.
- Numbers are integers.
- An undefined `response.text` in the analysis path makes `text.indexOf` throw
  inside the inner `try`, so it ends as the parse failure.

## Model

| member | source | states |
|---|---|---|
| JsString.IndexOf | src/lib/geminiService.ts:68 | `indexOf`: -1 exactly when the character is absent; otherwise the position of its first occurrence, with none before it |
| JsString.LastIndexOf | src/lib/geminiService.ts:69 | `lastIndexOf`: -1 exactly when absent; otherwise the position of its last occurrence, with none after it |
| JsString.TrimShape | src/lib/geminiService.ts:86 | `trim` returns a contiguous slice; everything cut off is whitespace and the result neither starts nor ends with whitespace |
| JsString.Trim | src/lib/geminiService.ts:86 | `trim` cuts leading and trailing whitespace only; its contract is stated by `JsString.TrimShape`, `JsString.TrimIdempotent` and `JsString.TrimUnpadded` |
| JsString.TrimIdempotent | src/lib/geminiService.ts:86 | trimming a trimmed string changes nothing |
| JsString.ToUpperAscii | src/components/DashboardOverview.tsx:35 | a lower-case ASCII letter becomes its capital, any other character is unchanged; the result is never lower case |
| JsString.Capitalise | src/components/DashboardOverview.tsx:35 | same length; the first character upper-cased and the rest unchanged; the empty string stays empty |
| JsString.CapitaliseIdempotent | src/components/DashboardOverview.tsx:35 | capitalising twice is capitalising once |
| JsString.NatToString | src/components/DashboardOverview.tsx:34 | an index key written as `Object.keys` writes it: a non-empty run of decimal digits |
| JsString.NatToStringValue | src/components/DashboardOverview.tsx:34 | the digits of an index key spell the index in base ten, with no leading zero except in `0` itself |
| JsString.NatToStringInjective | src/components/DashboardOverview.tsx:34 | two different indices never get the same key |
| Json.Truthy | src/components/DashboardOverview.tsx:31 | JavaScript truthiness: undefined, `null`, `false`, `0` and `""` are falsy, every other value truthy; what depends on it is stated by `Dashboard.FalsyGivesEmptySeries`, `Dashboard.PassThrough` and `Dashboard.DashboardState.Refresh` |
| Json.Get | src/components/DashboardOverview.tsx:28 | property access yields undefined exactly for a non-object or a missing key, otherwise the value of a field with that key |
| Agents.RegistryShape | src/lib/utils.tsx:10-18 | exactly seven consultants, ids pairwise distinct, in the order assistant, pitch, financial, market, legal, growth, fundraising |
| Agents.FindById | src/lib/geminiService.ts:121 | `agents.find` by id: no descriptor exactly when the id is not in the table, otherwise an entry of the table with that id |
| Agents.FindUnique | src/lib/utils.tsx:11-17 | with distinct ids, looking up any entry's id returns that very entry |
| Agents.AssistantIsFirst | src/lib/utils.tsx:11 | the first entry is `assistant`, persona Stacy, and lookup of `assistant` finds it |
| Agents.PersonaName | src/lib/geminiService.ts:121 | the prompt's persona is the `agentName` of the entry with that id, or the text `undefined` for an unknown id; the lookup never fails |
| Streaming.TextOf | src/lib/geminiService.ts:13-14 | a chunk's contribution: its text when truthy, nothing for undefined or empty text; stated by `Streaming.EmptyChunkIsIgnored` and `Streaming.StreamBuffer.Receive` |
| Streaming.Texts | src/lib/geminiService.ts:12-16 | the text a run of chunks appends, in order; stated by `Streaming.TextsAppend`, `Streaming.TextsSnoc` and `Streaming.TextsContainChunks` |
| Streaming.TextsAppend | src/lib/geminiService.ts:12-16 | the text of two consecutive runs of chunks is the text of each, in order |
| Streaming.TextsSnoc | src/lib/geminiService.ts:12-16 | one more chunk extends the text by exactly that chunk's text |
| Streaming.EmptyChunkIsIgnored | src/lib/geminiService.ts:13-15 | a chunk with undefined or empty text changes nothing, wherever it arrives |
| Streaming.TextsContainChunks | src/lib/geminiService.ts:12-16 | the accumulated text is the text before chunk k, then chunk k's own text, then the text after it; so it is at least as long as any chunk's text |
| Streaming.HelloWorldTexts | src/lib/geminiService.ts:12-16 | the chunks `Hello, `, `world`, `!` carry `Hello, world!` |
| Streaming.StreamBuffer.constructor | src/lib/geminiService.ts:8 | the buffer starts empty |
| Streaming.StreamBuffer.Receive | src/lib/geminiService.ts:13-15 | the buffer becomes its old value followed by the chunk's truthy text |
| Streaming.StreamBuffer.Consume | src/lib/geminiService.ts:12-16 | after chunk k the buffer is its prior value plus the texts of chunks 0..k, in order; at the end it holds the prior value plus all chunk texts |
| Streaming.StreamBuffer.Stream | src/lib/geminiService.ts:9-19 | the buffer grows as in `Consume`; a completed stream leaves the buffer `""` and returns `""`; a rejecting stream returns its error and leaves the buffer holding the prior value plus every chunk text received |
| Streaming.StreamBuffer.StreamReturningText | src/lib/geminiService.ts:9-19 | the same consumption, reset and error path; a completed stream returns the prior value plus all chunk texts |
| Streaming.HelloWorldIsLost | src/lib/geminiService.ts:17-18 | as written the whole completed reply `Hello, world!` is returned as `""`; the corrected version returns `Hello, world!` |
| Streaming.RejectedStreamLeaksIntoNext | src/lib/geminiService.ts:8-18 | a stream that rejects after `Hello` leaves `Hello` in the buffer, and the next stream's first chunk `!` is observed as `Hello!` |
| Analysis.IdeaTitle | src/lib/geminiService.ts:21-32 | the reply's text as it came on success; exactly `My Startup Idea` on any error |
| Analysis.SectionsShape | src/lib/geminiService.ts:77-81 | thirteen pairwise distinct section keys |
| Analysis.FindJsonSpan | src/lib/geminiService.ts:68-71 | the span from the first `{` to the last `}`, if it is non-empty; its contract is stated by `Analysis.FindJsonSpanSpec` and `Analysis.NoBracePair` |
| Analysis.FindJsonSpanSpec | src/lib/geminiService.ts:68-72 | a span exists exactly when some `{` precedes some `}`; it then has length at least 2, starts with `{`, ends with `}`, and there is no `{` before it and no `}` after it |
| Analysis.NoBracePair | src/lib/geminiService.ts:71 | when the span test fails, no `{` is followed by any `}` |
| Analysis.ProseAroundObjectIsIgnored | src/lib/geminiService.ts:68-72 | an object surrounded by prose with no `{` before it and no `}` after it is extracted exactly |
| Analysis.SpaceBeforeCapitals | src/lib/geminiService.ts:84 | `replace(/([A-Z])/g, ' $1')`: exactly one space before every capital letter and no other space; stated by `Analysis.RemoveInsertedSpaces`, `Analysis.SpaceBeforeCapitalsChars`, `Analysis.SpacesPrecedeCapitals` and `Analysis.LabelIsSpacedName` |
| Analysis.SpaceBeforeCapitalsChars | src/lib/geminiService.ts:84 | every character of the spaced form is a character of the name or an inserted space, and every capital has a space right before it |
| Analysis.SpacesPrecedeCapitals | src/lib/geminiService.ts:84 | in the spaced form of a space-free name, every space comes right before a capital |
| Analysis.Label | src/lib/geminiService.ts:84 | the spaced form of a section name, trimmed; stated by `Analysis.LabelForm`, `Analysis.LabelIsSpacedName` and `Analysis.TargetMarketLabel` |
| Analysis.RemoveInsertedSpaces | src/lib/geminiService.ts:84 | removing the spaces from the spaced form of a space-free name gives the name back |
| Analysis.LabelForm | src/lib/geminiService.ts:84 | for a name that neither starts nor ends with whitespace, trimming removes exactly the space inserted before a leading capital |
| Analysis.LabelIsSpacedName | src/lib/geminiService.ts:84 | the label of a whitespace-free name has a space before every capital after its first character, every space comes right before a capital and not at the start, and removing its spaces gives the name back; together these fix the label |
| Analysis.TargetMarketLabel | src/lib/geminiService.ts:84 | the label of `targetMarket` is `target Market` |
| Analysis.SectionValue | src/lib/geminiService.ts:84-86 | a section's value is the trimmed captured block, or exactly `No <section> provided` when nothing matches |
| Analysis.FallbackFields | src/lib/geminiService.ts:76-87 | one field per section, in order; stated by `Analysis.FallbackFieldsAt` and `Analysis.FallbackRecordShape` |
| Analysis.FallbackFieldsAt | src/lib/geminiService.ts:83-87 | the fallback writes one field per section, in order, field k keyed by section k with that section's value |
| Analysis.FallbackRecordShape | src/lib/geminiService.ts:76-89 | the fallback record's keys are exactly the sections in order, and each value is the trimmed match or exactly `No <section> provided` |
| Analysis.FillSections | src/lib/geminiService.ts:76-89 | the loop produces exactly the fallback record for the given sections |
| Analysis.GenerateAnalysis | src/lib/geminiService.ts:58-99 | an API error is rethrown; an undefined text is a parse failure; with a span the result is its decoded value or the parse failure (never the fallback); without a span it is the fallback record over the thirteen sections |
| Chat.PersonalitiesNonEmpty | src/lib/geminiService.ts:110-118 | the table has an `assistant` entry and every personality text is non-empty |
| Chat.Personality | src/lib/geminiService.ts:125 | the table's text for a key that is present (and non-empty), otherwise the `assistant` text; never empty |
| Chat.PersonalityOfRegistered | src/lib/geminiService.ts:125 | a registered consultant gets its own personality, every other id the assistant's |
| Chat.RegistryMatchesPersonalities | src/lib/geminiService.ts:110-118 | an id is in the consultant registry exactly when it is a key of the personality table |
| Chat.Role | src/lib/geminiService.ts:136 | `user` for the user's own message, `model` otherwise; stated by `Chat.MapHistory` |
| Chat.MapHistory | src/lib/geminiService.ts:134-137 | same length and order; entry k has one part with message k's content, and role `user` exactly when the message is the user's, `model` exactly when it is not |
| Chat.MapHistoryLossless | src/lib/geminiService.ts:134-137 | reading every mapped entry back gives the original message |
| Chat.MapHistoryAppend | src/lib/geminiService.ts:134-137 | mapping a concatenation is concatenating the mappings |
| Chat.SystemPrompt | src/lib/geminiService.ts:120-130 | the system instruction; stated by `Chat.SystemPromptNamesPersona`, `Chat.SystemPromptNamesIdea`, `Chat.SystemPromptCarriesPersonality` and `Chat.BuildRequest` |
| Chat.SystemPromptNamesPersona | src/lib/geminiService.ts:120-121 | the system instruction contains the persona name |
| Chat.SystemPromptNamesIdea | src/lib/geminiService.ts:121 | the system instruction contains the idea title |
| Chat.SystemPromptCarriesPersonality | src/lib/geminiService.ts:125 | the system instruction contains the chosen personality text |
| Chat.BuildRequest | src/lib/geminiService.ts:132-162 | the session history is the mapped history only, without the new message; the message sent is the user's; temperature 0.7, topK 40, topP 0.95, 2048 output tokens, and the system instruction built from the looked-up persona and personality |
| Chat.Reply | src/lib/geminiService.ts:160-168 | a stream exactly when the session succeeds, and then that stream; on any error the apology quoting its message |
| Chat.ApologyQuotesError | src/lib/geminiService.ts:167 | the apology is the fixed head, the error message and the fixed tail, so the message can be read back at a known position |
| Dashboard.ObjectPoints | src/components/DashboardOverview.tsx:34-37 | one point per field, in order, labelled with the capitalised key and carrying the field's value |
| Dashboard.IndexPoints | src/components/DashboardOverview.tsx:34-37 | one point per item, in order, labelled with its capitalised index |
| Dashboard.Characters | src/components/DashboardOverview.tsx:36 | indexing a string yields its one-character strings, in order |
| Dashboard.Points | src/components/DashboardOverview.tsx:34-37 | shaping fails exactly when the value is `null`, because `Object.keys(null)` throws; an object gives its fields' points, an array its items' points under their indices, a string its characters' points under their indices, a boolean or a number no points |
| Dashboard.ObjectSeries | src/components/DashboardOverview.tsx:34-37 | for an object with distinct keys: one point per key in key order, each label the capitalised key and each value what property access returns |
| Dashboard.FieldValueOfDistinct | src/components/DashboardOverview.tsx:36 | with distinct keys, looking up field k's key finds field k's value |
| Dashboard.LabelsAreCapitalised | src/components/DashboardOverview.tsx:35 | every label is already capitalised |
| Dashboard.IndexLabelsAreDigits | src/components/DashboardOverview.tsx:34-35 | index labels are the plain decimal indices |
| Dashboard.IndexLabelsAreDistinct | src/components/DashboardOverview.tsx:34-35 | no two entries of an array or a string share a label |
| Dashboard.Shape | src/components/DashboardOverview.tsx:27-32 | decode a string field (the empty one as `{}`), pass any other value through, a falsy one as `{}`; stated by `Dashboard.PassThrough`, `Dashboard.FalsyGivesEmptySeries`, `Dashboard.StringIsParsed`, `Dashboard.EmptyFieldGivesEmptySeries`, `Dashboard.MalformedFieldFails` and `Dashboard.DecodedMatchesDirect` |
| Dashboard.PassThrough | src/components/DashboardOverview.tsx:30-32 | a truthy value that is not a string is shaped as it is |
| Dashboard.FalsyGivesEmptySeries | src/components/DashboardOverview.tsx:31 | a falsy non-string value is replaced by `{}` and gives an empty series |
| Dashboard.StringIsParsed | src/components/DashboardOverview.tsx:28-29 | a non-empty string is decoded and its value shaped; shaping fails exactly when decoding fails or yields `null` |
| Dashboard.EmptyFieldGivesEmptySeries | src/components/DashboardOverview.tsx:27-32 | a missing field, or the empty string when `"{}"` decodes to the empty object, gives an empty series |
| Dashboard.MalformedFieldFails | src/components/DashboardOverview.tsx:29 | a non-empty string that does not decode makes shaping fail instead of falling back to a default |
| Dashboard.DecodedMatchesDirect | src/components/DashboardOverview.tsx:28-32 | a string of JSON text and the object or array it encodes give the same series |
| Dashboard.MarketData | src/components/DashboardOverview.tsx:26-39 | the shaping rule on `marketAnalysisScore`; stated by `Dashboard.SameShapingRule` and `Dashboard.DashboardState.Refresh` |
| Dashboard.FundingData | src/components/DashboardOverview.tsx:42-54 | the same rule on `fundingAllocation`; stated by `Dashboard.SameShapingRule` and `Dashboard.DashboardState.Refresh` |
| Dashboard.SameShapingRule | src/components/DashboardOverview.tsx:26-54 | the market and funding series follow one rule: equal field values give equal series |
| Dashboard.CellColor | src/components/DashboardOverview.tsx:160 | every cell colour is one of the four colours |
| Dashboard.ColorCycle | src/components/DashboardOverview.tsx:56 | colours repeat with period four, the first four cells take the four colours in order, and neighbouring cells differ |
| Dashboard.CellFills | src/components/DashboardOverview.tsx:159-161 | one fill per cell, cell k filled with colour k mod 4 |
| Dashboard.DashboardState.constructor | src/components/DashboardOverview.tsx:23-24 | both series start empty |
| Dashboard.DashboardState.Refresh | src/components/DashboardOverview.tsx:58-63 | a falsy analysis changes nothing; otherwise the market series is set and then the funding series; a shaping failure stops the effect there, leaving what was set before it |
| Sidebar.Step | src/components/Sidebar.tsx:16-52 | one event of the sidebar's state machine; stated by `Sidebar.ToggleFlips`, `Sidebar.AgentClickRule` and `Sidebar.MobileRule` |
| Sidebar.Run | src/components/Sidebar.tsx:16-52 | a run of events from a state; stated by `Sidebar.RunSnoc` and `Sidebar.ActiveAgentIsLastClicked` |
| Sidebar.ToggleFlips | src/components/Sidebar.tsx:52 | the toggle flips `collapsed` and nothing else; toggling twice restores the state |
| Sidebar.AgentClickRule | src/components/Sidebar.tsx:29-34 | a click makes the agent active; it collapses the sidebar on mobile and leaves `collapsed` unchanged otherwise |
| Sidebar.MobileRule | src/components/Sidebar.tsx:22-26 | becoming mobile collapses the sidebar; being non-mobile never changes `collapsed`; the effect never changes the active agent |
| Sidebar.RunSnoc | src/components/Sidebar.tsx:16-52 | running one more event is one more step |
| Sidebar.ActiveAgentIsLastClicked | src/components/Sidebar.tsx:17-34 | from mounting, the active agent is the last agent clicked, or `assistant` if none was |
| Sidebar.SidebarState.constructor | src/components/Sidebar.tsx:16-17 | a fresh sidebar is expanded, with `assistant` active, before the mobile effect has run |
| Sidebar.SidebarState.Toggle | src/components/Sidebar.tsx:52 | the state after the toggle is the toggle step of the state before |
| Sidebar.SidebarState.HandleAgentClick | src/components/Sidebar.tsx:29-34 | the state after the click is the click step: the agent is active, and `collapsed` is its old value or mobile |
| Sidebar.SidebarState.ObserveMobile | src/components/Sidebar.tsx:22-26 | the effect runs only for a changed `isMobile`, and then collapses the sidebar if mobile |
| Sidebar.DisplayTitle | src/components/Sidebar.tsx:77-79 | a title of at most 25 characters is shown unchanged; a longer one is shown as exactly 28 characters ending in `...` |
| Sidebar.DisplayTitleFits | src/components/Sidebar.tsx:77-79 | a shown title is at most 28 characters, starts with the title's first 25, and equals the title exactly when the title is short or already 25 characters followed by `...` |
| Sidebar.IdeaLinks | src/components/Sidebar.tsx:66-80 | one link per idea, in order, to its dashboard, labelled with its shown title, highlighted exactly when its id is the current idea's |
| Sidebar.RecentIdeas | src/components/Sidebar.tsx:66 | the links of `ideas.slice(0, 3)`; stated by `Sidebar.RecentIdeasAreFirstThree` and `Sidebar.OneIdeaHighlighted` |
| Sidebar.RecentIdeasAreFirstThree | src/components/Sidebar.tsx:66 | at most three ideas are listed, the first ones in order, each highlighted exactly when it is the current idea |
| Sidebar.OneIdeaHighlighted | src/components/Sidebar.tsx:72 | with distinct idea ids, at most one listed idea is highlighted |
| Sidebar.AgentLinks | src/components/Sidebar.tsx:96-121 | one link per consultant, in order, to its chat; highlighted exactly when it is the active agent; labelled `agentName (name)` when expanded and unlabelled exactly when collapsed |
| Sidebar.OneAgentHighlighted | src/components/Sidebar.tsx:104 | with distinct ids, at most one consultant is highlighted, and one is exactly when the active agent is in the table |
| Sidebar.AssistantHighlightedInitially | src/components/Sidebar.tsx:17 | on a fresh sidebar the first of the seven consultants, the assistant, is the only one highlighted |
| Sidebar.Render | src/components/Sidebar.tsx:36-137 | what the sidebar shows for a state; stated by `Sidebar.CollapsedHidesLabels` |
| Sidebar.CollapsedHidesLabels | src/components/Sidebar.tsx:44-119 | collapsed: no brand, no idea list and no consultant labels, but still seven consultant links; expanded: brand, recent ideas and every label shown |

## Left out

- The remote API calls (`generateContent`, `chats.create`, `sendMessageStream`) are remote I/O. Their results are inputs.
- `toast` and `console` calls are logging only.
- The internals of `JSON.parse` and of the fallback regular expression are left out. They are the `Decoder` and `Matcher` oracles. The model does not state which blocks the expression captures; it states only what is done with the capture.
- The analysis prompt literal and the model name are constant request text that nothing downstream reads.
- `Number(...)` coercion and `NaN` are floating point. Chart points keep the raw JSON value.
- JSON numbers are integers. Floating-point values are not modelled.
- `Object.keys` puts integer-like keys of an object first. The model assumes the decoder already yields fields in enumeration order.
- Keys inherited from `Object.prototype` are left out. An agent type such as `constructor` would read an inherited member from `agentPersonalities`, and the model treats such ids as absent.
- `JsString.Capitalise`, `JsString.Trim`, `JsString.IndexOf`, `JsString.LastIndexOf`, `Dashboard.Characters` and `Sidebar.DisplayTitle` use ASCII case mapping and whole characters. Unicode case mapping that changes length, and UTF-16 code units (`substring` may split a surrogate pair, and `indexOf`, `lastIndexOf` and string indexing count code units), are not modelled.
- `Chat.BuildRequest` does not model the `push` of the user message onto the mapped history. It happens after the session has been created, so nothing reads it.
- `error.message` is taken to be a string. An error without a message, which would print `undefined`, is not modelled.
- Streaming is modelled only for sequential calls. Two concurrently active streams interleaving on the shared buffer are not modelled; each call is one uninterrupted run.
- A stream cancelled by its consumer part-way is not modelled. A stream ends either by completing or by rejecting after the chunks it delivered (`Streaming.StreamEnd`).
- React rendering, JSX, recharts, routing, styling, icons, `cn`, `useIsMobile` and `getAllIdeas` are left out. The mobile flag and the idea list are inputs, and `Sidebar.Render` keeps only what the sidebar shows.
- `Analysis.FillSections` and `Analysis.FallbackFields` append one field per section. Property assignment would overwrite a repeated section instead; `Sections` repeats none (`Analysis.SectionsShape`), so nothing is lost for the one list the code uses.
- `Dashboard.DashboardState.Refresh` does not model React's batching of state updates or what an error boundary does with a thrown effect.

## Findings

| source | as written | input that shows it | evidently intended | confidence | as-written member | corrected member |
|---|---|---|---|---|---|---|
| src/lib/geminiService.ts:17-18 | the buffer is reset to `""` and then returned, so every completed stream returns `""` | the chunks `Hello, `, `world`, `!` return `""` | return the accumulated reply, then reset the buffer | not executed; medium (the intent is read from the function's name and from its returning the buffer it has just filled) | Streaming.StreamBuffer.Stream, Streaming.HelloWorldIsLost | Streaming.StreamBuffer.StreamReturningText |
