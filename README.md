# Delta AI chat client — session store and send/stream cycle

Delta AI is a single-page chat client. It keeps an ordered list of
conversation sessions, one of which may be active. A message typed by the
user is sent to a text-generation backend together with the session's
earlier messages, a persona instruction and a mode instruction. The reply
streams back in fragments, which are folded into an assistant message as
they arrive. When a session's first exchange completes, a short title is
generated for it.

This project models that core in Dafny and proves what it promises:

- `types.dfy` (module `Types`): the record shapes `Message`, `Session` and
  `UserSettings`, and the `AIMode`/`AIRole` enumerations.
- `text.dfy` (module `Text`): the JavaScript string built-ins the core
  relies on (`trim`, `toLowerCase`, `includes`, the global `replace` of `"`).
- `constants.dfy` (module `Constants`): the model list, the persona and mode
  instruction tables, and the suggestion prompts.
- `gemini.dfy` (module `Gemini`): request shaping around the backend calls.
  This covers the system instruction, the history-to-contents mapping, the
  title prompt, and the clean-up of the title reply with its fallback.
- `sessions.dfy` (module `Sessions`): the pure session-list transforms the
  handlers hand to the state setter. These are the per-session updaters,
  lookup, deletion filter and sidebar search.
- `exchange.dfy` (module `Exchange`): one accepted send stated as a
  function, `Exchange`, of the state it starts from and of what the backend
  delivers. Lemmas then say what that send does to the target session and
  to every other session.
- `app.dfy` (module `App`): the component state as a class, `ChatApp`, with
  one method per handler. `SendMessage` runs the fragment loop and is
  proved to produce exactly `Exchange`. Every handler preserves `Valid()`:
  an active id, when there is one, names a session in the list.

The backend stream is an input: the fragments it delivers (a fragment
without text is appended as the text `undefined`, as JavaScript's `+=` does)
and whether it raises after them. The title call is an input too: it threw,
or it answered with a text that may be missing. The clock is a parameter
`now`, read once per handler. The session created by a handler gets the
id `now`, and the assistant placeholder gets the id `now + 1`.

Some behaviour of the code is easy to miss when reading it, and the model
keeps it as written:

- The history sent with a request, the request's mode and persona, and the
  title gate are read from the session list as it was before the send
  (App.tsx:157-161, App.tsx:181). A session created implicitly by the same
  send is not in that list. It therefore gets an empty history and never a
  generated title, although it had no messages before the exchange
  (`Exchange.ImplicitSessionHasNoHistory`).
- Both new messages take their mode from the active session in that same
  list, not from the target session (App.tsx:121, App.tsx:145).
- A failed title call still writes a title, "New Conversation"
  (services/geminiService.ts:62-64).
- Every content write of a send rewrites each message of the target that
  carries the placeholder's id (App.tsx:173, App.tsx:191-195), not only the
  placeholder. `Exchange` does the same. `Exchange.ExchangeOnTarget`
  describes the usual case, where no earlier message has that id.
- Selecting a session (App.tsx:271) sets the active id without checking it.
  `ChatApp.SelectSession` preserves `Valid()` only for an id that is in the
  list.

## Model

| member | source | states |
|---|---|---|
| Text.Trim | services/geminiService.ts:61 | the result is a slice of the input with only whitespace outside it; it is empty exactly when the input is all whitespace; a non-empty result starts and ends with non-whitespace; input without whitespace at either end comes back unchanged |
| Text.TrimSlice | services/geminiService.ts:61 | cutting the whitespace prefix and then the whitespace suffix leaves a slice of the input with only whitespace outside it |
| Text.IsBlank | App.tsx:109 | a text is blank exactly when every character is whitespace |
| Text.ToLower | App.tsx:225-226 | the lowercased string has the input's length; every upper-case ASCII letter becomes its lower-case letter and every other character is kept |
| Text.ToLowerIdempotent | App.tsx:225-226 | lowercasing twice is the same as lowercasing once |
| Text.Contains | App.tsx:225-226 | an empty term is contained in every string, and a contained term is no longer than the string |
| Text.ContainsAt | App.tsx:225-226 | `includes` holds whenever the term occurs at some index of the string |
| Text.ContainsWitness | App.tsx:225-226 | whenever `includes` holds, the term occurs at some index of the string |
| Text.RemoveAll | services/geminiService.ts:61 | the removed character no longer occurs; every other character occurs exactly as often as before; a string without it is unchanged |
| Text.RemoveAllConcat | services/geminiService.ts:61 | deletion works piecewise over a concatenation, so the kept characters stay in their order |
| Text.RemoveAllOne | services/geminiService.ts:61 | a single character is deleted when it is the quote and kept otherwise |
| Constants.SystemPrompt | constants.ts:11-18 | every one of the six personas has a non-empty instruction |
| Constants.ModeInstruction | constants.ts:20-25 | every one of the four modes has a non-empty instruction |
| Constants.ModelIdsDistinct | constants.ts:4-9 | the ids of the model list are pairwise distinct |
| Constants.DefaultModelListed | constants.ts:5 | the default model id is one of the listed models |
| Constants.SuggestionsNotBlank | constants.ts:27-33 | no suggestion is blank, so each one passes the send guard |
| Gemini.SystemInstruction | services/geminiService.ts:20 | the system instruction is the persona's instruction followed by the separator "\n\nMode: " and the mode's instruction |
| Gemini.ToContent | services/geminiService.ts:23-26 | a message becomes a turn whose only part is its text, with role `user` for a user message and `model` for an assistant message |
| Gemini.ChatHistory | services/geminiService.ts:23-26 | one turn per message, in order, with the message text as its only part; user messages map to role `user` and assistant messages to role `model` |
| Gemini.RequestContents | services/geminiService.ts:31-34 | the contents are the mapped history followed by exactly one `user` turn carrying the prompt |
| Gemini.BuildRequest | services/geminiService.ts:29-39 | the request names the chosen model; its contents are the mapped history (user and model turns) followed by one user turn with the prompt; its system instruction is the persona instruction, the separator and the mode instruction |
| Gemini.TitlePrompt | services/geminiService.ts:59 | the title call's text carries the user's prompt verbatim between a fixed instruction and a fixed closing request |
| Gemini.CleanTitle | services/geminiService.ts:61 | the cleaned reply is no longer than the reply and has no `"`; a reply without quotes is only trimmed |
| Gemini.TitleFrom | services/geminiService.ts:61-64 | the title is never empty and contains no `"`; a reply whose text cleans to something non-empty gives that cleaned text; a thrown call, a missing text or a text that cleans to nothing gives "New Conversation" |
| Gemini.TitleKeepsCleanReply | services/geminiService.ts:61 | a reply that is already clean is used verbatim as the title |
| Gemini.TitleUnquotes | services/geminiService.ts:61 | a clean title wrapped in double quotes comes back without them |
| Sessions.NewSession | App.tsx:92-100 | a new session has the given id, no messages, the title "New Conversation", mode Chat, persona General, and both timestamps `now` |
| Sessions.ReplaceContent | App.tsx:173 | rewriting a message's content keeps the number of messages |
| Sessions.ReplaceContentAt | App.tsx:173 | every message with the id gets the new content; every other message keeps its position and value |
| Sessions.Apply | App.tsx:124-133 | no updater changes a session's id or creation time |
| Sessions.UpdateWhere | App.tsx:216 | an updater over the list keeps its length |
| Sessions.UpdateWhereAt | App.tsx:214-222 | only sessions with the given id are edited, in place; every other session keeps its position and value |
| Sessions.Find | App.tsx:49 | lookup fails exactly when no session has the id; a found session is in the list and has the id |
| Sessions.FindFirst | App.tsx:49 | lookup returns the first session carrying the id |
| Sessions.UpdateKeepsIds | App.tsx:216 | after an update an id is found exactly when it was found before |
| Sessions.Filter | App.tsx:207 | filtering keeps exactly the elements that pass the test, each as often as it occurred, and drops every other one |
| Sessions.FilterIsSubsequence | App.tsx:207 | filtering keeps the survivors in their original order |
| Sessions.FilterKeepsAll | App.tsx:224-227 | a test every element passes leaves the list unchanged |
| Sessions.FilterSameTest | App.tsx:224-227 | tests that agree on the list's elements select the same sublist |
| Sessions.RemoveSession | App.tsx:207 | deletion removes every session with the id and keeps every other session, as often as it occurred and in order |
| Sessions.Matches | App.tsx:225-226 | an empty term matches every session, and so does a term contained in the lowercased title |
| Sessions.Search | App.tsx:224-227 | a session is listed exactly when its lowercased title or some message's lowercased content contains the lowercased term, as often as it occurs in the list; the listing keeps the sidebar order |
| Sessions.SearchEmptyTerm | App.tsx:224-227 | an empty search term lists every session in order |
| Sessions.SearchIgnoresCase | App.tsx:225-226 | terms that differ only in letter case select the same sessions |
| Sessions.SearchFoldsCase | App.tsx:225-226 | searching for a term and for its lowercase form select the same sessions |
| Exchange.ResolveText | App.tsx:108 | a non-empty override is sent; a missing or empty override sends the input box; the text is empty only when both are |
| Exchange.SendTarget | App.tsx:111-114 | a send writes to the active session, or to the session it creates with id `now` when none is active |
| Exchange.Start | App.tsx:111-114 | with an active session the list is unchanged; without one a fresh session is put in front of the unchanged list |
| Exchange.UserMessage | App.tsx:116-122 | the user message has id and timestamp `now`, role user, the sent text, the given mode and no rating |
| Exchange.Placeholder | App.tsx:139-146 | the placeholder is an empty assistant message with the given mode, timestamp `now` and an id different from the user message's |
| Exchange.ChunkText | App.tsx:168 | a chunk contributes its text, or the text "undefined" when it has none |
| Exchange.ActiveMode | App.tsx:121 | without an active session the messages get mode Chat; otherwise they get the mode of the active session in the pre-send list |
| Exchange.Accumulate | App.tsx:166-168 | the accumulated text starts with the first fragment's text |
| Exchange.Streamed | App.tsx:166-178 | the fragment fold keeps the number of sessions and leaves the list alone when no fragment arrives; StreamedAt gives its effect on the target |
| Exchange.AccumulateGrows | App.tsx:166-168 | the accumulated text after more fragments extends the text after fewer |
| Exchange.AccumulateStep | App.tsx:168 | each fragment appends its text to what was accumulated |
| Exchange.ReplaceOverwrites | App.tsx:173 | a content write is a full replacement: a later write erases an earlier one |
| Exchange.ContentUpdateOverwrites | App.tsx:169-177 | two successive content writes to a session list equal the second alone |
| Exchange.History | App.tsx:157-160 | the history sent is the messages of the first pre-send session with the target's id, and empty when there is none |
| Exchange.RequestMode | App.tsx:161 | the request mode is the mode of the first pre-send session with the target's id, and Chat when there is none |
| Exchange.RequestRole | App.tsx:162 | the request persona is the persona of the first pre-send session with the target's id, and General when there is none |
| Exchange.TitleGate | App.tsx:181 | a title is requested exactly when the target is in the pre-send list and the history sent for it is empty |
| Exchange.FinalContent | App.tsx:166-199 | the placeholder ends with the error text when the stream raised, and with the accumulated fragments otherwise |
| Exchange.Opened | App.tsx:111-153 | the two appends keep the number of sessions once the implicit session is counted; OpenedAt gives their effect on the target |
| Exchange.Finish | App.tsx:180-199 | the last step keeps the number of sessions and changes nothing when the stream completed and the gate is closed; FinishAt gives its effect on the target |
| Exchange.Exchange | App.tsx:107-203 | one accepted send keeps the number of sessions once the implicit session is counted; its effect is given by ExchangeOnTarget, ExchangeLeavesOthers and ImplicitSessionHasNoHistory |
| Exchange.StreamStep | App.tsx:167-178 | one loop iteration turns the state after i fragments into the state after i + 1 fragments |
| Exchange.ReplaceFreshLast | App.tsx:173 | a write to the placeholder's id changes only the placeholder when no earlier message shares its id |
| Exchange.AppendsAt | App.tsx:124-153 | the target gains the user message then the placeholder, and only the first append bumps `lastUpdatedAt` |
| Exchange.StreamedAt | App.tsx:166-178 | after the fragments the placeholder holds their concatenation and the earlier messages are untouched |
| Exchange.ContentAt | App.tsx:187-199 | the error write replaces only the placeholder's content |
| Exchange.FinishAt | App.tsx:180-199 | a raised stream puts the error text in the placeholder; otherwise the title changes exactly when the gate opens |
| Exchange.OpenedAt | App.tsx:111-153 | after the two appends the target holds its earlier messages, the user message and the empty placeholder |
| Exchange.ClosedAt | App.tsx:166-199 | the placeholder ends with the fragments' concatenation or the error text |
| Exchange.ExchangeAt | App.tsx:107-203 | through a whole send every session keeps its id, and every session other than the target is unchanged |
| Exchange.ExchangeLeavesOthers | App.tsx:124-199 | a send keeps the list's length and ids and leaves every non-target session as it was |
| Exchange.ExchangeOnTarget | App.tsx:107-202 | provided no earlier message of the target has the placeholder's id, the target ends with its earlier messages, the user message and the placeholder with the fragments' concatenation or the error text; `lastUpdatedAt` is `now`; the title changes only if the stream completed and the target had no messages before the send |
| Exchange.ImplicitSessionHasNoHistory | App.tsx:111-184 | without an active session the new session goes in front with the two messages, the other sessions follow unchanged, and no history and no title request come from it |
| Exchange.ExchangeKeepsTarget | App.tsx:111-153 | provided the active id names a session in the list or there is none, the target session is in the list after a send; with an active id naming no session the send writes to no session |
| App.DefaultSettings | App.tsx:40-46 | the initial settings select a listed model, the light theme and an expanded sidebar |
| App.ChatApp.Mount | App.tsx:53-65 | saved sessions are loaded as they are and the first becomes active; without saved sessions one fresh session is created and active; saved settings replace the defaults |
| App.ChatApp.CreateNewSession | App.tsx:90-105 | exactly one empty Chat/General session titled "New Conversation" goes in front, becomes active, and the previous sessions follow in order |
| App.ChatApp.SelectSession | App.tsx:271 | the clicked session becomes active and nothing else changes |
| App.ChatApp.SetInput | App.tsx:443 | only the input box changes |
| App.ChatApp.SetSearchTerm | App.tsx:261 | only the search term changes |
| App.ChatApp.FilteredSessions | App.tsx:224-227 | the sidebar lists, in order, exactly the sessions matching the search term, and all of them for an empty term |
| App.ChatApp.OpenExchange | App.tsx:108-153 | creates a session when none is active, appends the two messages, clears the input and starts streaming |
| App.ChatApp.StreamFragments | App.tsx:166-178 | the loop leaves the list equal to the fold of all fragments into the placeholder |
| App.ChatApp.CloseExchange | App.tsx:180-202 | writes the error text or the title, requests a title only on a completed stream whose target had no messages, and always ends streaming |
| App.ChatApp.SendMessage | App.tsx:107-203 | a blank text or a running stream changes nothing and sends nothing; otherwise the sessions become `Exchange`, the request carries the pre-send history, mode and persona, streaming ends and the active session is kept valid |
| App.ChatApp.SendSuggestion | App.tsx:361-366 | while a stream runs only the input box changes, to the suggestion; otherwise the suggestion is sent as `SendMessage` sends a text: the sessions become `Exchange`, the request carries the pre-send history, mode and persona, the title prompt is requested under the gate, and the search term and settings are kept |
| App.ChatApp.DeleteSession | App.tsx:205-212 | the session is removed and the rest keep their order; a deleted active session is replaced by the first remaining one or none; otherwise the active id is kept |
| App.ChatApp.ToggleSessionMode | App.tsx:214-217 | without an active session nothing changes; otherwise only the active session's mode is set |
| App.ChatApp.ToggleSessionRole | App.tsx:219-222 | without an active session nothing changes; otherwise only the active session's persona is set |

## Left out

- Text.ToLower: folds ASCII letters only, because full Unicode case mapping is not modelled; search agrees with the client on ASCII text.
- Rendering, icons, the settings modal, scroll-into-view and the model-name display are presentation (App.tsx:86-88, App.tsx:229 onward).
- The DOM theme classes are a browser side effect (App.tsx:74-82).
- The local store is left out. This covers its reads and writes and the JSON encoding and decoding (App.tsx:53-73). A saved snapshot is an optional value given to `ChatApp.Mount`, and a snapshot that fails to parse is not represented.
- The backend SDK, the API key and error logging are left out. The stream is given as fragments plus whether it raises after them. A stream that raises before its first fragment is the empty fragment list with `raises`.
- The title call's own system instruction and model name are not part of the returned request (services/geminiService.ts:55-58).
- `temperature`, `topP` and the settings slider are left out because they are floating-point values with no logic (services/geminiService.ts:37-38).
- Asynchrony is left out. Each handler runs to completion, so nothing models a handler interleaving with a running send, nor React's batching of state updates.
- `Date.now()` becomes the parameter `now`, read once per handler. Session ids are natural numbers, the decimal form `Date.now().toString()` takes, so the source's test for a falsy id amounts to the test for a missing id.
- The optional `initialPrompt` of `createNewSession` has no effect on the new session's title, so it is not a parameter.
- The settings editor, theme toggle and model selection only replace `settings`. They are not modelled beyond the `settings` field.
- The `rating` field of a message is carried but never set, because no handler of the client sets it.
