# SHYN companion — a Dafny model of the conversation core

SHYN is a browser application in which a user chats with a virtual
companion. The companion has a mood (Cheerful, Thoughtful or Playful) and an
affection level for the user (15 to 100 points). She remembers facts about
the user and can show a reaction animation at the start of a reply. The
application also has an admin side: a user table and a status pie chart.

This project models the logic behind that behaviour and proves what it
promises:

- **Persona** (`persona.dfy`): the system instruction and the greeting of a
  chat session. The affection tier picks the instruction's affection
  paragraph and the greeting. A memory block appears when there are
  memories. The long fixed texts are a `PersonaTexts` parameter; SHYN's own
  texts are in `ShynPersona` (`shyn.dfy`).
- **HistoryCodec** (`history.dfy`): turns a stored transcript into the
  role/parts turns the language model receives. A persona message loses its
  leading `[reaction:…]` tag. An attachment's data URL yields an inline-data
  part. Turns with no parts are dropped.
- **Gateway** (`gateway.dfy`): what the service layer does with the model's
  answers. It opens a session, or names why it could not. It decodes a
  reply's reaction tag. It maps a send failure to one of three user-safe
  texts. It filters the memory extractor's JSON answer.
- **AvatarPrompt** (`avatar.dfy`): the avatar prompt and the outcome of an
  image request.
- **MemoryStore** (`memory.dfy`): the per-user memory store.
  - A class whose `ProcessAndStore` runs the duplicate-check loop of the
    source.
  - The case-insensitive duplicate check.
  - The most-recent-first selection.
- **ChatView** (`chat.dfy`): the conversation view as a class.
  - It holds the transcript, the affection level and the loading and
    sending flags, the session, the error and the active reaction.
  - Its methods are the load, the guarded send, the reaction shown when
    the reply arrives, the delivery of the reply, the deferred memory step
    of a send, the idle decay tick and the mood change.
  - A load opens its session with the user's five most recent stored
    memories.
  - It writes affection back to storage under the (user, mood) key.
  - Affection is counted in half points (15 points is 30), so every step is
    an integer.
- **ChatInput** (`chatinput.dfy`): the message box, with its submit guard
  and the 5 MB attachment limit.
- **AiProfile** (`profile.dfy`): the affection label, the action-animation
  state and the avatar-fetch state of the profile panel.
- **Notifications** (`notifications.dfy`): the notification list, with its
  append and its remove-by-id.
- **UserTable** (`users.dfy`): the admin user table.
  - Delete, the sort-direction toggle and the search.
  - The sort, which is a permutation, is ordered by the key and is stable.
- **StatusChart** (`chart.dfy`): the status-count fold behind the pie chart
  and its rendering decision.
- **Text** (`text.dfy`): the JavaScript string operations the above rely on
  (`trim`, `toLowerCase`, `includes`, `split(',')[1]`, `join`, `\s`, `\w`).
- **Types** (`types.dfy`): the application's records and closed string
  unions.
- **Wrappers** (`wrappers.dfy`): `Option` and `Result`.

External services are parameters of the model, never called:

- **Model and image service:** a call's answer or failure is a `Result`
  value. A thrown value is `Thrown`, either an `Error` with a message or a
  non-`Error` value.
- **Browser storage:** a map.
- **The clock and the random identifiers:** plain parameters.

## Model

| member | source | states |
|---|---|---|
| Persona.TierOf | services/geminiService.ts:32-38 | below 25 points is the getting-to-know tier, 25 up to 75 is becoming close, 75 and above is deeply bonded, each as an if-and-only-if |
| Persona.SystemInstruction | services/geminiService.ts:21-69 | the instruction: base persona text, mood text, the tier's affection text, the memory block, the reaction protocol; its layout is stated by `MemoryBlockPlacement` and its dependence on affection by `InstructionDependsOnTier` |
| Persona.Greeting | services/geminiService.ts:131-138 | the greeting of the affection's tier addressed to the user; `GreetingOpens` and `GreetingOpeningsExclusive` state which tier it speaks for |
| Persona.AffectionOpens | services/geminiService.ts:32-38 | the affection paragraph begins with the opening of its tier |
| Persona.AffectionOpeningsExclusive | services/geminiService.ts:32-38 | texts that begin with the affection openings of two tiers are equal only if the tiers are equal, so different tiers give different paragraphs |
| Persona.GreetingOpens | services/geminiService.ts:131-138 | the greeting begins with the greeting opening of the tier the affection falls in (same thresholds as the instruction) |
| Persona.GreetingOpeningsExclusive | services/geminiService.ts:131-138 | greetings of different tiers differ |
| Persona.InstructionDependsOnTier | services/geminiService.ts:21-69 | two affection levels in the same tier give the same instruction and the same greeting |
| Persona.MemoryBullets | services/geminiService.ts:56 | one line per memory, in input order, each "- " followed by the memory's detail |
| Persona.MemorySectionPresence | services/geminiService.ts:54-58 | the memory section is empty exactly when there are no memories; otherwise it begins with the heading naming the user |
| Persona.MemorySectionAppend | services/geminiService.ts:56-57 | one more memory adds exactly one more line, a newline and "- " then its detail, at the end of the section |
| Persona.MemoryBlockPlacement | services/geminiService.ts:68 | the instruction is the base, mood and affection texts, then the memory section, then the reaction protocol; with no memories the affection paragraph is followed directly by the reaction protocol; the head ends with the affection paragraph |
| HistoryCodec.WordRunEnd | services/geminiService.ts:88 | the end of the run of `\w` characters starting at an index: every character in the run is a word character and the one after it (if any) is not |
| HistoryCodec.StripReactionTag | services/geminiService.ts:88 | the regex replace of a leading `[reaction:\w+]\s*`; `StripKeepsSuffix`, `StripAfterTag` and `StripWithoutTag` state its cases |
| HistoryCodec.StripKeepsSuffix | services/geminiService.ts:88 | stripping the reaction tag leaves a suffix of the text, and a text not starting with "[reaction:" is left unchanged |
| HistoryCodec.StripAfterTag | services/geminiService.ts:88 | a text made of "[reaction:", a non-empty word, "]", white space and a body with no leading space strips to exactly the body |
| HistoryCodec.StripWithoutTag | services/geminiService.ts:88 | a text that opens with "[reaction:" but has no word after the colon, or a word not followed by "]" ("[reaction:]x", "[reaction:a b]"), is left unchanged |
| HistoryCodec.AttachmentPartShape | services/geminiService.ts:91-101 | an attachment gives an inline-data part exactly when its URL is non-empty and the text between its first and second commas is non-empty; that part carries the attachment's type and that text |
| HistoryCodec.AttachmentPart | services/geminiService.ts:91-101 | the inline-data part of an attachment; its cases are stated by `AttachmentPartShape` |
| HistoryCodec.MessagePartsShape | services/geminiService.ts:86-101 | a text part exactly when the text is non-empty, the persona's text stripped of its tag and the user's unchanged; then the inline-data part when there is one; never more than two parts |
| HistoryCodec.MessageParts | services/geminiService.ts:86-101 | a message's parts: its text part, then its attachment's part; stated by `MessagePartsShape` |
| HistoryCodec.ToContentRole | services/geminiService.ts:103-106 | a user message becomes a 'user' turn and every other sender a 'model' turn, carrying the message's parts |
| HistoryCodec.ConvertHistory | services/geminiService.ts:83-108 | no more turns than messages, and every turn has at least one part |
| HistoryCodec.WithPartsMembers | services/geminiService.ts:107 | the filter keeps exactly the turns that have parts |
| HistoryCodec.ConvertAppend | services/geminiService.ts:83-108 | converting a concatenation is concatenating the conversions, so message order is kept |
| HistoryCodec.ConvertOne | services/geminiService.ts:83-108 | a single message becomes its turn when it has parts, and is dropped otherwise |
| HistoryCodec.ConvertMembers | services/geminiService.ts:83-108 | every turn comes from some message, and every message with parts contributes its turn |
| Gateway.InitializeChat | services/geminiService.ts:116-148 | a session opens exactly when the service does; a failure whose `Error` message mentions API_KEY is passed on as that same error, and any other failure becomes the getting-started text |
| Gateway.InitializeChatOpens | services/geminiService.ts:118-140 | an opened session carries the system instruction for the mood, affection, name and memories, the converted history and the greeting for the affection |
| Gateway.NamedReactionOf | services/geminiService.ts:186-188 | a reaction name followed by "]" is recognised as that reaction, with the rest after the bracket |
| Gateway.NamedReactionSound | services/geminiService.ts:186-188 | a recognised reaction's text really is that name, "]", then the rest |
| Gateway.DecodeTagged | services/geminiService.ts:186-190 | a reply that begins with a reaction's tag decodes to that reaction, with the rest trimmed as its text |
| Gateway.DecodeSound | services/geminiService.ts:186-189 | a decoded reaction is one whose tag the reply begins with |
| Gateway.DecodeReaction | services/geminiService.ts:183-192 | the decoded reaction is R exactly when the reply begins with R's tag; without a reaction the reply's text is returned unchanged |
| Gateway.DecodeReply | services/geminiService.ts:183-192 | the reply split into its reaction tag and trimmed text; stated by `DecodeTagged`, `DecodeSound` and `DecodeReaction` |
| Gateway.OutgoingShape | services/geminiService.ts:158-179 | a non-empty attachment URL without data after its first comma fails; an attachment with data gives the text part then the image part; otherwise the plain message is sent |
| Gateway.OutgoingContent | services/geminiService.ts:158-179 | what a send transmits, or the invalid-data-URL `Error`; stated by `OutgoingShape` |
| Gateway.ClassifySendError | services/geminiService.ts:193-208 | which of the three user-safe texts a caught failure becomes; stated by `ConnectivityAnyCase`, `InvalidAttachmentIsTechnical` and `SendOutcome` |
| Gateway.SendMessage | services/geminiService.ts:150-209 | a send resolves to the decoded reply or fails with a user-safe text; stated by `SendOutcome` |
| Gateway.SendOutcome | services/geminiService.ts:150-209 | every failure is one of the three user-safe texts; an invalid attachment ends as the technical text; a sent message yields the decoded reply, or the text of the service failure's class |
| Gateway.InvalidAttachmentIsTechnical | services/geminiService.ts:162-164 | the invalid-attachment error maps to the generic technical text |
| Gateway.InvalidAttachmentWords | services/geminiService.ts:162-164 | the invalid-attachment message mentions neither a fetch or network failure nor the API key, so it falls through to the generic branch |
| Gateway.ConnectivityAnyCase | services/geminiService.ts:199-200 | an `Error` whose message contains "fetch" or "network" in any ASCII letter case maps to the connectivity text |
| Gateway.ContainsLower | services/geminiService.ts:199 | lower-casing keeps a contained text contained |
| Gateway.Candidates | services/geminiService.ts:256-258 | the filtered list is no longer than the parsed array |
| Gateway.CandidatesMembers | services/geminiService.ts:256-258 | a candidate is kept exactly when it comes from an array item that is an object with string topic and string detail (empty strings pass) |
| Gateway.CandidatesAppend | services/geminiService.ts:256-258 | the filter works item by item and keeps the array's order |
| Gateway.ExtractOutcome | services/geminiService.ts:212-267 | blank user text, a failed call or parse, or a non-array answer gives no candidates; otherwise exactly the well-formed items |
| Gateway.ExtractMemories | services/geminiService.ts:212-267 | the extractor's candidates for a user text; stated by `ExtractOutcome` |
| AvatarPrompt.Clause | services/geminiService.ts:300-304 | a field contributes at most one clause |
| AvatarPrompt.GivenFromGiven | services/geminiService.ts:299-304 | every position found is that of a given (present and non-empty) field |
| AvatarPrompt.GivenFromIncreasing | services/geminiService.ts:299-304 | the positions are found in increasing order, each smaller than the next, the order of the five `if`s |
| AvatarPrompt.GivenFromComplete | services/geminiService.ts:299-304 | every given field is found |
| AvatarPrompt.CustomClauses | services/geminiService.ts:299-304 | the clauses of the given fields; stated by `CustomClausesCount` and `CustomClausesOrder` |
| AvatarPrompt.DetailsPiece | services/geminiService.ts:306-308 | the custom-details piece is present exactly when there is at least one clause |
| AvatarPrompt.Arrange | services/geminiService.ts:271-326 | four or five pieces: subject, style, the optional details, expression, quality, in that order |
| AvatarPrompt.CustomClausesCount | services/geminiService.ts:299-304 | one clause per given (present and non-empty) field and none for the others; no clauses exactly when no field is given |
| AvatarPrompt.CustomClausesOrder | services/geminiService.ts:299-304 | for any set of given fields, the clauses are exactly those fields' lead-ins with their values, in the order hairstyle, hair colour, eye colour, clothing, accessory |
| AvatarPrompt.PromptPiecesShape | services/geminiService.ts:270-328 | subject first, quality last, the selected look's style second, the mood's expression next to last, and the details piece third when there are clauses, listing them separated by ", " |
| AvatarPrompt.PromptPieces | services/geminiService.ts:270-326 | the prompt's pieces; stated by `PromptPiecesShape` |
| AvatarPrompt.Prompt | services/geminiService.ts:328 | the pieces joined by single spaces (`Text.Join`) |
| AvatarPrompt.AppearanceNames | services/geminiService.ts:278-295 | every look is selected by its own name, and any other name selects the default look |
| AvatarPrompt.AppearanceOf | services/geminiService.ts:278-295 | the look an appearance name selects; stated by `AppearanceNames` |
| AvatarPrompt.GenerateAvatar | services/geminiService.ts:331-363 | success exactly when the first generated image has non-empty bytes, which are the result; the configuration text exactly when an `Error` mentioning API_KEY was thrown; the new-look text otherwise |
| MemoryStore.Store.GetMemories | services/memoryService.ts:6-14 | the user's stored list, or empty when nothing is stored or the entry cannot be read |
| MemoryStore.Store.ProcessAndStore | services/memoryService.ts:24-55 | the store becomes `Remembered` of the old store: the loop collects exactly the admitted memories |
| MemoryStore.Admitted | services/memoryService.ts:33-44 | the memories made of the candidates not already stored; stated by `AdmittedUnknown`, `UnknownAdmitted` and `AdmittedAppend` |
| MemoryStore.Remembered | services/memoryService.ts:32-48 | the store after an exchange's candidates; stated by `RememberedEffect` |
| MemoryStore.RememberedEffect | services/memoryService.ts:32-48 | other users' entries are untouched; the user's list becomes the old list followed by the admitted memories when the write succeeds; nothing is written when nothing is admitted or the write fails |
| MemoryStore.AlreadyKnown | services/memoryService.ts:37 | true exactly when a stored memory's detail equals the candidate's ignoring case |
| MemoryStore.AdmittedUnknown | services/memoryService.ts:33-44 | no more admitted memories than candidates, and each admitted one has a detail not stored before the call and comes from a candidate with that topic and detail |
| MemoryStore.UnknownAdmitted | services/memoryService.ts:37-42 | every candidate whose detail is not stored before the call is admitted, with the id and time given for its position |
| MemoryStore.AdmittedAppend | services/memoryService.ts:36-44 | candidates are admitted in order, each checked against the memories stored before the call only, so two equal candidates in one batch are both admitted |
| MemoryStore.CaseInsensitiveDuplicate | services/memoryService.ts:37 | a candidate equal to a stored detail after lower-casing is a duplicate |
| MemoryStore.Insert | services/memoryService.ts:59 | inserting adds exactly the one memory |
| MemoryStore.SortLatestFirst | services/memoryService.ts:59 | the sort is a permutation; `SortedLatestFirst` and `SortLatestFirstStable` give its order |
| MemoryStore.InsertKeepsOrder | services/memoryService.ts:59 | inserting into a latest-first list keeps it latest-first |
| MemoryStore.SortedLatestFirst | services/memoryService.ts:59 | the sort orders by non-increasing timestamp |
| MemoryStore.SortLatestFirstStable | services/memoryService.ts:59 | the sort is stable: memories with the same time keep their stored order, which decides which tied memories make the limit |
| MemoryStore.SliceTo | services/memoryService.ts:59 | `slice(0, limit)`: the first `limit` memories, with a negative limit counted from the end |
| MemoryStore.RecentMemories | services/memoryService.ts:57-60 | at most `limit` memories, a prefix of the latest-first sort of the stored ones, in non-increasing timestamp order, and none left out is later than any returned |
| MemoryStore.GetRecentMemories | services/memoryService.ts:57-60 | the `limit` latest memories of a user; stated by `RecentMemories` |
| MemoryStore.RecentAllWhenFew | services/memoryService.ts:57-60 | a limit no smaller than the number of stored memories returns all of them, latest first |
| ChatView.Bump | components/ChatView.tsx:141 | a send raises affection by 2 points or to 100, never above 100 |
| ChatView.Decay | components/ChatView.tsx:111 | a decay step lowers affection by half a point or to 15, never below 15 |
| ChatView.Tick | components/ChatView.tsx:108-116 | a tick never raises affection and leaves it unchanged in the Cheerful mood |
| ChatView.AfterSends | components/ChatView.tsx:141 | affection after n sends; stated by `SendsClosedForm` |
| ChatView.AfterTicks | components/ChatView.tsx:108-116 | affection after n idle ticks; stated by `TicksClosedForm` |
| ChatView.SendsClosedForm | components/ChatView.tsx:141 | n sends without decay from a level up to 100 give the smaller of the level plus 2n points and 100 |
| ChatView.TicksClosedForm | components/ChatView.tsx:108-116 | n ticks in a decaying mood from above 15 give the larger of the level minus n/2 points and 15; otherwise the level stays |
| ChatView.StepsKeepRange | components/ChatView.tsx:108-141 | sends and ticks keep affection between 15 and 100 points |
| ChatView.LoadErrorText | components/ChatView.tsx:82-89 | an `Error` not mentioning API_KEY shows its own message |
| ChatView.CatchText | components/ChatView.tsx:162 | the caught text of a failed send: `MessageOr` with the apology for a non-`Error` |
| ChatView.KeyProblemShown | components/ChatView.tsx:83-86 | a session refused for its API key shows the configuration notice |
| ChatView.Sent | services/geminiService.ts:150-209 | a send that fails always throws an `Error` |
| ChatView.SentShown | components/ChatView.tsx:144-164 | a failed send shows one of the three user-safe texts, and a successful one shows the decoded reply |
| ChatView.Started | services/geminiService.ts:116-148 | the session opens exactly when the service does, and a failure is always an `Error` |
| ChatView.Ending | components/ChatView.tsx:67-92 | the load succeeds exactly when the history and the session both arrive, keeping the loaded history and the session |
| ChatView.EndingFailed | components/ChatView.tsx:80-92 | a failed load shows the text of the first failure, the transcript provider's before the session's |
| ChatView.LoadOutcomeOf | components/ChatView.tsx:67-92 | the whole load succeeds exactly when both calls succeed, with the loaded history and the service's session; the memories are read from the store only once the history has arrived |
| ChatView.LoadOpens | components/ChatView.tsx:68-72 | a successful load opens the session with the instruction and greeting of the load's mood and affection, the user's name, the user's five most recent stored memories and the converted history |
| ChatView.LoadRecallsStored | components/ChatView.tsx:68-70 | a user with at most five stored memories has all of them, latest first, in the instruction of the next session opened |
| ChatView.LoadKeyProblem | components/ChatView.tsx:80-92 | a load refused for its API key fails with the configuration notice |
| ChatView.ReplyMessage | components/ChatView.tsx:153-163 | the appended persona message has the reply's text, or the thrown `Error`'s message, in the mood of the send, with no attachment |
| ChatView.StoredAffection | components/ChatView.tsx:63-64 | the stored level under the (user, mood) key, or 15 points when nothing is stored |
| ChatView.SendAllowed | components/ChatView.tsx:136 | the send guard: text or an attachment, nothing loading or sending, and a session; used by `ChatSession.Send` |
| ChatView.ChatSession.constructor | components/ChatView.tsx:42-52 | the view opens cheerful, empty, loading, at 15 points, with no session, error or reaction |
| ChatView.ChatSession.StartLoad | components/ChatView.tsx:57-65 | loading is set and the error cleared; affection becomes the stored level and is written back under the current key |
| ChatView.ChatSession.FinishLoad | components/ChatView.tsx:67-95 | given how the load ended (`Ending`), on success the session, the greeting and the loaded history are kept; on failure the error is set and the transcript becomes the one persona message carrying it, the old session kept; loading ends either way |
| ChatView.ChatSession.Send | components/ChatView.tsx:135-141 | a refused send changes nothing; an accepted one appends the user message, sets sending, raises affection to `Bump` of it and writes it under the current key |
| ChatView.ChatSession.Answered | components/ChatView.tsx:144-148 | when the send call settles, a decoded reaction becomes active before the reply is shown; nothing else changes |
| ChatView.ChatSession.Deliver | components/ChatView.tsx:150-167 | after the reply's delay (or at once on failure), exactly one persona message is appended to the current transcript, in the mood of the send; sending ends |
| ChatView.ChatSession.StoreExtracted | components/ChatView.tsx:157-159 | the fire-and-forget memory step of a send, run whenever the extractor answers: the store becomes `Remembered` of the store at that moment; the view is untouched |
| ChatView.ChatSession.DecayTick | components/ChatView.tsx:102-116 | affection becomes `Tick` of it and is written under the current key when it changed; storage stays in step and in range |
| ChatView.ChatSession.ChangeMood | components/ChatView.tsx:170-174 | choosing the current mood changes nothing; another mood becomes current and starts a load with its stored affection |
| ChatView.ChatSession.ClearReaction | components/ChatView.tsx:209 | the reaction is cleared when its animation ends |
| ChatInput.InputBox.constructor | components/ChatInput.tsx:16 | the box opens empty |
| ChatInput.InputBox.Edit | components/ChatInput.tsx:21 | typing or a voice transcript replaces the input |
| ChatInput.InputBox.Submit | components/ChatInput.tsx:25-31 | a message is sent exactly when the button is enabled (the trimmed input is non-empty and nothing is loading); it is the input without attachment and the input is cleared; a refused submit keeps the input |
| ChatInput.InputBox.ChooseFile | components/ChatInput.tsx:33-47 | no file does nothing; a file over 5 MB adds the too-large error notification and reads nothing; any other file starts a read with the current input, its name and type |
| ChatInput.InputBox.FileRead | components/ChatInput.tsx:41-45 | the read file is sent with the input text as an attachment of its name, type and data URL, and the input is cleared |
| ChatInput.SizeLimit | components/ChatInput.tsx:36 | exactly 5·1024·1024 bytes is accepted and one byte more is refused |
| ChatInput.TooLarge | components/ChatInput.tsx:36 | a file over 5 MB is refused; its boundary is stated by `SizeLimit` |
| ChatInput.SendDisabled | components/ChatInput.tsx:101 | the send button is disabled while loading or when the trimmed input is empty; used by `InputBox.Submit` |
| ChatInput.SubmittedNotBlank | components/ChatInput.tsx:27 | a submitted input is not empty and not all white space |
| AiProfile.AffectionLabel | components/AiProfile.tsx:113-118 | below 25 points "Getting to know you", below 50 "Warming up", below 75 "Feeling close", otherwise "Deeply Bonded", each as an if-and-only-if |
| AiProfile.LabelFollowsTier | components/AiProfile.tsx:113-118 | the label's bands refine the persona's tiers: the first is the getting-to-know tier, the middle two make up the becoming-close tier, the last is the deeply-bonded tier |
| AiProfile.LabelMonotone | components/AiProfile.tsx:113-118 | more affection never gives a lower label |
| AiProfile.Generated | services/geminiService.ts:331-363 | a failed generation is always an `Error`, and a successful one has non-empty bytes |
| AiProfile.FetchErrorText | components/AiProfile.tsx:83 | the caught text of a failed fetch: `MessageOr` with "Could not load appearance." for a non-`Error` |
| AiProfile.GeneratedShown | components/AiProfile.tsx:78-84 | a failed fetch shows one of the two avatar failure texts, never "Could not load appearance."; a successful one shows the first image's bytes |
| AiProfile.AvatarPanel.constructor | components/AiProfile.tsx:61-68 | no animation, loading, no error, no image, nothing reported |
| AiProfile.AvatarPanel.ActionClick | components/AiProfile.tsx:120-123 | a click while an animation plays does nothing; otherwise the chosen gesture's animation starts |
| AiProfile.AvatarPanel.AnimationComplete | components/AiProfile.tsx:131 | the animation is cleared when it completes |
| AiProfile.AvatarPanel.FetchStart | components/AiProfile.tsx:74-76 | loading is set, the error cleared and the parent given no image |
| AiProfile.AvatarPanel.FetchFinish | components/AiProfile.tsx:77-89 | on success the data URL is stored and reported; on failure the error text is set, notified and no image reported; loading ends |
| AiProfile.DataUrlPayload | components/AiProfile.tsx:79 | the payload of a data URL whose header has no comma is read back by the history conversion's split |
| AiProfile.AvatarUrl | components/AiProfile.tsx:79 | the JPEG data URL of a picture's bytes; read back by `AvatarUrlRoundTrip` |
| AiProfile.AvatarUrlRoundTrip | components/AiProfile.tsx:79 | an avatar's data URL sent as a JPEG attachment gives back its bytes as the inline-data part |
| Notifications.NotificationCenter.constructor | contexts/NotificationContext.tsx:14 | the list starts empty |
| Notifications.NotificationCenter.Add | contexts/NotificationContext.tsx:22-24 | exactly one notification with the current time as id is appended |
| Notifications.NotificationCenter.Remove | contexts/NotificationContext.tsx:16-20 | the list becomes `WithoutId` of the old list |
| Notifications.WithoutId | contexts/NotificationContext.tsx:18 | the filtered list is never longer |
| Notifications.WithoutIdMembers | contexts/NotificationContext.tsx:18 | exactly the notifications with other ids remain |
| Notifications.WithoutIdAppend | contexts/NotificationContext.tsx:18 | the filter works item by item and keeps the order |
| Notifications.WithoutAbsentId | contexts/NotificationContext.tsx:16-19 | removing an absent id leaves the list unchanged |
| Notifications.WithoutIdIdempotent | contexts/NotificationContext.tsx:16-19 | removing the same id twice is removing it once |
| Notifications.SameMillisecondDismissedTogether | contexts/NotificationContext.tsx:23-28 | two notifications added in the same millisecond share an id and one removal takes both |
| Notifications.UseNotifications | contexts/NotificationContext.tsx:38-44 | outside a provider an `Error` is thrown; inside, the provider's value is returned |
| UserTable.LessStrIrreflexive | components/UserManagementTable.tsx:38 | no text is less than itself |
| UserTable.LessStrTransitive | components/UserManagementTable.tsx:38 | text order is transitive |
| UserTable.LessStrTotal | components/UserManagementTable.tsx:38-44 | of two different texts one is less than the other |
| UserTable.KeyOf | components/UserManagementTable.tsx:38 | the id key compares numbers and every other key compares texts |
| UserTable.KeyLessAsymmetric | components/UserManagementTable.tsx:38-44 | of two users at most one is before the other by a key, and then their keys differ |
| UserTable.KeyLessTotal | components/UserManagementTable.tsx:38-44 | users whose keys differ are ordered one way or the other |
| UserTable.BeforeAsymmetric | components/UserManagementTable.tsx:37-45 | the comparator in either direction is asymmetric |
| UserTable.NotBeforeTransitive | components/UserManagementTable.tsx:37-45 | "not after" is transitive, so the comparator is a consistent order |
| UserTable.SortUsers | components/UserManagementTable.tsx:34-48 | with no sort configuration the list is kept as it is |
| UserTable.SortByOrdered | components/UserManagementTable.tsx:37-45 | the sort is ordered by the comparator and is a permutation |
| UserTable.Insert | components/UserManagementTable.tsx:37-45 | inserting adds exactly the one user |
| UserTable.SortBy | components/UserManagementTable.tsx:37-45 | the stable sort by the comparator; stated by `SortByOrdered` and `SortStable` |
| UserTable.SortedUsers | components/UserManagementTable.tsx:34-48 | sorting is a permutation, non-decreasing by the key when ascending and non-increasing when descending |
| UserTable.SortStable | components/UserManagementTable.tsx:37-45 | users with equal keys keep their relative order |
| UserTable.NextSort | components/UserManagementTable.tsx:57-63 | the clicked key is sorted descending exactly when it is currently sorted ascending, and ascending otherwise |
| UserTable.SortToggles | components/UserManagementTable.tsx:57-63 | clicking the same header twice flips the direction |
| UserTable.Filtered | components/UserManagementTable.tsx:29 | a filtered list is never longer |
| UserTable.FilteredMembers | components/UserManagementTable.tsx:51-54 | a filter keeps exactly the users it accepts |
| UserTable.FilteredAppend | components/UserManagementTable.tsx:51-54 | a filter keeps the order |
| UserTable.FilteredAll | components/UserManagementTable.tsx:51-54 | a filter that accepts everyone keeps the list |
| UserTable.MatchingMembers | components/UserManagementTable.tsx:50-55 | the search keeps exactly the users whose lower-cased name or email contains the lower-cased term |
| UserTable.MatchingAppend | components/UserManagementTable.tsx:50-55 | the search keeps the sorted order |
| UserTable.Matching | components/UserManagementTable.tsx:50-55 | the search; stated by `MatchingMembers`, `MatchingAppend`, `EmptySearchKeepsAll` and `SearchIgnoresCase` |
| UserTable.Table.Shown | components/UserManagementTable.tsx:34-55 | the rows shown: the search over the sorted copy; stated by `ShownMembers` |
| UserTable.EmptySearchKeepsAll | components/UserManagementTable.tsx:50-55 | an empty term keeps everyone |
| UserTable.SearchIgnoresCase | components/UserManagementTable.tsx:52-53 | a term and its lower-cased form match the same users |
| UserTable.ShownMembers | components/UserManagementTable.tsx:34-55 | the shown users are exactly the matching ones, whatever the sort |
| UserTable.WithoutUserMembers | components/UserManagementTable.tsx:29 | delete keeps exactly the users with other ids |
| UserTable.WithoutUserAppend | components/UserManagementTable.tsx:29 | delete keeps the others in order |
| UserTable.WithoutUser | components/UserManagementTable.tsx:29 | delete's filter; stated by `WithoutUserMembers`, `WithoutUserAppend` and `WithoutAbsentUser` |
| UserTable.WithoutAbsentUser | components/UserManagementTable.tsx:29 | deleting an absent id keeps the list |
| UserTable.Table.constructor | components/UserManagementTable.tsx:18-20 | the table opens with the given users, no search and no sort |
| UserTable.Table.Reset | components/UserManagementTable.tsx:22-24 | a new list from the parent replaces the table's |
| UserTable.Table.Search | components/UserManagementTable.tsx:72 | typing replaces the search term |
| UserTable.Table.Delete | components/UserManagementTable.tsx:26-32 | the list loses every user with the id, and the same list is handed to the parent |
| UserTable.Table.RequestSort | components/UserManagementTable.tsx:57-63 | the sort configuration becomes `NextSort` of the old one |
| StatusChart.Counted | components/charts/UserStatusPieChart.tsx:44 | a status not yet listed gets an entry of count 1 appended at the end |
| StatusChart.FirstIndex | components/charts/UserStatusPieChart.tsx:44 | the position found for a listed status holds that status, and no earlier entry does |
| StatusChart.CountedListed | components/charts/UserStatusPieChart.tsx:44 | a listed status has the count of its first entry raised by one in place, every other entry unchanged |
| StatusChart.CountsNew | components/charts/UserStatusPieChart.tsx:44 | a user with a new status keeps every count right |
| StatusChart.CountsListed | components/charts/UserStatusPieChart.tsx:44 | a user with a listed status keeps every count right |
| StatusChart.StatusCountsTally | components/charts/UserStatusPieChart.tsx:43-46 | each entry's count is the number of users with its status; only statuses that occur are listed, each once, in order of first occurrence; the counts sum to the number of users |
| StatusChart.StatusCounts | components/charts/UserStatusPieChart.tsx:43-46 | the counting `reduce`; stated by `StatusCountsTally` |
| StatusChart.Capitalize | components/charts/UserStatusPieChart.tsx:49 | capitalising keeps the length |
| StatusChart.SlicesOf | components/charts/UserStatusPieChart.tsx:48-51 | one slice per entry, in order |
| StatusChart.ChartData | components/charts/UserStatusPieChart.tsx:42-51 | the pie's slices; stated by `PieValues`, `PieCovers` and `PieTotal` |
| StatusChart.Render | components/charts/UserStatusPieChart.tsx:54-56 | the placeholder is shown exactly when there are no users |
| StatusChart.SliceNameColour | components/charts/UserStatusPieChart.tsx:49-74 | a slice's name is the status with its first letter upper-cased and the rest unchanged, and lower-casing it gives back the status for the colour lookup |
| StatusChart.PieValues | components/charts/UserStatusPieChart.tsx:43-51 | every slice is an occurring status's name with its number of users |
| StatusChart.PieCovers | components/charts/UserStatusPieChart.tsx:43-51 | every occurring status has a slice, and slice names are distinct |
| StatusChart.SlicesSum | components/charts/UserStatusPieChart.tsx:48-51 | the slice values sum to the entries' total |
| StatusChart.PieTotal | components/charts/UserStatusPieChart.tsx:43-58 | the slice values sum to the number of users, and a non-empty list draws a pie with slices |
| Types.MessageOr | components/ChatView.tsx:162 | what a `catch` shows: an `Error`'s own message, and the fallback text for any other thrown value (also components/AiProfile.tsx:83) |
| Text.TrimStart | services/geminiService.ts:186-189 | a trailing `\s*` match: the result is a suffix with no leading space, and what was dropped is all white space |
| Text.TrimEnd | services/geminiService.ts:189 | the result is a prefix with no trailing space, and what was dropped is all white space |
| Text.Trim | services/geminiService.ts:189 | the result neither starts nor ends with white space |
| Text.BlankIffAllSpace | components/ChatInput.tsx:27 | a text trims to empty exactly when it is all white space |
| Text.ToLower | services/memoryService.ts:37 | lower-casing maps each character and keeps the length |
| Text.AfterPrefixSpec | services/geminiService.ts:186-189 | the rest after a prefix exists exactly when the text starts with it, and the prefix followed by the rest is the text |
| Text.SecondCommaField | services/geminiService.ts:92 | `split(',')[1]`: nothing exactly when there is no comma; otherwise the comma-free text between the first comma and the next one or the end |
| Text.Join | services/geminiService.ts:328 | joining nothing is empty and joining one piece is that piece |
| Text.JoinAppend | services/geminiService.ts:56 | joining one more piece adds the separator and the piece at the end |

## Left out

- The calls to the language model, to the image model and to the transcript provider are not modelled; their answers and failures are parameters. So are the session singleton and its API-key read. The request configuration is left out too: model names, the response schema and the "up to 2 memories" request in the extraction prompt.
- Browser storage is a map. JSON serialisation is left out: stored affection is a number, and stored memories are either a readable list or unreadable.
- The clock and `Math.random` are parameters: notification ids, memory ids and timestamps. The random 0.5–1.5 s reply delay is the gap between `ChatSession.Answered` (the reaction is shown) and `ChatSession.Deliver` (the reply is appended); other steps may run in it, but its length is not modelled.
- The timers are left out. The 30 s decay interval is an explicit `DecayTick` method, and the 5 s auto-dismiss is an explicit `Remove`. Which tick fires when is not modelled.
- The ambient sounds, the message sound and voice recognition are left out: audio is output only, and voice is a browser API. A transcript arriving is modelled as `InputBox.Edit`.
- Rendering and animation are left out: framer-motion keyframes, the mouse tilt, the pie labels and colours, and the admin dashboard. So is the mood-change animation in the profile panel (components/AiProfile.tsx:94-100), which is a delayed timer.
- Text.ToLower and Text.LowerChar: they change only the ASCII letters, not the whole Unicode case mapping of `toLowerCase`. Likewise `toUpperCase` in the chart. The statuses and reaction names are ASCII, so the chart and reaction results are exact.
- UserTable.LessStr compares by character (Unicode scalar), while JavaScript compares by UTF-16 code unit. The two orders differ only between characters beyond the Basic Multilingual Plane and characters U+E000–U+FFFF.
- Gateway.Json numbers are integers. The filter keeps whole answer items (services/geminiService.ts:256-258), and the memory step spreads them into the stored memory (services/memoryService.ts:38-41). So the source stores any extra fields an item carries. The model keeps only the topic and the detail, and drops those extra fields.
- Base64 is never decoded, as in the source: a data URL's payload is carried as text.
- The long prompt texts (the personality, the mood paragraphs, the reaction protocol, the portrait styles and expressions) are values of `PersonaTexts` and `PortraitTexts`. The model is proved for every choice of them, not only for SHYN's own (`ShynPersona`).
- ChatView.ChatSession.FinishLoad: receives how the load ended (a `LoadOutcome`) rather than the raw results, so that its proof does not unfold the failure texts. `ChatView.Ending`, `ChatView.EndingFailed`, `ChatView.LoadOutcomeOf` and `ChatView.LoadOpens` state how that outcome is computed.
- The view's user is fixed for its lifetime. The load effect also runs on a change of user; that is modelled as a new `ChatSession`.
- The storage write on a mood change is left out. The load effect reads the stored level first, before its first `await` (components/ChatView.tsx:56-65). The persist effect then briefly writes the old level under the new key (components/ChatView.tsx:102-105), and the level the load read overwrites it. `StartLoad` writes the read level back at once, which is the state once both effects have run.
- Replies that arrive after a mood change are appended to the current transcript, as in the source. No guard is added.
- `getChatHistory` is a parameter. The mock service in services/apiService.ts is not part of this model.
- `ProcessAndStore` takes the extractor's candidates. A failure of the extractor or of the write is swallowed, as in the source, and shows up as no candidates or a refused write.
- The extraction filter accepts empty topic and detail strings (services/geminiService.ts:256-258), and so does the model.
- A custom avatar field counts only when it is non-empty (services/geminiService.ts:300-304), and so it does in the model.
- ChatView.ChatSession.StoreExtracted: the memory step of a send is fire-and-forget (components/ChatView.tsx:157). It completes only after its own extractor call (services/memoryService.ts:30), which may be after later sends, loads and deliveries. The memory steps of two sends may complete in either order. The model makes it a separate step that a caller runs at any point after the send. The model does not fix when that is. Which details count as already known, and the ids and times given, depend on that order.
