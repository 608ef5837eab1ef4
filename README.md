# Aman: session store, stream reconciler and request router

This project models the core of Aman, a desktop chat assistant. The
model is written in Dafny and its properties are proved. It covers both
halves of one request:

- **The client** (`frontend/src/App.tsx`, `frontend/src/components/CommandInput.tsx`):
  - a list of chat sessions with a current-session id, kept in the browser store;
  - the command box's submit gate;
  - `handleCommand`, which answers `/new-session` and `/list-sessions` itself and otherwise:
    - appends the user's message optimistically;
    - derives the command verb;
    - posts the request;
    - reads the streamed body read by read;
    - splits each read into lines, decodes each line, and applies it to the trailing assistant message (a `meta` event sets the mode, a `chunk` event appends text);
    - ends on success, abort or error.
- **The service** (`backend/core/router.py`, `logger.py`, `ethics.py`):
  - `AmanRouter` maps the command to a mode;
  - it builds the language model's message list from the system prompt, the session's last four logged interactions and the new input;
  - it streams one `meta` line, then the model's text as `chunk` lines, over at most two generations driven by a `[SEARCH]` marker;
  - it adds an ethics warning when the kept text fails the blacklist check;
  - it appends one entry to the JSON-lines interaction log.

**Modules:**

- `Types`: modes, messages and sessions.
- `Text`: ASCII lower-casing, JavaScript `trim` and Python `strip`, Python's substring test, and JavaScript `split`.
- `Wire`: one event per line, in the json.dumps shapes with RFC 8259 section 7 string escaping, and the client's decoding of those lines.
- `Ethics`.
- `InteractionLog`: a `Logger` class over a log-file value.
- `Router`: the `AmanRouter` class, and the hop loop as a method proved against the `Hops` function.
- `Sessions`: the `setSessions` updaters as functions.
- `Stream`: per-read decoding.
- `App`: an `AppState` class whose methods are proved against the `Sessions` and `Stream` functions.
- `CommandInput`: an `InputBox` class.
- `Pipeline`: end-to-end lemmas from the router's lines to the message the client shows.

**Parameters.** Everything outside the code is a parameter:

- the language model: a function from a message list to the chunk contents it streams;
- the web search: results or an error text;
- `fetch`: a `Reply` value, holding the status, whether there is a body, the reads, and how reading ended;
- `Date.now` readings, `uuid` values and `confirm()` answers;
- the date, the log entry's id and time, and whether the log file can be read or written.

**Where the code departs from what its own comments announce (a title from the first message, `App.tsx`:133 and 184) or from what one would expect, this model follows the code:**

- **Partial lines.** The client does not buffer a partial line across reads. A line that the network splits in two is lost (`Stream.SplitLineIsLost`).
- **Titles.** `updateSessionTitle` runs after the user message is appended, so a title is never derived. Every session keeps "New Chat" (`Sessions.WithUserMessage`).
- **Deleting the current session.** It selects the first remaining session in list order, not the most recently active one (`App.AppState.DeleteSession`).
- **Deleting the last session.** When the current id names no session, deleting the last session leaves the list empty.
- **`switchSession`** does not check the id. Later commands then send requests whose updates are lost (`App.DanglingCurrent`).
- **A `meta` event on a session without messages** still sets the session's mode.
- **A new request does not abort the previous one.** The controller reference is simply overwritten.
- **The command verb** is cut at the first space character only.
- **The router maps every command except `/model` to ALIGN.** An ACT or NAVIGATE session that sends plain text is answered, and left, in ALIGN (`Pipeline.ActAndNavigateFallBack`).
- **The router ignores the client's `history` and `model`.** The log records the model "mistral-7b", the default in `logger.py`, while the client sends its current model ("llama3" unless a saved or fetched name replaces it).

## Model

| member | source | states |
|---|---|---|
| Types.ModeFromName | frontend/src/types.ts:2 | the mode with the given wire name; none exactly when no mode has that name |
| Text.Lower | backend/core/ethics.py:8 | ASCII lower-casing: same length, every character mapped on its own, no upper-case letter left |
| Text.LowerIdempotent | backend/core/ethics.py:8 | lower-casing twice is lower-casing once |
| Text.Contains | backend/core/ethics.py:8 | Python's `t in s`: true exactly when `t` occurs in `s` at some index |
| Text.ContainsTransitive | backend/core/ethics.py:7-9 | an occurrence inside an occurrence is an occurrence in the whole text |
| Text.ContainsLower | backend/core/ethics.py:8 | lower-casing both texts keeps every occurrence |
| Text.Trim | frontend/src/App.tsx:165-169 | the trimmed text is empty exactly when every character is whitespace, else it starts and ends with non-whitespace |
| Text.TrimIsMiddle | frontend/src/App.tsx:165-169 | the trimmed text is a contiguous middle of the input with only whitespace before and after it |
| Text.Split | frontend/src/App.tsx:242 | `split("\n")` gives at least one piece and no piece holds the separator |
| Text.JoinSplit | frontend/src/App.tsx:242 | joining the pieces with the separator gives the text back: splitting loses nothing |
| Text.SplitAfterPiece | frontend/src/App.tsx:242 | a separator-free piece followed by the separator is split off whole |
| Text.FirstField | frontend/src/App.tsx:196-197 | `split(sep)[0]` is a prefix of the text without the separator that ends at the first separator or at the end |
| Text.ConcatAppend | backend/core/router.py:66-67 | accumulating text over two runs of pieces is accumulating over each in turn |
| Wire.HexDigit | backend/core/router.py:68 | a hex digit of an escape is printable ASCII |
| Wire.ParseHex4Hex4 | backend/core/router.py:68 | the four hex digits of a `\uXXXX` escape read back as the number written |
| Wire.EscapeChar | backend/core/router.py:68 | json.dumps's escape of one character is non-empty printable ASCII |
| Wire.Escape | backend/core/router.py:68 | an escaped string holds printable ASCII only (section 7 of RFC 8259 with ensure_ascii) |
| Wire.UnescapeBmp | backend/core/router.py:68 | JSON.parse undoes the `\uXXXX` escape of a character below U+10000 |
| Wire.UnescapeAstral | backend/core/router.py:68 | JSON.parse undoes the surrogate-pair escape of a character above U+FFFF |
| Wire.UnescapeEscapeChar | frontend/src/App.tsx:246 | JSON.parse undoes the escape of any one character |
| Wire.UnescapeEscape | frontend/src/App.tsx:246 | JSON.parse of an escaped string body gives back exactly the original text |
| Wire.EncodeHasNoLineBreak | backend/core/router.py:68 | an encoded event holds no line break and is framed by braces, so a newline-terminated line is exactly one event |
| Wire.DecodeMetaLine | frontend/src/App.tsx:248-249 | a meta line's event is determined by its mode value alone (null or empty means no mode) |
| Wire.DecodeChunkLine | frontend/src/App.tsx:261-268 | a chunk line whose body unescapes to a text decodes to a chunk of that text |
| Wire.DecodeEncodeMeta | backend/core/router.py:52 | the client decodes the router's meta line back to the same meta event |
| Wire.DecodeEncodeChunk | backend/core/router.py:68 | the client decodes the router's chunk line back to the same chunk, whatever its text |
| Wire.DecodeEncode | frontend/src/App.tsx:246-272 | every event the router encodes decodes to itself |
| Stream.ReadLines | frontend/src/App.tsx:242 | the lines of a read hold no line break and none is blank |
| Stream.NonBlank | frontend/src/App.tsx:242 | the filter keeps only non-blank pieces, and keeps every non-blank piece |
| Stream.NonBlankOne | frontend/src/App.tsx:242 | one piece is kept exactly when it does not trim to nothing |
| Stream.NonBlankAppend | frontend/src/App.tsx:242 | the filter keeps the pieces' order: it distributes over concatenation |
| Stream.ReadLinesAfterLine | frontend/src/App.tsx:242 | a read that starts with a whole line gives that line, when not blank, followed by the lines of the rest |
| Stream.LineEvents | frontend/src/App.tsx:244-275 | a line yields at most one event |
| Stream.DecodeLinesAppend | frontend/src/App.tsx:244-276 | lines are decoded independently: a line that fails does not stop the later ones |
| Stream.DecodeLinesSnoc | frontend/src/App.tsx:244-276 | each further line adds its own event, if any, after the earlier ones |
| Stream.DecodeReadsSnoc | frontend/src/App.tsx:237-277 | each read adds the events of its own lines; nothing is carried between reads |
| Stream.ChunkTextAppend | frontend/src/App.tsx:261-271 | the text appended by two runs of events is the text of the first, then of the second |
| Stream.EncodeNotBlank | frontend/src/App.tsx:242 | an encoded event is never dropped as blank |
| Stream.SplitBody | frontend/src/App.tsx:242 | splitting a response body gives its encoded events, then one empty piece |
| Stream.DecodeEncodedLines | frontend/src/App.tsx:242-276 | the non-blank lines of a body decode to exactly its events |
| Stream.DecodeBody | frontend/src/App.tsx:237-277 | a read holding whole lines gives back exactly those events, in order |
| Stream.DecodeAlignedReads | frontend/src/App.tsx:237-277 | reads that each end at a line boundary give back all events, in order |
| Stream.UndecodableRead | frontend/src/App.tsx:273-275 | a non-blank line that does not decode yields no event, with or without its line break |
| Stream.QuoteLineIsNoEvent | frontend/src/App.tsx:246 | the tail of a cut line, starting at a quote, is no event |
| Stream.BraceIsNoEvent | frontend/src/App.tsx:246 | a lone opening brace is no event |
| Stream.OpeningHalfIsLost | frontend/src/App.tsx:241-242 | the first part of a line cut after its brace decodes to nothing |
| Stream.ClosingHalfIsLost | frontend/src/App.tsx:241-242 | the second part of that line decodes to nothing |
| Stream.SplitLineIsLost | frontend/src/App.tsx:241-242 | a line in one read decodes to its event, but the same bytes cut over two reads decode to nothing |
| Sessions.NewSession | frontend/src/App.tsx:91-97 | a fresh session: the given id, "New Chat", ALIGN, no messages, the given time |
| Sessions.Find | frontend/src/App.tsx:20 | as `Array.prototype.find`: the session found is the first in the list with the id; none found means no session has the id |
| Sessions.WithoutId | frontend/src/App.tsx:112 | the filter keeps exactly the sessions whose id differs |
| Sessions.WithoutIdAppend | frontend/src/App.tsx:112 | the filter keeps the relative order of the remaining sessions |
| Sessions.WithoutAbsentId | frontend/src/App.tsx:112 | deleting an id no session has leaves the list as it was |
| Sessions.Update | frontend/src/App.tsx:130 | the map keeps the length of the list |
| Sessions.UpdatePointwise | frontend/src/App.tsx:128-131 | the sessions with the id become their update and every other session stays as it was |
| Sessions.UpdateAbsentId | frontend/src/App.tsx:130 | an update of an id no session has changes nothing |
| Sessions.UpdateTwice | frontend/src/App.tsx:130 | two successive updaters on one id act as their composition |
| Sessions.TitleFor | frontend/src/App.tsx:137 | an input of at most 30 characters is the title; a longer one gives its first 30 characters followed by "..." |
| Sessions.UpdateSessionTitle | frontend/src/App.tsx:134-141 | a session without messages gets the title derived from the input; any other is unchanged |
| Sessions.WithUserMessage | frontend/src/App.tsx:185-188 | the user message is appended and the activity time set, and the title never changes |
| Sessions.WithMessage | frontend/src/App.tsx:235 | one message appended, every other field kept |
| Sessions.ApplyEvent | frontend/src/App.tsx:248-271 | an event keeps the id, title, time, message count and every message before the last |
| Sessions.ApplyEventStep | frontend/src/App.tsx:248-271 | on the reply: a chunk appends its text; a meta event with a mode sets the session's and the reply's mode; earlier messages, role and time stay |
| Sessions.ApplyEvents | frontend/src/App.tsx:244-276 | a stream keeps the id, title, time and message count |
| Sessions.ApplyEventsAppend | frontend/src/App.tsx:237-277 | applying two runs of events is applying the first, then the second |
| Sessions.ApplyEventsReply | frontend/src/App.tsx:248-271 | on a session whose last message is the reply, the earlier messages stay; the reply's text grows by the chunk texts in arrival order; its role and time stay; the session's and the reply's mode become the last mode a meta event set |
| Sessions.ChunkTextOfMeta | frontend/src/App.tsx:248-260 | meta events add no text |
| Sessions.StreamedStep | frontend/src/App.tsx:244-276 | applying one more event to the session extends the applied stream by that event, other sessions untouched |
| Sessions.StreamedExtend | frontend/src/App.tsx:237-277 | applying a further run of events extends the applied stream by that run |
| Sessions.Insert | frontend/src/App.tsx:38 | one insertion step keeps the multiset of sessions and puts the most recent in front |
| Sessions.ByRecency | frontend/src/App.tsx:38 | the sort is a permutation of the loaded list |
| Sessions.InsertSorted | frontend/src/App.tsx:38 | inserting into a list sorted by descending time keeps it sorted |
| Sessions.ByRecencySorted | frontend/src/App.tsx:37-38 | the loaded list ends up in descending order of timestamp |
| Sessions.FirstMax | frontend/src/App.tsx:38 | the position of the earliest stored session among those with the highest timestamp |
| Sessions.ByRecencyHead | frontend/src/App.tsx:38-39 | the session made current on load is the most recent one, the first stored on a tie |
| CommandInput.SubmitAction | frontend/src/components/CommandInput.tsx:20-28 | while loading, submit is a stop exactly when `onStop` exists and never sends; otherwise text is sent exactly when it trims to something, and then as typed |
| CommandInput.InputBox.constructor | frontend/src/components/CommandInput.tsx:17 | the box starts empty |
| CommandInput.InputBox.SetInput | frontend/src/components/CommandInput.tsx:62 | typing replaces the text |
| CommandInput.InputBox.HandleSubmit | frontend/src/components/CommandInput.tsx:20-32 | the submit decision on the current text; the box is cleared exactly when text is sent |
| CommandInput.InputBox.HandleKeyDown | frontend/src/components/CommandInput.tsx:34-39 | Enter without Shift is suppressed and submits; any other key does nothing and keeps the text |
| CommandInput.Step | frontend/src/components/CommandInput.tsx:20-39 | one user event: a send hands on the text and clears the box; anything but typing leaves the text |
| CommandInput.ReplayNeverSendsBlank | frontend/src/components/CommandInput.tsx:20-39 | whatever is typed and pressed, no text that trims to nothing ever reaches `onSubmit` |
| CommandInput.LoadingNeverSends | frontend/src/components/CommandInput.tsx:22-25 | while loading, no key or submit sends anything or changes the text |
| Ethics.AnyOccurs | backend/core/ethics.py:7-9 | the scan finds a term exactly when some term occurs |
| Ethics.Validate | backend/core/ethics.py:3-10 | content is invalid exactly when "hack", "exploit" or "unethical" occurs in its lower-cased form |
| Ethics.ValidateIgnoresCase | backend/core/ethics.py:8 | the verdict on content and on its lower-cased form agree |
| Ethics.InvalidPersists | backend/core/ethics.py:7-9 | any text containing invalid content is invalid |
| Ethics.RefusalIsInvalid | backend/core/ethics.py:15 | the canned refusal itself fails validation |
| Ethics.SanitizeIdempotent | backend/core/ethics.py:12-16 | valid content passes unchanged, invalid content becomes the refusal; the verdict is kept and sanitising twice is sanitising once |
| InteractionLog.NewEntry | backend/core/logger.py:22-31 | the entry records the session, input, output and mode given, and `tags or []` |
| InteractionLog.Appended | backend/core/logger.py:33-37 | a successful write adds exactly one line, the entry, after the existing lines (creating a missing file); a failed write changes nothing |
| InteractionLog.Matching | backend/core/logger.py:49-56 | only entries of the session, each a record of the file, and every record of the session is among them |
| InteractionLog.MatchingOne | backend/core/logger.py:52-56 | one line contributes its entry exactly when it is a record of the session; other records, non-JSON lines and non-objects contribute nothing |
| InteractionLog.MatchingAppend | backend/core/logger.py:50-54 | filtering keeps file order |
| InteractionLog.LastN | backend/core/logger.py:59 | `[-limit:]`: a suffix, of length `limit` when there are enough; `limit == 0` keeps everything |
| InteractionLog.RecentContextBounds | backend/core/logger.py:39-62 | the query returns only entries of the asked session, and at most `limit` of them when `limit > 0` |
| InteractionLog.LogThenQuery | backend/core/logger.py:33-59 | when the file holds no non-object JSON line, after a successful append the session's recent context ends with the new entry (with such a line the query returns `[]` instead) |
| InteractionLog.MalformedIgnored | backend/core/logger.py:55-56 | a line that is not JSON does not change the result |
| InteractionLog.Logger.constructor | backend/core/logger.py:10-12 | the logger works on the given file |
| InteractionLog.Logger.LogEntry | backend/core/logger.py:14-37 | the file becomes the file with the entry appended, or stays as it was when the write fails |
| InteractionLog.Logger.GetRecentContext | backend/core/logger.py:39-62 | the scan returns the session's last `limit` entries, or nothing when the file is missing, unreadable or holds a non-object |
| Router.CommandToMode | backend/core/router.py:20-28 | MODEL exactly for "/model", ALIGN for every other command |
| Router.SystemPrompt | backend/core/router.py:106-116 | the prompt of the named mode (empty for an unknown name), then the dated context suffix |
| Router.LogPairs | backend/core/router.py:39-41 | one user message and one assistant message per log entry, in log order |
| Router.ContextMessages | backend/core/router.py:35-44 | the system message first, the logged pairs in order, the new input last; length 2 + 2 per entry |
| Router.BuildContext | backend/core/router.py:35-44 | the context loop builds exactly that list |
| Router.NoSessionNoLog | backend/core/router.py:37-102 | without a session id the log is neither read nor written, and the context is the system prompt and the input |
| Router.NextRequestSeesThisOne | backend/core/router.py:37-102 | after a logged request, the next request of the same session sees its input and kept text as the last pair before its own input |
| Router.LoggedIsLast | backend/core/router.py:96-102 | after a logged request, the interactions the session's next request reads end with this request's input and kept text |
| Router.RequestContextTail | backend/core/router.py:35-44 | a session with logged interactions gets the last of them as the pair just before the new input |
| Router.QueryAfter | backend/core/router.py:71-73 | the captured query is one line and stripped at both ends |
| Router.SearchFrom | backend/core/router.py:71 | a match found from a position is a one-line query |
| Router.SearchQuery | backend/core/router.py:71-73 | the query a generation asks for is one line |
| Router.SearchQueryNeedsMarker | backend/core/router.py:71-72 | a search is only asked for when `[SEARCH]` occurs in the generation |
| Router.SearchFromMarker | backend/core/router.py:71 | a match starts at a position where `[SEARCH]` occurs |
| Router.SearchQueryFinds | backend/core/router.py:71-73 | when no marker occurrence starts before it, the marker followed by whitespace, a stripped one-line query and a line break or the end asks for exactly that query (an earlier marker wins, as re.search takes the leftmost match) |
| Router.Hops | backend/core/router.py:57-90 | the loop runs at most its remaining generations; the first generation's chunks come first; a loop that runs out keeps "" and otherwise keeps the last generation's text |
| Router.HopsAtMostTwice | backend/core/router.py:57-60 | the model is asked at least once and at most twice |
| Router.NoSearchSingleHop | backend/core/router.py:60-90 | a generation without the marker ends the loop with its chunks as the whole output and its text kept |
| Router.FailedSearchStops | backend/core/router.py:86-88 | a failed search ends the loop after the searching and failure notices, keeping the generation's text |
| Router.LastHopSearchKeepsNothing | backend/core/router.py:76-85 | after a successful search on the last hop the kept text is "", so no warning can follow |
| Router.SecondHop | backend/core/router.py:57-90 | after a successful first search the model is asked again with its text and the search context appended; the stream is the first output, the notice, then the second output; the kept text is the second generation's text, or "" when its search also succeeds |
| Router.ChunkEvents | backend/core/router.py:64-68 | one chunk event per content, in order |
| Router.Lines | backend/core/router.py:68 | one line per event, in order |
| Router.ResponseShape | backend/core/router.py:52-93 | the first event is the meta event of the mode, every later one is a chunk, and the loop's chunks follow in order |
| Router.ResponseWarning | backend/core/router.py:92-93 | the response has one event more than the chunks exactly when the kept text fails validation, and that event is the warning |
| Router.ResponseLinesDecode | backend/core/router.py:52-93 | every response line is one JSON object without line breaks plus "\n", and it decodes to its event |
| Router.ResponseLinesSplit | backend/core/router.py:52-93 | the response lines are the meta line, the chunk lines, then the warning lines |
| Router.Generate | backend/core/router.py:61-68 | one generation emits a chunk line per piece and its full text is the pieces concatenated |
| Router.GenerateStep | backend/core/router.py:64-68 | one more piece extends the text and the lines by that piece |
| Router.Hop | backend/core/router.py:60-90 | a stopping pass emits what the rest of the loop would; a continuing pass keeps nothing and emits the prefix the loop function prescribes |
| Router.RunHops | backend/core/router.py:57-90 | the loop emits the chunk lines of the hop outcome and keeps its text |
| Router.EthicsWarning | backend/core/router.py:92-93 | the warning line is added exactly when the kept text fails validation |
| Router.StreamGenerator | backend/core/router.py:47-102 | the generator yields exactly the response lines of the hop outcome and logs the kept text once when there is a session id |
| Router.AmanRouter.constructor | backend/core/router.py:7-10 | the router starts in ALIGN |
| Router.AmanRouter.HandleRequest | backend/core/router.py:12-104 | the mode becomes the command's mode; the lines are the response to the context built from the log; the log gains the entry |
| App.Classify | frontend/src/App.tsx:165-169 | the two local commands are recognised exactly when the trimmed input equals them |
| App.DeriveCommand | frontend/src/App.tsx:192-198 | a slash-led verb without spaces; slash input gives its text up to the first space, other input "/" and the lower-cased mode |
| App.History | frontend/src/App.tsx:205 | one role/content pair per message, in order |
| App.AfterFailure | frontend/src/App.tsx:279-286 | an abort adds nothing; any other error adds one assistant message "Error: " and its text |
| App.Exchange | frontend/src/App.tsx:220-290 | a request adds at most two messages after the existing ones, which it keeps, and keeps the id, title and time |
| App.ExchangeOutcome | frontend/src/App.tsx:220-286 | an abort before the response adds nothing; a rejected fetch, a failed status or a missing body add exactly one error message and no reply message |
| App.ErrorTexts | frontend/src/App.tsx:220-284 | the failed-status and missing-body messages read "Error: Error: ..." |
| App.ExchangeStreamed | frontend/src/App.tsx:226-290 | the reply message holds the text of every decoded chunk and the last meta mode; an abort keeps the partial reply alone; another error adds its message after it |
| App.ConversationShape | frontend/src/App.tsx:181-188 | a remote command keeps the earlier messages, appends the user message next, keeps the id and title and records the activity time |
| App.DanglingCurrent | frontend/src/App.tsx:103-131 | with a current id that names no session, the request is sent with no history and every update is lost |
| App.AfterCommandOnlyCurrent | frontend/src/App.tsx:128-131 | a remote command changes only the session it was made from |
| App.RequestFor | frontend/src/App.tsx:192-216 | the request carries the session id, the raw input, the model, the verb derived from the current session's mode (ALIGN without one) and the current session's messages as role/content pairs in order (none without one) |
| App.FetchedModel | frontend/src/App.tsx:57-64 | the first fetched model replaces the current one exactly when the list is non-empty and the saved name is non-empty and not in it |
| App.StartupModel | frontend/src/App.tsx:51-64 | a non-empty saved name with a non-empty list always ends on an offered model; a saved name the list holds, or no list, keeps it; no saved name keeps "llama3" |
| App.LoadedSessions | frontend/src/App.tsx:30-49 | loading always ends with at least one session |
| App.AppState.constructor | frontend/src/App.tsx:30-79 | a non-empty store loads sorted by recency with the most recent current; anything else gives one fresh session; the model falls back as fetched; both are persisted |
| App.AppState.Persist | frontend/src/App.tsx:75-79 | a non-empty session list is written to the store; nothing else changes |
| App.AppState.CreateNewSession | frontend/src/App.tsx:90-101 | exactly one fresh session goes in front of the unchanged list and becomes current |
| App.AppState.SwitchSession | frontend/src/App.tsx:103-106 | the id becomes current as given; nothing else changes |
| App.AppState.DeleteSession | frontend/src/App.tsx:108-126 | after confirmation exactly the sessions with the id go; a deleted current session hands over to the first remaining one or to a fresh session; the store is written at once |
| App.AppState.ClearHistory | frontend/src/App.tsx:143-151 | after confirmation exactly one fresh session remains, current and stored |
| App.AppState.HandleStop | frontend/src/App.tsx:153-159 | the live request is dropped and loading ends when there was one; otherwise nothing changes |
| App.AppState.UpdateSession | frontend/src/App.tsx:128-131 | only the sessions with the id change, each to its update, and the store follows |
| App.AppState.UpdateCurrentSession | frontend/src/App.tsx:128-131 | without a current id nothing changes; otherwise the current session is updated |
| App.AppState.ApplyLines | frontend/src/App.tsx:244-276 | the lines of one read are applied to the session in order, skipping lines that do not decode |
| App.AppState.ReadBody | frontend/src/App.tsx:237-277 | the read loop applies the events of every read, read by read, to the session |
| App.AppState.Fail | frontend/src/App.tsx:279-286 | the catch block's effect on the session |
| App.AppState.Receive | frontend/src/App.tsx:207-290 | the session becomes the exchange of the reply |
| App.AppState.StreamBody | frontend/src/App.tsx:226-277 | the reply message is added and the decoded stream reconciled into it |
| App.AppState.Streaming | frontend/src/App.tsx:226-290 | a response with a body has the effect the exchange prescribes |
| App.AppState.SendCommand | frontend/src/App.tsx:181-290 | the request derived from the state before the command is sent; the session has the whole conversation applied; loading and the controller are cleared on every way out |
| App.AppState.HandleCommand | frontend/src/App.tsx:161-291 | no current id: nothing; `/new-session` adds a session and `/list-sessions` one message, with no request; anything else sends the request and applies the conversation |
| Pipeline.BodyIsLines | backend/core/router.py:52-93 | the response body is the router's lines back to back |
| Pipeline.WholeBodyInOneRead | frontend/src/App.tsx:237-277 | the whole response in one read decodes to exactly the events the router sent |
| Pipeline.DecodeEventLine | frontend/src/App.tsx:241-272 | one line on its own decodes to its event |
| Pipeline.OneLinePerRead | frontend/src/App.tsx:237-277 | reads of one line each decode to exactly the events the router sent |
| Pipeline.ChunkTextOfChunks | frontend/src/App.tsx:261-271 | the text of chunk events is their contents concatenated |
| Pipeline.ResponseText | backend/core/router.py:64-93 | the text a response appends is every generated piece in order, then the warning when the kept text fails validation |
| Pipeline.ResponseMode | backend/core/router.py:52 | a response leaves the client in the mode its meta event names |
| Pipeline.LastModeAfter | frontend/src/App.tsx:261-271 | chunk events do not change the mode |
| Pipeline.ReplyShowsResponse | frontend/src/App.tsx:226-277 | when the router's lines arrive in one read or one line per read and the stream ends normally, the reply holds every generated piece and any warning, and carries the served mode, which the session takes (a line split across reads is lost, see Stream.SplitLineIsLost) |
| Pipeline.PlainInputMode | frontend/src/App.tsx:193-194 | plain text in a MODEL session is served as MODEL, in any other session as ALIGN |
| Pipeline.ActAndNavigateFallBack | backend/core/router.py:20-28 | an ACT or NAVIGATE session that sends plain text ends in ALIGN, with its reply marked ALIGN |

## Left out

- I/O and the clock are parameters or values:
  - `fetch`, `localStorage`, `TextDecoder`, the DDGS search, file access, `Date.now`, `datetime.now`, `uuid` and `confirm()`;
  - the language model (`llm_client.py`), as a function from messages to chunk contents;
  - the prompt texts (`prompts.py`), as opaque strings;
  - console output and `print` calls, which have no effect on state.
- The JSON grammar is not modelled beyond the two json.dumps shapes the router writes. Any other line counts as one `JSON.parse` rejects or as an unknown type. A line with other spacing, key order or extra keys that JavaScript would accept is treated as skipped.
- Decode covers only the four mode strings of the client; any other non-empty mode string is treated as no event.
- A chunk object without `content` (which would append "undefined") is not modelled, because the router never sends one.
- Titles count characters as Unicode scalar values, not UTF-16 code units.
- Lower-casing is ASCII only.
- A stored session list in an unexpected shape counts as unparseable, so it starts one fresh session.
- Log records are entries, non-JSON lines or non-object JSON lines. A record that lacks `session_id` or `user_input` is not modelled.
- Concurrency is not modelled: each request and each handler runs to completion before the next starts. This leaves out:
  - React's batching of state updates;
  - a second request started while one is streaming;
  - the router's shared `current_mode`, which concurrent requests could overwrite before the generator runs.
- App.AppState.HandleStop: it models a stop between requests. A stop during streaming is the reply ending as `Some(Aborted)`, with the reads delivered before it.
- Trim: its own contract states only emptiness and the non-whitespace ends. That the result is the contiguous middle is proved apart, in Text.TrimIsMiddle, so that the many proofs that only need emptiness do not carry the existential.
- ReadLines: its own contract states only that lines hold no break and are not blank. Which lines, and their order, follow from NonBlank's contract with Stream.NonBlankAppend and Stream.ReadLinesAfterLine.
- Router.Hops: its contract ties only the first generation's text to the model. The second generation is stated by Router.SecondHop, which covers every two-hop run, since at most two generations happen (Router.HopsAtMostTwice).
- A `chunk` event on a session without messages throws inside the updater. The model applies it as changing nothing.
- The language model's or the search's exceptions mid-stream are not modelled, nor the client closing the stream early.
- The search results' `str()` rendering is a parameter: the search returns its text.
- Rendering, scrolling, the sidebar and settings, `MessageRenderer.tsx`, `ModeSelector.tsx`, `SettingsModal.tsx`, `electron/main.cjs` and `backend/main.py` are outside the modelled core.
