/**
 * The request router of the service (backend/core/router.py): it maps the
 * command to a mode, builds the message list the language model sees from
 * the session's logged interactions, and produces the response body: one
 * meta line, the model's text as chunk lines over at most two generations
 * driven by a `[SEARCH]` marker, an ethics warning when the kept text
 * fails validation, and finally one log entry.
 *
 * The language model, the web search, the clock, the prompt texts, entry
 * ids and file-system failures are parameters collected in `Env`.
 */
module Router {
  import opened Types
  import opened Text
  import opened Wire
  import opened Ethics
  import opened InteractionLog

  datatype ChatRole = SystemRole | UserRole | AssistantRole

  datatype ChatMessage = ChatMessage(role: ChatRole, content: string)

  /** The four base prompts of the service; their texts do not matter here. */
  datatype Prompts = Prompts(align: string, model: string, act: string, navigate: string)

  /**
   * Everything outside the router: the prompts, today's date as the clock
   * prints it, the model (the chunk contents it streams for a message list),
   * the search (its results as text, or the error's text), whether the log
   * can be read and written, and the id and time the next log entry gets.
   */
  datatype Env = Env(
    prompts: Prompts,
    date: string,
    llm: seq<ChatMessage> -> seq<string>,
    search: string -> Result<string, string>,
    logReadable: bool,
    logWritable: bool,
    entryId: string,
    clock: string)

  const MaxHops: nat := 2
  const ContextLimit: int := 4
  const SearchMarker: string := "[SEARCH]"
  const WarningText: string := "\n[SYSTEM: Ethic Check Warning]"

  /** The mode a command selects: only "/model" selects MODEL, everything else ALIGN. */
  function CommandToMode(command: string): (m: Mode)
    ensures m == Model <==> command == "/model"
    ensures m == Align || m == Model
  {
    if command == "/align" then Align
    else if command == "/model" then Model
    else Align
  }

  function PromptFor(prompts: Prompts, m: Mode): string
  {
    match m
    case Align => prompts.align
    case Model => prompts.model
    case Act => prompts.act
    case Navigate => prompts.navigate
  }

  /** The if/elif chain of get_system_prompt, on the mode's name. */
  function BasePrompt(prompts: Prompts, mode: string): string
  {
    if mode == "ALIGN" then prompts.align
    else if mode == "MODEL" then prompts.model
    else if mode == "ACT" then prompts.act
    else if mode == "NAVIGATE" then prompts.navigate
    else ""
  }

  const DateHead: string := "\n\n[SYSTEM CONTEXT]\nCurrent Date: "
  const SearchHint: string := "\nIf the user asks for 'latest' or 'current' info, you MUST use [SEARCH]."

  function ContextSuffix(date: string): string
  {
    DateHead + date + SearchHint
  }

  /** get_system_prompt: the mode's prompt (empty for an unknown name), then the dated context suffix. */
  function SystemPrompt(prompts: Prompts, mode: string, date: string): (r: string)
    ensures ModeFromName(mode).Some? ==> r == PromptFor(prompts, ModeFromName(mode).value) + ContextSuffix(date)
    ensures ModeFromName(mode).None? ==> r == ContextSuffix(date)
  {
    BasePrompt(prompts, mode) + ContextSuffix(date)
  }

  /** One user/assistant pair per logged interaction, in log order. */
  function LogPairs(logs: seq<LogEntry>): (r: seq<ChatMessage>)
    ensures |r| == 2 * |logs|
    ensures forall k :: 0 <= k < |logs| ==>
      r[2 * k] == ChatMessage(UserRole, logs[k].userInput) && r[2 * k + 1] == ChatMessage(AssistantRole, logs[k].aiOutput)
  {
    if logs == [] then []
    else
      var last := logs[|logs| - 1];
      LogPairs(logs[..|logs| - 1]) + [ChatMessage(UserRole, last.userInput), ChatMessage(AssistantRole, last.aiOutput)]
  }

  /** The message list of a request: the system prompt, the logged pairs, then the new input. */
  function ContextMessages(systemPrompt: string, logs: seq<LogEntry>, userInput: string): (r: seq<ChatMessage>)
    ensures |r| == 2 + 2 * |logs|
    ensures r[0] == ChatMessage(SystemRole, systemPrompt)
    ensures r[|r| - 1] == ChatMessage(UserRole, userInput)
    ensures forall k :: 0 <= k < |logs| ==>
      r[2 * k + 1] == ChatMessage(UserRole, logs[k].userInput) && r[2 * k + 2] == ChatMessage(AssistantRole, logs[k].aiOutput)
  {
    [ChatMessage(SystemRole, systemPrompt)] + LogPairs(logs) + [ChatMessage(UserRole, userInput)]
  }

  /** The logged interactions a request sees: none without a session id. */
  function ContextLogs(file: LogFile, sessionId: string, readOk: bool): seq<LogEntry>
  {
    if sessionId == "" then [] else RecentContext(file, sessionId, ContextLimit, readOk)
  }

  /** The message list handle_request builds for `mode`; the client's history plays no part. */
  function RequestContext(env: Env, mode: Mode, file: LogFile, sessionId: string, userInput: string): seq<ChatMessage>
  {
    ContextMessages(SystemPrompt(env.prompts, ModeName(mode), env.date), ContextLogs(file, sessionId, env.logReadable), userInput)
  }

  /**
   * The query `\[SEARCH\]\s*(.+)` captures when the marker ends at `j`,
   * stripped. `\s*` first takes the whole whitespace run; when text follows
   * it, `.+` takes the rest of that line. When the run reaches the end of
   * the text, backtracking lets `.+` take the run's last character that is
   * not a line break, which strips to "". A run of line breaks only does
   * not match.
   */
  function QueryAfter(s: string, j: nat): (q: Option<string>)
    requires j <= |s|
    ensures q.Some? ==> '\n' !in q.value
    ensures q.Some? && q.value != [] ==> !IsPySpace(q.value[0]) && !IsPySpace(q.value[|q.value| - 1])
  {
    var body := TrimStart(s[j..], IsPySpace);
    if body != [] then Some(StripPy(FirstField(body, '\n')))
    else if exists k :: j <= k < |s| && s[k] != '\n' then Some("")
    else None
  }

  /** `re.search` from index `i`: the first marker position at which the whole pattern matches. */
  function SearchFrom(s: string, i: nat): (q: Option<string>)
    ensures q.Some? ==> '\n' !in q.value
    decreases |s| - i
  {
    if i + |SearchMarker| > |s| then None
    else if OccursAt(s, SearchMarker, i) && QueryAfter(s, i + |SearchMarker|).Some? then
      QueryAfter(s, i + |SearchMarker|)
    else SearchFrom(s, i + 1)
  }

  /** The search query a generation asks for, if it asks for one. */
  function SearchQuery(text: string): (q: Option<string>)
    ensures q.Some? ==> '\n' !in q.value
  {
    SearchFrom(text, 0)
  }

  /** A search is only ever asked for where the marker occurs. */
  lemma SearchQueryNeedsMarker(text: string)
    ensures SearchQuery(text).Some? ==> Contains(text, SearchMarker)
  {
    if SearchQuery(text).Some? {
      var k := SearchFromMarker(text, 0);
    }
  }

  lemma {:induction false} SearchFromMarker(s: string, i: nat) returns (k: nat)
    requires SearchFrom(s, i).Some?
    ensures i <= k && OccursAt(s, SearchMarker, k)
    decreases |s| - i
  {
    if OccursAt(s, SearchMarker, i) && QueryAfter(s, i + |SearchMarker|).Some? {
      k := i;
    } else {
      k := SearchFromMarker(s, i + 1);
    }
  }

  const SearchingHead: string := "\n\n[SYSTEM: Searching web for '"
  const SearchingTail: string := "'...]\n\n"
  const FailedHead: string := "\n[SYSTEM: Search failed: "
  const FailedTail: string := "]\n"
  const ResultsHead: string := "\n[SEARCH_RESULTS]\n"
  const Instruction: string := "\n[INSTRUCTION]\nUse these results to refine the text. Do not ask questions."

  function SearchingNotice(query: string): string
  {
    SearchingHead + query + SearchingTail
  }

  function FailedNotice(error: string): string
  {
    FailedHead + error + FailedTail
  }

  function SearchContext(results: string): string
  {
    ResultsHead + results + Instruction
  }

  /**
   * What the hop loop produces: the contents of its chunk events, the full
   * text of each generation, the text kept for the ethics check and the
   * log, and whether the loop ran out of hops (every hop's search succeeded).
   */
  datatype HopsOutcome = HopsOutcome(chunks: seq<string>, texts: seq<string>, logged: string, exhausted: bool)

  /** The hop loop with `remaining` generations left, starting from `messages`. */
  function Hops(remaining: nat, messages: seq<ChatMessage>, llm: seq<ChatMessage> -> seq<string>,
                search: string -> Result<string, string>): (r: HopsOutcome)
    ensures |r.texts| <= remaining
    ensures remaining > 0 ==> |r.texts| >= 1 && r.texts[0] == Concat(llm(messages))
    ensures remaining > 0 ==> |llm(messages)| <= |r.chunks| && r.chunks[..|llm(messages)|] == llm(messages)
    ensures r.exhausted ==> r.logged == "" && |r.texts| == remaining
    ensures !r.exhausted ==> |r.texts| > 0 && r.logged == r.texts[|r.texts| - 1]
    decreases remaining
  {
    if remaining == 0 then HopsOutcome([], [], "", true)
    else
      var parts := llm(messages);
      var text := Concat(parts);
      match SearchQuery(text)
      case None => HopsOutcome(parts, [text], text, false)
      case Some(q) =>
        match search(q)
        case Failure(e) =>
          var chunks := parts + [SearchingNotice(q), FailedNotice(e)];
          assert chunks[..|parts|] == parts;
          HopsOutcome(chunks, [text], text, false)
        case Success(found) =>
          var next := Hops(remaining - 1,
                           messages + [ChatMessage(AssistantRole, text), ChatMessage(UserRole, SearchContext(found))],
                           llm, search);
          var chunks := parts + [SearchingNotice(q)] + next.chunks;
          assert chunks[..|parts|] == parts;
          HopsOutcome(chunks, [text] + next.texts, next.logged, next.exhausted)
  }

  /** The outcome of earlier hops followed by the rest of the loop. */
  function Prepend(chunks: seq<string>, texts: seq<string>, rest: HopsOutcome): HopsOutcome
  {
    HopsOutcome(chunks + rest.chunks, texts + rest.texts, rest.logged, rest.exhausted)
  }

  function ChunkEvents(contents: seq<string>): (r: seq<Event>)
    ensures |r| == |contents| && forall k :: 0 <= k < |r| ==> r[k] == Chunk(contents[k])
  {
    seq(|contents|, k requires 0 <= k < |contents| => Chunk(contents[k]))
  }

  /** The events of a response: the mode, the hop loop's chunks, and the warning when the kept text fails validation. */
  function ResponseEvents(mode: Mode, out: HopsOutcome): seq<Event>
  {
    [Meta(Some(mode))] + ChunkEvents(out.chunks) + WarningEvents(out.logged)
  }

  /** The closing warning, present exactly when the kept text fails validation. */
  function WarningEvents(logged: string): seq<Event>
  {
    if Validate(logged) then [] else [Chunk(WarningText)]
  }

  function Lines(events: seq<Event>): (r: seq<string>)
    ensures |r| == |events| && forall k :: 0 <= k < |r| ==> r[k] == EncodeLine(events[k])
  {
    seq(|events|, k requires 0 <= k < |events| => EncodeLine(events[k]))
  }

  /** The log after a request: one entry with the kept text when there is a session id. */
  function LoggedFile(file: LogFile, env: Env, sessionId: string, userInput: string, mode: Mode, logged: string): LogFile
  {
    if sessionId == "" then file
    else Appended(file, NewEntry(env.entryId, env.clock, sessionId, userInput, logged, ModeName(mode), DefaultModel, None), env.logWritable)
  }

  /** Without a session id the log is neither read nor written: the context is the system prompt and the input. */
  lemma NoSessionNoLog(file: LogFile, env: Env, userInput: string, mode: Mode, logged: string)
    ensures LoggedFile(file, env, "", userInput, mode, logged) == file
    ensures RequestContext(env, mode, file, "", userInput)
         == [ChatMessage(SystemRole, SystemPrompt(env.prompts, ModeName(mode), env.date)), ChatMessage(UserRole, userInput)]
  {
    var ctx := RequestContext(env, mode, file, "", userInput);
    assert |ctx| == 2;
  }

  /**
   * A request that is logged is remembered: the next request of the same
   * session, whatever its mode and input, sees this request's input and
   * kept text as the last pair before its own input.
   */
  lemma NextRequestSeesThisOne(file: LogFile, env: Env, next: Env, sessionId: string, userInput: string, mode: Mode,
                               logged: string, nextMode: Mode, nextInput: string)
    requires sessionId != "" && env.logWritable && next.logReadable
    requires file.Present? ==> !HasNonObject(file.lines)
    ensures var ctx := RequestContext(next, nextMode, LoggedFile(file, env, sessionId, userInput, mode, logged), sessionId, nextInput);
      && |ctx| >= 4
      && ctx[|ctx| - 3] == ChatMessage(UserRole, userInput)
      && ctx[|ctx| - 2] == ChatMessage(AssistantRole, logged)
      && ctx[|ctx| - 1] == ChatMessage(UserRole, nextInput)
  {
    var after := LoggedFile(file, env, sessionId, userInput, mode, logged);
    LoggedIsLast(file, env, next.logReadable, sessionId, userInput, mode, logged);
    RequestContextTail(next, nextMode, after, sessionId, nextInput);
  }

  /** A request whose session has logged interactions ends with the last of them, then its input. */
  lemma RequestContextTail(env: Env, mode: Mode, file: LogFile, sessionId: string, userInput: string)
    requires ContextLogs(file, sessionId, env.logReadable) != []
    ensures var logs := ContextLogs(file, sessionId, env.logReadable);
      var ctx := RequestContext(env, mode, file, sessionId, userInput);
      && |ctx| >= 4
      && ctx[|ctx| - 3] == ChatMessage(UserRole, logs[|logs| - 1].userInput)
      && ctx[|ctx| - 2] == ChatMessage(AssistantRole, logs[|logs| - 1].aiOutput)
      && ctx[|ctx| - 1] == ChatMessage(UserRole, userInput)
  {
    ContextEndsWithLast(SystemPrompt(env.prompts, ModeName(mode), env.date), ContextLogs(file, sessionId, env.logReadable), userInput);
  }

  /** The logged interactions the next request of the session sees end with this request's. */
  lemma LoggedIsLast(file: LogFile, env: Env, readOk: bool, sessionId: string, userInput: string, mode: Mode, logged: string)
    requires sessionId != "" && env.logWritable && readOk
    requires file.Present? ==> !HasNonObject(file.lines)
    ensures var logs := ContextLogs(LoggedFile(file, env, sessionId, userInput, mode, logged), sessionId, readOk);
      logs != [] && logs[|logs| - 1].userInput == userInput && logs[|logs| - 1].aiOutput == logged
  {
    var entry := NewEntry(env.entryId, env.clock, sessionId, userInput, logged, ModeName(mode), DefaultModel, None);
    var after := LoggedFile(file, env, sessionId, userInput, mode, logged);
    assert after == Appended(file, entry, true);
    LogThenQuery(file, entry, ContextLimit);
  }

  /** The last logged pair sits just before the new input. */
  lemma ContextEndsWithLast(systemPrompt: string, logs: seq<LogEntry>, userInput: string)
    requires logs != []
    ensures var ctx := ContextMessages(systemPrompt, logs, userInput);
      && |ctx| >= 4
      && ctx[|ctx| - 3] == ChatMessage(UserRole, logs[|logs| - 1].userInput)
      && ctx[|ctx| - 2] == ChatMessage(AssistantRole, logs[|logs| - 1].aiOutput)
      && ctx[|ctx| - 1] == ChatMessage(UserRole, userInput)
  {
    var ctx := ContextMessages(systemPrompt, logs, userInput);
    assert ctx[2 * (|logs| - 1) + 1] == ChatMessage(UserRole, logs[|logs| - 1].userInput);
  }

  /** The model is asked at most twice, at least once. */
  lemma HopsAtMostTwice(messages: seq<ChatMessage>, llm: seq<ChatMessage> -> seq<string>, search: string -> Result<string, string>)
    ensures 1 <= |Hops(MaxHops, messages, llm, search).texts| <= 2
  {
  }

  /** A generation without a search request ends the loop: its chunks are the whole output and its text is kept. */
  lemma NoSearchSingleHop(remaining: nat, messages: seq<ChatMessage>, llm: seq<ChatMessage> -> seq<string>,
                          search: string -> Result<string, string>)
    requires remaining > 0
    requires !Contains(Concat(llm(messages)), SearchMarker)
    ensures var r := Hops(remaining, messages, llm, search);
      r.chunks == llm(messages) && r.texts == [Concat(llm(messages))] && r.logged == Concat(llm(messages))
  {
    SearchQueryNeedsMarker(Concat(llm(messages)));
    HopEndsQuietly(remaining, messages, llm, search);
  }

  /** A failed search ends the loop after the two notices, keeping the generation's text. */
  lemma FailedSearchStops(remaining: nat, messages: seq<ChatMessage>, llm: seq<ChatMessage> -> seq<string>,
                          search: string -> Result<string, string>)
    requires remaining > 0
    requires SearchQuery(Concat(llm(messages))).Some?
    requires search(SearchQuery(Concat(llm(messages))).value).Failure?
    ensures var r := Hops(remaining, messages, llm, search);
      var q := SearchQuery(Concat(llm(messages))).value;
      && r.chunks == llm(messages) + [SearchingNotice(q), FailedNotice(search(q).error)]
      && |r.texts| == 1 && r.logged == Concat(llm(messages))
  {
  }

  /**
   * A successful first search makes a second generation, asked with the
   * first text and the search context appended. The stream is the first
   * generation, the searching notice, then the second generation's output.
   * The kept text is the second generation's text. The only exception is a
   * second successful search, which runs out of hops and keeps "".
   */
  lemma SecondHop(messages: seq<ChatMessage>, llm: seq<ChatMessage> -> seq<string>,
                  search: string -> Result<string, string>, q: string)
    requires SearchQuery(Concat(llm(messages))) == Some(q) && search(q).Success?
    ensures var second := messages + [ChatMessage(AssistantRole, Concat(llm(messages))),
                                      ChatMessage(UserRole, SearchContext(search(q).value))];
      var r := Hops(MaxHops, messages, llm, search);
      var q2 := SearchQuery(Concat(llm(second)));
      && r.texts == [Concat(llm(messages)), Concat(llm(second))]
      && llm(messages) + [SearchingNotice(q)] + llm(second) <= r.chunks
      && (r.exhausted <==> q2.Some? && search(q2.value).Success?)
      && (r.exhausted ==> r.logged == "")
      && (!r.exhausted ==> r.logged == Concat(llm(second)))
  {
    var second := messages + [ChatMessage(AssistantRole, Concat(llm(messages))),
                              ChatMessage(UserRole, SearchContext(search(q).value))];
    HopSearchSucceeds(MaxHops, messages, llm, search, q);
    var next := Hops(1, second, llm, search);
    assert |next.texts| == 1;
    var head := llm(messages) + [SearchingNotice(q)];
    assert (head + next.chunks)[..|head| + |llm(second)|] == head + llm(second);
  }

  /** After a successful search on the last hop nothing is kept, so the log gets "" and no warning is possible. */
  lemma LastHopSearchKeepsNothing(messages: seq<ChatMessage>, llm: seq<ChatMessage> -> seq<string>,
                                  search: string -> Result<string, string>)
    requires SearchQuery(Concat(llm(messages))).Some?
    requires search(SearchQuery(Concat(llm(messages))).value).Success?
    ensures Hops(1, messages, llm, search).logged == ""
    ensures Validate(Hops(1, messages, llm, search).logged)
  {
    assert !Contains(Lower(""), ForbiddenTerms[0]);
    assert !Contains(Lower(""), ForbiddenTerms[1]);
    assert !Contains(Lower(""), ForbiddenTerms[2]);
  }

  /** Skipping positions where the marker does not start. */
  lemma {:induction false} SearchFromSkips(s: string, i: nat, p: nat)
    requires i <= p
    requires forall k :: i <= k < p ==> !OccursAt(s, SearchMarker, k)
    ensures SearchFrom(s, i) == SearchFrom(s, p) || p + |SearchMarker| > |s|
    decreases p - i
  {
    if i < p && i + |SearchMarker| <= |s| {
      SearchFromSkips(s, i + 1, p);
    }
  }

  lemma {:induction false} TrimStartSpaces(gap: string, rest: string)
    requires AllSatisfy(gap, IsPySpace)
    requires rest != [] && !IsPySpace(rest[0])
    ensures TrimStart(gap + rest, IsPySpace) == rest
    decreases |gap|
  {
    if gap == [] {
      assert gap + rest == rest;
    } else {
      assert (gap + rest)[1..] == gap[1..] + rest;
      TrimStartSpaces(gap[1..], rest);
    }
  }

  lemma FirstFieldOfLine(q: string, tail: string)
    requires '\n' !in q
    requires tail == [] || tail[0] == '\n'
    ensures FirstField(q + tail, '\n') == q
  {
    var s := q + tail;
    var r := FirstField(s, '\n');
    assert forall i :: 0 <= i < |r| ==> s[i] == r[i];
    assert forall i :: 0 <= i < |q| ==> s[i] == q[i];
    assert |q| < |s| ==> s[|q|] == '\n';
    assert |r| == |q|;
    assert r == s[..|r|] == q;
  }

  /** After the marker: whitespace, then a stripped one-line query, then a line break or the end. */
  lemma QueryAfterLine(s: string, j: nat, gap: string, q: string, tail: string)
    requires j <= |s| && s[j..] == gap + q + tail
    requires AllSatisfy(gap, IsPySpace)
    requires q != [] && '\n' !in q && !IsPySpace(q[0]) && !IsPySpace(q[|q| - 1])
    requires tail == [] || tail[0] == '\n'
    ensures QueryAfter(s, j) == Some(q)
  {
    assert gap + q + tail == gap + (q + tail);
    TrimStartSpaces(gap, q + tail);
    FirstFieldOfLine(q, tail);
    TrimKeeps(q, IsPySpace);
  }

  /**
   * A generation that writes the marker, whitespace, a stripped one-line
   * query and then a line break or the end asks for exactly that query,
   * provided no occurrence of the marker starts inside `pre` (re.search
   * answers the leftmost one).
   */
  lemma SearchQueryFinds(pre: string, gap: string, q: string, tail: string)
    requires forall k :: 0 <= k < |pre| ==> !OccursAt(pre + SearchMarker + gap + q + tail, SearchMarker, k)
    requires AllSatisfy(gap, IsPySpace)
    requires q != [] && '\n' !in q && !IsPySpace(q[0]) && !IsPySpace(q[|q| - 1])
    requires tail == [] || tail[0] == '\n'
    ensures SearchQuery(pre + SearchMarker + gap + q + tail) == Some(q)
  {
    var after := gap + q + tail;
    var s := pre + (SearchMarker + after);
    assert pre + SearchMarker + gap + q + tail == s;
    var p := |pre|;
    assert s[p..p + |SearchMarker|] == SearchMarker;
    assert s[p + |SearchMarker|..] == after;
    QueryAfterLine(s, p + |SearchMarker|, gap, q, tail);
    SearchFromHit(s, p, q);
    SearchFromSkips(s, 0, p);
  }

  lemma SearchFromHit(s: string, p: nat, q: string)
    requires OccursAt(s, SearchMarker, p)
    requires QueryAfter(s, p + |SearchMarker|) == Some(q)
    ensures SearchFrom(s, p) == Some(q)
  {
  }

  /** The response starts with the meta event, then carries the hop loop's chunks in order, and nothing but chunks follows the meta event. */
  lemma ResponseShape(mode: Mode, out: HopsOutcome)
    ensures var ev := ResponseEvents(mode, out);
      && ev[0] == Meta(Some(mode))
      && (forall k :: 1 <= k < |ev| ==> ev[k].Chunk?)
      && (forall k :: 0 <= k < |out.chunks| ==> ev[k + 1] == Chunk(out.chunks[k]))
  {
    var tail := WarningEvents(out.logged);
    assert forall k :: 0 <= k < |tail| ==> tail[k].Chunk?;
    HeadThenChunks(Meta(Some(mode)), out.chunks, tail);
  }

  /** One event, then the chunk events of `contents`, then more chunk events. */
  lemma HeadThenChunks(head: Event, contents: seq<string>, tail: seq<Event>)
    requires forall k :: 0 <= k < |tail| ==> tail[k].Chunk?
    ensures var ev := [head] + ChunkEvents(contents) + tail;
      && ev[0] == head
      && (forall k :: 1 <= k < |ev| ==> ev[k].Chunk?)
      && (forall k :: 0 <= k < |contents| ==> ev[k + 1] == Chunk(contents[k]))
  {
    var ev := [head] + ChunkEvents(contents) + tail;
    forall k | 1 <= k < |ev| ensures ev[k].Chunk? {
      if k <= |contents| {
        assert ev[k] == ChunkEvents(contents)[k - 1];
      } else {
        assert ev[k] == tail[k - 1 - |contents|];
      }
    }
  }

  /** One event more than the chunks exactly when the kept text fails validation, and that event is the warning. */
  lemma ResponseWarning(mode: Mode, out: HopsOutcome)
    ensures var ev := ResponseEvents(mode, out);
      && |ev| == 1 + |out.chunks| + (if Validate(out.logged) then 0 else 1)
      && (!Validate(out.logged) ==> ev[|ev| - 1] == Chunk(WarningText))
  {
  }

  /** Every line of a response is one JSON object with no line break inside, then "\n", and decodes to its event. */
  lemma ResponseLinesDecode(events: seq<Event>)
    ensures var lines := Lines(events);
      forall k :: 0 <= k < |lines| ==>
        && lines[k] == Encode(events[k]) + "\n"
        && '\n' !in Encode(events[k])
        && Decode(Encode(events[k])) == Some(events[k])
  {
    forall k | 0 <= k < |events|
      ensures '\n' !in Encode(events[k]) && Decode(Encode(events[k])) == Some(events[k])
    {
      EncodeHasNoLineBreak(events[k]);
      DecodeEncode(events[k]);
    }
  }

  /** handle_request's context loop: the system prompt, one pair per log entry, the new input. */
  method BuildContext(systemPrompt: string, logs: seq<LogEntry>, userInput: string) returns (messages: seq<ChatMessage>)
    ensures messages == ContextMessages(systemPrompt, logs, userInput)
  {
    messages := [ChatMessage(SystemRole, systemPrompt)];
    for i := 0 to |logs|
      invariant messages == [ChatMessage(SystemRole, systemPrompt)] + LogPairs(logs[..i])
    {
      assert logs[..i + 1][..i] == logs[..i];
      messages := messages + [ChatMessage(UserRole, logs[i].userInput)];
      messages := messages + [ChatMessage(AssistantRole, logs[i].aiOutput)];
    }
    assert logs[..|logs|] == logs;
    messages := messages + [ChatMessage(UserRole, userInput)];
  }

  lemma LinesAppend(a: seq<Event>, b: seq<Event>)
    ensures Lines(a + b) == Lines(a) + Lines(b)
  {
    var l, r := Lines(a + b), Lines(a) + Lines(b);
    forall k | 0 <= k < |l| ensures l[k] == r[k] {
      if k < |a| {
        assert (a + b)[k] == a[k];
      } else {
        assert (a + b)[k] == b[k - |a|];
      }
    }
  }

  lemma ChunkLinesAppend(a: seq<string>, b: seq<string>)
    ensures Lines(ChunkEvents(a + b)) == Lines(ChunkEvents(a)) + Lines(ChunkEvents(b))
  {
    assert ChunkEvents(a + b) == ChunkEvents(a) + ChunkEvents(b);
    LinesAppend(ChunkEvents(a), ChunkEvents(b));
  }

  lemma OneChunkLine(c: string)
    ensures Lines(ChunkEvents([c])) == [EncodeLine(Chunk(c))]
  {
  }

  /** The lines of the chunks emitted so far, extended by one more chunk. */
  lemma ChunkLinesSnoc(lines: seq<string>, a: seq<string>, c: string)
    ensures lines + Lines(ChunkEvents(a)) + [EncodeLine(Chunk(c))] == lines + Lines(ChunkEvents(a + [c]))
  {
    ChunkLinesAppend(a, [c]);
    OneChunkLine(c);
  }

  lemma SeqAssoc<T>(a: seq<T>, b: seq<T>, c: seq<T>)
    ensures a + (b + c) == a + b + c
  {
  }

  /** The three ways a hop with generations left can go. */
  lemma HopEndsQuietly(remaining: nat, messages: seq<ChatMessage>, llm: seq<ChatMessage> -> seq<string>,
                       search: string -> Result<string, string>)
    requires remaining > 0 && SearchQuery(Concat(llm(messages))).None?
    ensures Hops(remaining, messages, llm, search)
         == HopsOutcome(llm(messages), [Concat(llm(messages))], Concat(llm(messages)), false)
  {
  }

  lemma HopSearchFails(remaining: nat, messages: seq<ChatMessage>, llm: seq<ChatMessage> -> seq<string>,
                       search: string -> Result<string, string>, q: string)
    requires remaining > 0 && SearchQuery(Concat(llm(messages))) == Some(q) && search(q).Failure?
    ensures Hops(remaining, messages, llm, search)
         == HopsOutcome(llm(messages) + [SearchingNotice(q), FailedNotice(search(q).error)],
                        [Concat(llm(messages))], Concat(llm(messages)), false)
  {
  }

  lemma HopSearchSucceeds(remaining: nat, messages: seq<ChatMessage>, llm: seq<ChatMessage> -> seq<string>,
                          search: string -> Result<string, string>, q: string)
    requires remaining > 0 && SearchQuery(Concat(llm(messages))) == Some(q) && search(q).Success?
    ensures Hops(remaining, messages, llm, search)
         == Prepend(llm(messages) + [SearchingNotice(q)], [Concat(llm(messages))],
                    Hops(remaining - 1, messages + [ChatMessage(AssistantRole, Concat(llm(messages))),
                                                    ChatMessage(UserRole, SearchContext(search(q).value))], llm, search))
  {
  }

  /** One generation of the hop loop: the chunks are emitted as they arrive and accumulated. */
  method Generate(messages: seq<ChatMessage>, llm: seq<ChatMessage> -> seq<string>, lines: seq<string>)
    returns (full: string, logged: string, linesOut: seq<string>)
    ensures full == Concat(llm(messages)) && logged == full
    ensures linesOut == lines + Lines(ChunkEvents(llm(messages)))
  {
    var parts := llm(messages);
    full, logged, linesOut := "", "", lines;
    for j := 0 to |parts|
      invariant full == Concat(parts[..j]) && logged == full
      invariant linesOut == lines + Lines(ChunkEvents(parts[..j]))
    {
      GenerateStep(lines, parts, j);
      full := full + parts[j];
      logged := logged + parts[j];
      linesOut := linesOut + Lines(ChunkEvents([parts[j]]));
    }
    assert parts[..|parts|] == parts;
  }

  /** One more piece of a generation: its text and its chunk line follow the earlier ones. */
  lemma GenerateStep(lines: seq<string>, parts: seq<string>, j: nat)
    requires j < |parts|
    ensures Concat(parts[..j + 1]) == Concat(parts[..j]) + parts[j]
    ensures lines + Lines(ChunkEvents(parts[..j])) + Lines(ChunkEvents([parts[j]])) == lines + Lines(ChunkEvents(parts[..j + 1]))
  {
    assert parts[..j + 1][..j] == parts[..j];
    assert parts[..j] + [parts[j]] == parts[..j + 1];
    ChunkLinesAppend(parts[..j], [parts[j]]);
  }

  /**
   * One pass of the hop loop's body: a generation, then the search logic.
   * `stop` tells whether the loop breaks; otherwise the search results are
   * appended to the messages for the next generation and nothing is kept.
   */
  method Hop(remaining: nat, messages: seq<ChatMessage>, llm: seq<ChatMessage> -> seq<string>,
             search: string -> Result<string, string>, lines: seq<string>)
    returns (linesOut: seq<string>, logged: string, stop: bool, nextMessages: seq<ChatMessage>, ghost emitted: seq<string>)
    requires remaining > 0
    ensures var h := Hops(remaining, messages, llm, search);
      stop ==> linesOut == lines + Lines(ChunkEvents(h.chunks)) && logged == h.logged
    ensures var h := Hops(remaining, messages, llm, search);
      var next := Hops(remaining - 1, nextMessages, llm, search);
      !stop ==> && logged == ""
                && h.chunks == emitted + next.chunks && h.logged == next.logged
                && linesOut == lines + Lines(ChunkEvents(emitted))
  {
    ghost var parts := llm(messages);
    var full;
    full, logged, linesOut := Generate(messages, llm, lines);
    nextMessages := messages;
    var query := SearchQuery(full);
    if query.None? {
      HopEndsQuietly(remaining, messages, llm, search);
      emitted, stop := parts, true;
      return;
    }
    var notice := SearchingNotice(query.value);
    ChunkLinesSnoc(lines, parts, notice);
    linesOut := linesOut + [EncodeLine(Chunk(notice))];
    var found := search(query.value);
    if found.Failure? {
      var failure := FailedNotice(found.error);
      ChunkLinesSnoc(lines, parts + [notice], failure);
      linesOut := linesOut + [EncodeLine(Chunk(failure))];
      HopSearchFails(remaining, messages, llm, search, query.value);
      assert parts + [notice] + [failure] == parts + [notice, failure];
      emitted, stop := parts + [notice, failure], true;
      return;
    }
    HopSearchSucceeds(remaining, messages, llm, search, query.value);
    nextMessages := messages + [ChatMessage(AssistantRole, full), ChatMessage(UserRole, SearchContext(found.value))];
    logged := "";
    emitted, stop := parts + [notice], false;
  }

  /** The hop loop of stream_generator: at most MaxHops generations, each followed by the search logic. */
  method RunHops(context: seq<ChatMessage>, llm: seq<ChatMessage> -> seq<string>, search: string -> Result<string, string>,
                 lines: seq<string>)
    returns (linesOut: seq<string>, logged: string)
    ensures linesOut == lines + Lines(ChunkEvents(Hops(MaxHops, context, llm, search).chunks))
    ensures logged == Hops(MaxHops, context, llm, search).logged
  {
    ghost var whole := Hops(MaxHops, context, llm, search);
    linesOut := lines;
    var messages := context;
    logged := "";
    ghost var chunks: seq<string> := [];
    var hop := 0;
    while hop < MaxHops
      invariant 0 <= hop <= MaxHops
      invariant whole.chunks == chunks + Hops(MaxHops - hop, messages, llm, search).chunks
      invariant whole.logged == Hops(MaxHops - hop, messages, llm, search).logged
      invariant linesOut == lines + Lines(ChunkEvents(chunks))
      invariant logged == ""
    {
      ghost var rest := Hops(MaxHops - hop, messages, llm, search);
      var stop, nextMessages;
      ghost var emitted;
      linesOut, logged, stop, nextMessages, emitted := Hop(MaxHops - hop, messages, llm, search, linesOut);
      if stop {
        ChunkLinesAppend(chunks, rest.chunks);
        SeqAssoc(lines, Lines(ChunkEvents(chunks)), Lines(ChunkEvents(rest.chunks)));
        chunks := chunks + rest.chunks;
        break;
      }
      ChunkLinesAppend(chunks, emitted);
      SeqAssoc(lines, Lines(ChunkEvents(chunks)), Lines(ChunkEvents(emitted)));
      ghost var next := Hops(MaxHops - hop - 1, nextMessages, llm, search);
      SeqAssoc(chunks, emitted, next.chunks);
      chunks := chunks + emitted;
      messages := nextMessages;
      hop := hop + 1;
    }
  }

  lemma ResponseLinesSplit(mode: Mode, out: HopsOutcome)
    ensures Lines(ResponseEvents(mode, out))
         == [EncodeLine(Meta(Some(mode)))] + Lines(ChunkEvents(out.chunks)) + Lines(WarningEvents(out.logged))
  {
    LinesAppend3([Meta(Some(mode))], ChunkEvents(out.chunks), WarningEvents(out.logged));
    OneEventLine(Meta(Some(mode)));
  }

  lemma LinesAppend3(a: seq<Event>, b: seq<Event>, c: seq<Event>)
    ensures Lines(a + b + c) == Lines(a) + Lines(b) + Lines(c)
  {
    LinesAppend(a, b);
    LinesAppend(a + b, c);
  }

  lemma OneEventLine(e: Event)
    ensures Lines([e]) == [EncodeLine(e)]
  {
  }

  /** The ethics check after the hop loop. */
  method EthicsWarning(lines: seq<string>, logged: string) returns (linesOut: seq<string>)
    ensures linesOut == lines + Lines(WarningEvents(logged))
  {
    linesOut := lines;
    if !Validate(logged) {
      linesOut := linesOut + Lines([Chunk(WarningText)]);
    }
  }

  /** stream_generator: the meta line, the hop loop, the warning, then the log entry when there is a session id. */
  method StreamGenerator(mode: Mode, context: seq<ChatMessage>, sessionId: string, userInput: string, logger: Logger, env: Env)
    returns (lines: seq<string>)
    modifies logger
    ensures var out := Hops(MaxHops, context, env.llm, env.search);
      && lines == Lines(ResponseEvents(mode, out))
      && logger.file == LoggedFile(old(logger.file), env, sessionId, userInput, mode, out.logged)
  {
    ghost var out := Hops(MaxHops, context, env.llm, env.search);
    var logged;
    lines, logged := RunHops(context, env.llm, env.search, [EncodeLine(Meta(Some(mode)))]);
    lines := EthicsWarning(lines, logged);
    ResponseLinesSplit(mode, out);
    if sessionId != "" {
      logger.LogEntry(env.entryId, env.clock, sessionId, userInput, logged, ModeName(mode), DefaultModel, None, env.logWritable);
    }
  }

  /** AmanRouter: the mode of the latest request. */
  class AmanRouter {
    var currentMode: Mode

    constructor ()
      ensures currentMode == Align
    {
      currentMode := Align;
    }

    /**
     * handle_request followed by a full run of its generator. The client's
     * `history` and `model` are accepted and not used.
     */
    method HandleRequest(command: string, userInput: string, sessionId: string, history: seq<ChatMessage>, model: string,
                         logger: Logger, env: Env)
      returns (lines: seq<string>)
      modifies this, logger
      ensures currentMode == CommandToMode(command)
      ensures var out := Hops(MaxHops, RequestContext(env, currentMode, old(logger.file), sessionId, userInput), env.llm, env.search);
        && lines == Lines(ResponseEvents(currentMode, out))
        && logger.file == LoggedFile(old(logger.file), env, sessionId, userInput, currentMode, out.logged)
    {
      if command == "/align" {
        currentMode := Align;
      } else if command == "/model" {
        currentMode := Model;
      } else {
        currentMode := Align;
      }
      var systemPrompt := SystemPrompt(env.prompts, ModeName(currentMode), env.date);
      var logs: seq<LogEntry> := [];
      if sessionId != "" {
        logs := logger.GetRecentContext(sessionId, ContextLimit, env.logReadable);
      }
      var context := BuildContext(systemPrompt, logs, userInput);
      assert logs == ContextLogs(logger.file, sessionId, env.logReadable);
      assert context == RequestContext(env, currentMode, logger.file, sessionId, userInput);
      lines := StreamGenerator(currentMode, context, sessionId, userInput, logger, env);
    }
  }
}
