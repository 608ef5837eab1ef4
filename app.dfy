/**
 * The client's state and handlers (frontend/src/App.tsx): the session
 * list, the current-session id, the loading flag, the live abort
 * controller, and what the browser store holds. Each handler runs to the
 * end before the next starts; a React state update is applied where the
 * handler issues it, and the effect that writes a non-empty session list
 * back to the store runs after it.
 *
 * The network is a Reply value: fetch rejects, or the response has a
 * status, maybe a body, the reads it delivers, and how reading ended.
 * Date.now readings and fresh ids are parameters.
 */
module App {
  import opened Types
  import opened Text
  import opened Wire
  import opened Stream
  import opened Sessions

  /** What `localStorage.getItem('aman_sessions')` yields once parsed. */
  datatype StoredSessions =
    | Missing                  // null or the empty string
    | Unparseable              // JSON.parse or `.length` throws
    | Saved(list: seq<Session>)

  /** Why a request ended early: the user's abort, or an error whose String() is `text`. */
  datatype Failure = Aborted | Thrown(text: string)

  datatype Reply =
    | Rejected(failure: Failure)
    | Answered(ok: bool, hasBody: bool, chunks: seq<string>, end: Option<Failure>)

  /** The Date.now readings of one request: user message, session activity, reply message, error message. */
  datatype Clock = Clock(sent: int, activity: int, bot: int, failed: int)

  datatype HistoryItem = HistoryItem(role: Role, content: string)

  /** The body of the POST to /api/command. */
  datatype Request = Request(command: string, userInput: string, sessionId: string, history: seq<HistoryItem>, model: string)

  datatype Input = NewSessionCommand | ListSessionsCommand | Remote

  const DefaultModel: string := "llama3"
  const NewSessionText: string := "/new-session"
  const ListSessionsText: string := "/list-sessions"
  const ListReplyText: string := "Check the sidebar for the list of active sessions."

  /** The prefix String() gives an Error, and the one the catch block writes before it. */
  const ErrorPrefix: string := "Error: "

  /** String(new Error("Connection failed")) and String(new Error("No response body")). */
  const ConnectionFailed: string := ErrorPrefix + "Connection failed"
  const NoResponseBody: string := ErrorPrefix + "No response body"

  /** The two commands the client answers itself, recognised on the trimmed input. */
  function Classify(input: string): (c: Input)
    ensures c == NewSessionCommand <==> TrimJs(input) == NewSessionText
    ensures c == ListSessionsCommand <==> TrimJs(input) == ListSessionsText
  {
    if TrimJs(input) == NewSessionText then NewSessionCommand
    else if TrimJs(input) == ListSessionsText then ListSessionsCommand
    else Remote
  }

  /**
   * The command a request names: the text before the first space of a
   * slash-led input, otherwise the lower-cased name of the session's mode.
   */
  function DeriveCommand(input: string, mode: Mode): (command: string)
    ensures |command| > 0 && command[0] == '/' && ' ' !in command
    ensures StartsWith(input, "/") ==> StartsWith(input, command) && (|command| == |input| || input[|command|] == ' ')
    ensures !StartsWith(input, "/") ==> command == "/" + Lower(ModeName(mode))
  {
    if !StartsWith(input, "/") then "/" + Lower(ModeName(mode))
    else
      var c := FirstField(input, ' ');
      assert input[..1] == "/";
      assert input[0] == '/' && input[0] != ' ';
      assert c[0] == input[0];
      c
  }

  /** `messages.map(m => ({ role: m.role, content: m.content }))`. */
  function History(messages: seq<Message>): (h: seq<HistoryItem>)
    ensures |h| == |messages|
    ensures forall k :: 0 <= k < |h| ==> h[k].role == messages[k].role && h[k].content == messages[k].content
  {
    seq(|messages|, k requires 0 <= k < |messages| => HistoryItem(messages[k].role, messages[k].content))
  }

  /** `currentSession?.mode || 'ALIGN'`. */
  function ModeOf(sessions: seq<Session>, id: string): Mode
  {
    match Find(sessions, id)
    case Some(s) => s.mode
    case None => Align
  }

  /** `currentSession?.messages || []`. */
  function MessagesOf(sessions: seq<Session>, id: string): seq<Message>
  {
    match Find(sessions, id)
    case Some(s) => s.messages
    case None => []
  }

  function UserMessage(input: string, now: int): Message
  {
    Message(User, input, None, now)
  }

  function BotMessage(mode: Mode, now: int): Message
  {
    Message(Assistant, "", Some(mode), now)
  }

  function ErrorMessage(text: string, now: int): Message
  {
    Message(Assistant, ErrorPrefix + text, None, now)
  }

  /** The catch block: an abort adds nothing, any other error adds one assistant message. */
  function AfterFailure(session: Session, failure: Failure, now: int): (r: Session)
    ensures failure == Aborted ==> r == session
    ensures failure.Thrown? ==> r == WithMessage(session, ErrorMessage(failure.text, now))
  {
    match failure
    case Aborted => session
    case Thrown(text) => WithMessage(session, ErrorMessage(text, now))
  }

  /**
   * What a reply does to the session after the user's message: an error
   * before the body only adds the error message; a body adds the reply
   * message, reconciles every event decoded read by read, and an error
   * while reading adds the error message after it.
   */
  function Exchange(session: Session, mode: Mode, reply: Reply, clock: Clock): (r: Session)
    ensures r.id == session.id && r.title == session.title && r.timestamp == session.timestamp
    ensures |session.messages| <= |r.messages| <= |session.messages| + 2
    ensures r.messages[..|session.messages|] == session.messages
  {
    match reply
    case Rejected(failure) => AfterFailure(session, failure, clock.failed)
    case Answered(ok, hasBody, chunks, end) =>
      if !ok then AfterFailure(session, Thrown(ConnectionFailed), clock.failed)
      else if !hasBody then AfterFailure(session, Thrown(NoResponseBody), clock.failed)
      else
        var started := WithMessage(session, BotMessage(mode, clock.bot));
        var streamed := ApplyEvents(started, DecodeReads(chunks));
        assert streamed.messages[..|session.messages|] == session.messages by {
          ApplyEventsReply(started, DecodeReads(chunks));
          assert started.messages[..|started.messages| - 1] == session.messages;
        }
        match end
        case None => streamed
        case Some(failure) => AfterFailure(streamed, failure, clock.failed)
  }

  /** The session after a response with a body: the reply message fed by the stream, then any failure while reading. */
  lemma ExchangeStreaming(session: Session, mode: Mode, chunks: seq<string>, end: Option<Failure>, clock: Clock)
    ensures var streamed := ApplyEvents(WithMessage(session, BotMessage(mode, clock.bot)), DecodeReads(chunks));
      Exchange(session, mode, Answered(true, true, chunks, end), clock)
        == (if end.Some? then AfterFailure(streamed, end.value, clock.failed) else streamed)
  {
  }

  /** The whole effect of a remote command on its session. */
  function Conversation(session: Session, input: string, mode: Mode, reply: Reply, clock: Clock): Session
  {
    Exchange(WithUserMessage(session, UserMessage(input, clock.sent), clock.activity, input), mode, reply, clock)
  }

  /** The session list after a remote command on the session `id`. */
  function AfterCommand(sessions: seq<Session>, id: string, input: string, reply: Reply, clock: Clock): seq<Session>
  {
    var mode := ModeOf(sessions, id);
    Update(sessions, id, s => Conversation(s, input, mode, reply, clock))
  }

  /** The session list after `/list-sessions` on the session `id`. */
  function AfterList(sessions: seq<Session>, id: string, now: int): seq<Session>
  {
    Update(sessions, id, s => WithMessage(s, Message(Assistant, ListReplyText, None, now)))
  }

  /**
   * The request a remote command sends: the verb derived from the input and
   * the current session's mode (ALIGN when the id names no session), the
   * untouched input, the id, the current session's messages as role/content
   * pairs in order (none when the id names no session), and the model.
   */
  function RequestFor(sessions: seq<Session>, id: string, input: string, model: string): (r: Request)
    ensures r.sessionId == id && r.userInput == input && r.model == model
    ensures Find(sessions, id).None? ==> r.history == [] && r.command == DeriveCommand(input, Align)
    ensures Find(sessions, id).Some? ==>
              var s := Find(sessions, id).value;
              && r.command == DeriveCommand(input, s.mode)
              && |r.history| == |s.messages|
              && forall k :: 0 <= k < |r.history| ==>
                   r.history[k] == HistoryItem(s.messages[k].role, s.messages[k].content)
  {
    Request(DeriveCommand(input, ModeOf(sessions, id)), input, id, History(MessagesOf(sessions, id)), model)
  }

  /**
   * How a request can end. An abort before the response adds nothing. An
   * error before the response, a failed status or a missing body adds one
   * error message and no reply message. A body adds the reply message,
   * whose text is the concatenated chunk text of every decoded event and
   * whose mode is the last one a meta event sent; an abort while reading
   * keeps that partial reply, any other error while reading adds the
   * error message after it.
   */
  lemma ExchangeOutcome(session: Session, mode: Mode, reply: Reply, clock: Clock)
    ensures var r := Exchange(session, mode, reply, clock);
      && (reply == Rejected(Aborted) ==> r == session)
      && (reply.Rejected? && reply.failure.Thrown? ==>
            r.messages == session.messages + [ErrorMessage(reply.failure.text, clock.failed)])
      && (reply.Answered? && !reply.ok ==>
            r.messages == session.messages + [ErrorMessage(ConnectionFailed, clock.failed)])
      && (reply.Answered? && reply.ok && !reply.hasBody ==>
            r.messages == session.messages + [ErrorMessage(NoResponseBody, clock.failed)])
  {
  }

  /** The error texts the two failed checks leave: the thrown Error's own "Error: " prefix appears twice. */
  lemma ErrorTexts(now: int)
    ensures ErrorMessage(ConnectionFailed, now).content == ErrorPrefix + ErrorPrefix + "Connection failed"
    ensures ErrorMessage(NoResponseBody, now).content == ErrorPrefix + ErrorPrefix + "No response body"
  {
  }

  /** The reply message a response with a body leaves behind, and what follows it. */
  lemma ExchangeStreamed(session: Session, mode: Mode, chunks: seq<string>, end: Option<Failure>, clock: Clock)
    ensures var r := Exchange(session, mode, Answered(true, true, chunks, end), clock);
      var events := DecodeReads(chunks);
      var n := |session.messages|;
      && |r.messages| > n
      && r.messages[n] == Message(Assistant, ChunkText(events), Some(LastMode(events, mode)), clock.bot)
      && r.mode == LastMode(events, session.mode)
      && (end.None? || end == Some(Aborted) ==> |r.messages| == n + 1)
      && (end.Some? && end.value.Thrown? ==> |r.messages| == n + 2 && r.messages[n + 1] == ErrorMessage(end.value.text, clock.failed))
  {
    var started := WithMessage(session, BotMessage(mode, clock.bot));
    var events := DecodeReads(chunks);
    ApplyEventsReply(started, events);
    var streamed := ApplyEvents(started, events);
    var n := |session.messages|;
    assert streamed.messages[n].content == ChunkText(events);
    ExchangeStreaming(session, mode, chunks, end, clock);
  }

  /**
   * A remote command on a session: its earlier messages stay, the user's
   * message follows them, the title is the one it had, and the activity
   * time is recorded.
   */
  lemma ConversationShape(session: Session, input: string, mode: Mode, reply: Reply, clock: Clock)
    ensures var r := Conversation(session, input, mode, reply, clock);
      var n := |session.messages|;
      && |r.messages| > n
      && r.messages[..n] == session.messages
      && r.messages[n] == UserMessage(input, clock.sent)
      && r.id == session.id && r.title == session.title && r.timestamp == clock.activity
  {
    var withUser := WithUserMessage(session, UserMessage(input, clock.sent), clock.activity, input);
    var r := Exchange(withUser, mode, reply, clock);
    PrefixThenOne(r.messages, session.messages, UserMessage(input, clock.sent));
  }

  lemma PrefixThenOne(xs: seq<Message>, ys: seq<Message>, y: Message)
    requires |ys| < |xs| && xs[..|ys| + 1] == ys + [y]
    ensures xs[..|ys|] == ys && xs[|ys|] == y
  {
    assert xs[..|ys|] == xs[..|ys| + 1][..|ys|];
  }

  /**
   * When the current id names no session (switchSession does not check
   * it), a remote command still sends its request, with no history and
   * the ALIGN verb for plain text, but every update to the list is lost.
   */
  lemma DanglingCurrent(sessions: seq<Session>, id: string, input: string, reply: Reply, clock: Clock, model: string)
    requires Find(sessions, id).None?
    ensures AfterCommand(sessions, id, input, reply, clock) == sessions
    ensures AfterList(sessions, id, clock.sent) == sessions
    ensures RequestFor(sessions, id, input, model).history == []
    ensures RequestFor(sessions, id, input, model).command == DeriveCommand(input, Align)
  {
    UpdateAbsentId(sessions, id, s => Conversation(s, input, Align, reply, clock));
    UpdateAbsentId(sessions, id, s => WithMessage(s, Message(Assistant, ListReplyText, None, clock.sent)));
  }

  /** A remote command changes the session it was made from and no other. */
  lemma AfterCommandOnlyCurrent(sessions: seq<Session>, id: string, input: string, reply: Reply, clock: Clock)
    ensures var r := AfterCommand(sessions, id, input, reply, clock);
      && |r| == |sessions|
      && (forall k :: 0 <= k < |r| && sessions[k].id != id ==> r[k] == sessions[k])
      && (forall k :: 0 <= k < |r| && sessions[k].id == id ==> r[k] == Conversation(sessions[k], input, ModeOf(sessions, id), reply, clock))
  {
    var mode := ModeOf(sessions, id);
    UpdatePointwise(sessions, id, s => Conversation(s, input, mode, reply, clock));
  }

  /** `if (savedModel) setCurrentModel(savedModel)`: a null or empty saved name keeps the default. */
  function InitialModel(savedModel: Option<string>): string
  {
    if savedModel.Some? && savedModel.value != "" then savedModel.value else DefaultModel
  }

  /**
   * The fallback after the model list is fetched: the first fetched model
   * replaces the current one exactly when the list is non-empty and the
   * saved name is non-empty and not in it; otherwise the model stays.
   */
  function FetchedModel(model: string, savedModel: Option<string>, fetched: Option<seq<string>>): (r: string)
    ensures SavedModelMissing(savedModel, fetched) ==> r == fetched.value[0]
    ensures !SavedModelMissing(savedModel, fetched) ==> r == model
  {
    if fetched.Some? && |fetched.value| > 0 && savedModel.Some? && savedModel.value != "" && savedModel.value !in fetched.value
    then fetched.value[0]
    else model
  }

  /** `data.models && data.models.length > 0` and `savedModel && !data.models.includes(savedModel)`. */
  predicate SavedModelMissing(savedModel: Option<string>, fetched: Option<seq<string>>)
  {
    && fetched.Some? && |fetched.value| > 0
    && savedModel.Some? && savedModel.value != "" && savedModel.value !in fetched.value
  }

  /**
   * The model after startup: a non-empty saved name that the fetched list
   * holds is kept, a missing one falls back to the first fetched model, so
   * with a non-empty list and a saved name the model is always one offered;
   * without a saved name the default stays, whether offered or not.
   */
  lemma StartupModel(savedModel: Option<string>, fetched: Option<seq<string>>)
    ensures var r := FetchedModel(InitialModel(savedModel), savedModel, fetched);
      && (fetched.Some? && |fetched.value| > 0 && savedModel.Some? && savedModel.value != "" ==> r in fetched.value)
      && (savedModel.Some? && savedModel.value != "" && (fetched.None? || savedModel.value in fetched.value) ==> r == savedModel.value)
      && (savedModel.None? || savedModel.value == "" ==> r == DefaultModel)
  {
  }

  /** The sessions and current id startup loading ends with. */
  function LoadedSessions(saved: StoredSessions, freshId: string, now: int): (r: seq<Session>)
    ensures |r| > 0
  {
    if saved.Saved? && |saved.list| > 0 then ByRecency(saved.list) else [NewSession(freshId, now)]
  }

  class AppState {
    var sessions: seq<Session>
    var currentSessionId: Option<string>
    var isLoading: bool
    var controllerLive: bool
    var stored: StoredSessions
    var currentModel: string
    var storedModel: Option<string>
    var availableModels: seq<string>

    /** The store holds the session list whenever the list is not empty. */
    predicate StoreCurrent()
      reads this
    {
      |sessions| > 0 ==> stored == Saved(sessions)
    }

    /** The store holds the session list whenever it is not empty, and the current model name. */
    predicate Persisted()
      reads this
    {
      StoreCurrent() && storedModel == Some(currentModel)
    }

    /**
     * Startup: load the saved sessions (most recent first, the most recent
     * current) or start one fresh session; load the saved model name and
     * fall back to the first fetched model when the saved one is missing
     * from a non-empty list; then the effects write both back.
     */
    constructor (saved: StoredSessions, savedModel: Option<string>, fetched: Option<seq<string>>, freshId: string, now: int)
      ensures sessions == LoadedSessions(saved, freshId, now)
      ensures saved.Saved? && |saved.list| > 0 ==>
        currentSessionId == Some(saved.list[FirstMax(saved.list)].id) && MostRecentFirst(sessions)
      ensures !(saved.Saved? && |saved.list| > 0) ==> sessions == [NewSession(freshId, now)] && currentSessionId == Some(freshId)
      ensures currentModel == FetchedModel(InitialModel(savedModel), savedModel, fetched)
      ensures availableModels == (if fetched.Some? && |fetched.value| > 0 then fetched.value else [])
      ensures !isLoading && !controllerLive
      ensures Persisted()
    {
      if saved.Saved? && |saved.list| > 0 {
        ByRecencyHead(saved.list);
        ByRecencySorted(saved.list);
        var sorted := ByRecency(saved.list);
        sessions := sorted;
        currentSessionId := Some(sorted[0].id);
      } else {
        sessions := [NewSession(freshId, now)];
        currentSessionId := Some(freshId);
      }
      stored := Saved(sessions);
      isLoading := false;
      controllerLive := false;
      currentModel := InitialModel(savedModel);
      availableModels := [];
      if fetched.Some? && |fetched.value| > 0 {
        availableModels := fetched.value;
        if savedModel.Some? && savedModel.value != "" && savedModel.value !in fetched.value {
          currentModel := fetched.value[0];
        }
      }
      storedModel := Some(currentModel);
    }

    /** The effect on `sessions`: a non-empty list is written to the store. */
    method Persist()
      modifies this
      ensures stored == (if |sessions| > 0 then Saved(sessions) else old(stored))
      ensures sessions == old(sessions) && currentSessionId == old(currentSessionId)
      ensures isLoading == old(isLoading) && controllerLive == old(controllerLive)
      ensures currentModel == old(currentModel) && storedModel == old(storedModel) && availableModels == old(availableModels)
    {
      if |sessions| > 0 {
        stored := Saved(sessions);
      }
    }

    /** createNewSession: a fresh session goes in front and becomes current. */
    method CreateNewSession(freshId: string, now: int)
      modifies this
      ensures sessions == [NewSession(freshId, now)] + old(sessions)
      ensures currentSessionId == Some(freshId)
      ensures stored == Saved(sessions)
      ensures isLoading == old(isLoading) && controllerLive == old(controllerLive)
      ensures currentModel == old(currentModel) && storedModel == old(storedModel) && availableModels == old(availableModels)
    {
      sessions := [NewSession(freshId, now)] + sessions;
      currentSessionId := Some(freshId);
      Persist();
    }

    /** switchSession: the id is taken as given, whether or not a session has it. */
    method SwitchSession(id: string)
      modifies this
      ensures currentSessionId == Some(id)
      ensures sessions == old(sessions) && stored == old(stored)
      ensures isLoading == old(isLoading) && controllerLive == old(controllerLive)
      ensures currentModel == old(currentModel) && storedModel == old(storedModel) && availableModels == old(availableModels)
    {
      currentSessionId := Some(id);
    }

    /**
     * deleteSession: after confirmation, drop the sessions with the id and
     * write the rest to the store at once; a deleted current session hands
     * over to the first remaining one, or to a fresh session.
     */
    method DeleteSession(id: string, confirmed: bool, freshId: string, now: int)
      modifies this
      ensures !confirmed ==> sessions == old(sessions) && currentSessionId == old(currentSessionId) && stored == old(stored)
      ensures confirmed && (old(currentSessionId) != Some(id) || |WithoutId(old(sessions), id)| > 0) ==>
        sessions == WithoutId(old(sessions), id)
      ensures confirmed && old(currentSessionId) != Some(id) ==> currentSessionId == old(currentSessionId)
      ensures confirmed && old(currentSessionId) == Some(id) && |WithoutId(old(sessions), id)| > 0 ==>
        currentSessionId == Some(WithoutId(old(sessions), id)[0].id)
      ensures confirmed && old(currentSessionId) == Some(id) && |WithoutId(old(sessions), id)| == 0 ==>
        sessions == [NewSession(freshId, now)] && currentSessionId == Some(freshId)
      ensures confirmed ==> stored == (if |sessions| > 0 then Saved(sessions) else Saved([]))
      ensures isLoading == old(isLoading) && controllerLive == old(controllerLive)
      ensures currentModel == old(currentModel) && storedModel == old(storedModel) && availableModels == old(availableModels)
    {
      if !confirmed {
        return;
      }
      var remaining := WithoutId(sessions, id);
      sessions := remaining;
      if currentSessionId == Some(id) {
        if |remaining| > 0 {
          currentSessionId := Some(remaining[0].id);
        } else {
          CreateNewSession(freshId, now);
        }
      }
      stored := Saved(remaining);
      Persist();
    }

    /** clearHistory: after confirmation, drop every session and start one fresh session. */
    method ClearHistory(confirmed: bool, freshId: string, now: int)
      modifies this
      ensures !confirmed ==> sessions == old(sessions) && currentSessionId == old(currentSessionId) && stored == old(stored)
      ensures confirmed ==> sessions == [NewSession(freshId, now)] && currentSessionId == Some(freshId)
      ensures confirmed ==> stored == Saved(sessions)
      ensures isLoading == old(isLoading) && controllerLive == old(controllerLive)
      ensures currentModel == old(currentModel) && storedModel == old(storedModel) && availableModels == old(availableModels)
    {
      if confirmed {
        sessions := [];
        currentSessionId := None;
        stored := Missing;
        CreateNewSession(freshId, now);
      }
    }

    /** handleStop: abort the live request, if there is one, and stop loading. */
    method HandleStop()
      modifies this
      ensures !controllerLive
      ensures isLoading == (old(isLoading) && !old(controllerLive))
      ensures sessions == old(sessions) && currentSessionId == old(currentSessionId) && stored == old(stored)
      ensures currentModel == old(currentModel) && storedModel == old(storedModel) && availableModels == old(availableModels)
    {
      if controllerLive {
        controllerLive := false;
        isLoading := false;
      }
    }

    /** updateCurrentSession on a fixed id: only the sessions with the id change. */
    method UpdateSession(id: string, f: Session -> Session)
      modifies this
      ensures sessions == Update(old(sessions), id, f)
      ensures stored == (if |sessions| > 0 then Saved(sessions) else old(stored))
      ensures currentSessionId == old(currentSessionId)
      ensures isLoading == old(isLoading) && controllerLive == old(controllerLive)
      ensures currentModel == old(currentModel) && storedModel == old(storedModel) && availableModels == old(availableModels)
    {
      sessions := Update(sessions, id, f);
      Persist();
    }

    /** updateCurrentSession: nothing happens without a current id. */
    method UpdateCurrentSession(f: Session -> Session)
      modifies this
      ensures old(currentSessionId).None? || old(currentSessionId) == Some("") ==> sessions == old(sessions) && stored == old(stored)
      ensures old(currentSessionId).Some? && old(currentSessionId) != Some("") ==>
        sessions == Update(old(sessions), old(currentSessionId).value, f)
        && stored == (if |sessions| > 0 then Saved(sessions) else old(stored))
      ensures currentSessionId == old(currentSessionId)
      ensures isLoading == old(isLoading) && controllerLive == old(controllerLive)
      ensures currentModel == old(currentModel) && storedModel == old(storedModel) && availableModels == old(availableModels)
    {
      if currentSessionId.None? || currentSessionId == Some("") {
        return;
      }
      UpdateSession(currentSessionId.value, f);
    }

    /** The lines of one read, each applied to the session `id` when it decodes. */
    method ApplyLines(id: string, lines: seq<string>)
      modifies this
      ensures sessions == Update(old(sessions), id, s => ApplyEvents(s, DecodeLines(lines)))
      ensures old(StoreCurrent()) ==> StoreCurrent()
      ensures |sessions| == 0 ==> stored == old(stored)
      ensures currentSessionId == old(currentSessionId)
      ensures isLoading == old(isLoading) && controllerLive == old(controllerLive)
      ensures currentModel == old(currentModel) && storedModel == old(storedModel) && availableModels == old(availableModels)
    {
      ghost var base := sessions;
      StreamedStart(base, id);
      assert lines[..0] == [];
      for j := 0 to |lines|
        invariant Streamed(sessions, base, id, DecodeLines(lines[..j]))
        invariant old(StoreCurrent()) ==> StoreCurrent()
        invariant |sessions| == 0 ==> stored == old(stored)
        invariant currentSessionId == old(currentSessionId)
        invariant isLoading == old(isLoading) && controllerLive == old(controllerLive)
        invariant currentModel == old(currentModel) && storedModel == old(storedModel) && availableModels == old(availableModels)
      {
        DecodeLinesSnoc(lines, j);
        match Decode(lines[j])
        case None =>
          assert DecodeLines(lines[..j]) + [] == DecodeLines(lines[..j]);
        case Some(e) =>
          StreamedStep(sessions, base, id, DecodeLines(lines[..j]), e);
          UpdateSession(id, s => ApplyEvent(s, e));
      }
      assert lines[..|lines|] == lines;
      StreamedDone(sessions, base, id, DecodeLines(lines));
    }

    /**
     * The read loop of handleCommand: every read is split into lines on
     * its own, and each line that decodes is applied, in order, to the
     * session `id`.
     */
    method ReadBody(id: string, chunks: seq<string>)
      modifies this
      ensures sessions == Update(old(sessions), id, s => ApplyEvents(s, DecodeReads(chunks)))
      ensures old(StoreCurrent()) ==> StoreCurrent()
      ensures |sessions| == 0 ==> stored == old(stored)
      ensures currentSessionId == old(currentSessionId)
      ensures isLoading == old(isLoading) && controllerLive == old(controllerLive)
      ensures currentModel == old(currentModel) && storedModel == old(storedModel) && availableModels == old(availableModels)
    {
      ghost var base := sessions;
      StreamedStart(base, id);
      assert chunks[..0] == [];
      for i := 0 to |chunks|
        invariant Streamed(sessions, base, id, DecodeReads(chunks[..i]))
        invariant old(StoreCurrent()) ==> StoreCurrent()
        invariant |sessions| == 0 ==> stored == old(stored)
        invariant currentSessionId == old(currentSessionId)
        invariant isLoading == old(isLoading) && controllerLive == old(controllerLive)
        invariant currentModel == old(currentModel) && storedModel == old(storedModel) && availableModels == old(availableModels)
      {
        var lines := ReadLines(chunks[i]);
        DecodeReadsSnoc(chunks, i);
        StreamedExtend(sessions, base, id, DecodeReads(chunks[..i]), DecodeLines(lines));
        ApplyLines(id, lines);
      }
      assert chunks[..|chunks|] == chunks;
      StreamedDone(sessions, base, id, DecodeReads(chunks));
    }

    /** The catch block for the session `id`. */
    method Fail(id: string, failure: Failure, now: int)
      modifies this
      ensures sessions == Update(old(sessions), id, s => AfterFailure(s, failure, now))
      ensures old(StoreCurrent()) ==> StoreCurrent()
      ensures |sessions| == 0 ==> stored == old(stored)
      ensures currentSessionId == old(currentSessionId)
      ensures isLoading == old(isLoading) && controllerLive == old(controllerLive)
      ensures currentModel == old(currentModel) && storedModel == old(storedModel) && availableModels == old(availableModels)
    {
      match failure
      case Aborted =>
        UpdateUnchanged(sessions, id, s => AfterFailure(s, failure, now));
        Persist();
      case Thrown(text) =>
        UpdateExt(sessions, id, s => WithMessage(s, ErrorMessage(text, now)), s => AfterFailure(s, failure, now));
        UpdateSession(id, s => WithMessage(s, ErrorMessage(text, now)));
    }

    /** From the response to the end of the try block, for the session `id`. */
    method Receive(id: string, mode: Mode, reply: Reply, clock: Clock)
      modifies this
      ensures sessions == Update(old(sessions), id, s => Exchange(s, mode, reply, clock))
      ensures old(StoreCurrent()) ==> StoreCurrent()
      ensures |sessions| == 0 ==> stored == old(stored)
      ensures currentSessionId == old(currentSessionId)
      ensures isLoading == old(isLoading) && controllerLive == old(controllerLive)
      ensures currentModel == old(currentModel) && storedModel == old(storedModel) && availableModels == old(availableModels)
    {
      ghost var s0 := sessions;
      match reply
      case Rejected(failure) =>
        Fail(id, failure, clock.failed);
        UpdateExt(s0, id, s => AfterFailure(s, failure, clock.failed), s => Exchange(s, mode, reply, clock));
      case Answered(ok, hasBody, chunks, end) =>
        if !ok {
          Fail(id, Thrown(ConnectionFailed), clock.failed);
          UpdateExt(s0, id, s => AfterFailure(s, Thrown(ConnectionFailed), clock.failed), s => Exchange(s, mode, reply, clock));
        } else if !hasBody {
          Fail(id, Thrown(NoResponseBody), clock.failed);
          UpdateExt(s0, id, s => AfterFailure(s, Thrown(NoResponseBody), clock.failed), s => Exchange(s, mode, reply, clock));
        } else {
          Streaming(id, mode, chunks, end, clock);
        }
    }

    /** A response with a body: the empty reply message, then the read loop feeding it. */
    method StreamBody(id: string, mode: Mode, chunks: seq<string>, clock: Clock)
      modifies this
      ensures sessions == Update(old(sessions), id, s => ApplyEvents(WithMessage(s, BotMessage(mode, clock.bot)), DecodeReads(chunks)))
      ensures old(StoreCurrent()) ==> StoreCurrent()
      ensures |sessions| == 0 ==> stored == old(stored)
      ensures currentSessionId == old(currentSessionId)
      ensures isLoading == old(isLoading) && controllerLive == old(controllerLive)
      ensures currentModel == old(currentModel) && storedModel == old(storedModel) && availableModels == old(availableModels)
    {
      var bot := BotMessage(mode, clock.bot);
      ghost var s0 := sessions;
      UpdateSession(id, s => WithMessage(s, bot));
      ReadBody(id, chunks);
      UpdateTwice(s0, id, s => WithMessage(s, bot), s => ApplyEvents(s, DecodeReads(chunks)),
        s => ApplyEvents(WithMessage(s, BotMessage(mode, clock.bot)), DecodeReads(chunks)));
    }

    /** A response with a body, and how reading it ended. */
    method Streaming(id: string, mode: Mode, chunks: seq<string>, end: Option<Failure>, clock: Clock)
      modifies this
      ensures sessions == Update(old(sessions), id, s => Exchange(s, mode, Answered(true, true, chunks, end), clock))
      ensures old(StoreCurrent()) ==> StoreCurrent()
      ensures |sessions| == 0 ==> stored == old(stored)
      ensures currentSessionId == old(currentSessionId)
      ensures isLoading == old(isLoading) && controllerLive == old(controllerLive)
      ensures currentModel == old(currentModel) && storedModel == old(storedModel) && availableModels == old(availableModels)
    {
      ghost var s0 := sessions;
      ghost var body := s => ApplyEvents(WithMessage(s, BotMessage(mode, clock.bot)), DecodeReads(chunks));
      ghost var whole := s => Exchange(s, mode, Answered(true, true, chunks, end), clock);
      StreamBody(id, mode, chunks, clock);
      forall s ensures whole(s) == (if end.Some? then AfterFailure(body(s), end.value, clock.failed) else body(s)) {
        ExchangeStreaming(s, mode, chunks, end, clock);
      }
      if end.Some? {
        ghost var s1 := sessions;
        assert s1 == Update(s0, id, body);
        Fail(id, end.value, clock.failed);
        assert sessions == Update(s1, id, s => AfterFailure(s, end.value, clock.failed));
        UpdateTwice(s0, id, body, s => AfterFailure(s, end.value, clock.failed), whole);
        assert sessions == Update(s0, id, whole);
      } else {
        UpdateExt(s0, id, body, whole);
      }
    }

    /**
     * The remote part of handleCommand for the session `id`: the user's
     * message is appended, the request is sent with the earlier messages,
     * and the reply is reconciled; loading ends and the controller is
     * dropped on every way out.
     */
    method SendCommand(id: string, input: string, clock: Clock, reply: Reply) returns (request: Request)
      modifies this
      ensures request == RequestFor(old(sessions), id, input, currentModel)
      ensures sessions == AfterCommand(old(sessions), id, input, reply, clock)
      ensures !isLoading && !controllerLive
      ensures old(StoreCurrent()) ==> StoreCurrent()
      ensures currentSessionId == old(currentSessionId)
      ensures currentModel == old(currentModel) && storedModel == old(storedModel) && availableModels == old(availableModels)
    {
      var mode := ModeOf(sessions, id);
      var history := MessagesOf(sessions, id);
      ghost var s0 := sessions;
      ghost var conversation := s => Conversation(s, input, mode, reply, clock);
      assert AfterCommand(s0, id, input, reply, clock) == Update(s0, id, conversation);
      var userMessage := UserMessage(input, clock.sent);
      UpdateSession(id, s => WithUserMessage(s, userMessage, clock.activity, input));
      ghost var s1 := sessions;
      assert s1 == Update(s0, id, s => WithUserMessage(s, userMessage, clock.activity, input));
      isLoading := true;
      var command := DeriveCommand(input, mode);
      controllerLive := true;
      request := Request(command, input, id, History(history), currentModel);
      Receive(id, mode, reply, clock);
      assert sessions == Update(s1, id, s => Exchange(s, mode, reply, clock));
      UpdateTwice(s0, id, s => WithUserMessage(s, userMessage, clock.activity, input), s => Exchange(s, mode, reply, clock),
        conversation);
      assert sessions == Update(s0, id, conversation);
      isLoading := false;
      controllerLive := false;
    }

    /**
     * handleCommand: without a current id nothing happens; the two local
     * commands are answered in place without a request; any other input
     * goes to the service.
     */
    method HandleCommand(input: string, clock: Clock, freshId: string, reply: Reply) returns (request: Option<Request>)
      modifies this
      ensures old(currentSessionId).None? || old(currentSessionId) == Some("") ==>
        request.None? && sessions == old(sessions) && currentSessionId == old(currentSessionId)
        && stored == old(stored) && isLoading == old(isLoading) && controllerLive == old(controllerLive)
      ensures old(currentSessionId).Some? && old(currentSessionId) != Some("") ==>
        var id := old(currentSessionId).value;
        match Classify(input)
        case NewSessionCommand =>
          request.None? && sessions == [NewSession(freshId, clock.sent)] + old(sessions) && currentSessionId == Some(freshId)
          && isLoading == old(isLoading) && controllerLive == old(controllerLive)
        case ListSessionsCommand =>
          request.None? && sessions == AfterList(old(sessions), id, clock.sent) && currentSessionId == old(currentSessionId)
          && isLoading == old(isLoading) && controllerLive == old(controllerLive)
        case Remote =>
          request == Some(RequestFor(old(sessions), id, input, currentModel))
          && sessions == AfterCommand(old(sessions), id, input, reply, clock) && currentSessionId == old(currentSessionId)
          && !isLoading && !controllerLive
      ensures old(StoreCurrent()) ==> StoreCurrent()
      ensures currentModel == old(currentModel) && storedModel == old(storedModel) && availableModels == old(availableModels)
    {
      if currentSessionId.None? || currentSessionId == Some("") {
        return None;
      }
      var id := currentSessionId.value;
      match Classify(input)
      case NewSessionCommand =>
        CreateNewSession(freshId, clock.sent);
        return None;
      case ListSessionsCommand =>
        UpdateSession(id, s => WithMessage(s, Message(Assistant, ListReplyText, None, clock.sent)));
        return None;
      case Remote =>
        var sent := SendCommand(id, input, clock, reply);
        return Some(sent);
    }
  }
}
