/**
 * The service and the client together: the lines the router streams
 * (backend/core/router.py), read by the client's loop (frontend/src/App.tsx)
 * and reconciled into the session that asked.
 */
module Pipeline {
  import opened Types
  import opened Text
  import opened Wire
  import opened Stream
  import opened Sessions
  import opened Ethics
  import opened Router
  import App

  /** The response body is the router's lines, back to back. */
  lemma {:induction false} BodyIsLines(events: seq<Event>)
    ensures Concat(Lines(events)) == Body(events)
    decreases |events|
  {
    if events != [] {
      assert Lines(events) == [EncodeLine(events[0])] + Lines(events[1..]);
      ConcatCons(EncodeLine(events[0]), Lines(events[1..]));
      BodyIsLines(events[1..]);
    }
  }

  /** The whole response in a single read decodes to exactly the events the router sent. */
  lemma WholeBodyInOneRead(events: seq<Event>)
    ensures DecodeReads([Concat(Lines(events))]) == events
  {
    BodyIsLines(events);
    DecodeBody(events);
    DecodeReadsOne(Concat(Lines(events)));
  }

  /** One line on its own decodes to its event. */
  lemma DecodeEventLine(e: Event)
    ensures DecodeRead(EncodeLine(e)) == [e]
  {
    assert Body([e]) == EncodeLine(e) by { assert [e][1..] == []; }
    DecodeBody([e]);
  }

  lemma LinesSnoc(events: seq<Event>)
    requires events != []
    ensures DecodeReads(Lines(events)) == DecodeReads(Lines(events[..|events| - 1])) + DecodeRead(EncodeLine(events[|events| - 1]))
  {
    var n := |events|;
    var lines := Lines(events);
    assert lines[..n - 1] == Lines(events[..n - 1]);
    assert lines[n - 1] == EncodeLine(events[n - 1]);
  }

  lemma FrontAndLast(events: seq<Event>)
    requires events != []
    ensures events[..|events| - 1] + [events[|events| - 1]] == events
  {
  }

  /** Reads that each carry one whole line decode to exactly the events the router sent. */
  lemma {:induction false} OneLinePerRead(events: seq<Event>)
    ensures DecodeReads(Lines(events)) == events
    decreases |events|
  {
    if events != [] {
      var n := |events|;
      LinesSnoc(events);
      OneLinePerRead(events[..n - 1]);
      DecodeEventLine(events[n - 1]);
      FrontAndLast(events);
    } else {
      assert Lines(events) == [];
    }
  }

  lemma {:induction false} ChunkTextOfChunks(contents: seq<string>)
    ensures ChunkText(ChunkEvents(contents)) == Concat(contents)
    decreases |contents|
  {
    if contents != [] {
      var n := |contents|;
      assert ChunkEvents(contents)[..n - 1] == ChunkEvents(contents[..n - 1]);
      ChunkTextOfChunks(contents[..n - 1]);
    }
  }

  /**
   * The text a response appends to the reply: every generated piece in
   * order, then the ethics warning when the logged output fails validation.
   */
  lemma ResponseText(mode: Mode, out: HopsOutcome)
    ensures ChunkText(ResponseEvents(mode, out)) == Concat(out.chunks) + (if Validate(out.logged) then "" else WarningText)
  {
    MetaThenChunks(Some(mode), out.chunks, WarningEvents(out.logged));
    WarningEventsText(out.logged);
  }

  /** A meta event adds no text; chunk events add their contents. */
  lemma MetaThenChunks(m: Option<Mode>, contents: seq<string>, tail: seq<Event>)
    ensures ChunkText([Meta(m)] + ChunkEvents(contents) + tail) == Concat(contents) + ChunkText(tail)
  {
    var meta := [Meta(m)];
    var chunks := ChunkEvents(contents);
    ChunkTextAppend(meta + chunks, tail);
    ChunkTextAppend(meta, chunks);
    ChunkTextOfChunks(contents);
    assert ChunkText(meta) == "" by { assert meta[..0] == []; }
  }

  lemma WarningEventsText(logged: string)
    ensures ChunkText(WarningEvents(logged)) == (if Validate(logged) then "" else WarningText)
  {
    if !Validate(logged) {
      assert [Chunk(WarningText)][..0] == [];
    }
  }

  /** The mode a response leaves the client in: the one its leading meta event names. */
  lemma ResponseMode(mode: Mode, out: HopsOutcome, initial: Mode)
    ensures LastMode(ResponseEvents(mode, out), initial) == mode
  {
    var meta := [Meta(Some(mode))];
    var tail := ChunkEvents(out.chunks) + WarningEvents(out.logged);
    assert ResponseEvents(mode, out) == meta + tail;
    assert forall k :: 0 <= k < |tail| ==> tail[k].Chunk?;
    LastModeAfter(meta, tail, initial);
  }

  /** Chunk events after a prefix leave the mode the prefix set. */
  lemma {:induction false} LastModeAfter(a: seq<Event>, b: seq<Event>, initial: Mode)
    requires forall k :: 0 <= k < |b| ==> b[k].Chunk?
    ensures LastMode(a + b, initial) == LastMode(a, initial)
    decreases |b|
  {
    if b != [] {
      var n := |b|;
      assert (a + b)[..|a + b| - 1] == a + b[..n - 1];
      LastModeAfter(a, b[..n - 1], initial);
    } else {
      assert a + b == a;
    }
  }

  /**
   * End to end: when the router's lines reach the client in one read or
   * one line per read and the stream ends normally, the reply message the
   * client shows holds every generated piece in order, then the warning
   * when the logged output fails the ethics check, and carries the mode
   * the router served; the session takes that mode.
   */
  lemma ReplyShowsResponse(session: Session, sessionMode: Mode, mode: Mode, out: HopsOutcome, chunks: seq<string>, clock: App.Clock)
    requires chunks == [Concat(Lines(ResponseEvents(mode, out)))] || chunks == Lines(ResponseEvents(mode, out))
    ensures var r := App.Exchange(session, sessionMode, App.Answered(true, true, chunks, None), clock);
      var n := |session.messages|;
      && |r.messages| == n + 1
      && r.messages[n].content == Concat(out.chunks) + (if Validate(out.logged) then "" else WarningText)
      && r.messages[n].mode == Some(mode)
      && r.mode == mode
  {
    var events := ResponseEvents(mode, out);
    if chunks == [Concat(Lines(events))] {
      WholeBodyInOneRead(events);
    } else {
      OneLinePerRead(events);
    }
    App.ExchangeStreamed(session, sessionMode, chunks, None, clock);
    ResponseText(mode, out);
    ResponseMode(mode, out, sessionMode);
    ResponseMode(mode, out, session.mode);
  }

  /**
   * The verb the client derives for plain text names the session's mode,
   * but the router only tells "/model" apart: an ACT or NAVIGATE session
   * is served as ALIGN.
   */
  lemma PlainInputMode(input: string, sessionMode: Mode)
    requires !StartsWith(input, "/")
    ensures CommandToMode(App.DeriveCommand(input, sessionMode)) == (if sessionMode == Model then Model else Align)
  {
    var command := App.DeriveCommand(input, sessionMode);
    assert command == "/" + Lower(ModeName(sessionMode));
    match sessionMode
    case Align =>
    case Model =>
      assert Lower("MODEL") == "model";
    case Act =>
      assert command[1] == 'a' && "/model"[1] == 'm';
    case Navigate =>
      assert command[1] == 'n' && "/model"[1] == 'm';
  }

  /**
   * A session in ACT or NAVIGATE mode that sends plain text and gets the
   * router's answer back is in ALIGN mode afterwards, and so is its reply.
   */
  lemma ActAndNavigateFallBack(session: Session, input: string, out: HopsOutcome, clock: App.Clock)
    requires session.mode == Act || session.mode == Navigate
    requires !StartsWith(input, "/")
    ensures var served := CommandToMode(App.DeriveCommand(input, session.mode));
      var chunks := [Concat(Lines(ResponseEvents(served, out)))];
      var r := App.Conversation(session, input, session.mode, App.Answered(true, true, chunks, None), clock);
      r.mode == Align && r.messages[|r.messages| - 1].mode == Some(Align)
  {
    PlainInputMode(input, session.mode);
    var served := CommandToMode(App.DeriveCommand(input, session.mode));
    var chunks := [Concat(Lines(ResponseEvents(served, out)))];
    var withUser := WithUserMessage(session, App.UserMessage(input, clock.sent), clock.activity, input);
    ReplyShowsResponse(withUser, session.mode, served, out, chunks, clock);
  }
}
