/**
 * The client's session store as values (frontend/src/App.tsx): the
 * updater functions handed to setSessions, the title helper, the
 * reconciliation of stream events into the trailing assistant message,
 * and the recency order a loaded list ends up in.
 */
module Sessions {
  import opened Types
  import opened Text
  import opened Wire
  import opened Stream

  const NewChatTitle: string := "New Chat"

  /** Inputs longer than this are cut for a title. */
  const TitleLimit: nat := 30

  /** The fresh, empty session createNewSession builds. */
  function NewSession(id: string, now: int): (s: Session)
    ensures s.id == id && s.title == NewChatTitle && s.mode == Align
    ensures s.messages == [] && s.timestamp == now
  {
    Session(id, NewChatTitle, Align, [], now)
  }

  /** `sessions.find(s => s.id === id)`: the first session with the id. */
  function Find(sessions: seq<Session>, id: string): (r: Option<Session>)
    ensures r.Some? ==> r.value in sessions && r.value.id == id
    ensures r.None? ==> forall k :: 0 <= k < |sessions| ==> sessions[k].id != id
    ensures forall i :: FirstWithId(sessions, id, i) ==> r == Some(sessions[i])
  {
    if sessions == [] then None
    else if sessions[0].id == id then Some(sessions[0])
    else Find(sessions[1..], id)
  }

  /** `i` is the index of the first session with the id. */
  predicate FirstWithId(sessions: seq<Session>, id: string, i: int)
  {
    0 <= i < |sessions| && sessions[i].id == id && forall k :: 0 <= k < i ==> sessions[k].id != id
  }

  /** `sessions.filter(s => s.id !== id)`. */
  function WithoutId(sessions: seq<Session>, id: string): (r: seq<Session>)
    ensures |r| <= |sessions|
    ensures forall s :: s in r <==> s in sessions && s.id != id
  {
    if sessions == [] then []
    else
      var init := WithoutId(sessions[..|sessions| - 1], id);
      var last := sessions[|sessions| - 1];
      assert sessions == sessions[..|sessions| - 1] + [last];
      if last.id == id then init else init + [last]
  }

  /** Filtering keeps the relative order: it distributes over concatenation. */
  lemma {:induction false} WithoutIdAppend(a: seq<Session>, b: seq<Session>, id: string)
    ensures WithoutId(a + b, id) == WithoutId(a, id) + WithoutId(b, id)
    decreases |b|
  {
    if b == [] {
      assert a + b == a;
    } else {
      assert (a + b)[..|a + b| - 1] == a + b[..|b| - 1];
      WithoutIdAppend(a, b[..|b| - 1], id);
    }
  }

  /** Deleting an id no session has leaves the list as it was. */
  lemma {:induction false} WithoutAbsentId(sessions: seq<Session>, id: string)
    requires forall k :: 0 <= k < |sessions| ==> sessions[k].id != id
    ensures WithoutId(sessions, id) == sessions
    decreases |sessions|
  {
    if sessions != [] {
      WithoutAbsentId(sessions[..|sessions| - 1], id);
      assert sessions == sessions[..|sessions| - 1] + [sessions[|sessions| - 1]];
    }
  }

  /**
   * `prev.map(s => s.id === id ? f(s) : s)`: the sessions with the id are
   * replaced by their update, every other session stays as it was.
   */
  function Update(sessions: seq<Session>, id: string, f: Session -> Session): (r: seq<Session>)
    ensures |r| == |sessions|
  {
    if sessions == [] then []
    else
      var init := Update(sessions[..|sessions| - 1], id, f);
      var last := sessions[|sessions| - 1];
      init + [if last.id == id then f(last) else last]
  }

  /** Only the sessions with the id change, each to its update. */
  lemma {:induction false} UpdatePointwise(sessions: seq<Session>, id: string, f: Session -> Session)
    ensures var r := Update(sessions, id, f);
      forall k :: 0 <= k < |r| ==> r[k] == (if sessions[k].id == id then f(sessions[k]) else sessions[k])
    decreases |sessions|
  {
    if sessions != [] {
      var init := sessions[..|sessions| - 1];
      UpdatePointwise(init, id, f);
      var r := Update(sessions, id, f);
      forall k | 0 <= k < |r| ensures r[k] == (if sessions[k].id == id then f(sessions[k]) else sessions[k]) {
        if k < |init| {
          assert r[k] == Update(init, id, f)[k];
          assert sessions[k] == init[k];
        }
      }
    }
  }

  /** Updates by functions that agree everywhere are the same update. */
  lemma UpdateExt(sessions: seq<Session>, id: string, f: Session -> Session, g: Session -> Session)
    requires forall s :: f(s) == g(s)
    ensures Update(sessions, id, f) == Update(sessions, id, g)
  {
    UpdatePointwise(sessions, id, f);
    UpdatePointwise(sessions, id, g);
  }

  /** An update of an id no session has changes nothing. */
  lemma UpdateAbsentId(sessions: seq<Session>, id: string, f: Session -> Session)
    requires forall k :: 0 <= k < |sessions| ==> sessions[k].id != id
    ensures Update(sessions, id, f) == sessions
  {
    UpdatePointwise(sessions, id, f);
  }

  /** Two updates of the same id are one update by their composition, as ids never change. */
  lemma UpdateTwice(sessions: seq<Session>, id: string, f: Session -> Session, g: Session -> Session, h: Session -> Session)
    requires forall s :: f(s).id == s.id
    requires forall s :: h(s) == g(f(s))
    ensures Update(Update(sessions, id, f), id, g) == Update(sessions, id, h)
  {
    var once := Update(sessions, id, f);
    UpdatePointwise(sessions, id, f);
    UpdatePointwise(once, id, g);
    UpdatePointwise(sessions, id, h);
    assert forall k :: 0 <= k < |sessions| ==> once[k].id == sessions[k].id;
  }

  /** An update that changes no session changes nothing. */
  lemma UpdateUnchanged(sessions: seq<Session>, id: string, f: Session -> Session)
    requires forall s :: f(s) == s
    ensures Update(sessions, id, f) == sessions
  {
    UpdatePointwise(sessions, id, f);
  }

  /**
   * `after` is `before` with `events` applied to every session with the
   * id, and every other session as it was.
   */
  predicate Streamed(after: seq<Session>, before: seq<Session>, id: string, events: seq<Event>)
  {
    && |after| == |before|
    && forall k :: 0 <= k < |before| ==> after[k] == (if before[k].id == id then ApplyEvents(before[k], events) else before[k])
  }

  lemma StreamedStart(sessions: seq<Session>, id: string)
    ensures Streamed(sessions, sessions, id, [])
  {
  }

  /** Applying one more event to the session extends the applied stream by that event. */
  lemma StreamedStep(after: seq<Session>, before: seq<Session>, id: string, events: seq<Event>, e: Event)
    requires Streamed(after, before, id, events)
    ensures Streamed(Update(after, id, s => ApplyEvent(s, e)), before, id, events + [e])
  {
    var next := Update(after, id, s => ApplyEvent(s, e));
    UpdatePointwise(after, id, s => ApplyEvent(s, e));
    assert (events + [e])[..|events|] == events;
    forall k | 0 <= k < |before|
      ensures next[k] == (if before[k].id == id then ApplyEvents(before[k], events + [e]) else before[k])
    {
      assert after[k].id == before[k].id;
    }
  }

  lemma {:induction false} ApplyEventsAppend(session: Session, a: seq<Event>, b: seq<Event>)
    ensures ApplyEvents(session, a + b) == ApplyEvents(ApplyEvents(session, a), b)
    decreases |b|
  {
    if b == [] {
      assert a + b == a;
    } else {
      assert (a + b)[..|a + b| - 1] == a + b[..|b| - 1];
      ApplyEventsAppend(session, a, b[..|b| - 1]);
    }
  }

  /** Applying a further run of events to the session extends the applied stream by that run. */
  lemma StreamedExtend(after: seq<Session>, before: seq<Session>, id: string, events: seq<Event>, more: seq<Event>)
    requires Streamed(after, before, id, events)
    ensures Streamed(Update(after, id, s => ApplyEvents(s, more)), before, id, events + more)
  {
    var next := Update(after, id, s => ApplyEvents(s, more));
    UpdatePointwise(after, id, s => ApplyEvents(s, more));
    forall k | 0 <= k < |before|
      ensures next[k] == (if before[k].id == id then ApplyEvents(before[k], events + more) else before[k])
    {
      assert after[k].id == before[k].id;
      if before[k].id == id {
        ApplyEventsAppend(before[k], events, more);
      }
    }
  }

  lemma StreamedDone(after: seq<Session>, before: seq<Session>, id: string, events: seq<Event>)
    requires Streamed(after, before, id, events)
    ensures after == Update(before, id, s => ApplyEvents(s, events))
  {
    UpdatePointwise(before, id, s => ApplyEvents(s, events));
  }

  /** `input.length > 30 ? input.substring(0, 30) + '...' : input`. */
  function TitleFor(input: string): (t: string)
    ensures |input| <= TitleLimit ==> t == input
    ensures |input| > TitleLimit ==> |t| == TitleLimit + 3 && StartsWith(input, t[..TitleLimit]) && EndsWith(t, "...")
    ensures |t| <= TitleLimit + 3
  {
    if |input| > TitleLimit then input[..TitleLimit] + "..." else input
  }

  /** updateSessionTitle: only a session without messages gets a title from the input. */
  function UpdateSessionTitle(session: Session, input: string): (r: Session)
    ensures session.messages == [] ==> r == session.(title := TitleFor(input))
    ensures session.messages != [] ==> r == session
  {
    if |session.messages| == 0 then session.(title := TitleFor(input)) else session
  }

  /**
   * The optimistic update of handleCommand: append the user's message,
   * record the activity time, then apply the title helper. Because the
   * helper sees the session after the append, the title never changes.
   */
  function WithUserMessage(session: Session, message: Message, now: int, input: string): (r: Session)
    ensures r.messages == session.messages + [message]
    ensures r.title == session.title
    ensures r.id == session.id && r.mode == session.mode && r.timestamp == now
  {
    UpdateSessionTitle(session.(messages := session.messages + [message], timestamp := now), input)
  }

  /** `{ ...s, messages: [...s.messages, message] }`. */
  function WithMessage(session: Session, message: Message): (r: Session)
    ensures r.messages == session.messages + [message]
    ensures r.id == session.id && r.title == session.title && r.mode == session.mode && r.timestamp == session.timestamp
  {
    session.(messages := session.messages + [message])
  }

  /**
   * The updater a decoded event applies to the session. A meta event with
   * a mode sets the session's mode and the trailing message's mode; a
   * chunk appends its text to the trailing message. On a session without
   * messages the meta event still sets the session's mode (the write to
   * index -1 lands on no element), and a chunk changes nothing.
   */
  function ApplyEvent(session: Session, e: Event): (r: Session)
    ensures r.id == session.id && r.title == session.title && r.timestamp == session.timestamp
    ensures |r.messages| == |session.messages|
    ensures session.messages != [] ==> r.messages[..|r.messages| - 1] == session.messages[..|session.messages| - 1]
  {
    var n := |session.messages|;
    match e
    case Meta(None) => session
    case Meta(Some(m)) =>
      if n == 0 then session.(mode := m)
      else session.(mode := m, messages := session.messages[..n - 1] + [session.messages[n - 1].(mode := Some(m))])
    case Chunk(text) =>
      if n == 0 then session
      else
        var last := session.messages[n - 1];
        session.(messages := session.messages[..n - 1] + [last.(content := last.content + text)])
  }

  /** The events of a stream applied in arrival order. */
  function ApplyEvents(session: Session, events: seq<Event>): (r: Session)
    ensures r.id == session.id && r.title == session.title && r.timestamp == session.timestamp
    ensures |r.messages| == |session.messages|
  {
    if events == [] then session else ApplyEvent(ApplyEvents(session, events[..|events| - 1]), events[|events| - 1])
  }

  /**
   * Reconciling a stream into a session whose trailing message is the
   * reply: the earlier messages stay as they were, the reply's text grows
   * by the chunks' text in arrival order, its role and time are kept, and
   * the mode is the last one a meta event set.
   */
  lemma {:induction false} ApplyEventsReply(session: Session, events: seq<Event>)
    requires session.messages != []
    ensures var r := ApplyEvents(session, events);
      var n := |session.messages|;
      && r.messages[..n - 1] == session.messages[..n - 1]
      && r.messages[n - 1].content == session.messages[n - 1].content + ChunkText(events)
      && r.messages[n - 1].role == session.messages[n - 1].role
      && r.messages[n - 1].timestamp == session.messages[n - 1].timestamp
      && r.mode == LastMode(events, session.mode)
      && (session.messages[n - 1].mode.Some? ==>
            r.messages[n - 1].mode == Some(LastMode(events, session.messages[n - 1].mode.value)))
    decreases |events|
  {
    if events != [] {
      var init := events[..|events| - 1];
      ApplyEventsReply(session, init);
      ApplyEventStep(ApplyEvents(session, init), events[|events| - 1]);
    }
  }

  /** One event on a session whose trailing message is the reply. */
  lemma ApplyEventStep(before: Session, e: Event)
    requires before.messages != []
    ensures var r := ApplyEvent(before, e);
      var n := |before.messages|;
      && r.messages[..n - 1] == before.messages[..n - 1]
      && r.messages[n - 1].content == before.messages[n - 1].content + (match e case Chunk(c) => c case Meta(_) => "")
      && r.messages[n - 1].role == before.messages[n - 1].role
      && r.messages[n - 1].timestamp == before.messages[n - 1].timestamp
      && r.mode == (match e case Meta(Some(m)) => m case _ => before.mode)
      && r.messages[n - 1].mode == (match e case Meta(Some(m)) => Some(m) case _ => before.messages[n - 1].mode)
  {
    assert before.messages[..|before.messages| - 1] + [before.messages[|before.messages| - 1]] == before.messages;
  }

  /** Meta events carry no text: a meta-only stream leaves the reply's text alone. */
  lemma {:induction false} ChunkTextOfMeta(events: seq<Event>)
    requires forall k :: 0 <= k < |events| ==> events[k].Meta?
    ensures ChunkText(events) == ""
    decreases |events|
  {
    if events != [] {
      ChunkTextOfMeta(events[..|events| - 1]);
    }
  }

  /**
   * Stable insertion of `x` in front of every session no more recent than
   * it, the step of a descending sort by timestamp.
   */
  function Insert(x: Session, ys: seq<Session>): (r: seq<Session>)
    ensures multiset(r) == multiset(ys) + multiset{x}
    ensures |r| == |ys| + 1
    ensures forall k :: 0 <= k < |r| ==> r[k] == x || r[k] in ys
    ensures r[0] == (if ys == [] || x.timestamp >= ys[0].timestamp then x else ys[0])
  {
    if ys == [] || x.timestamp >= ys[0].timestamp then [x] + ys
    else
      assert ys == [ys[0]] + ys[1..];
      [ys[0]] + Insert(x, ys[1..])
  }

  predicate MostRecentFirst(xs: seq<Session>)
  {
    forall i, j :: 0 <= i < j < |xs| ==> xs[i].timestamp >= xs[j].timestamp
  }

  /**
   * `parsed.sort((a, b) => b.timestamp - a.timestamp)`: Array.prototype.sort
   * is stable, so sessions with equal timestamps keep their stored order.
   */
  function ByRecency(xs: seq<Session>): (r: seq<Session>)
    ensures multiset(r) == multiset(xs)
    ensures |r| == |xs|
  {
    if xs == [] then []
    else
      assert xs == [xs[0]] + xs[1..];
      Insert(xs[0], ByRecency(xs[1..]))
  }

  lemma {:induction false} InsertSorted(x: Session, ys: seq<Session>)
    requires MostRecentFirst(ys)
    ensures MostRecentFirst(Insert(x, ys))
    decreases |ys|
  {
    if !(ys == [] || x.timestamp >= ys[0].timestamp) {
      InsertSorted(x, ys[1..]);
      var tail := Insert(x, ys[1..]);
      assert Insert(x, ys) == [ys[0]] + tail;
      forall j | 0 <= j < |tail| ensures ys[0].timestamp >= tail[j].timestamp {
        if tail[j] != x {
          var k :| 0 <= k < |ys[1..]| && ys[1..][k] == tail[j];
          assert ys[k + 1] == tail[j];
        }
      }
    }
  }

  /** The loaded list is in descending order of timestamp. */
  lemma {:induction false} ByRecencySorted(xs: seq<Session>)
    ensures MostRecentFirst(ByRecency(xs))
    decreases |xs|
  {
    if xs != [] {
      ByRecencySorted(xs[1..]);
      InsertSorted(xs[0], ByRecency(xs[1..]));
    }
  }

  /** The position of the earliest stored session among those with the highest timestamp. */
  function FirstMax(xs: seq<Session>): (i: nat)
    requires xs != []
    ensures i < |xs|
    ensures forall k :: 0 <= k < |xs| ==> xs[i].timestamp >= xs[k].timestamp
    ensures forall k :: 0 <= k < i ==> xs[k].timestamp < xs[i].timestamp
  {
    if |xs| == 1 then 0
    else
      var m := FirstMax(xs[1..]);
      if xs[0].timestamp >= xs[1..][m].timestamp then 0 else m + 1
  }

  /** The session loading makes current is the most recent one, the first stored on a tie. */
  lemma {:induction false} ByRecencyHead(xs: seq<Session>)
    requires xs != []
    ensures ByRecency(xs)[0] == xs[FirstMax(xs)]
    decreases |xs|
  {
    if |xs| > 1 {
      ByRecencyHead(xs[1..]);
    }
  }
}
