/**
 * The client's reading of a response body (frontend/src/App.tsx, the read
 * loop of handleCommand): every network read is decoded on its own, split
 * at "\n", blank lines dropped, and each remaining line parsed; lines that
 * do not parse, or parse to something other than a meta or chunk event,
 * are skipped. Nothing is carried from one read to the next.
 */
module Stream {
  import opened Types
  import opened Text
  import opened Wire

  /**
   * `chunk.split("\n").filter(line => line.trim() !== "")`: the lines of a
   * read hold no line break and none is blank (ReadLinesAfterLine says
   * which lines they are, in order).
   */
  function ReadLines(chunk: string): (lines: seq<string>)
    ensures forall k :: 0 <= k < |lines| ==> '\n' !in lines[k] && TrimJs(lines[k]) != ""
  {
    NonBlank(Split(chunk, '\n'))
  }

  /** The filter on blank lines: it keeps exactly the non-blank pieces (NonBlankAppend gives the order). */
  function NonBlank(pieces: seq<string>): (r: seq<string>)
    ensures forall k :: 0 <= k < |r| ==> TrimJs(r[k]) != "" && r[k] in pieces
    ensures KeepsNonBlank(pieces, r)
  {
    if pieces == [] then []
    else
      var rest := NonBlank(pieces[1..]);
      var r := if TrimJs(pieces[0]) == "" then rest else [pieces[0]] + rest;
      KeepsNonBlankCons(pieces, rest, r);
      r
  }

  lemma KeepsNonBlankCons(pieces: seq<string>, rest: seq<string>, r: seq<string>)
    requires pieces != [] && KeepsNonBlank(pieces[1..], rest)
    requires r == (if TrimJs(pieces[0]) == "" then rest else [pieces[0]] + rest)
    ensures KeepsNonBlank(pieces, r)
  {
    forall k | 0 <= k < |pieces| && TrimJs(pieces[k]) != "" ensures pieces[k] in r {
      if k > 0 { assert pieces[k] == pieces[1..][k - 1]; }
    }
  }

  /** Every non-blank piece is among `kept`. */
  predicate KeepsNonBlank(pieces: seq<string>, kept: seq<string>)
  {
    forall k :: 0 <= k < |pieces| && TrimJs(pieces[k]) != "" ==> pieces[k] in kept
  }

  /** One piece is kept exactly when it is not blank. */
  lemma NonBlankOne(piece: string)
    ensures NonBlank([piece]) == (if TrimJs(piece) == "" then [] else [piece])
  {
    assert [piece][1..] == [];
  }

  /** The filter keeps the pieces' order: it distributes over concatenation. */
  lemma {:induction false} NonBlankAppend(a: seq<string>, b: seq<string>)
    ensures NonBlank(a + b) == NonBlank(a) + NonBlank(b)
    decreases |a|
  {
    if a == [] {
      assert a + b == b;
    } else {
      assert (a + b)[1..] == a[1..] + b;
      NonBlankAppend(a[1..], b);
    }
  }

  /** A read that starts with a whole line keeps that line, if it is not blank, in front of the lines of the rest. */
  lemma ReadLinesAfterLine(line: string, rest: string)
    requires '\n' !in line
    ensures ReadLines(line + "\n" + rest) == NonBlank([line]) + ReadLines(rest)
  {
    SplitAfterPiece(line, '\n', rest);
    NonBlankAppend([line], Split(rest, '\n'));
  }

  /** The events of a read's lines, in order; a line that does not decode is skipped. */
  function DecodeLines(lines: seq<string>): seq<Event>
  {
    Gather(lines, LineEvents)
  }

  /** What `f` gives for each element, in order. */
  function Gather<A, B>(xs: seq<A>, f: A -> seq<B>): seq<B>
  {
    if xs == [] then [] else f(xs[0]) + Gather(xs[1..], f)
  }

  lemma {:induction false} GatherAppend<A, B>(a: seq<A>, b: seq<A>, f: A -> seq<B>)
    ensures Gather(a + b, f) == Gather(a, f) + Gather(b, f)
    decreases |a|
  {
    if a != [] {
      assert (a + b)[1..] == a[1..] + b;
      GatherAppend(a[1..], b, f);
    } else {
      assert a + b == b;
    }
  }

  lemma GatherOne<A, B>(x: A, f: A -> seq<B>)
    ensures Gather([x], f) == f(x)
  {
    assert [x][1..] == [];
  }

  lemma GatherCons<A, B>(x: A, rest: seq<A>, f: A -> seq<B>)
    ensures Gather([x] + rest, f) == f(x) + Gather(rest, f)
  {
    assert ([x] + rest)[1..] == rest;
  }

  /** The event of one line, or none when it does not decode. */
  function LineEvents(line: string): (r: seq<Event>)
    ensures |r| <= 1
  {
    match Decode(line)
    case None => []
    case Some(e) => [e]
  }

  function DecodeRead(chunk: string): seq<Event>
  {
    DecodeLines(ReadLines(chunk))
  }

  /** The events of a whole response, read by read. */
  function DecodeReads(chunks: seq<string>): seq<Event>
  {
    if chunks == [] then [] else DecodeReads(chunks[..|chunks| - 1]) + DecodeRead(chunks[|chunks| - 1])
  }

  /** The text a run of events appends to a message: the chunk contents, in order. */
  function ChunkText(events: seq<Event>): string
  {
    if events == [] then ""
    else ChunkText(events[..|events| - 1]) + (match events[|events| - 1] case Chunk(c) => c case Meta(_) => "")
  }

  /** The mode the last meta event carrying a mode sets, or `initial` when there is none. */
  function LastMode(events: seq<Event>, initial: Mode): Mode
  {
    if events == [] then initial
    else
      match events[|events| - 1]
      case Meta(Some(m)) => m
      case _ => LastMode(events[..|events| - 1], initial)
  }

  /** The body a sequence of events makes on the wire. */
  function Body(events: seq<Event>): string
  {
    if events == [] then "" else EncodeLine(events[0]) + Body(events[1..])
  }

  lemma DecodeLinesAppend(a: seq<string>, b: seq<string>)
    ensures DecodeLines(a + b) == DecodeLines(a) + DecodeLines(b)
  {
    GatherAppend(a, b, LineEvents);
  }

  /** One more line adds its event, when it decodes to one. */
  lemma DecodeLinesSnoc(lines: seq<string>, j: int)
    requires 0 <= j < |lines|
    ensures DecodeLines(lines[..j + 1]) == DecodeLines(lines[..j]) + LineEvents(lines[j])
  {
    assert lines[..j + 1] == lines[..j] + [lines[j]];
    GatherAppend(lines[..j], [lines[j]], LineEvents);
    GatherOne(lines[j], LineEvents);
  }

  lemma DecodeOneLine(line: string)
    ensures DecodeLines([line]) == LineEvents(line)
  {
    GatherOne(line, LineEvents);
  }

  /** One more read adds the events of its lines. */
  lemma DecodeReadsSnoc(chunks: seq<string>, i: int)
    requires 0 <= i < |chunks|
    ensures DecodeReads(chunks[..i + 1]) == DecodeReads(chunks[..i]) + DecodeLines(ReadLines(chunks[i]))
  {
    assert chunks[..i + 1][..i] == chunks[..i];
  }

  lemma {:induction false} ChunkTextAppend(a: seq<Event>, b: seq<Event>)
    ensures ChunkText(a + b) == ChunkText(a) + ChunkText(b)
    decreases |b|
  {
    if b == [] {
      assert a + b == a;
    } else {
      assert (a + b)[..|a + b| - 1] == a + b[..|b| - 1];
      ChunkTextAppend(a, b[..|b| - 1]);
    }
  }

  /** An encoded event is never a blank line. */
  lemma EncodeNotBlank(e: Event)
    ensures TrimJs(Encode(e)) != ""
  {
    EncodeHasNoLineBreak(e);
    assert !IsJsSpace(Encode(e)[0]);
  }

  /** The lines a sequence of events encodes to, one per event. */
  function EncodedLines(events: seq<Event>): (lines: seq<string>)
    ensures |lines| == |events|
  {
    if events == [] then [] else [Encode(events[0])] + EncodedLines(events[1..])
  }

  /** Split of a body: the encoded events, then the empty piece after the last line break. */
  lemma {:induction false} SplitBody(events: seq<Event>)
    ensures Split(Body(events), '\n') == EncodedLines(events) + [""]
    decreases |events|
  {
    if events != [] {
      EncodeHasNoLineBreak(events[0]);
      SplitAfterPiece(Encode(events[0]), '\n', Body(events[1..]));
      assert Body(events) == Encode(events[0]) + ['\n'] + Body(events[1..]);
      SplitBody(events[1..]);
    }
  }

  lemma {:induction false} DecodeEncodedLines(events: seq<Event>)
    ensures DecodeLines(NonBlank(EncodedLines(events) + [""])) == events
    decreases |events|
  {
    if events == [] {
      assert EncodedLines(events) + [""] == [""];
      assert TrimJs("") == "";
      assert NonBlank([""]) == [] by { assert [""][1..] == []; }
    } else {
      var rest := EncodedLines(events[1..]) + [""];
      assert EncodedLines(events) + [""] == [Encode(events[0])] + rest;
      EncodeNotBlank(events[0]);
      DecodeEncode(events[0]);
      DecodeGoodLine(Encode(events[0]), rest, events[0]);
      DecodeEncodedLines(events[1..]);
      HeadAndRest(events);
    }
  }

  /** A line that is not blank and decodes keeps its event in front of the rest. */
  lemma DecodeGoodLine(line: string, rest: seq<string>, e: Event)
    requires TrimJs(line) != "" && Decode(line) == Some(e)
    ensures DecodeLines(NonBlank([line] + rest)) == [e] + DecodeLines(NonBlank(rest))
  {
    assert ([line] + rest)[1..] == rest;
    assert NonBlank([line] + rest) == [line] + NonBlank(rest);
    GatherCons(line, NonBlank(rest), LineEvents);
  }

  lemma HeadAndRest(events: seq<Event>)
    requires events != []
    ensures [events[0]] + events[1..] == events
  {
  }

  /** A read that holds whole lines of encoded events gives back exactly those events. */
  lemma DecodeBody(events: seq<Event>)
    ensures DecodeRead(Body(events)) == events
  {
    SplitBody(events);
    DecodeEncodedLines(events);
  }

  /** The reads a sequence of whole-line parts makes, one per part. */
  function Bodies(parts: seq<seq<Event>>): (chunks: seq<string>)
    ensures |chunks| == |parts|
  {
    if parts == [] then [] else Bodies(parts[..|parts| - 1]) + [Body(parts[|parts| - 1])]
  }

  /** Reads that each end at a line boundary give back all the events, in order. */
  lemma {:induction false} DecodeAlignedReads(parts: seq<seq<Event>>)
    ensures DecodeReads(Bodies(parts)) == ConcatEvents(parts)
    decreases |parts|
  {
    if parts != [] {
      var init := parts[..|parts| - 1];
      var chunks := Bodies(parts);
      assert chunks[..|chunks| - 1] == Bodies(init);
      DecodeAlignedReads(init);
      DecodeBody(parts[|parts| - 1]);
    }
  }

  function ConcatEvents(parts: seq<seq<Event>>): seq<Event>
  {
    if parts == [] then [] else ConcatEvents(parts[..|parts| - 1]) + parts[|parts| - 1]
  }

  lemma SplitWhole(s: string)
    requires '\n' !in s
    ensures Split(s, '\n') == [s]
    ensures Split(s + "\n", '\n') == [s, ""]
  {
    SplitAfterPiece(s, '\n', "");
    assert s + ['\n'] + "" == s + "\n";
    SplitAfterPiece(s, '\n', "");
    SplitPieceless(s);
  }

  lemma {:induction false} SplitPieceless(s: string)
    requires '\n' !in s
    ensures Split(s, '\n') == [s]
    decreases |s|
  {
    if s != [] {
      SplitPieceless(s[1..]);
      assert [s[0]] + s[1..] == s;
    }
  }

  /** A line that starts with a quote and ends with a brace is neither event shape. */
  lemma QuoteLineIsNoEvent(s: string)
    requires |s| > 0 && s[0] == '"' && s[|s| - 1] == '}'
    ensures Decode(s) == None
  {
    TrimKeeps(s, IsJsonSpace);
    assert MetaHead[0] == '{' && ChunkHead[0] == '{';
    assert !StartsWith(s, MetaHead) by { assert s[0] != MetaHead[0]; }
    assert !StartsWith(s, ChunkHead) by { assert s[0] != ChunkHead[0]; }
  }

  /** A lone opening brace is too short for either event shape. */
  lemma BraceIsNoEvent(s: string)
    requires |s| == 1 && s[0] == '{'
    ensures Decode(s) == None
  {
    TrimKeeps(s, IsJsonSpace);
    assert |MetaHead| > 1 && |ChunkHead| > 1;
  }

  lemma EncodeStartsWithBraceQuote(e: Event)
    ensures |Encode(e)| > 2 && Encode(e)[..1] == "{" && Encode(e)[1] == '"'
  {
    assert MetaHead[..2] == "{\"" && ChunkHead[..2] == "{\"";
    var line := Encode(e);
    match e
    case Meta(None) =>
      assert line[..2] == MetaHead[..2];
    case Meta(Some(m)) =>
      assert line[..2] == MetaHead[..2];
    case Chunk(text) =>
      assert line[..2] == ChunkHead[..2];
  }

  /** A single line that is not blank and does not decode yields no event. */
  lemma UndecodableRead(s: string)
    requires '\n' !in s && TrimJs(s) != "" && Decode(s) == None
    ensures DecodeRead(s) == [] && DecodeRead(s + "\n") == []
  {
    SplitWhole(s);
    assert TrimJs("") == "";
    NonBlankOne(s);
    NonBlankOne("");
    NonBlankAppend([s], [""]);
    DecodeOneLine(s);
  }

  lemma DecodeReadsOne(a: string)
    ensures DecodeReads([a]) == DecodeRead(a)
  {
    assert [a][..0] == [];
  }

  lemma DecodeReadsTwo(a: string, b: string)
    ensures DecodeReads([a, b]) == DecodeRead(a) + DecodeRead(b)
  {
    assert [a, b][..1] == [a];
    DecodeReadsOne(a);
  }

  /** Both halves of a line cut after its opening brace are lost. */
  lemma OpeningHalfIsLost(line: string)
    requires '\n' !in line && |line| > 2 && line[0] == '{'
    ensures DecodeRead(line[..1]) == []
  {
    var first := line[..1];
    assert first == ['{'];
    BraceIsNoEvent(first);
    TrimKeeps(first, IsJsSpace);
    UndecodableRead(first);
  }

  lemma ClosingHalfIsLost(line: string)
    requires '\n' !in line && |line| > 2 && line[1] == '"' && line[|line| - 1] == '}'
    ensures DecodeRead(line[1..] + "\n") == []
  {
    var second := line[1..];
    assert second[0] == '"' && second[|second| - 1] == '}';
    assert '\n' !in second by {
      assert forall k :: 0 <= k < |second| ==> second[k] == line[k + 1];
    }
    QuoteLineIsNoEvent(second);
    TrimKeeps(second, IsJsSpace);
    UndecodableRead(second);
  }

  /**
   * Without buffering across reads, a line that the network splits in two
   * is lost: the first read ends inside the object and the second starts
   * inside it, so neither part decodes, while the same bytes in one read
   * decode to the event.
   */
  lemma SplitLineIsLost(e: Event)
    ensures DecodeReads([EncodeLine(e)]) == [e]
    ensures |Encode(e)| > 0 && DecodeReads([Encode(e)[..1], Encode(e)[1..] + "\n"]) == []
  {
    WholeLineRead(e);
    CutLineRead(e);
  }

  lemma WholeLineRead(e: Event)
    ensures DecodeReads([EncodeLine(e)]) == [e]
  {
    assert Body([e]) == EncodeLine(e) by { assert [e][1..] == []; }
    DecodeBody([e]);
    DecodeReadsOne(EncodeLine(e));
  }

  lemma CutLineRead(e: Event)
    ensures |Encode(e)| > 0 && DecodeReads([Encode(e)[..1], Encode(e)[1..] + "\n"]) == []
  {
    EncodeHasNoLineBreak(e);
    EncodeStartsWithBraceQuote(e);
    CutHalvesLost(Encode(e));
  }

  lemma CutHalvesLost(line: string)
    requires '\n' !in line && |line| > 2 && line[0] == '{' && line[1] == '"' && line[|line| - 1] == '}'
    ensures DecodeReads([line[..1], line[1..] + "\n"]) == []
  {
    OpeningHalfIsLost(line);
    ClosingHalfIsLost(line);
    DecodeReadsTwo(line[..1], line[1..] + "\n");
  }
}
