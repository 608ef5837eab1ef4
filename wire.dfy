/**
 * The wire format between the service and the client: one JSON object per
 * line, terminated by "\n" (application/x-ndjson). The service writes two
 * shapes with json.dumps and its default settings (separators ", " and
 * ": ", keys in insertion order, ensure_ascii escaping):
 *
 *   {"mode": "ALIGN", "type": "meta"}
 *   {"content": "<escaped text>", "type": "chunk"}
 *
 * Decode recognises exactly these two shapes (and a meta line whose mode
 * is null or empty); any other line is treated like one JSON.parse rejects.
 * The escaping follows section 7 of RFC 8259 as json.dumps applies it:
 * every character outside printable ASCII is written as \uXXXX (a
 * surrogate pair above U+FFFF), so an encoded line never holds a raw
 * line break.
 */
module Wire {
  import opened Types
  import opened Text

  /** One decoded unit of the stream. */
  datatype Event = Meta(mode: Option<Mode>) | Chunk(content: string)

  function HexDigit(d: int): (c: char)
    requires 0 <= d < 16
    ensures 0x20 <= c as int < 0x7F
  {
    if d < 10 then ('0' as int + d) as char else ('a' as int + d - 10) as char
  }

  /** Four lower-case hex digits, as Python's format "04x" writes them. */
  function Hex4(n: int): (r: string)
    requires 0 <= n < 0x10000
    ensures |r| == 4
  {
    [HexDigit(n / 16 / 16 / 16), HexDigit(n / 16 / 16 % 16), HexDigit(n / 16 % 16), HexDigit(n % 16)]
  }

  function DigitValue(c: char): (r: Option<int>)
    ensures r.Some? ==> 0 <= r.value < 16
  {
    if '0' <= c <= '9' then Some(c as int - '0' as int)
    else if 'a' <= c <= 'f' then Some(c as int - 'a' as int + 10)
    else if 'A' <= c <= 'F' then Some(c as int - 'A' as int + 10)
    else None
  }

  function ParseHex4(s: string): (r: Option<int>)
    requires |s| == 4
    ensures r.Some? ==> 0 <= r.value < 0x10000
  {
    var a, b, c, d := DigitValue(s[0]), DigitValue(s[1]), DigitValue(s[2]), DigitValue(s[3]);
    if a.Some? && b.Some? && c.Some? && d.Some? then
      Some(a.value * 4096 + b.value * 256 + c.value * 16 + d.value)
    else None
  }

  lemma ParseHex4Hex4(n: int)
    requires 0 <= n < 0x10000
    ensures ParseHex4(Hex4(n)) == Some(n)
  {
    var s := Hex4(n);
    var d0, d1, d2, d3 := n / 16 / 16 / 16, n / 16 / 16 % 16, n / 16 % 16, n % 16;
    DigitRoundTrip(d0);
    DigitRoundTrip(d1);
    DigitRoundTrip(d2);
    DigitRoundTrip(d3);
    HexPlaces(n);
  }

  lemma DigitRoundTrip(d: int)
    requires 0 <= d < 16
    ensures DigitValue(HexDigit(d)) == Some(d)
  {
  }

  /** The four base-16 places of a number below 0x10000. */
  lemma HexPlaces(n: int)
    requires 0 <= n < 0x10000
    ensures n == (n / 16 / 16 / 16) * 4096 + (n / 16 / 16 % 16) * 256 + (n / 16 % 16) * 16 + n % 16
    ensures n / 16 / 16 / 16 < 16
  {
    var q1, d3 := n / 16, n % 16;
    var q2, d2 := q1 / 16, q1 % 16;
    var d0, d1 := q2 / 16, q2 % 16;
    assert n == 16 * q1 + d3 && q1 == 16 * q2 + d2 && q2 == 16 * d0 + d1;
  }

  /** Printable ASCII only: in particular no line break, no control character. */
  predicate Printable(s: string)
  {
    forall i :: 0 <= i < |s| ==> 0x20 <= s[i] as int < 0x7F
  }

  /** The JSON escape json.dumps writes for one character. */
  function EscapeChar(c: char): (r: string)
    ensures Printable(r)
    ensures |r| >= 1
  {
    if c == '"' then ['\\', '"']
    else if c == '\\' then ['\\', '\\']
    else if c == '\n' then ['\\', 'n']
    else if c == '\r' then ['\\', 'r']
    else if c == '\t' then ['\\', 't']
    else if c as int == 0x08 then ['\\', 'b']
    else if c as int == 0x0C then ['\\', 'f']
    else if 0x20 <= c as int < 0x7F then [c]
    else if c as int < 0x10000 then ['\\', 'u'] + Hex4(c as int)
    else
      var v := c as int - 0x10000;
      ['\\', 'u'] + Hex4(0xD800 + v / 1024) + ['\\', 'u'] + Hex4(0xDC00 + v % 1024)
  }

  function Escape(s: string): (r: string)
    ensures Printable(r)
  {
    if s == [] then [] else EscapeChar(s[0]) + Escape(s[1..])
  }

  function Cons(c: char, rest: Option<string>): Option<string>
  {
    match rest
    case None => None
    case Some(t) => Some([c] + t)
  }

  /** The character a two-character escape \x stands for, \u aside. */
  function SimpleEscape(x: char): Option<char>
  {
    if x == '"' then Some('"')
    else if x == '\\' then Some('\\')
    else if x == '/' then Some('/')
    else if x == 'b' then Some(0x08 as char)
    else if x == 'f' then Some(0x0C as char)
    else if x == 'n' then Some('\n')
    else if x == 'r' then Some('\r')
    else if x == 't' then Some('\t')
    else None
  }

  /** The code point a UTF-16 surrogate pair stands for. */
  function FromSurrogates(high: int, low: int): char
    requires 0xD800 <= high < 0xDC00 && 0xDC00 <= low < 0xE000
  {
    (0x10000 + (high - 0xD800) * 1024 + (low - 0xDC00)) as char
  }

  /**
   * The text a JSON string body denotes, or None when it is not a valid
   * body: a raw quote or control character, an unknown or cut-off escape,
   * or a lone surrogate.
   */
  function Unescape(s: string): Option<string>
    decreases |s|
  {
    if s == [] then Some([])
    else if s[0] == '"' || s[0] as int < 0x20 then None
    else if s[0] != '\\' then Cons(s[0], Unescape(s[1..]))
    else if |s| < 2 then None
    else if s[1] != 'u' then
      match SimpleEscape(s[1])
      case None => None
      case Some(c) => Cons(c, Unescape(s[2..]))
    else if |s| < 6 then None
    else
      match ParseHex4(s[2..6])
      case None => None
      case Some(h) =>
        if 0xD800 <= h < 0xDC00 then
          if |s| >= 12 && s[6] == '\\' && s[7] == 'u' then
            match ParseHex4(s[8..12])
            case None => None
            case Some(l) =>
              if 0xDC00 <= l < 0xE000 then Cons(FromSurrogates(h, l), Unescape(s[12..])) else None
          else None
        else if 0xDC00 <= h < 0xE000 then None
        else Cons(h as char, Unescape(s[6..]))
  }

  /** A two-character escape is undone. */
  lemma UnescapeShort(c: char, x: char, rest: string)
    requires SimpleEscape(x) == Some(c) && x != 'u'
    ensures Unescape(['\\', x] + rest) == Cons(c, Unescape(rest))
  {
    var s := ['\\', x] + rest;
    assert s[0] == '\\' && s[1] == x && s[2..] == rest;
  }

  /** A \uXXXX escape of a character of the Basic Multilingual Plane is undone. */
  lemma UnescapeBmp(c: char, rest: string)
    requires c as int < 0x10000
    ensures Unescape(['\\', 'u'] + Hex4(c as int) + rest) == Cons(c, Unescape(rest))
  {
    var s := ['\\', 'u'] + Hex4(c as int) + rest;
    assert s[0] == '\\' && s[1] == 'u';
    assert s[2..6] == Hex4(c as int);
    ParseHex4Hex4(c as int);
    assert s[6..] == rest;
  }

  /** A surrogate-pair escape of a character above U+FFFF is undone. */
  lemma UnescapeAstral(c: char, rest: string)
    requires c as int >= 0x10000
    ensures var v := c as int - 0x10000;
      Unescape(['\\', 'u'] + Hex4(0xD800 + v / 1024) + ['\\', 'u'] + Hex4(0xDC00 + v % 1024) + rest)
      == Cons(c, Unescape(rest))
  {
    var v := c as int - 0x10000;
    var high, low := 0xD800 + v / 1024, 0xDC00 + v % 1024;
    var s := ['\\', 'u'] + Hex4(high) + ['\\', 'u'] + Hex4(low) + rest;
    assert s[0] == '\\' && s[1] == 'u';
    assert s[2..6] == Hex4(high);
    ParseHex4Hex4(high);
    assert s[6] == '\\' && s[7] == 'u';
    assert s[8..12] == Hex4(low);
    ParseHex4Hex4(low);
    assert s[12..] == rest;
    assert FromSurrogates(high, low) == c;
  }

  /** Unescaping undoes the escape of one character. */
  lemma UnescapeEscapeChar(c: char, rest: string)
    ensures Unescape(EscapeChar(c) + rest) == Cons(c, Unescape(rest))
  {
    if c == '"' {
      UnescapeShort(c, '"', rest);
    } else if c == '\\' {
      UnescapeShort(c, '\\', rest);
    } else if c == '\n' {
      UnescapeShort(c, 'n', rest);
    } else if c == '\r' {
      UnescapeShort(c, 'r', rest);
    } else if c == '\t' {
      UnescapeShort(c, 't', rest);
    } else if c as int == 0x08 {
      UnescapeShort(c, 'b', rest);
    } else if c as int == 0x0C {
      UnescapeShort(c, 'f', rest);
    } else if 0x20 <= c as int < 0x7F {
      var s := [c] + rest;
      assert s[0] == c && s[1..] == rest;
    } else if c as int < 0x10000 {
      UnescapeBmp(c, rest);
    } else {
      UnescapeAstral(c, rest);
    }
  }

  lemma {:induction false} UnescapeEscape(s: string)
    ensures Unescape(Escape(s)) == Some(s)
    decreases |s|
  {
    if s != [] {
      UnescapeEscape(s[1..]);
      UnescapeEscapeChar(s[0], Escape(s[1..]));
      assert [s[0]] + s[1..] == s;
    }
  }

  const MetaHead: string := "{\"mode\": "
  const MetaTail: string := ", \"type\": \"meta\"}"
  const ChunkHead: string := "{\"content\": \""
  const ChunkTail: string := "\", \"type\": \"chunk\"}"

  /** json.dumps of the event's object, without the line break. */
  function Encode(e: Event): string
  {
    match e
    case Meta(None) => MetaHead + "null" + MetaTail
    case Meta(Some(m)) => MetaHead + "\"" + Escape(ModeName(m)) + "\"" + MetaTail
    case Chunk(text) => ChunkHead + Escape(text) + ChunkTail
  }

  /** One line of the response body. */
  function EncodeLine(e: Event): string
  {
    Encode(e) + "\n"
  }

  /** The whitespace JSON.parse accepts around a value. */
  predicate IsJsonSpace(c: char)
  {
    c == ' ' || c == '\t' || c == '\n' || c == '\r'
  }

  /** The event a meta line's mode value stands for; an empty or null mode is no mode. */
  function DecodeMode(value: string): Option<Event>
  {
    if value == "null" then Some(Meta(None))
    else if |value| >= 2 && value[0] == '"' && value[|value| - 1] == '"' then
      match Unescape(value[1..|value| - 1])
      case None => None
      case Some(name) =>
        if name == "" then Some(Meta(None))
        else
          match ModeFromName(name)
          case None => None
          case Some(m) => Some(Meta(Some(m)))
    else None
  }

  /** The body of `s` between a known head and tail, when it has both. */
  function Between(s: string, head: string, tail: string): Option<string>
  {
    if StartsWith(s, head) && |head| + |tail| <= |s| && EndsWith(s, tail) then
      Some(s[|head|..|s| - |tail|])
    else None
  }

  /** `JSON.parse(line)` followed by the client's look at `type`, `mode` and `content`. */
  function Decode(line: string): Option<Event>
  {
    DecodeObject(Trim(line, IsJsonSpace))
  }

  /** The event of a line without surrounding whitespace. */
  function DecodeObject(t: string): Option<Event>
  {
    match Between(t, MetaHead, MetaTail)
    case Some(value) => DecodeMode(value)
    case None =>
      match Between(t, ChunkHead, ChunkTail)
      case None => None
      case Some(body) =>
        match Unescape(body)
        case None => None
        case Some(text) => Some(Chunk(text))
  }

  lemma ModeNameInjective(m: Mode, n: Mode)
    requires ModeName(m) == ModeName(n)
    ensures m == n
  {
  }

  lemma TrimKeeps(s: string, ws: char -> bool)
    requires s != [] && !ws(s[0]) && !ws(s[|s| - 1])
    ensures Trim(s, ws) == s
  {
  }

  lemma BetweenParts(head: string, body: string, tail: string)
    ensures Between(head + body + tail, head, tail) == Some(body)
  {
    var s := head + body + tail;
    assert s[..|head|] == head;
    assert s[|s| - |tail|..] == tail;
    assert s[|head|..|s| - |tail|] == body;
  }

  lemma PrintableHasNoLineBreak(s: string)
    requires Printable(s)
    ensures '\n' !in s
  {
    assert forall i :: 0 <= i < |s| ==> s[i] != '\n';
  }

  /** No line break can occur inside an encoded event; it is framed by braces. */
  lemma EncodeHasNoLineBreak(e: Event)
    ensures '\n' !in Encode(e)
    ensures |Encode(e)| > 0 && Encode(e)[0] == '{' && Encode(e)[|Encode(e)| - 1] == '}'
  {
    assert '\n' !in MetaHead && '\n' !in MetaTail && '\n' !in ChunkHead && '\n' !in ChunkTail;
    assert MetaHead[0] == '{' && ChunkHead[0] == '{';
    assert MetaTail[|MetaTail| - 1] == '}' && ChunkTail[|ChunkTail| - 1] == '}';
    match e
    case Meta(None) =>
    case Meta(Some(m)) =>
      PrintableHasNoLineBreak(Escape(ModeName(m)));
    case Chunk(text) =>
      PrintableHasNoLineBreak(Escape(text));
  }

  lemma DecodeMetaLine(value: string)
    ensures Decode(MetaHead + value + MetaTail) == DecodeMode(value)
  {
    var s := MetaHead + value + MetaTail;
    assert s[0] == '{' && s[|s| - 1] == '}';
    TrimKeeps(s, IsJsonSpace);
    BetweenParts(MetaHead, value, MetaTail);
  }

  lemma DecodeChunkLine(body: string, text: string)
    requires Unescape(body) == Some(text)
    ensures Decode(ChunkHead + body + ChunkTail) == Some(Chunk(text))
  {
    var s := ChunkHead + body + ChunkTail;
    assert s[0] == '{' && s[|s| - 1] == '}';
    TrimKeeps(s, IsJsonSpace);
    assert s[2] == 'c' && MetaHead[2] == 'm';
    assert Between(s, MetaHead, MetaTail) == None;
    BetweenParts(ChunkHead, body, ChunkTail);
  }

  lemma DecodeModeName(m: Mode)
    ensures DecodeMode("\"" + Escape(ModeName(m)) + "\"") == Some(Meta(Some(m)))
  {
    var value := "\"" + Escape(ModeName(m)) + "\"";
    assert value[1..|value| - 1] == Escape(ModeName(m));
    UnescapeEscape(ModeName(m));
    var r := ModeFromName(ModeName(m));
    ModeNameInjective(r.value, m);
  }

  lemma DecodeEncodeMeta(mode: Option<Mode>)
    ensures Decode(Encode(Meta(mode))) == Some(Meta(mode))
  {
    match mode
    case None =>
      DecodeMetaLine("null");
    case Some(m) =>
      DecodeEncodeMode(m);
  }

  lemma DecodeEncodeMode(m: Mode)
    ensures Decode(Encode(Meta(Some(m)))) == Some(Meta(Some(m)))
  {
    var value := "\"" + Escape(ModeName(m)) + "\"";
    assert Encode(Meta(Some(m))) == MetaHead + value + MetaTail;
    DecodeMetaLine(value);
    DecodeModeName(m);
  }

  lemma DecodeEncodeChunk(text: string)
    ensures Decode(Encode(Chunk(text))) == Some(Chunk(text))
  {
    UnescapeEscape(text);
    DecodeChunkLine(Escape(text), text);
  }

  /** The client decodes every line the service encodes back to the same event. */
  lemma DecodeEncode(e: Event)
    ensures Decode(Encode(e)) == Some(e)
  {
    if e.Meta? {
      DecodeEncodeMeta(e.mode);
    } else {
      DecodeEncodeChunk(e.content);
    }
  }
}
