/** The incremental server-sent-events parser: a text buffer, a scan for the blank
    line that ends a block, and a reader of `event:` and `data:` lines.

    Chunks are taken as text: the parser decodes them one at a time, and every
    character it looks for is a single byte. */
module SseFraming {
  import opened Prelude

  datatype SseEvent = SseEvent(event: Option<string>, data: string)

  const LF := '\n'
  const CR := '\r'

  // ---- Boundaries ----

  /** The length of the delimiter that starts at `i`, or 0. */
  function DelimiterAt(s: string, i: nat): nat {
    if i + 1 >= |s| then 0
    else if s[i] == LF && s[i + 1] == LF then 2
    else if s[i] == CR && i + 3 < |s| && s[i + 1] == LF && s[i + 2] == CR && s[i + 3] == LF then 4
    else if s[i] == CR && s[i + 1] == CR then 2
    else 0
  }

  function BoundaryFrom(s: string, i: nat): (end: Option<nat>)
    requires i <= |s|
    ensures end.Some? ==> i + 2 <= end.value <= |s|
    decreases |s| - i
  {
    if i == |s| then None
    else if DelimiterAt(s, i) > 0 then Some(i + DelimiterAt(s, i))
    else BoundaryFrom(s, i + 1)
  }

  /** Where the first block of the buffer ends, if one is complete. */
  function Boundary(s: string): (end: Option<nat>)
    ensures end.Some? ==> 2 <= end.value <= |s|
  {
    BoundaryFrom(s, 0)
  }

  method FindEventBoundary(buffer: string) returns (end: Option<nat>)
    ensures end == Boundary(buffer)
  {
    var n := if |buffer| == 0 then 0 else |buffer| - 1;
    for i := 0 to n
      invariant BoundaryFrom(buffer, i) == Boundary(buffer)
    {
      if buffer[i] == LF && buffer[i + 1] == LF {
        return Some(i + 2);
      } else if buffer[i] == CR && i + 3 < |buffer|
        && buffer[i + 1] == LF && buffer[i + 2] == CR && buffer[i + 3] == LF {
        return Some(i + 4);
      } else if buffer[i] == CR && buffer[i + 1] == CR {
        return Some(i + 2);
      }
    }
    if n < |buffer| {
      assert BoundaryFrom(buffer, n + 1) == None;
    }
    end := None;
  }

  // ---- Lines ----

  /** The characters the parser's trimming removes: Unicode White_Space. */
  predicate IsWhitespace(c: char) {
    || '\U{0009}' <= c <= '\U{000D}' || c == ' '
    || c == '\U{0085}' || c == '\U{00A0}' || c == '\U{1680}'
    || '\U{2000}' <= c <= '\U{200A}' || c == '\U{2028}' || c == '\U{2029}'
    || c == '\U{202F}' || c == '\U{205F}' || c == '\U{3000}'
  }

  function TrimStart(s: string): string {
    if s == "" || !IsWhitespace(s[0]) then s else TrimStart(s[1..])
  }

  function TrimEnd(s: string): string {
    if s == "" || !IsWhitespace(s[|s| - 1]) then s else TrimEnd(s[..|s| - 1])
  }

  function Trim(s: string): string {
    TrimEnd(TrimStart(s))
  }

  function IndexOf(s: string, c: char): (i: nat)
    ensures i <= |s|
    ensures i < |s| ==> s[i] == c
    ensures forall j :: 0 <= j < i ==> s[j] != c
  {
    if s == "" || s[0] == c then 0 else 1 + IndexOf(s[1..], c)
  }

  /** A carriage return belongs to the line end only in front of a line feed. */
  function StripCr(line: string): string {
    if line != "" && line[|line| - 1] == CR then line[..|line| - 1] else line
  }

  /** The lines of a text; the last one needs no line feed, and an empty
      remainder is no line. */
  function Lines(s: string): seq<string>
    decreases |s|
  {
    if s == "" then []
    else
      var i := IndexOf(s, LF);
      if i == |s| then [s] else [StripCr(s[..i])] + Lines(s[i + 1..])
  }

  predicate HasPrefix(s: string, prefix: string) {
    prefix <= s
  }

  const EVENT_FIELD := "event:"
  const DATA_FIELD := "data:"

  function JoinLines(lines: seq<string>): string {
    if lines == [] then ""
    else if |lines| == 1 then lines[0]
    else lines[0] + [LF] + JoinLines(lines[1..])
  }

  /** The value of the last `event:` line. */
  function EventName(lines: seq<string>): Option<string> {
    if lines == [] then None
    else
      var last := lines[|lines| - 1];
      if HasPrefix(last, EVENT_FIELD) then Some(Trim(last[|EVENT_FIELD|..]))
      else EventName(lines[..|lines| - 1])
  }

  /** The values of the `data:` lines. */
  function DataLines(lines: seq<string>): seq<string> {
    if lines == [] then []
    else
      var last := lines[|lines| - 1];
      DataLines(lines[..|lines| - 1]) +
      (if HasPrefix(last, DATA_FIELD) then [TrimStart(last[|DATA_FIELD|..])] else [])
  }

  /** A block means an event only if it has a `data:` line. */
  function Parse(block: string): Option<SseEvent> {
    var data := DataLines(Lines(block));
    if data == [] then None else Some(SseEvent(EventName(Lines(block)), JoinLines(data)))
  }

  method ParseEventBlock(block: string) returns (event: Option<SseEvent>)
    ensures event == Parse(block)
  {
    var eventName: Option<string> := None;
    var dataLines: seq<string> := [];
    var lines := Lines(block);
    for i := 0 to |lines|
      invariant eventName == EventName(lines[..i]) && dataLines == DataLines(lines[..i])
    {
      assert lines[..i + 1][..i] == lines[..i];
      var line := lines[i];
      if HasPrefix(line, EVENT_FIELD) {
        eventName := Some(Trim(line[|EVENT_FIELD|..]));
        assert EVENT_FIELD[0] == 'e' && DATA_FIELD[0] == 'd' && line[0] == 'e';
      } else if HasPrefix(line, DATA_FIELD) {
        dataLines := dataLines + [TrimStart(line[|DATA_FIELD|..])];
      }
    }
    assert lines[..|lines|] == lines;
    if dataLines == [] {
      return None;
    }
    event := Some(SseEvent(eventName, JoinLines(dataLines)));
  }

  // ---- The stream ----

  /** What one poll of the byte stream under the parser can give. */
  datatype Item = Chunk(text: string) | Failure(code: int) | Pending

  datatype PollResult = Ready(event: SseEvent) | Failed(code: int) | NotReady | Finished

  /** Takes the first complete block off the buffer. Nothing comes back both when
      no block is complete and when the block has no data. */
  function Extract(buffer: string): (r: (Option<SseEvent>, string))
    ensures |r.1| <= |buffer|
    ensures r.0.Some? ==> |r.1| < |buffer|
  {
    match Boundary(buffer)
    case None => (None, buffer)
    case Some(end) => (Parse(buffer[..end]), buffer[end..])
  }

  datatype Polled = Polled(result: PollResult, buffer: string, inner: seq<Item>)

  /** One poll: every item taken from the stream below is preceded by one attempt
      to extract, and the end of that stream is followed by one more. */
  function Poll(buffer: string, inner: seq<Item>): (p: Polled)
    ensures |p.inner| <= |inner|
    ensures p.result.Ready? && |p.inner| == |inner| ==> |p.buffer| < |buffer|
    ensures p.result.Failed? || p.result.NotReady? ==> |p.inner| < |inner|
    decreases |inner|
  {
    var (event, rest) := Extract(buffer);
    if event.Some? then Polled(Ready(event.value), rest, inner)
    else if inner == [] then
      var (event2, rest2) := Extract(rest);
      Polled(if event2.Some? then Ready(event2.value) else Finished, rest2, inner)
    else
      match inner[0]
      case Chunk(text) => Poll(rest + text, inner[1..])
      case Failure(code) => Polled(Failed(code), rest, inner[1..])
      case Pending => Polled(NotReady, rest, inner[1..])
  }

  class SseStream {
    /** What the byte stream below will still give; empty means ended. */
    var inner: seq<Item>
    var buffer: string

    constructor (items: seq<Item>)
      ensures inner == items && buffer == ""
    {
      inner, buffer := items, "";
    }

    method ExtractEvent() returns (event: Option<SseEvent>)
      modifies this`buffer
      ensures (event, buffer) == Extract(old(buffer))
    {
      var boundary := FindEventBoundary(buffer);
      if boundary.None? {
        return None;
      }
      var raw := buffer[..boundary.value];
      buffer := buffer[boundary.value..];
      event := ParseEventBlock(raw);
    }

    method PollNext() returns (result: PollResult)
      modifies this
      ensures Polled(result, buffer, inner) == Poll(old(buffer), old(inner))
    {
      while true
        invariant Poll(buffer, inner) == Poll(old(buffer), old(inner))
        decreases |inner|
      {
        var event := ExtractEvent();
        if event.Some? {
          return Ready(event.value);
        }
        if inner == [] {
          event := ExtractEvent();
          if event.Some? {
            return Ready(event.value);
          }
          return Finished;
        }
        var item := inner[0];
        inner := inner[1..];
        match item {
          case Chunk(text) => buffer := buffer + text;
          case Failure(code) => return Failed(code);
          case Pending => return NotReady;
        }
      }
    }
  }
}
