/** Printing events and parsing them back: which events survive the trip, under
    which line ends, however the printed text is cut into chunks. */
module SseRoundTrip {
  import opened Prelude
  import opened SseFraming
  import opened SseReading
  import opened SseTheorems

  /** An event as a sender has it: an optional name and the lines of its data. */
  datatype Payload = Payload(name: Option<string>, lines: seq<string>)

  datatype LineEnd = Lf | CrLf | CrOnly

  function Eol(e: LineEnd): string {
    match e
    case Lf => "\n"
    case CrLf => "\r\n"
    case CrOnly => "\r"
  }

  /** One field a line, a blank line after the last. */
  function Print(p: Payload, e: LineEnd): string {
    PrintFields(Fields(p), e) + Eol(e)
  }

  function PrintAll(ps: seq<Payload>, e: LineEnd): string {
    if ps == [] then "" else Print(ps[0], e) + PrintAll(ps[1..], e)
  }

  function Fields(p: Payload): seq<string> {
    (if p.name.Some? then ["event: " + p.name.value] else []) + DataFields(p.lines)
  }

  function DataFields(lines: seq<string>): (fields: seq<string>)
    ensures |fields| == |lines|
  {
    if lines == [] then []
    else DataFields(lines[..|lines| - 1]) + ["data: " + lines[|lines| - 1]]
  }

  function PrintFields(fields: seq<string>, e: LineEnd): string {
    if fields == [] then "" else fields[0] + Eol(e) + PrintFields(fields[1..], e)
  }

  ghost predicate NoLineEnds(s: string) {
    forall i :: 0 <= i < |s| ==> s[i] != '\n' && s[i] != '\r'
  }

  /** What any sender may print: at least one data line, no line ends inside. */
  ghost predicate Printable(p: Payload) {
    && p.lines != []
    && (forall i :: 0 <= i < |p.lines| ==> NoLineEnds(p.lines[i]))
    && (p.name.Some? ==> NoLineEnds(p.name.value))
  }

  /** The event the sender means. */
  function Meant(p: Payload): SseEvent {
    SseEvent(p.name, JoinLines(p.lines))
  }

  function TrimLines(lines: seq<string>): (r: seq<string>)
    ensures |r| == |lines|
    ensures forall i :: 0 <= i < |r| ==> r[i] == TrimStart(lines[i])
  {
    if lines == [] then [] else TrimLines(lines[..|lines| - 1]) + [TrimStart(lines[|lines| - 1])]
  }

  /** The event the parser reads instead. */
  function Received(p: Payload): SseEvent {
    SseEvent(if p.name.Some? then Some(Trim(p.name.value)) else None, JoinLines(TrimLines(p.lines)))
  }

  // ---- The boundary of a printed block ----

  ghost predicate SpacedAt(body: string, e: LineEnd, k: nat)
    requires k < |body|
  {
    && (body[k] == LF && k + 1 < |body| ==> body[k + 1] != LF && body[k + 1] != CR)
    && (body[k] == CR ==> e.CrLf? && k + 1 < |body| && body[k + 1] == LF)
  }

  /** Text whose every line end is followed by the start of a line, or nothing. */
  ghost predicate Spaced(body: string, e: LineEnd) {
    forall k :: 0 <= k < |body| ==> SpacedAt(body, e, k)
  }

  ghost predicate PlainFields(fields: seq<string>) {
    forall i :: 0 <= i < |fields| ==> fields[i] != "" && NoLineEnds(fields[i])
  }

  lemma {:induction false} PrintedIsSpaced(fields: seq<string>, e: LineEnd)
    requires PlainFields(fields) && !e.CrOnly?
    ensures Spaced(PrintFields(fields, e), e)
    ensures fields != [] ==>
      var body := PrintFields(fields, e);
      && |body| > |Eol(e)| && body[|body| - |Eol(e)|..] == Eol(e)
      && body[0] != LF && body[0] != CR
  {
    if fields != [] {
      PrintedIsSpaced(fields[1..], e);
      var field, rest := fields[0], PrintFields(fields[1..], e);
      assert fields[1..] == [] ==> rest == "";
      FieldKeepsSpacing(field, rest, e);
      var body := field + Eol(e) + rest;
      assert body[0] == field[0];
      if rest == "" {
        assert fields[1..] == [];
      } else {
        assert body[|body| - |Eol(e)|..] == rest[|rest| - |Eol(e)|..];
      }
    }
  }

  lemma {:induction false} FieldKeepsSpacing(field: string, rest: string, e: LineEnd)
    requires NoLineEnds(field) && !e.CrOnly? && Spaced(rest, e)
    requires rest != "" ==> rest[0] != LF && rest[0] != CR
    ensures Spaced(field + Eol(e) + rest, e)
  {
    var body := field + Eol(e) + rest;
    var at := |field| + |Eol(e)|;
    assert body[at - 1] == LF && (e.CrLf? ==> body[at - 2] == CR);
    assert at < |body| ==> body[at] == rest[0];
    forall k | 0 <= k < |body| ensures SpacedAt(body, e, k) {
      if k < |field| {
        assert body[k] == field[k];
      } else if k >= at {
        assert SpacedAt(rest, e, k - at);
        assert body[k] == rest[k - at];
        assert k + 1 < |body| ==> body[k + 1] == rest[k + 1 - at];
      }
    }
  }

  lemma {:induction false} NoDelimiterSkips(s: string, i: nat, j: nat)
    requires i <= j <= |s|
    requires forall k :: i <= k < j ==> DelimiterAt(s, k) == 0
    ensures BoundaryFrom(s, i) == BoundaryFrom(s, j)
    decreases j - i
  {
    if i < j {
      NoDelimiterSkips(s, i + 1, j);
    }
  }

  /** No delimiter starts inside the fields, before their last line end. */
  lemma {:induction false} NoDelimiterInside(body: string, e: LineEnd, s: string, k: nat)
    requires Spaced(body, e) && !e.CrOnly? && body <= s && k + |Eol(e)| < |body|
    ensures DelimiterAt(s, k) == 0
  {
    assert SpacedAt(body, e, k);
    assert s[k] == body[k] && s[k + 1] == body[k + 1];
    if s[k] == CR {
      assert SpacedAt(body, e, k + 1);
      assert k + 2 < |body| && s[k + 2] == body[k + 2];
    }
  }

  lemma {:induction false} DelimiterAtEnd(body: string, e: LineEnd, s: string)
    requires !e.CrOnly? && |body| >= |Eol(e)| && body[|body| - |Eol(e)|..] == Eol(e)
    requires body + Eol(e) <= s
    ensures DelimiterAt(s, |body| - |Eol(e)|) == 2 * |Eol(e)|
  {
    var n, at := |Eol(e)|, |body| - |Eol(e)|;
    assert forall k :: 0 <= k < n ==> s[at + k] == body[at..][k] && s[|body| + k] == Eol(e)[k];
  }

  /** A printed block is the first block of whatever text it begins. */
  lemma {:induction false} PrintedBoundary(p: Payload, e: LineEnd, rest: string)
    requires Printable(p) && !e.CrOnly?
    ensures Boundary(Print(p, e) + rest) == Some(|Print(p, e)|)
  {
    FieldsArePlain(p);
    PrintedIsSpaced(Fields(p), e);
    var body := PrintFields(Fields(p), e);
    var s := Print(p, e) + rest;
    var at := |body| - |Eol(e)|;
    assert body <= s;
    forall k | 0 <= k < at ensures DelimiterAt(s, k) == 0 {
      NoDelimiterInside(body, e, s, k);
    }
    NoDelimiterSkips(s, 0, at);
    DelimiterAtEnd(body, e, s);
  }

  lemma {:induction false} DataFieldsArePlain(lines: seq<string>)
    requires forall i :: 0 <= i < |lines| ==> NoLineEnds(lines[i])
    ensures PlainFields(DataFields(lines))
  {
    if lines != [] {
      DataFieldsArePlain(lines[..|lines| - 1]);
      var last := "data: " + lines[|lines| - 1];
      assert NoLineEnds(DATA_FIELD) && NoLineEnds(" ");
      assert NoLineEnds(last) && last != "";
    }
  }

  lemma {:induction false} FieldsArePlain(p: Payload)
    requires Printable(p)
    ensures PlainFields(Fields(p)) && Fields(p) != []
  {
    DataFieldsArePlain(p.lines);
    if p.name.Some? {
      var first := "event: " + p.name.value;
      assert NoLineEnds(EVENT_FIELD) && NoLineEnds(" ");
      assert NoLineEnds(first) && first != "";
    }
  }

  // ---- Reading a printed block ----

  lemma {:induction false} PrintedLines(fields: seq<string>, e: LineEnd)
    requires PlainFields(fields) && !e.CrOnly?
    ensures Lines(PrintFields(fields, e) + Eol(e)) == fields + [""]
  {
    if fields == [] {
      FirstLine("", e, "");
      assert "" + Eol(e) + "" == PrintFields(fields, e) + Eol(e);
    } else {
      var others := fields[1..];
      PrintedLines(others, e);
      FirstLine(fields[0], e, PrintFields(others, e) + Eol(e));
      Assoc(fields[0] + Eol(e), PrintFields(others, e), Eol(e));
      Assoc([fields[0]], others, [""]);
      assert fields == [fields[0]] + others;
    }
  }

  lemma FirstLine(line: string, e: LineEnd, rest: string)
    requires NoLineEnds(line) && !e.CrOnly?
    ensures Lines(line + Eol(e) + rest) == [line] + Lines(rest)
  {
    var s := line + Eol(e) + rest;
    var i := |line| + |Eol(e)| - 1;
    assert s[i] == LF;
    assert forall j :: 0 <= j < |line| ==> s[j] == line[j];
    assert IndexOf(s, LF) == i;
    assert s[i + 1..] == rest;
    assert e.CrLf? ==> s[..i] == line + [CR];
    assert e.Lf? ==> s[..i] == line;
    assert StripCr(s[..i]) == line;
  }

  lemma {:induction false} DataLinesAppend(a: seq<string>, b: seq<string>)
    ensures DataLines(a + b) == DataLines(a) + DataLines(b)
    decreases |b|
  {
    if b == [] {
      assert a + b == a;
    } else {
      var front, last := b[..|b| - 1], b[|b| - 1];
      assert (a + b)[..|a + b| - 1] == a + front;
      DataLinesAppend(a, front);
      Assoc(DataLines(a), DataLines(front),
        if HasPrefix(last, DATA_FIELD) then [TrimStart(last[|DATA_FIELD|..])] else []);
    }
  }

  lemma TrimAfterSpace(s: string)
    ensures TrimStart(" " + s) == TrimStart(s)
  {
    assert (" " + s)[1..] == s;
  }

  lemma {:induction false} PrintedData(lines: seq<string>)
    ensures DataLines(DataFields(lines)) == TrimLines(lines)
    ensures EventName(DataFields(lines)) == None
  {
    if lines != [] {
      var n := |lines| - 1;
      PrintedData(lines[..n]);
      var last := "data: " + lines[n];
      assert DataFields(lines)[..n] == DataFields(lines[..n]);
      assert DATA_FIELD <= last && last[|DATA_FIELD|..] == " " + lines[n];
      assert last[0] == 'd' && EVENT_FIELD[0] == 'e';
      TrimAfterSpace(lines[n]);
    }
  }

  lemma {:induction false} EventNameInFront(head: string, lines: seq<string>)
    requires EventName(lines) == None
    ensures EventName([head] + lines) == EventName([head])
  {
    if lines != [] {
      var n := |lines| - 1;
      assert ([head] + lines)[..n + 1] == [head] + lines[..n];
      EventNameInFront(head, lines[..n]);
    } else {
      assert [head] + lines == [head];
    }
  }

  lemma {:induction false} PrintedNameAndData(p: Payload)
    ensures DataLines(Fields(p)) == TrimLines(p.lines)
    ensures EventName(Fields(p)) == Received(p).event
  {
    PrintedData(p.lines);
    var data := DataFields(p.lines);
    if p.name.Some? {
      var head := "event: " + p.name.value;
      var one: seq<string> := [head];
      assert head[0] == 'e' && DATA_FIELD[0] == 'd';
      DataLinesAppend(one, data);
      assert DataLines(one) == [];
      EventNameInFront(head, data);
      assert EVENT_FIELD <= head && head[|EVENT_FIELD|..] == " " + p.name.value;
      assert Fields(p) == one + data;
      assert one[..0] == [] && one[0] == head;
      TrimAfterSpace(p.name.value);
    } else {
      assert Fields(p) == data;
    }
  }

  /** A printed block reads as the payload with every line trimmed in front and
      the name trimmed on both sides. */
  lemma {:induction false} PrintedParses(p: Payload, e: LineEnd)
    requires Printable(p) && !e.CrOnly?
    ensures Parse(Print(p, e)) == Some(Received(p))
  {
    var fields := Fields(p);
    FieldsArePlain(p);
    PrintedLines(fields, e);
    PrintedNameAndData(p);
    BlankLineMeansNothing(fields);
  }

  lemma {:induction false} BlankLineMeansNothing(lines: seq<string>)
    ensures DataLines(lines + [""]) == DataLines(lines)
    ensures EventName(lines + [""]) == EventName(lines)
  {
    assert (lines + [""])[..|lines|] == lines;
  }

  // ---- The round trip ----

  function ReceivedAll(ps: seq<Payload>): (r: seq<SseEvent>)
    ensures |r| == |ps|
    ensures forall i :: 0 <= i < |r| ==> r[i] == Received(ps[i])
  {
    if ps == [] then [] else [Received(ps[0])] + ReceivedAll(ps[1..])
  }

  ghost predicate AllPrintable(ps: seq<Payload>) {
    forall i :: 0 <= i < |ps| ==> Printable(ps[i])
  }

  lemma {:induction false} PrintedBlocks(ps: seq<Payload>, e: LineEnd)
    requires AllPrintable(ps) && !e.CrOnly?
    ensures EventsOf(Blocks(PrintAll(ps, e))) == ReceivedAll(ps)
    ensures forall i :: 0 <= i < |Blocks(PrintAll(ps, e))| ==> !Dataless(Blocks(PrintAll(ps, e))[i])
  {
    if ps != [] {
      PrintedBlocks(ps[1..], e);
      var block, rest := Print(ps[0], e), PrintAll(ps[1..], e);
      PrintedBoundary(ps[0], e, rest);
      PrintedParses(ps[0], e);
      BlockInFront(block, rest);
      assert ([block] + Blocks(rest))[1..] == Blocks(rest);
    }
  }

  /** Under every chunking, with any failures and pauses, the printed payloads
      come back in order and trimmed. */
  lemma {:induction false} DecodePrinted(ps: seq<Payload>, e: LineEnd, inner: seq<Item>)
    requires AllPrintable(ps) && !e.CrOnly? && Text(inner) == PrintAll(ps, e)
    ensures Emitted("", inner) == ReceivedAll(ps)
  {
    PrintedBlocks(ps, e);
    DataInEveryBlockIsEnough(inner);
  }

  lemma {:induction false} TrimStartShorter(s: string)
    ensures |TrimStart(s)| <= |s|
    ensures |TrimStart(s)| == |s| ==> TrimStart(s) == s
    ensures TrimStart(s) == s <==> s == "" || !IsWhitespace(s[0])
  {
    if s != "" && IsWhitespace(s[0]) {
      TrimStartShorter(s[1..]);
    }
  }

  lemma {:induction false} JoinLinesShorter(lines: seq<string>, trimmed: seq<string>)
    requires |lines| == |trimmed|
    requires forall i :: 0 <= i < |lines| ==> trimmed[i] == TrimStart(lines[i])
    ensures |JoinLines(trimmed)| <= |JoinLines(lines)|
    ensures |JoinLines(trimmed)| == |JoinLines(lines)| ==> trimmed == lines
  {
    if lines != [] {
      TrimStartShorter(lines[0]);
      JoinLinesShorter(lines[1..], trimmed[1..]);
      if |JoinLines(trimmed)| == |JoinLines(lines)| {
        assert trimmed == [trimmed[0]] + trimmed[1..] && lines == [lines[0]] + lines[1..];
      }
    }
  }

  predicate NoLeadingSpace(s: string) {
    s == "" || !IsWhitespace(s[0])
  }

  /** Payloads the parser's trimming leaves alone. */
  ghost predicate Untrimmed(p: Payload) {
    && (forall i :: 0 <= i < |p.lines| ==> NoLeadingSpace(p.lines[i]))
    && (p.name.Some? ==> Trim(p.name.value) == p.name.value)
  }

  lemma {:induction false} ReceivedAsMeantIff(p: Payload)
    ensures Received(p) == Meant(p) <==> Untrimmed(p)
  {
    var trimmed := TrimLines(p.lines);
    JoinLinesShorter(p.lines, trimmed);
    forall i | 0 <= i < |p.lines|
      ensures trimmed[i] == p.lines[i] <==> NoLeadingSpace(p.lines[i])
    {
      TrimStartShorter(p.lines[i]);
    }
    if forall i :: 0 <= i < |p.lines| ==> NoLeadingSpace(p.lines[i]) {
      assert trimmed == p.lines;
    }
  }

  ghost predicate SameAsMeant(events: seq<SseEvent>, ps: seq<Payload>) {
    |events| == |ps| && forall i :: 0 <= i < |ps| ==> events[i] == Meant(ps[i])
  }

  /** With LF or CR LF line ends, decoding undoes printing exactly for the payloads
      without leading white space in a line (and with a trimmed name). The standard
      would drop one space only. */
  lemma {:induction false} RoundTripIff(ps: seq<Payload>, e: LineEnd, inner: seq<Item>)
    requires AllPrintable(ps) && !e.CrOnly? && Text(inner) == PrintAll(ps, e)
    ensures SameAsMeant(Emitted("", inner), ps) <==> forall i :: 0 <= i < |ps| ==> Untrimmed(ps[i])
  {
    DecodePrinted(ps, e, inner);
    forall i | 0 <= i < |ps| ensures ReceivedAll(ps)[i] == Meant(ps[i]) <==> Untrimmed(ps[i]) {
      ReceivedAsMeantIff(ps[i]);
    }
  }

  /** Split at its line feeds, the data received is the trimmed lines of the payload. */
  lemma {:induction false} ReceivedLines(p: Payload)
    requires Printable(p)
    ensures var pieces := Split(Received(p).data);
      |pieces| == |p.lines| && forall k :: 0 <= k < |p.lines| ==> pieces[k] == TrimStart(p.lines[k])
  {
    var trimmed := TrimLines(p.lines);
    forall k | 0 <= k < |trimmed| ensures '\n' !in trimmed[k] {
      var from := TrimStartByPosition(p.lines[k]);
      assert trimmed[k] == p.lines[k][from..];
    }
    JoinThenSplit(trimmed);
  }

  /** The events carry the names of the payloads and, split at the line feeds of their
      data, their lines. */
  ghost predicate LinesComeBack(events: seq<SseEvent>, ps: seq<Payload>) {
    && |events| == |ps|
    && forall i :: 0 <= i < |ps| ==> events[i].event == ps[i].name && Split(events[i].data) == ps[i].lines
  }

  /** Line by line, under every chunking: exactly the payloads that nothing is trimmed from
      come back with their names and lines. */
  lemma {:induction false} LinesRoundTripIff(ps: seq<Payload>, e: LineEnd, inner: seq<Item>)
    requires AllPrintable(ps) && !e.CrOnly? && Text(inner) == PrintAll(ps, e)
    ensures LinesComeBack(Emitted("", inner), ps) <==> forall i :: 0 <= i < |ps| ==> Untrimmed(ps[i])
  {
    DecodePrinted(ps, e, inner);
    forall i | 0 <= i < |ps|
      ensures (ReceivedAll(ps)[i].event == ps[i].name && Split(ReceivedAll(ps)[i].data) == ps[i].lines)
        <==> Untrimmed(ps[i])
    {
      LinesReceivedIff(ps[i]);
    }
  }

  lemma {:induction false} LinesReceivedIff(p: Payload)
    requires Printable(p)
    ensures (Received(p).event == p.name && Split(Received(p).data) == p.lines) <==> Untrimmed(p)
  {
    ReceivedLines(p);
    forall k | 0 <= k < |p.lines| ensures TrimStart(p.lines[k]) == p.lines[k] <==> NoLeadingSpace(p.lines[k]) {
      TrimStartShorter(p.lines[k]);
    }
    assert Split(Received(p).data) == p.lines <==>
      forall k :: 0 <= k < |p.lines| ==> TrimStart(p.lines[k]) == p.lines[k];
  }

  /** A text whose cuts matter: two empty blocks, then one with data. */
  lemma {:induction false} LossyGapExample()
    ensures !ChunkIndependent([LF, LF] + ([LF, LF] + Print(Payload(None, [""]), Lf)))
  {
    var last := Print(Payload(None, [""]), Lf);
    OneBlock(last);
    BlankBlock(last);
    BlankBlock([LF, LF] + last);
    var blocks := Blocks([LF, LF] + ([LF, LF] + last));
    assert blocks == [[LF, LF]] + ([[LF, LF]] + [last]);
    assert Dataless(blocks[0]) && Dataless(blocks[0 + 1]) && !Dataless(blocks[2]);
    ChunkIndependentIff([LF, LF] + ([LF, LF] + last));
  }

  /** A printed empty line is one block with data. */
  lemma {:induction false} OneBlock(last: string)
    requires last == Print(Payload(None, [""]), Lf)
    ensures Blocks(last) == [last] && !Dataless(last)
  {
    PrintedBoundary(Payload(None, [""]), Lf, "");
    PrintedParses(Payload(None, [""]), Lf);
    assert last + "" == last;
    assert last[|last|..] == "" && last[..|last|] == last;
    assert Blocks(last) == [last] + Blocks("");
  }

  /** An empty block in front is a block, and has no data. */
  lemma {:induction false} BlankBlock(rest: string)
    ensures Blocks([LF, LF] + rest) == [[LF, LF]] + Blocks(rest)
    ensures Dataless([LF, LF])
  {
    var s := [LF, LF] + rest;
    assert DelimiterAt(s, 0) == 2;
    assert s[..2] == [LF, LF] && s[2..] == rest;
    var blank, end: string := [LF, LF], [LF];
    assert blank[1..] == end && end[1..] == "";
    assert IndexOf(blank, LF) == 0 && IndexOf(end, LF) == 0;
    assert Lines(blank) == [""] + Lines(end) && Lines(end) == [""] + Lines("");
    var lines := Lines(blank);
    assert lines == ["", ""] && lines[..1] == [""] && lines[..1][..0] == [];
    assert DataLines(lines[..1]) == [];
  }

  // ---- Bare carriage returns ----

  lemma {:induction false} NoLfOneLine(s: string)
    requires s != "" && forall i :: 0 <= i < |s| ==> s[i] != LF
    ensures Lines(s) == [s]
  {
    assert IndexOf(s, LF) == |s|;
  }

  /** No LF, and no two CR in a row. */
  ghost predicate CrSpaced(body: string) {
    && (forall k :: 0 <= k < |body| ==> body[k] != LF)
    && (forall k :: 0 <= k && k + 1 < |body| ==> body[k] != CR || body[k + 1] != CR)
  }

  lemma {:induction false} CrPrintedShape(fields: seq<string>)
    requires PlainFields(fields)
    ensures CrSpaced(PrintFields(fields, CrOnly))
    ensures fields != [] ==>
      var body := PrintFields(fields, CrOnly);
      body != "" && body[0] != CR && body[|body| - 1] == CR
  {
    if fields != [] {
      CrPrintedShape(fields[1..]);
      var field, rest := fields[0], PrintFields(fields[1..], CrOnly);
      var body := field + [CR] + rest;
      assert body == PrintFields(fields, CrOnly);
      assert rest == "" ==> fields[1..] == [];
      assert forall k :: 0 <= k < |field| ==> body[k] == field[k];
      assert body[|field|] == CR;
      assert forall k :: |field| < k < |body| ==> body[k] == rest[k - |field| - 1];
    }
  }

  /** Here, too, a printed block is the first block of whatever text it begins. */
  lemma {:induction false} CrBoundary(p: Payload, rest: string)
    requires Printable(p)
    ensures Boundary(Print(p, CrOnly) + rest) == Some(|Print(p, CrOnly)|)
  {
    FieldsArePlain(p);
    CrPrintedShape(Fields(p));
    var body := PrintFields(Fields(p), CrOnly);
    var s := Print(p, CrOnly) + rest;
    var at := |body| - 1;
    assert forall k :: 0 <= k < |body| ==> s[k] == body[k];
    assert s[|body|] == CR;
    forall k | 0 <= k < at ensures DelimiterAt(s, k) == 0 {
      assert body[k] != CR || body[k + 1] != CR;
      assert s[k] == body[k] && s[k + 1] == body[k + 1];
    }
    NoDelimiterSkips(s, 0, at);
    assert DelimiterAt(s, at) == 2;
  }

  lemma {:induction false} TrimStartKeepsEnd(s: string)
    requires exists i :: 0 <= i < |s| && !IsWhitespace(s[i])
    ensures TrimStart(s) != "" && TrimStart(s)[|TrimStart(s)| - 1] == s[|s| - 1]
  {
    if IsWhitespace(s[0]) {
      var i :| 0 <= i < |s| && !IsWhitespace(s[i]);
      assert s[1..][i - 1] == s[i];
      TrimStartKeepsEnd(s[1..]);
    }
  }

  lemma {:induction false} JoinLinesHasNoCr(lines: seq<string>)
    requires forall i :: 0 <= i < |lines| ==> NoLineEnds(lines[i])
    ensures forall i :: 0 <= i < |JoinLines(lines)| ==> JoinLines(lines)[i] != CR
  {
    if |lines| > 1 {
      JoinLinesHasNoCr(lines[1..]);
    }
  }

  /** A block with bare CR line ends does not split into lines: only the unnamed single
      empty line comes back, and a named payload gives no event at all. */
  lemma {:induction false} CrBlockIff(p: Payload)
    requires Printable(p)
    ensures Parse(Print(p, CrOnly)) == Some(Meant(p)) <==> p == Payload(None, [""])
    ensures Dataless(Print(p, CrOnly)) <==> p.name.Some?
  {
    var block := Print(p, CrOnly);
    var fields := Fields(p);
    FieldsArePlain(p);
    CrPrintedShape(fields);
    NoLfOneLine(block);
    var rest := PrintFields(fields[1..], CrOnly) + [CR];
    assert block == fields[0] + [CR] + rest;
    var one: seq<string> := [block];
    assert one[..0] == [] && one[0] == block;
    assert EVENT_FIELD[0] == 'e' && DATA_FIELD[0] == 'd';
    if p.name.Some? {
      assert fields[0] == "event: " + p.name.value;
      assert block[0] == 'e';
      assert !HasPrefix(block, DATA_FIELD);
      assert DataLines(one) == [];
    } else {
      CrOnlyUnnamed(p, block, fields, rest);
    }
  }

  lemma {:induction false} FirstDataField(lines: seq<string>)
    requires lines != []
    ensures DataFields(lines)[0] == "data: " + lines[0]
    ensures |lines| > 1 ==> DataFields(lines)[1] == "data: " + lines[1]
  {
    if |lines| > 1 {
      FirstDataField(lines[..|lines| - 1]);
    }
  }

  /** A block that is one line and starts with `data:`. */
  lemma {:induction false} OneDataLine(block: string)
    requires DATA_FIELD <= block && Lines(block) == [block]
    ensures Parse(block) == Some(SseEvent(None, TrimStart(block[|DATA_FIELD|..])))
  {
    var one: seq<string> := [block];
    assert one[..0] == [] && one[0] == block;
    assert block[0] == DATA_FIELD[0] == 'd' && EVENT_FIELD[0] == 'e';
    assert DataLines(one) == [TrimStart(block[|DATA_FIELD|..])];
    assert !HasPrefix(block, EVENT_FIELD);
    assert EventName(one) == EventName(one[..0]) == None;
  }

  lemma BlankCrValue()
    ensures TrimStart([' ', CR, CR]) == ""
  {
    assert [' ', CR, CR][1..] == [CR, CR] && [CR, CR][1..] == [CR];
    var end: string := [CR];
    assert end[1..] == "";
    assert TrimStart(end) == TrimStart("");
    assert TrimStart([CR, CR]) == TrimStart(end);
  }

  lemma {:induction false} CrOnlyUnnamed(p: Payload, block: string, fields: seq<string>, rest: string)
    requires Printable(p) && p.name.None? && fields == Fields(p) && fields != []
    requires rest == PrintFields(fields[1..], CrOnly) + [CR]
    requires block == Print(p, CrOnly) == fields[0] + [CR] + rest && Lines(block) == [block]
    ensures Parse(block).Some?
    ensures Parse(block) == Some(Meant(p)) <==> p == Payload(None, [""])
  {
    assert fields == DataFields(p.lines);
    FirstDataField(p.lines);
    var value := block[|DATA_FIELD|..];
    assert block == DATA_FIELD + (" " + p.lines[0] + [CR] + rest);
    assert value == " " + p.lines[0] + [CR] + rest;
    OneDataLine(block);
    if p.lines == [""] {
      assert fields[1..] == [];
      assert value == [' ', CR, CR];
      BlankCrValue();
    } else if exists i :: 0 <= i < |value| && !IsWhitespace(value[i]) {
      TrimStartKeepsEnd(value);
      JoinLinesHasNoCr(p.lines);
      assert value[|value| - 1] == CR;
    } else {
      CrValueHasText(p, fields, value, rest);
      TrimAllWhite(value);
      assert |p.lines| == 1 && p.lines[0] != "";
    }
  }

  lemma {:induction false} CrValueHasText(p: Payload, fields: seq<string>, value: string, rest: string)
    requires p.lines != [] && fields == DataFields(p.lines)
    requires value == " " + p.lines[0] + [CR] + rest && rest == PrintFields(fields[1..], CrOnly) + [CR]
    ensures |p.lines| > 1 ==> exists i :: 0 <= i < |value| && !IsWhitespace(value[i])
  {
    if |p.lines| > 1 {
      FirstDataField(p.lines);
      var others := fields[1..];
      assert others[0] == fields[1] && fields[1][0] == DATA_FIELD[0] == 'd';
      assert PrintFields(others, CrOnly)[0] == others[0][0];
      assert value[|p.lines[0]| + 2] == rest[0] == 'd';
    }
  }

  lemma {:induction false} TrimAllWhite(s: string)
    requires forall i :: 0 <= i < |s| ==> IsWhitespace(s[i])
    ensures TrimStart(s) == ""
  {
    if s != "" {
      TrimAllWhite(s[1..]);
    }
  }

  lemma {:induction false} CrBlocks(ps: seq<Payload>)
    requires AllPrintable(ps)
    ensures var blocks := Blocks(PrintAll(ps, CrOnly));
      |blocks| == |ps| && forall i :: 0 <= i < |ps| ==> blocks[i] == Print(ps[i], CrOnly)
  {
    if ps != [] {
      CrBlocks(ps[1..]);
      var block, rest := Print(ps[0], CrOnly), PrintAll(ps[1..], CrOnly);
      CrBoundary(ps[0], rest);
      BlockInFront(block, rest);
    }
  }

  /** Every block with data gives one event, every other none. */
  lemma {:induction false} EventPerBlock(blocks: seq<string>)
    ensures |EventsOf(blocks)| <= |blocks|
    ensures |EventsOf(blocks)| == |blocks| <==> forall i :: 0 <= i < |blocks| ==> !Dataless(blocks[i])
    ensures |EventsOf(blocks)| == |blocks| ==>
      forall i :: 0 <= i < |blocks| ==> Parse(blocks[i]) == Some(EventsOf(blocks)[i])
  {
    if blocks != [] {
      EventPerBlock(blocks[1..]);
      assert forall i :: 0 < i < |blocks| ==> blocks[i] == blocks[1..][i - 1];
    }
  }

  /** With bare CR line ends, which the boundary scan accepts, blocks end where they
      should but do not split into lines: under every chunking decoding undoes printing
      exactly for the lists of unnamed single empty lines. */
  lemma {:induction false} CrOnlyBreaksIff(ps: seq<Payload>, inner: seq<Item>)
    requires AllPrintable(ps) && Text(inner) == PrintAll(ps, CrOnly)
    ensures SameAsMeant(Emitted("", inner), ps) <==> forall i :: 0 <= i < |ps| ==> ps[i] == Payload(None, [""])
  {
    var blocks := Blocks(Text(inner));
    CrBlocks(ps);
    EventPerBlock(blocks);
    forall i | 0 <= i < |ps|
      ensures Parse(blocks[i]) == Some(Meant(ps[i])) <==> ps[i] == Payload(None, [""])
      ensures Dataless(blocks[i]) <==> ps[i].name.Some?
    {
      CrBlockIff(ps[i]);
    }
    if forall i :: 0 <= i < |ps| ==> !Dataless(blocks[i]) {
      DataInEveryBlockIsEnough(inner);
    } else {
      EmittedNoMore("", inner);
      assert "" + Text(inner) == Text(inner);
    }
  }
}
