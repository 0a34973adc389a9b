/** What the parser's text operations mean, position by position: where a block ends,
    what its lines are, which of them count, and what trimming and joining do. */
module SseReading {
  import opened Prelude
  import opened SseFraming

  // ---- Where a block ends ----

  ghost predicate HasAt(s: string, i: nat, piece: string) {
    i + |piece| <= |s| && s[i..i + |piece|] == piece
  }

  /** A blank line begins at `i`: two line ends in a row, of one of three kinds. */
  ghost predicate BlankAt(s: string, i: nat) {
    HasAt(s, i, "\n\n") || HasAt(s, i, "\r\n\r\n") || HasAt(s, i, "\r\r")
  }

  lemma {:induction false} DelimiterByPosition(s: string, i: nat)
    ensures DelimiterAt(s, i) > 0 <==> BlankAt(s, i)
    ensures DelimiterAt(s, i) > 0 ==> DelimiterAt(s, i) == if HasAt(s, i, "\r\n\r\n") then 4 else 2
  {
    var n := |s|;
    assert i + 2 <= n ==> |s[i..i + 2]| == 2 && s[i..i + 2][0] == s[i] && s[i..i + 2][1] == s[i + 1];
    assert i + 4 <= n ==> |s[i..i + 4]| == 4 && s[i..i + 4][0] == s[i] && s[i..i + 4][1] == s[i + 1]
                          && s[i..i + 4][2] == s[i + 2] && s[i..i + 4][3] == s[i + 3];
  }

  lemma {:induction false} BoundaryFromByPosition(s: string, i: nat)
    requires i <= |s|
    ensures BoundaryFrom(s, i).None? <==> forall k: nat :: i <= k ==> !BlankAt(s, k)
    ensures BoundaryFrom(s, i).Some? ==>
      exists k: nat :: (i <= k && BlankAt(s, k) && (forall j: nat :: i <= j < k ==> !BlankAt(s, j))
        && BoundaryFrom(s, i).value == k + if HasAt(s, k, "\r\n\r\n") then 4 else 2)
    decreases |s| - i
  {
    DelimiterByPosition(s, i);
    if i < |s| {
      BoundaryFromByPosition(s, i + 1);
      if DelimiterAt(s, i) > 0 {
        assert BlankAt(s, i);
      } else if BoundaryFrom(s, i + 1).Some? {
        var k: nat :| i + 1 <= k && BlankAt(s, k) && (forall j: nat :: i + 1 <= j < k ==> !BlankAt(s, j))
          && BoundaryFrom(s, i + 1).value == k + if HasAt(s, k, "\r\n\r\n") then 4 else 2;
        assert forall j: nat :: i <= j < k ==> !BlankAt(s, j);
      }
    }
  }

  /** A block ends behind the first blank line. */
  lemma {:induction false} BoundaryByPosition(s: string)
    ensures Boundary(s).None? <==> forall k: nat :: !BlankAt(s, k)
    ensures Boundary(s).Some? ==>
      exists k: nat :: (BlankAt(s, k) && (forall j: nat :: j < k ==> !BlankAt(s, j))
        && Boundary(s).value == k + if HasAt(s, k, "\r\n\r\n") then 4 else 2)
  {
    BoundaryFromByPosition(s, 0);
  }

  // ---- Splitting at line feeds ----

  /** The pieces of a text between its line feeds. */
  function Split(text: string): (pieces: seq<string>)
    ensures pieces != []
    decreases |text|
  {
    var i := IndexOf(text, '\n');
    if i == |text| then [text] else [text[..i]] + Split(text[i + 1..])
  }

  /** Piece `k` stands at `starts[k]`, holds no line feed, and ends at one, behind which the
      next piece starts; the last one ends with the text. */
  ghost predicate PieceAt(text: string, starts: seq<nat>, pieces: seq<string>, k: nat) {
    && k < |starts| == |pieces| && starts[k] + |pieces[k]| <= |text|
    && pieces[k] == text[starts[k]..starts[k] + |pieces[k]|] && '\n' !in pieces[k]
    && (var end := starts[k] + |pieces[k]|;
        if k + 1 < |starts| then end < |text| && text[end] == '\n' && starts[k + 1] == end + 1
        else end == |text|)
  }

  ghost predicate SplitsAt(text: string, starts: seq<nat>, pieces: seq<string>) {
    && starts != [] && |starts| == |pieces| && starts[0] == 0
    && (forall k :: 0 <= k < |pieces| ==> PieceAt(text, starts, pieces, k))
  }

  ghost function ShiftedBy(starts: seq<nat>, d: nat): (r: seq<nat>)
    ensures |r| == |starts| && forall k :: 0 <= k < |r| ==> r[k] == starts[k] + d
  {
    if starts == [] then [] else ShiftedBy(starts[..|starts| - 1], d) + [starts[|starts| - 1] + d]
  }

  lemma {:induction false} SplitByPosition(text: string) returns (starts: seq<nat>)
    ensures SplitsAt(text, starts, Split(text))
    decreases |text|
  {
    var i := IndexOf(text, '\n');
    if i == |text| {
      starts := [0];
      assert text[0..|text|] == text;
    } else {
      var rest := text[i + 1..];
      var later := SplitByPosition(rest);
      starts := [0] + ShiftedBy(later, i + 1);
      SplitFront(text, i, later, Split(rest), starts);
    }
  }

  lemma {:induction false} SplitFront(
      text: string, i: nat, later: seq<nat>, pieces: seq<string>, starts: seq<nat>)
    requires i < |text| && text[i] == '\n' && '\n' !in text[..i]
    requires SplitsAt(text[i + 1..], later, pieces)
    requires starts == [0] + ShiftedBy(later, i + 1)
    ensures SplitsAt(text, starts, [text[..i]] + pieces)
  {
    var rest, all := text[i + 1..], [text[..i]] + pieces;
    forall k | 0 <= k < |all| ensures PieceAt(text, starts, all, k) {
      if k > 0 {
        assert PieceAt(rest, later, pieces, k - 1);
        var from, end := later[k - 1], later[k - 1] + |pieces[k - 1]|;
        assert rest[from..end] == text[from + i + 1..end + i + 1];
      } else {
        assert PieceAt(rest, later, pieces, 0);
        assert text[0..i] == text[..i];
      }
    }
  }

  lemma SplitFirst(line: string, rest: string)
    requires '\n' !in line
    ensures Split(line + ['\n'] + rest) == [line] + Split(rest)
  {
    var text, n := line + ['\n'] + rest, |line|;
    assert text[n] == '\n' && text[..n] == line && text[n + 1..] == rest;
    assert forall j :: 0 <= j < n ==> text[j] == line[j];
    assert IndexOf(text, '\n') == n;
  }

  /** Joining lines without line feeds and splitting again gives the lines back. */
  lemma {:induction false} JoinThenSplit(lines: seq<string>)
    requires lines != [] && forall k :: 0 <= k < |lines| ==> '\n' !in lines[k]
    ensures Split(JoinLines(lines)) == lines
  {
    if |lines| == 1 {
      assert IndexOf(lines[0], '\n') == |lines[0]|;
    } else {
      JoinThenSplit(lines[1..]);
      SplitFirst(lines[0], JoinLines(lines[1..]));
      assert lines == [lines[0]] + lines[1..];
    }
  }

  // ---- The lines of a block ----

  /** A line without a carriage return that stood in front of its line feed. */
  ghost function Ended(piece: string): string {
    if piece != "" && piece[|piece| - 1] == '\r' then piece[..|piece| - 1] else piece
  }

  ghost function AllEnded(pieces: seq<string>): (lines: seq<string>)
    ensures |lines| == |pieces|
    ensures forall k :: 0 <= k < |lines| ==> lines[k] == Ended(pieces[k])
  {
    if pieces == [] then [] else [Ended(pieces[0])] + AllEnded(pieces[1..])
  }

  /** The lines that a nonempty list of pieces means. */
  ghost function LinesOf(pieces: seq<string>): seq<string>
    requires pieces != []
  {
    var last := pieces[|pieces| - 1];
    AllEnded(pieces[..|pieces| - 1]) + (if last == "" then [] else [last])
  }

  lemma LinesOfFront(first: string, rest: seq<string>)
    requires rest != []
    ensures LinesOf([first] + rest) == [Ended(first)] + LinesOf(rest)
  {
    var pieces, n := [first] + rest, |rest| - 1;
    assert pieces[..|pieces| - 1] == [first] + rest[..n] && pieces[|pieces| - 1] == rest[n];
    assert ([first] + rest[..n])[1..] == rest[..n];
  }

  /** Every piece but the last is a line, ended; what follows the last line feed is one as
      it stands, unless there is nothing. */
  lemma {:induction false} LinesArePieces(s: string)
    ensures Lines(s) == LinesOf(Split(s))
    decreases |s|
  {
    var i := IndexOf(s, '\n');
    if i == |s| {
      assert Split(s) == [s] && Split(s)[..0] == [];
    } else {
      LinesArePieces(s[i + 1..]);
      LinesOfFront(s[..i], Split(s[i + 1..]));
    }
  }

  // ---- Which lines count ----

  ghost predicate IsDataLine(line: string) {
    HasAt(line, 0, "data:")
  }

  lemma {:induction false} LastLineCounts(lines: seq<string>, n: nat)
    requires |lines| == n + 1
    ensures IsDataLine(lines[n]) ==> DataLines(lines) == DataLines(lines[..n]) + [TrimStart(lines[n][5..])]
    ensures !IsDataLine(lines[n]) ==> DataLines(lines) == DataLines(lines[..n])
  {
    PrefixByPosition(lines[n], "data:");
  }

  /** The data values are, in order, what follows `data:` on every line that begins with it,
      trimmed in front. */
  lemma {:induction false} DataByPosition(lines: seq<string>) returns (at: seq<nat>, dataLines: seq<string>)
    ensures PickedAt(lines, at, dataLines) && |DataLines(lines)| == |dataLines|
    ensures forall p: nat :: p in at <==> p < |lines| && IsDataLine(lines[p])
    ensures forall k :: 0 <= k < |dataLines| ==>
      IsDataLine(dataLines[k]) && DataLines(lines)[k] == TrimStart(dataLines[k][5..])
  {
    at, dataLines := [], [];
    if lines != [] {
      var n := |lines| - 1;
      at, dataLines := DataByPosition(lines[..n]);
      PickedSnoc(lines, n, at, dataLines);
      LastLineCounts(lines, n);
      if IsDataLine(lines[n]) {
        at, dataLines := at + [n], dataLines + [lines[n]];
      }
    }
  }

  lemma PrefixByPosition(line: string, prefix: string)
    ensures HasPrefix(line, prefix) <==> HasAt(line, 0, prefix)
  {
    assert |prefix| <= |line| ==> line[0..|prefix|] == line[..|prefix|];
  }

  ghost predicate IsEventLine(line: string) {
    HasAt(line, 0, "event:")
  }

  lemma {:induction false} LastLineNames(lines: seq<string>, n: nat)
    requires |lines| == n + 1
    ensures EventName(lines) == if IsEventLine(lines[n]) then Some(Trim(lines[n][6..])) else EventName(lines[..n])
  {
    PrefixByPosition(lines[n], "event:");
  }

  /** The last of the lines that begins with `event:`, if any does, has the event name. */
  lemma {:induction false} EventByPosition(lines: seq<string>) returns (p: Option<nat>)
    ensures p.None? ==> EventName(lines).None? && forall q :: 0 <= q < |lines| ==> !IsEventLine(lines[q])
    ensures p.Some? ==>
      && p.value < |lines| && IsEventLine(lines[p.value])
      && (forall q :: p.value < q < |lines| ==> !IsEventLine(lines[q]))
      && EventName(lines) == Some(Trim(lines[p.value][6..]))
  {
    p := None;
    if lines != [] {
      var n := |lines| - 1;
      p := EventByPosition(lines[..n]);
      LastLineNames(lines, n);
      assert forall q :: 0 <= q < n ==> lines[..n][q] == lines[q];
      if IsEventLine(lines[n]) {
        p := Some(n);
      }
    }
  }

  // ---- Trimming ----

  /** The characters trimmed: Unicode White_Space, by code point. */
  lemma WhitespaceTable(c: char)
    ensures IsWhitespace(c) <==>
      (c as int) in {9, 10, 11, 12, 13, 32, 133, 160, 5760, 8192, 8193, 8194, 8195, 8196, 8197, 8198,
                     8199, 8200, 8201, 8202, 8232, 8233, 8239, 8287, 12288}
  {
  }

  /** Trimming in front cuts at the first character that is not white. */
  lemma {:induction false} TrimStartByPosition(s: string) returns (k: nat)
    ensures k <= |s| && TrimStart(s) == s[k..]
    ensures (forall j :: 0 <= j < k ==> IsWhitespace(s[j])) && (k < |s| ==> !IsWhitespace(s[k]))
  {
    if s == "" || !IsWhitespace(s[0]) {
      k := 0;
    } else {
      k := TrimStartByPosition(s[1..]);
      assert s[1..][k..] == s[k + 1..];
      assert forall j :: 0 < j < k + 1 ==> s[j] == s[1..][j - 1];
      k := k + 1;
    }
  }

  /** Trimming behind cuts after the last one. */
  lemma {:induction false} TrimEndByPosition(s: string) returns (k: nat)
    ensures k <= |s| && TrimEnd(s) == s[..k]
    ensures (forall j :: k <= j < |s| ==> IsWhitespace(s[j])) && (k > 0 ==> !IsWhitespace(s[k - 1]))
  {
    if s == "" || !IsWhitespace(s[|s| - 1]) {
      k := |s|;
    } else {
      k := TrimEndByPosition(s[..|s| - 1]);
      assert s[..|s| - 1][..k] == s[..k];
    }
  }

  /** Trimming on both sides leaves what lies between the outermost characters that are
      not white. */
  lemma {:induction false} TrimByPosition(s: string) returns (from: nat, end: nat)
    ensures from <= end <= |s| && Trim(s) == s[from..end]
    ensures forall j :: 0 <= j < |s| && !(from <= j < end) ==> IsWhitespace(s[j])
    ensures from < end ==> !IsWhitespace(s[from]) && !IsWhitespace(s[end - 1])
  {
    from := TrimStartByPosition(s);
    var k := TrimEndByPosition(s[from..]);
    end := from + k;
    assert s[from..][..k] == s[from..end];
    assert forall j :: from <= j < |s| ==> s[from..][j - from] == s[j];
  }
}
