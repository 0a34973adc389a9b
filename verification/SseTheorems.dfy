/** The incremental parser against the one-shot reading of the whole text: which
    streams may be cut anywhere, and what printing followed by parsing gives. */
module SseTheorems {
  import opened Prelude
  import opened SseFraming

  // ---- The one-shot reading ----

  /** The complete blocks of a text, in order. */
  ghost function Blocks(s: string): seq<string>
    decreases |s|
  {
    match Boundary(s)
    case None => []
    case Some(end) => [s[..end]] + Blocks(s[end..])
  }

  ghost function EventsOf(blocks: seq<string>): seq<SseEvent> {
    if blocks == [] then []
    else (if Parse(blocks[0]).Some? then [Parse(blocks[0]).value] else []) + EventsOf(blocks[1..])
  }

  /** All text the stream below still gives. */
  ghost function Text(inner: seq<Item>): string {
    if inner == [] then ""
    else (if inner[0].Chunk? then inner[0].text else "") + Text(inner[1..])
  }

  /** The events a consumer sees that polls until the stream is finished, through
      pending polls and transport failures. */
  ghost function Emitted(buffer: string, inner: seq<Item>): seq<SseEvent>
    decreases |inner|, |buffer|
  {
    var p := Poll(buffer, inner);
    match p.result
    case Ready(event) => [event] + Emitted(p.buffer, p.inner)
    case Finished => []
    case Failed(_) => Emitted(p.buffer, p.inner)
    case NotReady => Emitted(p.buffer, p.inner)
  }

  // ---- Boundaries do not move ----

  /** A boundary found in a buffer stays the first one however the buffer grows,
      including when the buffer ends inside a delimiter. */
  lemma {:induction false} BoundaryStable(s: string, more: string, i: nat)
    requires i <= |s| && BoundaryFrom(s, i).Some?
    ensures BoundaryFrom(s + more, i) == BoundaryFrom(s, i)
    decreases |s| - i
  {
    if DelimiterAt(s, i) == 0 {
      BoundaryStable(s, more, i + 1);
      if i + 3 >= |s| && s[i] == CR && s[i + 1] == LF {
        assert |s| == i + 3;
        assert BoundaryFrom(s, i + 3) == None;
        assert DelimiterAt(s, i + 2) == 0;
        assert BoundaryFrom(s, i + 2) == None;
        assert DelimiterAt(s, i + 1) == 2;
      }
    }
  }

  /** So the first block of a buffer is the first block of the whole text. */
  lemma FirstBlock(buffer: string, more: string)
    requires Boundary(buffer).Some?
    ensures var end := Boundary(buffer).value;
      Blocks(buffer + more) == [buffer[..end]] + Blocks(buffer[end..] + more)
  {
    var end := Boundary(buffer).value;
    BoundaryStable(buffer, more, 0);
    assert (buffer + more)[..end] == buffer[..end];
    assert (buffer + more)[end..] == buffer[end..] + more;
  }

  /** A text that begins with a block. */
  lemma BlockInFront(block: string, rest: string)
    requires Boundary(block + rest) == Some(|block|)
    ensures Blocks(block + rest) == [block] + Blocks(rest)
  {
    assert (block + rest)[..|block|] == block && (block + rest)[|block|..] == rest;
  }

  // ---- Chunk independence ----

  ghost predicate Dataless(block: string) {
    Parse(block).None?
  }

  /** No two neighbouring blocks without data are followed, anywhere later, by a
      block with data. */
  ghost predicate NoLossyGap(blocks: seq<string>) {
    forall i, j :: 0 <= i && i + 1 < j < |blocks| && Dataless(blocks[i]) && Dataless(blocks[i + 1]) ==>
      Dataless(blocks[j])
  }

  lemma NoLossyGapTail(blocks: seq<string>)
    requires NoLossyGap(blocks) && blocks != []
    ensures NoLossyGap(blocks[1..])
  {
    var rest := blocks[1..];
    forall i, j | 0 <= i && i + 1 < j < |rest| && Dataless(rest[i]) && Dataless(rest[i + 1])
      ensures Dataless(rest[j])
    {
      assert rest[i] == blocks[i + 1] && rest[i + 1] == blocks[i + 2] && rest[j] == blocks[j + 1];
    }
  }

  lemma {:induction false} AllDataless(blocks: seq<string>)
    ensures EventsOf(blocks) == [] <==> forall j :: 0 <= j < |blocks| ==> Dataless(blocks[j])
  {
    if blocks != [] {
      AllDataless(blocks[1..]);
      if forall j :: 0 <= j < |blocks| ==> Dataless(blocks[j]) {
        assert forall j :: 0 <= j < |blocks[1..]| ==> blocks[1..][j] == blocks[j + 1];
      }
      if EventsOf(blocks) == [] {
        assert EventsOf(blocks[1..]) == [];
        forall j | 0 <= j < |blocks| ensures Dataless(blocks[j]) {
          if j > 0 { assert blocks[j] == blocks[1..][j - 1]; }
        }
      }
    }
  }

  ghost function ReadyEvents(result: PollResult): seq<SseEvent> {
    if result.Ready? then [result.event] else []
  }

  /** What one extraction takes from the text still to come. */
  lemma ExtractTakesFirstBlock(buffer: string, more: string)
    ensures var (event, rest) := Extract(buffer);
      var blocks, left := Blocks(buffer + more), Blocks(rest + more);
      if Boundary(buffer).None? then event.None? && rest == buffer
      else blocks != [] && left == blocks[1..] && event == Parse(blocks[0])
  {
    if Boundary(buffer).Some? {
      FirstBlock(buffer, more);
    }
  }

  /** One poll takes a prefix of the blocks still to come and reports what they
      mean; it reports the end only when no event is left. */
  lemma {:induction false} PollTakesBlocks(buffer: string, inner: seq<Item>)
    requires NoLossyGap(Blocks(buffer + Text(inner)))
    ensures var p, blocks := Poll(buffer, inner), Blocks(buffer + Text(inner));
      var left := Blocks(p.buffer + Text(p.inner));
      && NoLossyGap(left)
      && EventsOf(blocks) == ReadyEvents(p.result) + EventsOf(left)
      && (p.result.Finished? ==> EventsOf(blocks) == [])
    decreases |inner|
  {
    var blocks := Blocks(buffer + Text(inner));
    var (event, rest) := Extract(buffer);
    ExtractTakesFirstBlock(buffer, Text(inner));
    if Boundary(buffer).Some? {
      NoLossyGapTail(blocks);
    }
    if event.None? {
      var blocks1 := Blocks(rest + Text(inner));
      if inner == [] {
        assert rest + "" == rest;
        ExtractTakesFirstBlock(rest, "");
        if Boundary(rest).Some? {
          NoLossyGapTail(blocks1);
          AllDataless(blocks);
          if Boundary(buffer).Some? && Dataless(blocks[1]) {
            forall j | 0 <= j < |blocks| ensures Dataless(blocks[j]) {
              if j > 1 { assert 0 + 1 < j; assert Dataless(blocks[0]) && Dataless(blocks[0 + 1]); }
            }
          }
        }
      } else {
        match inner[0] {
          case Chunk(text) =>
            assert (rest + text) + Text(inner[1..]) == rest + Text(inner);
            PollTakesBlocks(rest + text, inner[1..]);
          case Failure(_) => assert Text(inner) == Text(inner[1..]);
          case Pending => assert Text(inner) == Text(inner[1..]);
        }
      }
    }
  }

  lemma {:induction false} EmittedIsWhole(buffer: string, inner: seq<Item>)
    requires NoLossyGap(Blocks(buffer + Text(inner)))
    ensures Emitted(buffer, inner) == EventsOf(Blocks(buffer + Text(inner)))
    decreases |inner|, |buffer|
  {
    PollTakesBlocks(buffer, inner);
    var p := Poll(buffer, inner);
    if !p.result.Finished? {
      EmittedIsWhole(p.buffer, p.inner);
    }
  }

  /** With or without a lossy gap, polling never makes up an event: at most as many come
      out as the whole text has. */
  lemma {:induction false} PollNeverAdds(buffer: string, inner: seq<Item>)
    ensures var p, blocks := Poll(buffer, inner), Blocks(buffer + Text(inner));
      |ReadyEvents(p.result)| + |EventsOf(Blocks(p.buffer + Text(p.inner)))| <= |EventsOf(blocks)|
    decreases |inner|
  {
    var (event, rest) := Extract(buffer);
    ExtractTakesFirstBlock(buffer, Text(inner));
    if event.None? {
      if inner == [] {
        assert rest + "" == rest;
        ExtractTakesFirstBlock(rest, "");
      } else {
        match inner[0] {
          case Chunk(text) =>
            assert (rest + text) + Text(inner[1..]) == rest + Text(inner);
            PollNeverAdds(rest + text, inner[1..]);
          case Failure(_) => assert Text(inner) == Text(inner[1..]);
          case Pending => assert Text(inner) == Text(inner[1..]);
        }
      }
    }
  }

  lemma {:induction false} EmittedNoMore(buffer: string, inner: seq<Item>)
    ensures |Emitted(buffer, inner)| <= |EventsOf(Blocks(buffer + Text(inner)))|
    decreases |inner|, |buffer|
  {
    PollNeverAdds(buffer, inner);
    var p := Poll(buffer, inner);
    if !p.result.Finished? {
      EmittedNoMore(p.buffer, p.inner);
    }
  }

  /** However the text is cut into chunks, and whatever pending polls and failures
      come in between, the events are those of the whole text. */
  ghost predicate ChunkIndependent(total: string) {
    forall inner :: Text(inner) == total ==> Emitted("", inner) == EventsOf(Blocks(total))
  }

  /** Cuts are harmless for exactly the texts without a lossy gap. */
  lemma {:induction false} ChunkIndependentIff(total: string)
    ensures ChunkIndependent(total) <==> NoLossyGap(Blocks(total))
  {
    if NoLossyGap(Blocks(total)) {
      forall inner | Text(inner) == total ensures Emitted("", inner) == EventsOf(Blocks(total)) {
        assert "" + total == total;
        EmittedIsWhole("", inner);
      }
    }
    if ChunkIndependent(total) {
      var whole := [Chunk(total)];
      assert whole[1..] == [] && Text(whole) == total + "";
      assert "" + total == total;
      assert Poll("", whole) == Poll(total, []);
      EmittedTwice("", whole, total, []);
      EverythingEmittedMeansNoGap(total);
    }
  }

  lemma EmittedTwice(b1: string, i1: seq<Item>, b2: string, i2: seq<Item>)
    requires Poll(b1, i1) == Poll(b2, i2)
    ensures Emitted(b1, i1) == Emitted(b2, i2)
  {
  }

  /** When the whole text arrived at once and every event came out, there was no
      lossy gap. */
  lemma {:induction false} EverythingEmittedMeansNoGap(text: string)
    requires Emitted(text, []) == EventsOf(Blocks(text))
    ensures NoLossyGap(Blocks(text))
    decreases |text|
  {
    var blocks := Blocks(text);
    if |blocks| >= 2 {
      var end := Boundary(text).value;
      var rest := text[end..];
      var end2 := Boundary(rest).value;
      assert blocks[1..] == Blocks(rest) && blocks[2..] == Blocks(rest)[1..] == Blocks(rest[end2..]);
      if !Dataless(blocks[0]) {
        assert Emitted(text, []) == [Parse(blocks[0]).value] + Emitted(rest, []);
        assert Emitted(rest, []) == Emitted(text, [])[1..] == EventsOf(Blocks(rest));
        EverythingEmittedMeansNoGap(rest);
        NoGapBefore(blocks);
      } else if !Dataless(blocks[1]) {
        assert Emitted(text, []) == [Parse(blocks[1]).value] + Emitted(rest[end2..], []);
        assert EventsOf(blocks) == [Parse(blocks[1]).value] + EventsOf(blocks[2..]);
        assert Emitted(rest[end2..], []) == Emitted(text, [])[1..] == EventsOf(Blocks(rest[end2..]));
        EverythingEmittedMeansNoGap(rest[end2..]);
        assert blocks[1..][1..] == blocks[2..] && blocks[1..][0] == blocks[1];
        NoGapBefore(blocks[1..]);
        NoGapBeforeData(blocks);
      } else {
        AllDataless(blocks);
      }
    }
  }

  lemma NoGapBefore(blocks: seq<string>)
    requires blocks != [] && NoLossyGap(blocks[1..]) && !Dataless(blocks[0])
    ensures NoLossyGap(blocks)
  {
    forall i, j | 0 <= i && i + 1 < j < |blocks| && Dataless(blocks[i]) && Dataless(blocks[i + 1])
      ensures Dataless(blocks[j])
    {
      var rest := blocks[1..];
      assert rest[i - 1] == blocks[i] && rest[i - 1 + 1] == blocks[i + 1] && rest[j - 1] == blocks[j];
    }
  }

  lemma NoGapBeforeData(blocks: seq<string>)
    requires |blocks| >= 2 && NoLossyGap(blocks[1..]) && !Dataless(blocks[1])
    ensures NoLossyGap(blocks)
  {
    forall i, j | 0 <= i && i + 1 < j < |blocks| && Dataless(blocks[i]) && Dataless(blocks[i + 1])
      ensures Dataless(blocks[j])
    {
      var rest := blocks[1..];
      assert i != 0;
      assert rest[i - 1] == blocks[i] && rest[i - 1 + 1] == blocks[i + 1] && rest[j - 1] == blocks[j];
    }
  }

  /** The common case: streams whose complete blocks all carry data. */
  lemma {:induction false} DataInEveryBlockIsEnough(inner: seq<Item>)
    requires forall i :: 0 <= i < |Blocks(Text(inner))| ==> !Dataless(Blocks(Text(inner))[i])
    ensures Emitted("", inner) == EventsOf(Blocks(Text(inner)))
  {
    assert NoLossyGap(Blocks(Text(inner)));
    ChunkIndependentIff(Text(inner));
  }
}
