/** A whole stream of written events, fed to the splitter in any packets, gives the events they mean. */
module SseWritten {
  import opened Results
  import opened Utf8
  import opened Sse
  import opened SsePackets
  import opened SseReference
  import opened SseStream
  import opened SseRendering

  /** The lines of an event and the end of the blank line after them. */
  datatype Block = Block(lines: seq<(Written, Ending)>, blank: Ending)

  /** Something is written on every line, in valid text, and the blank line is not taken
      for the other half of a CRLF. */
  predicate Proper(b: Block) {
    && |b.lines| > 0 && AllWellFormed(b.lines)
    && (forall i | 0 <= i < |b.lines| :: !b.lines[i].0.Empty? && ValidUtf8(Line(b.lines[i].0)))
    && !(b.lines[|b.lines| - 1].1.Cr? && b.blank.Lf?)
  }

  function BlockBytes(b: Block): seq<byte> {
    Render(b.lines) + EndingBytes(b.blank)
  }

  function StreamOf(blocks: seq<Block>): seq<byte> {
    if |blocks| == 0 then [] else BlockBytes(blocks[0]) + StreamOf(blocks[1..])
  }

  function Meanings(blocks: seq<Block>): seq<Event> {
    if |blocks| == 0 then [] else Meaning(Contents(blocks[0].lines)) + Meanings(blocks[1..])
  }

  /** The line parser with these lines read and nothing of the next. */
  function At(lines: seq<Written>, afterCr: bool): LineParser {
    LineParser([], afterCr, Taken(lines), true, false)
  }

  lemma {:induction false} ReadsBytes(p: LineParser, line: seq<byte>)
    requires OneLine(line) && !p.failed
    ensures ReadAll(p, line) ==
            (p.(line := p.line + line, afterCr := if line == [] then p.afterCr else false), [])
    decreases |line|
  {
    if |line| == 0 {
      assert p.line + line == p.line;
    } else {
      assert line == [line[0]] + line[1..];
      var next := p.(line := p.line + [line[0]], afterCr := false);
      ReadOne(p, line[0], line[1..]);
      ReadsBytes(next, line[1..]);
      assert next.line + line[1..] == p.line + line;
    }
  }

  /** A line's end, of any kind, ends the line once. */
  lemma ReadsEnding(p: LineParser, e: Ending)
    requires !p.failed && !(e.Lf? && p.afterCr)
    ensures ReadAll(p, EndingBytes(e)) ==
            var (next, events) := EndLine(p, false);
            (next.(afterCr := if next.failed then p.afterCr else e.Cr?), events)
  {
    ReadOne(p, EndingBytes(e)[0], []);
    assert EndingBytes(e)[1..] == if e.CrLf? then [10] else [];
    if e.CrLf? {
      ReadOne(p, 13, [10]);
      assert [13] + [10] == EndingBytes(e);
      ReadOne(EndLine(p, true).0, 10, []);
      assert EndLine(p, true).1 + [] == EndLine(p, true).1;
    }
  }

  lemma ReadsLine(lines: seq<Written>, afterCr: bool, l: Written, e: Ending)
    requires WellFormed(l) && !l.Empty? && ValidUtf8(Line(l))
    ensures ReadAll(At(lines, afterCr), Line(l) + EndingBytes(e)) == (At(lines + [l], e.Cr?), [])
  {
    var p := At(lines, afterCr);
    WrittenIsOneLine(l);
    ReadsBytes(p, Line(l));
    assert [] + Line(l) == Line(l) && Line(l) != [];
    var mid := p.(line := Line(l), afterCr := false);
    ReadsEnding(mid, e);
    ReadJoins(p, Line(l), EndingBytes(e));
    TakenOneMore(lines, l);
  }

  lemma {:induction false} ReadsLines(lines: seq<(Written, Ending)>, afterCr: bool)
    requires AllWellFormed(lines)
    requires forall i | 0 <= i < |lines| :: !lines[i].0.Empty? && ValidUtf8(Line(lines[i].0))
    ensures ReadAll(At([], afterCr), Render(lines)) ==
            (At(Contents(lines), if lines == [] then afterCr else lines[|lines| - 1].1.Cr?), [])
  {
    if |lines| != 0 {
      var before := lines[..|lines| - 1];
      var (l, e) := lines[|lines| - 1];
      assert lines == before + [(l, e)];
      ReadsLines(before, afterCr);
      RenderOne(before, l, e);
      ReadsLine(Contents(before), if before == [] then afterCr else before[|before| - 1].1.Cr?, l, e);
      ReadJoins(At([], afterCr), Render(before), Line(l) + EndingBytes(e));
      assert Render(before) + Line(l) + EndingBytes(e) == Render(before) + (Line(l) + EndingBytes(e));
    } else {
      assert Contents(lines) == [];
    }
  }

  /** A blank line dispatches what the lines before it mean. */
  lemma BlankEnds(lines: seq<Written>, afterCr: bool, e: Ending)
    requires !(e.Lf? && afterCr)
    ensures ReadAll(At(lines, afterCr), EndingBytes(e)) == (Idle(e.Cr?), Meaning(lines))
  {
    JoinIsJoined(Values(lines, Ascii("data")));
    ReadsEnding(At(lines, afterCr), e);
  }

  lemma ReadsBlock(b: Block, afterCr: bool)
    requires Proper(b)
    ensures ReadAll(Idle(afterCr), BlockBytes(b)) == (Idle(b.blank.Cr?), Meaning(Contents(b.lines)))
  {
    var lines := Contents(b.lines);
    assert Idle(afterCr) == At([], afterCr);
    ReadsLines(b.lines, afterCr);
    var flag := b.lines[|b.lines| - 1].1.Cr?;
    BlankEnds(lines, flag, b.blank);
    ReadJoins(Idle(afterCr), Render(b.lines), EndingBytes(b.blank));
    assert [] + Meaning(lines) == Meaning(lines);
  }

  lemma {:induction false} ReadsStream(blocks: seq<Block>, afterCr: bool)
    requires forall b | b in blocks :: Proper(b)
    ensures ReadAll(Idle(afterCr), StreamOf(blocks)).1 == Meanings(blocks)
  {
    if |blocks| != 0 {
      assert blocks == [blocks[0]] + blocks[1..] && blocks[0] in blocks;
      ReadsBlock(blocks[0], afterCr);
      ReadsStream(blocks[1..], blocks[0].blank.Cr?);
      ReadJoins(Idle(afterCr), BlockBytes(blocks[0]), StreamOf(blocks[1..]));
    }
  }

  /** Round trip. Events written line by line, with any line ends, and fed to the
      splitter in any packets, come out as the events they mean: the start of them if
      one outgrew the cap, and otherwise all. */
  lemma WrittenStreamIsRead(blocks: seq<Block>, packets: seq<seq<byte>>)
    requires (forall b | b in blocks :: Proper(b)) && Concat(packets) == StreamOf(blocks)
    ensures var (last, events) := FeedAll(EMPTY, packets);
            && events <= Meanings(blocks)
            && (last.failure != Some(EventTooLarge) ==> events == Meanings(blocks))
  {
    ReadsStream(blocks, false);
    StreamIndependence(packets);
  }
}
