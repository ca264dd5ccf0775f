/**
The cap on an event's size (`sse.rs`, `MAX_EVENT_BYTES`): a stream of written events of at most 1 MiB each arrives
whole, in any packets, and a longer line never does.
*/
module SseCapped {
  import opened Results
  import opened Utf8
  import opened Sse
  import opened SsePackets
  import opened SseRendering
  import opened SseWritten

  /** 1 MiB. */
  const CAP := 0x10_0000

  /** Nothing, or the LF of a CRLF whose CR ended an event. */
  predicate Lead(lead: seq<byte>) {
    lead == [] || lead == [10]
  }

  predicate Sized(blocks: seq<Block>) {
    forall b | b in blocks :: Proper(b) && |BlockBytes(b)| <= CAP
  }

  // ---------------------------------------------------------------------
  // Scanning what is written.

  lemma {:induction false} ScanOverLine(buf: seq<byte>, i: nat, line: seq<byte>, prev: bool)
    requires OneLine(line) && line != [] && Stands(buf, i, line)
    ensures Scan(buf, i, prev) == Scan(buf, i + |line|, false)
    decreases |line|
  {
    assert buf[i] == buf[i..i + |line|][0];
    if |line| > 1 {
      assert buf[i + 1..i + |line|] == buf[i..i + |line|][1..];
      ScanOverLine(buf, i + 1, line[1..], false);
    }
  }

  lemma ScanOverEnding(buf: seq<byte>, i: nat, e: Ending)
    requires i + |EndingBytes(e)| < |buf| && Stands(buf, i, EndingBytes(e))
    requires e.Cr? ==> buf[i + 1] != 10
    ensures Scan(buf, i, false) == Scan(buf, i + |EndingBytes(e)|, true)
  {
    assert buf[i] == buf[i..i + |EndingBytes(e)|][0];
    if e.CrLf? {
      assert buf[i + 1] == buf[i..i + |EndingBytes(e)|][1];
    }
  }

  /** These bytes stand at `at`. */
  predicate Stands(buf: seq<byte>, at: nat, part: seq<byte>) {
    at + |part| <= |buf| && buf[at..at + |part|] == part
  }

  lemma StandsTwice(buf: seq<byte>, at: nat, x: seq<byte>, y: seq<byte>)
    requires Stands(buf, at, x + y)
    ensures Stands(buf, at, x) && Stands(buf, at + |x|, y)
  {
    assert buf[at..at + |x|] == buf[at..at + |x + y|][..|x|];
    assert buf[at + |x|..at + |x| + |y|] == buf[at..at + |x + y|][|x|..];
  }

  lemma StandsAt(buf: seq<byte>, at: nat, part: seq<byte>, k: nat)
    requires Stands(buf, at, part) && k < |part|
    ensures buf[at + k] == part[k]
  {
    assert buf[at..at + |part|][k] == buf[at + k];
  }

  lemma StandsAmong(x: seq<byte>, y: seq<byte>, z: seq<byte>)
    ensures Stands(x + y + z, |x|, y)
  {
  }

  /** Every line has something on it. */
  predicate Filled(lines: seq<(Written, Ending)>) {
    AllWellFormed(lines) && forall i | 0 <= i < |lines| :: !lines[i].0.Empty?
  }

  lemma FilledLine(l: Written)
    requires WellFormed(l) && !l.Empty?
    ensures OneLine(Line(l)) && Line(l) != []
  {
  }

  /** Scanning over these bytes, wherever they stand with more after them, ends right after a
      line's end, and on no blank line. `cr` says that an LF may not follow. */
  ghost predicate Crosses(part: seq<byte>, cr: bool) {
    forall buf: seq<byte>, at: nat, prev: bool |
      Stands(buf, at, part) && at + |part| < |buf| && (cr ==> buf[at + |part|] != 10) ::
      Scan(buf, at, prev) == Scan(buf, at + |part|, true)
  }

  /** And over these, right after a blank line. */
  ghost predicate Closes(part: seq<byte>, cr: bool) {
    forall buf: seq<byte>, at: nat, prev: bool |
      Stands(buf, at, part) && (cr ==> at + |part| == |buf| || buf[at + |part|] != 10) ::
      Scan(buf, at, prev) == Some(at + |part|)
  }

  lemma OneCrosses(l: Written, e: Ending)
    requires WellFormed(l) && !l.Empty?
    ensures Crosses(Line(l) + EndingBytes(e), e.Cr?)
  {
    var part := Line(l) + EndingBytes(e);
    FilledLine(l);
    forall buf: seq<byte>, at: nat, prev: bool |
      Stands(buf, at, part) && at + |part| < |buf| && (e.Cr? ==> buf[at + |part|] != 10)
      ensures Scan(buf, at, prev) == Scan(buf, at + |part|, true)
    {
      StandsTwice(buf, at, Line(l), EndingBytes(e));
      ScanOverLine(buf, at, Line(l), prev);
      ScanOverEnding(buf, at + |Line(l)|, e);
    }
  }

  lemma CrossesOn(x: seq<byte>, cr: bool, y: seq<byte>, cr': bool)
    requires Crosses(x, cr) && Crosses(y, cr') && y != [] && y[0] != 10
    ensures Crosses(x + y, cr')
  {
    forall buf: seq<byte>, at: nat, prev: bool |
      Stands(buf, at, x + y) && at + |x + y| < |buf| && (cr' ==> buf[at + |x + y|] != 10)
      ensures Scan(buf, at, prev) == Scan(buf, at + |x + y|, true)
    {
      StandsTwice(buf, at, x, y);
      StandsAt(buf, at + |x|, y, 0);
    }
  }

  lemma {:induction false} LinesCross(lines: seq<(Written, Ending)>)
    requires |lines| > 0 && Filled(lines)
    ensures Crosses(Render(lines), lines[|lines| - 1].1.Cr?)
    decreases |lines|
  {
    var before := lines[..|lines| - 1];
    var (l, e) := lines[|lines| - 1];
    var one := Line(l) + EndingBytes(e);
    OneCrosses(l, e);
    FilledLine(l);
    Associates(Render(before), Line(l), EndingBytes(e));
    if before == [] {
      assert Render(lines) == one;
    } else {
      LinesCross(before);
      CrossesOn(Render(before), before[|before| - 1].1.Cr?, one, e.Cr?);
    }
  }

  lemma ScanBlank(buf: seq<byte>, i: nat, e: Ending)
    requires Stands(buf, i, EndingBytes(e))
    requires e.Cr? ==> i + 1 == |buf| || buf[i + 1] != 10
    ensures Scan(buf, i, true) == Some(i + |EndingBytes(e)|)
  {
    assert buf[i] == buf[i..i + |EndingBytes(e)|][0];
    if e.CrLf? {
      assert buf[i + 1] == buf[i..i + |EndingBytes(e)|][1];
    }
  }

  lemma BlankCloses(x: seq<byte>, cr: bool, e: Ending)
    requires Crosses(x, cr) && !(cr && e.Lf?)
    ensures Closes(x + EndingBytes(e), e.Cr?)
  {
    var part := x + EndingBytes(e);
    forall buf: seq<byte>, at: nat, prev: bool |
      Stands(buf, at, part) && (e.Cr? ==> at + |part| == |buf| || buf[at + |part|] != 10)
      ensures Scan(buf, at, prev) == Some(at + |part|)
    {
      StandsTwice(buf, at, x, EndingBytes(e));
      StandsAt(buf, at + |x|, EndingBytes(e), 0);
      ScanBlank(buf, at + |x|, e);
    }
  }

  lemma BlockCloses(b: Block)
    requires Proper(b)
    ensures Closes(BlockBytes(b), b.blank.Cr?) == true
  {
    LinesCross(b.lines);
    BlankCloses(Render(b.lines), b.lines[|b.lines| - 1].1.Cr?, b.blank);
  }

  lemma ScanLf(buf: seq<byte>)
    requires |buf| > 1 && buf[0] == 10
    ensures Scan(buf, 0, false) == Scan(buf, 1, true)
  {
  }

  lemma ScanClosed(lead: seq<byte>, part: seq<byte>, rest: seq<byte>, cr: bool)
    requires Lead(lead) && Closes(part, cr) && part != [] && (cr && rest != [] ==> rest[0] != 10)
    ensures Scan(lead + part + rest, 0, false) == Some(|lead| + |part|)
  {
    var buf := lead + part + rest;
    StandsAmong(lead, part, rest);
    assert Stands(buf, |lead|, part) && Scan(buf, |lead|, lead != []) == Some(|lead| + |part|);
    if lead != [] {
      ScanLf(buf);
    }
  }

  /** The first event of what is written ends where it was written to. */
  lemma ScanBlock(lead: seq<byte>, b: Block, block: seq<byte>, rest: seq<byte>)
    requires Lead(lead) && Proper(b) && block == BlockBytes(b) && (b.blank.Cr? && rest != [] ==> rest[0] != 10)
    ensures Scan(lead + block + rest, 0, false) == Some(|lead| + |block|)
  {
    BlockCloses(b);
    BlockNotEmpty(b);
    ScanClosed(lead, block, rest, b.blank.Cr?);
  }

  lemma BlockNotEmpty(b: Block)
    ensures BlockBytes(b) != []
  {
  }

  lemma RenderEnds(lines: seq<(Written, Ending)>)
    requires |lines| > 0
    ensures var e := EndingBytes(lines[|lines| - 1].1);
            Render(lines) != [] && Render(lines)[|Render(lines)| - 1] == e[|e| - 1]
  {
  }

  /** Part of an event shows no end, unless all that is missing is the LF of its last CRLF. */
  lemma ScanPart(lead: seq<byte>, b: Block, t: seq<byte>, more: seq<byte>)
    requires Lead(lead) && Proper(b) && t + more == lead + BlockBytes(b) && more != []
    requires Scan(t, 0, false).Some?
    ensures Scan(t, 0, false) == Some(|t|) && more == [10] && t[|t| - 1] == 13
  {
    ScanExtends(t, more, 0, false);
    ScanBlock(lead, b, BlockBytes(b), []);
    assert lead + BlockBytes(b) + [] == t + more;
  }

  // ---------------------------------------------------------------------
  // Validity.

  lemma {:induction false} ValidJoins(a: seq<byte>, b: seq<byte>)
    requires ValidUtf8(a)
    ensures ValidUtf8(a + b) <==> ValidUtf8(b)
    decreases |a|
  {
    if |a| == 0 {
      assert a + b == b;
    } else {
      var n := ScalarLength(a);
      ScalarGoesOn(a, b);
      assert (a + b)[n..] == a[n..] + b;
      ValidJoins(a[n..], b);
    }
  }

  lemma ScalarGoesOn(a: seq<byte>, b: seq<byte>)
    requires ScalarLength(a) > 0
    ensures ScalarLength(a + b) == ScalarLength(a)
  {
  }

  lemma EndingValid(e: Ending)
    ensures ValidUtf8(EndingBytes(e))
  {
    AsciiSeparates([], 13, []);
    AsciiSeparates([], 10, []);
    AsciiSeparates([], 13, [10]);
    assert EndingBytes(e) == if e.Lf? then [] + [10] + [] else if e.Cr? then [] + [13] + [] else [] + [13] + [10];
    assert [] + [10] + [] == [10];
  }

  lemma {:induction false} RenderValid(lines: seq<(Written, Ending)>)
    requires forall i | 0 <= i < |lines| :: ValidUtf8(Line(lines[i].0))
    ensures ValidUtf8(Render(lines))
    decreases |lines|
  {
    if |lines| > 0 {
      var before := lines[..|lines| - 1];
      var (l, e) := lines[|lines| - 1];
      RenderValid(before);
      ValidJoins(Render(before), Line(l));
      EndingValid(e);
      ValidJoins(Render(before) + Line(l), EndingBytes(e));
    }
  }

  lemma BlockValid(lead: seq<byte>, b: Block)
    requires Lead(lead) && Proper(b)
    ensures ValidUtf8(lead + BlockBytes(b))
  {
    RenderValid(b.lines);
    EndingValid(b.blank);
    ValidJoins(Render(b.lines), EndingBytes(b.blank));
    AsciiSeparates([], 10, BlockBytes(b));
    assert [] + [10] + BlockBytes(b) == [10] + BlockBytes(b) && [] + BlockBytes(b) == BlockBytes(b);
  }

  // ---------------------------------------------------------------------
  // Draining.

  lemma {:induction false} StreamBegins(blocks: seq<Block>)
    requires Sized(blocks) && |blocks| > 0
    ensures |StreamOf(blocks)| > 0 && !IsBreak(StreamOf(blocks)[0])
  {
    var b := blocks[0];
    assert b in blocks;
    RenderBegins(b.lines);
  }

  lemma {:induction false} RenderBegins(lines: seq<(Written, Ending)>)
    requires |lines| > 0 && Filled(lines)
    ensures |Render(lines)| > 0 && !IsBreak(Render(lines)[0])
    decreases |lines|
  {
    var before, l := lines[..|lines| - 1], lines[|lines| - 1].0;
    FilledLine(l);
    if |before| > 0 {
      RenderBegins(before);
    } else {
      assert Render(lines)[0] == Line(l)[0];
    }
  }

  /** Where part of a first event is all there is. */
  lemma DrainPart(t: seq<byte>, lead: seq<byte>, b: Block, rest: seq<byte>, more: seq<byte>, endedCr: bool)
    returns (lead': seq<byte>, kept: bool)
    requires Lead(lead) && Proper(b) && |BlockBytes(b)| <= CAP
    requires t + more == lead + BlockBytes(b) + rest && |t| < |lead| + |BlockBytes(b)|
    ensures var d := Drain(t, endedCr);
            && d.valid && |d.rest| <= CAP && Lead(lead')
            && d.rest + more == lead' + (if kept then BlockBytes(b) + rest else rest)
  {
    var whole := lead + BlockBytes(b);
    var missing := whole[|t|..];
    assert t == (t + more)[..|t|] == (whole + rest)[..|t|] == whole[..|t|];
    assert t + missing == whole;
    assert more == (t + more)[|t|..] == (whole + rest)[|t|..] == missing + rest;
    if Scan(t, 0, false).Some? {
      ScanPart(lead, b, t, missing);
      BlockValid(lead, b);
      AsciiSeparates(t, 10, []);
      assert t + [10] + [] == whole;
      assert t[..|t|] == t && t[|t|..] == [];
      lead', kept := [10], false;
    } else {
      assert whole + rest == lead + (BlockBytes(b) + rest);
      lead', kept := lead, true;
    }
  }

  lemma DrainWhole(t: seq<byte>, lead: seq<byte>, b: Block, rest: seq<byte>, endedCr: bool)
    requires Lead(lead) && Proper(b) && t == lead + BlockBytes(b) + rest
    requires rest != [] ==> !IsBreak(rest[0])
    ensures var (d, later) := (Drain(t, endedCr), Drain(rest, t[|lead| + |BlockBytes(b)| - 1] == CR));
            d.rest == later.rest && d.valid == later.valid
  {
    var end := |lead| + |BlockBytes(b)|;
    ScanBlock(lead, b, BlockBytes(b), rest);
    BlockValid(lead, b);
    assert t[..end] == lead + BlockBytes(b) && t[end..] == rest;
  }

  lemma FirstOf(lead: seq<byte>, blocks: seq<Block>)
    requires Sized(blocks) && |blocks| > 0
    ensures lead + StreamOf(blocks) == lead + BlockBytes(blocks[0]) + StreamOf(blocks[1..])
    ensures StreamOf(blocks) == BlockBytes(blocks[0]) + StreamOf(blocks[1..])
    ensures Proper(blocks[0]) && |BlockBytes(blocks[0])| <= CAP && Sized(blocks[1..])
  {
    assert blocks[0] in blocks && forall x | x in blocks[1..] :: x in blocks;
    Associates(lead, BlockBytes(blocks[0]), StreamOf(blocks[1..]));
  }

  lemma Associates(x: seq<byte>, y: seq<byte>, z: seq<byte>)
    ensures x + (y + z) == x + y + z
  {
  }

  /** Draining the start of what is written leaves less than an event. */
  lemma {:induction false} DrainBlocks(t: seq<byte>, lead: seq<byte>, blocks: seq<Block>, more: seq<byte>,
                                       endedCr: bool)
    returns (lead': seq<byte>, left: seq<Block>)
    requires Lead(lead) && Sized(blocks) && t + more == lead + StreamOf(blocks)
    ensures var d := Drain(t, endedCr);
            && d.valid && |d.rest| <= CAP && Lead(lead') && Sized(left)
            && d.rest + more == lead' + StreamOf(left)
    decreases |blocks|
  {
    if |blocks| == 0 {
      assert Scan(t, 0, false).None?;
      lead', left := lead, blocks;
    } else {
      FirstOf(lead, blocks);
      if |t| < |lead| + |BlockBytes(blocks[0])| {
        var kept;
        lead', kept := DrainPart(t, lead, blocks[0], StreamOf(blocks[1..]), more, endedCr);
        left := if kept then blocks else blocks[1..];
      } else {
        lead', left := DrainOn(t, lead, blocks, more, endedCr);
      }
    }
  }

  lemma {:induction false} DrainOn(t: seq<byte>, lead: seq<byte>, blocks: seq<Block>, more: seq<byte>, endedCr: bool)
    returns (lead': seq<byte>, left: seq<Block>)
    requires Lead(lead) && Sized(blocks) && |blocks| > 0 && |lead| + |BlockBytes(blocks[0])| <= |t|
    requires t + more == lead + BlockBytes(blocks[0]) + StreamOf(blocks[1..])
    ensures var d := Drain(t, endedCr);
            && d.valid && |d.rest| <= CAP && Lead(lead') && Sized(left)
            && d.rest + more == lead' + StreamOf(left)
    decreases |blocks|, 0
  {
    var b, rest := blocks[0], StreamOf(blocks[1..]);
    var whole := lead + BlockBytes(b);
    FirstOf(lead, blocks);
    var after := SplitAfter(t, whole, rest, more);
    NextBegins(blocks[1..], after, more);
    DrainWhole(t, lead, b, after, endedCr);
    lead', left := DrainBlocks(after, [], blocks[1..], more, t[|whole| - 1] == CR);
  }

  lemma NextBegins(blocks: seq<Block>, after: seq<byte>, more: seq<byte>)
    requires Sized(blocks) && after + more == StreamOf(blocks)
    ensures after != [] ==> !IsBreak(after[0])
  {
    if after != [] {
      assert after[0] == StreamOf(blocks)[0];
      StreamBegins(blocks);
    }
  }

  lemma SplitAfter(t: seq<byte>, whole: seq<byte>, rest: seq<byte>, more: seq<byte>) returns (after: seq<byte>)
    requires t + more == whole + rest && |whole| <= |t|
    ensures t == whole + after && after + more == rest
  {
    after := t[|whole|..];
    assert t[..|whole|] == (t + more)[..|whole|] == whole;
    assert after + more == (t + more)[|whole|..] == rest;
  }

  // ---------------------------------------------------------------------
  // The theorems.

  lemma PushBlocks(s: Splitter, packet: seq<byte>, lead: seq<byte>, blocks: seq<Block>, more: seq<byte>)
    returns (lead': seq<byte>, left: seq<Block>)
    requires s.failure.None? && Lead(lead) && Sized(blocks) && s.buf + packet + more == lead + StreamOf(blocks)
    ensures var next := Push(s, packet).0;
            && next.failure.None? && Lead(lead') && Sized(left)
            && next.buf + more == lead' + StreamOf(left)
  {
    var from := TrimsLead(s, packet, lead, blocks, more);
    lead', left := DrainBlocks(s.buf + Trimmed(s, packet), from, blocks, more, false);
  }

  /** The LF that is swallowed is never the start of an event. */
  lemma TrimsLead(s: Splitter, packet: seq<byte>, lead: seq<byte>, blocks: seq<Block>, more: seq<byte>)
    returns (from: seq<byte>)
    requires Lead(lead) && Sized(blocks) && s.buf + packet + more == lead + StreamOf(blocks)
    ensures Lead(from) && s.buf + Trimmed(s, packet) + more == from + StreamOf(blocks)
  {
    from := lead;
    if Trimmed(s, packet) != packet {
      assert (s.buf + packet + more)[0] == 10;
      if |blocks| > 0 {
        StreamBegins(blocks);
      }
      assert lead == [10];
      from := [];
      assert s.buf + Trimmed(s, packet) + more == (s.buf + packet + more)[1..] == StreamOf(blocks);
    }
  }

  lemma {:induction false} FeedBlocks(s: Splitter, packets: seq<seq<byte>>, lead: seq<byte>, blocks: seq<Block>)
    requires s.failure.None? && Lead(lead) && Sized(blocks) && s.buf + Concat(packets) == lead + StreamOf(blocks)
    ensures FeedAll(s, packets).0.failure.None?
    decreases |packets|
  {
    if |packets| > 0 {
      var more := Concat(packets[1..]);
      assert s.buf + packets[0] + more == s.buf + Concat(packets);
      var lead', left := PushBlocks(s, packets[0], lead, blocks, more);
      FeedBlocks(Push(s, packets[0]).0, packets[1..], lead', left);
    }
  }

  /** Round trip. Events of at most 1 MiB each, written line by line with any line ends and fed
      to the splitter in any packets, all come out as the events they mean, in order, and
      the splitter never fails. */
  lemma WrittenStreamArrives(blocks: seq<Block>, packets: seq<seq<byte>>)
    requires Sized(blocks) && Concat(packets) == StreamOf(blocks)
    ensures FeedAll(EMPTY, packets).1 == Meanings(blocks) && FeedAll(EMPTY, packets).0.failure.None?
  {
    assert EMPTY.buf + Concat(packets) == [] + StreamOf(blocks);
    FeedBlocks(EMPTY, packets, [], blocks);
    WrittenStreamIsRead(blocks, packets);
  }

  lemma LineShowsNoEnd(line: seq<byte>)
    requires OneLine(line)
    ensures Scan(line, 0, false).None?
  {
    if line != [] {
      ScanOverLine(line, 0, line, false);
    }
  }

  /** And a line of more than 1 MiB never does, in any packets: the splitter fails for good. */
  lemma {:induction false} LongLineFails(s: Splitter, packets: seq<seq<byte>>)
    requires s.failure.None? && OneLine(s.buf + Concat(packets)) && |s.buf| <= CAP < |s.buf + Concat(packets)|
    ensures FeedAll(s, packets) == (Splitter([], false, Some(EventTooLarge)), [])
    decreases |packets|
  {
    var packet, more := packets[0], Concat(packets[1..]);
    var t := s.buf + packet;
    assert t + more == s.buf + Concat(packets);
    assert forall i | 0 <= i < |t| :: t[i] == (t + more)[i];
    assert packet != [] ==> packet[0] == t[|s.buf|];
    LineShowsNoEnd(t);
    assert Trimmed(s, packet) == packet;
    var next := Push(s, packet).0;
    assert Push(s, packet).1 == [] && [] + FeedAll(next, packets[1..]).1 == FeedAll(next, packets[1..]).1;
    if next.failure.Some? {
      FailedFeeds(next, packets[1..]);
    } else {
      LongLineFails(next, packets[1..]);
    }
  }

  lemma {:induction false} FailedFeeds(s: Splitter, packets: seq<seq<byte>>)
    requires s.failure.Some?
    ensures FeedAll(s, packets) == (s, [])
    decreases |packets|
  {
    if |packets| > 0 {
      FailedFeeds(s, packets[1..]);
      assert [] + FeedAll(s, packets[1..]).1 == [];
    }
  }
}
