/**
The splitter against a parser that reads a whole stream line by line, as the
HTML standard describes it (section 9.2.6 of WHATWG HTML): a blank line
dispatches what the lines before it said.
*/
module SseReference {
  import opened Results
  import opened Utf8
  import opened Sse
  import opened SsePackets

  /** `valid` says whether every line since the last dispatch was UTF-8; a
      dispatch after one that was not fails for good. */
  datatype LineParser = LineParser(line: seq<byte>, afterCr: bool, fields: Fields, valid: bool, failed: bool)

  /** Between events. */
  function Idle(afterCr: bool): LineParser {
    LineParser([], afterCr, NOTHING, true, false)
  }

  function EndLine(p: LineParser, afterCr: bool): (LineParser, seq<Event>) {
    if p.line != [] then
      (LineParser([], afterCr, TakeLine(p.fields, p.line), p.valid && ValidUtf8(p.line), false), [])
    else if p.valid then (Idle(afterCr), Dispatch(p.fields))
    else (p.(failed := true), [])
  }

  /** One byte. A line ends at LF, CR or CRLF. */
  function Read(p: LineParser, b: byte): (LineParser, seq<Event>) {
    if p.failed then (p, [])
    else if b == LF && p.afterCr then (p.(afterCr := false), [])
    else if IsBreak(b) then EndLine(p, b == CR)
    else (p.(line := p.line + [b], afterCr := false), [])
  }

  function ReadAll(p: LineParser, bytes: seq<byte>): (LineParser, seq<Event>)
    decreases |bytes|
  {
    if |bytes| == 0 then (p, [])
    else
      var (next, events) := Read(p, bytes[0]);
      var (last, more) := ReadAll(next, bytes[1..]);
      (last, events + more)
  }

  lemma {:induction false} ReadJoins(p: LineParser, x: seq<byte>, y: seq<byte>)
    ensures var (next, events) := ReadAll(p, x);
            var (last, more) := ReadAll(next, y);
            ReadAll(p, x + y) == (last, events + more)
    decreases |x|
  {
    if |x| == 0 {
      assert x + y == y;
      assert [] + ReadAll(p, y).1 == ReadAll(p, y).1;
    } else {
      assert (x + y)[0] == x[0] && (x + y)[1..] == x[1..] + y;
      var (next, events) := Read(p, x[0]);
      ReadJoins(next, x[1..], y);
      var (mid, more) := ReadAll(next, x[1..]);
      assert events + (more + ReadAll(mid, y).1) == (events + more) + ReadAll(mid, y).1;
    }
  }

  lemma {:induction false} FailedReadsNothing(p: LineParser, bytes: seq<byte>)
    requires p.failed
    ensures ReadAll(p, bytes) == (p, [])
    decreases |bytes|
  {
    if |bytes| != 0 {
      FailedReadsNothing(p, bytes[1..]);
      assert Read(p, bytes[0]).1 + ReadAll(p, bytes[1..]).1 == [];
    }
  }

  /** Between events, whether a CR came last makes no difference to what the next
      bytes say: an LF is half of its pair, or a blank line with nothing to say. */
  lemma IdleFlag(bytes: seq<byte>)
    requires bytes != []
    ensures ReadAll(Idle(true), bytes) == ReadAll(Idle(false), bytes)
  {
  }

  // ---------------------------------------------------------------------
  // Inside an event.

  function Last(text: seq<byte>): seq<byte> {
    Lines(text)[|Lines(text)| - 1]
  }

  function Whole(text: seq<byte>): seq<seq<byte>> {
    Lines(text)[..|Lines(text)| - 1]
  }

  /** The last line, and what comes before it. */
  lemma {:induction false} LastIsSuffix(text: seq<byte>)
    ensures |Last(text)| <= |text| && text[|text| - |Last(text)|..] == Last(text)
    ensures |Last(text)| < |text| ==> IsBreak(text[|text| - |Last(text)| - 1])
  {
    if |text| != 0 {
      var before, b := text[..|text| - 1], text[|text| - 1];
      LastIsSuffix(before);
      assert text == before + [b];
      if !IsBreak(b) {
        var n := |before| - |Last(before)|;
        assert Last(text) == Last(before) + [b];
        assert text[n..] == before[n..] + [b];
      }
    }
  }

  function Start(text: seq<byte>): seq<byte> {
    LastIsSuffix(text);
    text[..|text| - |Last(text)|]
  }

  /** The parser after `text`, all of it since the last dispatch. */
  predicate Mid(p: LineParser, text: seq<byte>) {
    && !p.failed
    && p.line == Last(text)
    && p.fields == TakeLines(Whole(text))
    && (p.valid <==> ValidUtf8(Start(text)))
    && (p.afterCr <==> text != [] && text[|text| - 1] == CR)
  }

  lemma LineBreaks(text: seq<byte>, b: byte)
    requires IsBreak(b)
    ensures Last(text + [b]) == [] && Whole(text + [b]) == Lines(text)
  {
    assert (text + [b])[..|text + [b]| - 1] == text;
    assert (Lines(text) + [[]])[..|Lines(text)|] == Lines(text);
  }

  lemma LineGoesOn(text: seq<byte>, b: byte)
    requires !IsBreak(b)
    ensures Last(text + [b]) == Last(text) + [b] && Whole(text + [b]) == Whole(text)
  {
    assert (text + [b])[..|text + [b]| - 1] == text;
    assert (Whole(text) + [Last(text) + [b]])[..|Whole(text)|] == Whole(text);
  }

  lemma LinesGrow(text: seq<byte>, b: byte)
    ensures IsBreak(b) ==> Last(text + [b]) == [] && Whole(text + [b]) == Lines(text) && Start(text + [b]) == text + [b]
    ensures !IsBreak(b) ==>
              && Last(text + [b]) == Last(text) + [b]
              && Whole(text + [b]) == Whole(text) && Start(text + [b]) == Start(text)
  {
    LastIsSuffix(text);
    LastIsSuffix(text + [b]);
    if IsBreak(b) {
      LineBreaks(text, b);
    } else {
      LineGoesOn(text, b);
      var n := |text| - |Last(text)|;
      assert (text + [b])[..n] == text[..n];
    }
  }

  lemma WholeAndLast(text: seq<byte>)
    ensures TakeLines(Lines(text)) == TakeLine(TakeLines(Whole(text)), Last(text))
    ensures ValidUtf8(text) <==> ValidUtf8(Start(text)) && ValidUtf8(Last(text))
  {
    LastIsSuffix(text);
    assert text == Start(text) + Last(text);
    if Start(text) != [] {
      var head, b := Start(text)[..|Start(text)| - 1], Start(text)[|Start(text)| - 1];
      assert Start(text) == head + [b];
      AsciiSeparates(head, b, Last(text));
      AsciiSeparates(head, b, []);
      assert head + [b] + [] == head + [b];
    }
  }

  /** A byte that does not end the event. */
  lemma MidRead(p: LineParser, text: seq<byte>, b: byte)
    requires Mid(p, text)
    requires p.line != [] || !IsBreak(b) || text == [] || (b == LF && p.afterCr)
    ensures Read(p, b).1 == [] && Mid(Read(p, b).0, text + [b])
  {
    LinesGrow(text, b);
    WholeAndLast(text);
    if IsBreak(b) {
      TrailingBreak(text, b);
      LastIsSuffix(text);
    }
  }

  /** The blank line that does. */
  lemma MidBlank(p: LineParser, text: seq<byte>, b: byte)
    requires Mid(p, text) && p.line == [] && text != [] && IsBreak(b) && !(b == LF && p.afterCr)
    ensures if ValidUtf8(text + [b])
            then Read(p, b) == (Idle(b == CR), ParseEvent(text + [b]))
            else Read(p, b).0.failed && Read(p, b).1 == []
  {
    WholeAndLast(text);
    TrailingBreak(text, b);
  }

  // ---------------------------------------------------------------------
  // One event.

  lemma ReadOne(p: LineParser, b: byte, tail: seq<byte>)
    ensures ReadAll(p, [b]) == Read(p, b)
    ensures var (next, events) := Read(p, b);
            ReadAll(p, [b] + tail) == (ReadAll(next, tail).0, events + ReadAll(next, tail).1)
  {
    assert ([b] + tail)[1..] == tail && [b][1..] == [];
    assert Read(p, b).1 + [] == Read(p, b).1;
  }

  /** The terminator at `i`. */
  function BreakAt(buf: seq<byte>, i: nat): seq<byte>
    requires i < |buf|
  {
    buf[i..i + BreakLength(buf, i)]
  }

  lemma BreakIs(buf: seq<byte>, i: nat)
    requires i < |buf| && BreakLength(buf, i) > 0
    ensures BreakAt(buf, i) == if BreakLength(buf, i) == 2 then [CR, LF] else [buf[i]]
    ensures IsBreak(buf[i])
    ensures buf[..i] + BreakAt(buf, i) == buf[..i + BreakLength(buf, i)]
  {
  }

  lemma ReadCrLf(p: LineParser)
    ensures ReadAll(p, [CR, LF]) == (Read(Read(p, CR).0, LF).0, Read(p, CR).1 + Read(Read(p, CR).0, LF).1)
  {
    assert [CR, LF] == [CR] + [LF];
    ReadOne(p, CR, [LF]);
    ReadOne(Read(p, CR).0, LF, []);
  }

  /** A terminator in the middle of an event. */
  lemma MidReadBreak(p: LineParser, text: seq<byte>, b: byte)
    requires Mid(p, text) && (p.line != [] || text == []) && IsBreak(b)
    ensures ReadAll(p, [b]).1 == [] && Mid(ReadAll(p, [b]).0, text + [b]) && ReadAll(p, [b]).0.line == []
  {
    MidRead(p, text, b);
    LinesGrow(text, b);
    ReadOne(p, b, []);
  }

  lemma MidReadCrLf(p: LineParser, text: seq<byte>)
    requires Mid(p, text) && (p.line != [] || text == [])
    ensures ReadAll(p, [CR, LF]).1 == [] && Mid(ReadAll(p, [CR, LF]).0, text + [CR, LF])
        && ReadAll(p, [CR, LF]).0.line == []
  {
    MidReadBreak(p, text, CR);
    ReadOne(p, CR, []);
    var next := Read(p, CR).0;
    MidRead(next, text + [CR], LF);
    LinesGrow(text + [CR], LF);
    assert text + [CR] + [LF] == text + [CR, LF];
    ReadCrLf(p);
  }

  /** The blank line that ends the event. */
  ghost predicate Blank(p: LineParser, text: seq<byte>, end: seq<byte>)
    requires |end| > 0
  {
    var (next, events) := ReadAll(p, end);
    if ValidUtf8(text + end) then next == Idle(end[|end| - 1] == CR) && events == ParseEvent(text + end)
    else next.failed && events == []
  }

  lemma MidReadBlank(p: LineParser, text: seq<byte>, b: byte)
    requires Mid(p, text) && p.line == [] && text != [] && IsBreak(b) && !(b == LF && p.afterCr)
    ensures Blank(p, text, [b])
  {
    MidBlank(p, text, b);
    ReadOne(p, b, []);
  }

  lemma MidReadBlankCrLf(p: LineParser, text: seq<byte>)
    requires Mid(p, text) && p.line == [] && text != []
    ensures Blank(p, text, [CR, LF])
  {
    MidBlank(p, text, CR);
    TrailingBreak(text + [CR], LF);
    assert text + [CR] + [LF] == text + [CR, LF];
    ReadCrLf(p);
    assert Read(p, CR).1 + [] == Read(p, CR).1;
  }

  /** The scan and the line parser agree on where an event ends, and on what it
      says; until then the parser says nothing. */
  ghost predicate ScanAgrees(p: LineParser, buf: seq<byte>, i: nat, prev: bool)
    requires i <= |buf|
  {
    match Scan(buf, i, prev)
    case None => ReadAll(p, buf[i..]).1 == [] && Mid(ReadAll(p, buf[i..]).0, buf)
    case Some(end) =>
      Blank(p, buf[..i], buf[i..end])
  }

  /** Bytes that say nothing can be read first. */
  lemma ReadOver(p: LineParser, buf: seq<byte>, i: nat, m: nat, stop: nat)
    requires i <= m <= stop <= |buf| && ReadAll(p, buf[i..m]).1 == []
    ensures ReadAll(p, buf[i..stop]) == ReadAll(ReadAll(p, buf[i..m]).0, buf[m..stop])
  {
    assert buf[i..stop] == buf[i..m] + buf[m..stop];
    ReadJoins(p, buf[i..m], buf[m..stop]);
    var last := ReadAll(ReadAll(p, buf[i..m]).0, buf[m..stop]);
    assert [] + last.1 == last.1;
  }

  lemma Rejoined(buf: seq<byte>, i: nat, stop: nat)
    requires i <= stop <= |buf|
    ensures buf[..i] + buf[i..stop] == buf[..stop]
    ensures buf[i..|buf|] == buf[i..]
  {
  }

  lemma ScanOn(p: LineParser, buf: seq<byte>, i: nat, prev: bool, m: nat, on: bool)
    requires i < m <= |buf| && ReadAll(p, buf[i..m]).1 == []
    requires Scan(buf, i, prev) == Scan(buf, m, on) && ScanAgrees(ReadAll(p, buf[i..m]).0, buf, m, on)
    ensures ScanAgrees(p, buf, i, prev)
  {
    var end := Scan(buf, i, prev);
    var stop := if end.Some? then end.value else |buf|;
    ReadOver(p, buf, i, m, stop);
    Rejoined(buf, i, stop);
    Rejoined(buf, m, stop);
  }

  /** From a position that is not inside a CRLF pair. */
  predicate Between(p: LineParser, buf: seq<byte>, i: nat, prev: bool) {
    && i <= |buf| && Mid(p, buf[..i])
    && (prev <==> i > 0 && p.line == [])
    && (0 < i < |buf| ==> !(buf[i - 1] == CR && buf[i] == LF))
  }

  lemma BetweenByte(p: LineParser, buf: seq<byte>, i: nat, prev: bool)
    requires Between(p, buf, i, prev) && i < |buf| && BreakLength(buf, i) == 0
    ensures ReadAll(p, buf[i..i + 1]).1 == [] && Between(ReadAll(p, buf[i..i + 1]).0, buf, i + 1, false)
  {
    MidRead(p, buf[..i], buf[i]);
    LinesGrow(buf[..i], buf[i]);
    assert buf[..i] + [buf[i]] == buf[..i + 1] && buf[i..i + 1] == [buf[i]];
    ReadOne(p, buf[i], []);
  }

  lemma BetweenBreak(p: LineParser, buf: seq<byte>, i: nat)
    requires Between(p, buf, i, false) && i < |buf| && BreakLength(buf, i) > 0
    ensures ReadAll(p, BreakAt(buf, i)).1 == []
        && Between(ReadAll(p, BreakAt(buf, i)).0, buf, i + BreakLength(buf, i), true)
  {
    BreakIs(buf, i);
    if BreakLength(buf, i) == 2 {
      MidReadCrLf(p, buf[..i]);
    } else {
      MidReadBreak(p, buf[..i], buf[i]);
    }
  }

  lemma BetweenBlank(p: LineParser, buf: seq<byte>, i: nat)
    requires Between(p, buf, i, true) && i < |buf| && BreakLength(buf, i) > 0
    ensures Blank(p, buf[..i], BreakAt(buf, i))
  {
    BreakIs(buf, i);
    if BreakLength(buf, i) == 2 {
      MidReadBlankCrLf(p, buf[..i]);
    } else {
      MidReadBlank(p, buf[..i], buf[i]);
    }
  }

  lemma ScanAtEnd(p: LineParser, buf: seq<byte>, prev: bool)
    requires Mid(p, buf[..|buf|])
    ensures ScanAgrees(p, buf, |buf|, prev)
  {
    assert buf[|buf|..] == [] && buf[..|buf|] == buf;
  }

  lemma ScanOverBreak(p: LineParser, buf: seq<byte>, i: nat)
    requires i < |buf| && BreakLength(buf, i) > 0 && ReadAll(p, BreakAt(buf, i)).1 == []
    requires ScanAgrees(ReadAll(p, BreakAt(buf, i)).0, buf, i + BreakLength(buf, i), true)
    ensures ScanAgrees(p, buf, i, false)
  {
    var m := i + BreakLength(buf, i);
    assert m == |buf| ==> Scan(buf, m, true) == None;
    ScanOn(p, buf, i, false, m, true);
  }

  lemma {:induction false} ScanReads(p: LineParser, buf: seq<byte>, i: nat, prev: bool)
    requires Between(p, buf, i, prev)
    ensures ScanAgrees(p, buf, i, prev)
    decreases |buf| - i
  {
    if i == |buf| {
      ScanAtEnd(p, buf, prev);
    } else if BreakLength(buf, i) == 0 {
      BetweenByte(p, buf, i, prev);
      ScanReads(ReadAll(p, buf[i..i + 1]).0, buf, i + 1, false);
      ScanOn(p, buf, i, prev, i + 1, false);
    } else if prev {
      BetweenBlank(p, buf, i);
    } else {
      BetweenBreak(p, buf, i);
      ScanReads(ReadAll(p, BreakAt(buf, i)).0, buf, i + BreakLength(buf, i), true);
      ScanOverBreak(p, buf, i);
    }
  }
}
