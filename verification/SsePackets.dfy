/** However a stream is cut into packets, the splitter ends in the same state. */
module SsePackets {
  import opened Results
  import opened Utf8
  import opened Sse

  function Concat(packets: seq<seq<byte>>): seq<byte> {
    if |packets| == 0 then [] else packets[0] + Concat(packets[1..])
  }

  function FeedAll(s: Splitter, packets: seq<seq<byte>>): (Splitter, seq<Event>)
    decreases |packets|
  {
    if |packets| == 0 then (s, [])
    else
      var (next, events) := Push(s, packets[0]);
      var (last, more) := FeedAll(next, packets[1..]);
      (last, events + more)
  }

  /** A CRLF pair straddles the two. */
  predicate JoinsCrlf(x: seq<byte>, b: seq<byte>) {
    |x| > 0 && x[|x| - 1] == CR && |b| > 0 && b[0] == LF
  }

  /** More bytes never move an event's end, but for the LF of a split CRLF. */
  lemma {:induction false} ScanExtends(x: seq<byte>, b: seq<byte>, i: nat, prev: bool)
    requires i <= |x| && Scan(x, i, prev).Some?
    ensures var end := Scan(x, i, prev).value;
            Scan(x + b, i, prev) == Some(if end == |x| && JoinsCrlf(x, b) then end + 1 else end)
    decreases |x| - i
  {
    var n := BreakLength(x, i);
    assert (x + b)[i] == x[i];
    if i + 1 < |x| {
      assert (x + b)[i + 1] == x[i + 1];
    } else if |b| > 0 {
      assert (x + b)[i + 1] == b[0];
    }
    if n == 0 {
      ScanExtends(x, b, i + 1, false);
    } else if !prev {
      ScanExtends(x, b, i + n, true);
    }
  }

  lemma TrailingBreak(text: seq<byte>, b: byte)
    requires IsBreak(b)
    ensures ParseEvent(text + [b]) == ParseEvent(text)
    ensures ValidUtf8(text + [b]) <==> ValidUtf8(text)
  {
    assert (text + [b])[..|text + [b]| - 1] == text;
    assert (Lines(text) + [[]])[..|Lines(text)|] == Lines(text);
    assert Lines(text)[..|Lines(text)| - 1] + [Lines(text)[|Lines(text)| - 1]] == Lines(text);
    AsciiSeparates(text, b, []);
    assert text + [b] + [] == text + [b];
    LastTaken(Lines(text));
  }

  lemma LastTaken(lines: seq<seq<byte>>)
    ensures TakeLines(lines + [[]]) == TakeLines(lines)
  {
  }

  /** What the bytes after a drained prefix yield. */
  function Onward(d: Drained, b: seq<byte>): Drained
    requires |b| > 0
  {
    if d.rest == [] && d.endedCr && b[0] == LF then Drain(b[1..], false) else Drain(d.rest + b, d.endedCr)
  }

  lemma DrainIs(buf: seq<byte>, raw: seq<byte>, tail: seq<byte>, endedCr: bool)
    requires buf == raw + tail && Scan(buf, 0, false) == Some(|raw|)
    ensures Drain(buf, endedCr) ==
            if ValidUtf8(raw) then After(ParseEvent(raw), Drain(tail, raw[|raw| - 1] == CR))
            else Drained([], [], false, false)
  {
  }

  lemma AfterTwice(first: seq<Event>, second: seq<Event>, d: Drained)
    ensures After(first, After(second, d)) == After(first + second, d)
    ensures After([], d) == d
  {
  }

  /** An event that ends exactly where the bytes do, and what follows it. */
  lemma DrainJoinsAtEnd(x: seq<byte>, b: seq<byte>, endedCr: bool)
    requires |b| > 0 && Scan(x, 0, false) == Some(|x|)
    ensures Drain(x, endedCr) == if ValidUtf8(x) then Drained(ParseEvent(x), [], x[|x| - 1]
        == CR, true) else Drained([], [], false, false)
    ensures Drain(x + b, endedCr) ==
            if ValidUtf8(x)
            then After(ParseEvent(x), if JoinsCrlf(x, b) then Drain(b[1..], false) else Drain(b, x[|x| - 1] == CR))
            else Drained([], [], false, false)
  {
    DrainIs(x, x, [], endedCr);
    ScanExtends(x, b, 0, false);
    if JoinsCrlf(x, b) {
      TrailingBreak(x, LF);
      assert x + b == (x + [LF]) + b[1..];
      DrainIs(x + b, x + [LF], b[1..], endedCr);
    } else {
      DrainIs(x + b, x, b, endedCr);
    }
  }

  ghost predicate Joins(x: seq<byte>, b: seq<byte>, endedCr: bool)
    requires |b| > 0
  {
    var d := Drain(x, endedCr);
    Drain(x + b, endedCr) == if d.valid then After(d.events, Onward(d, b)) else d
  }

  /** One more event in front changes nothing about how the two parts join. */
  lemma JoinsAfter(first: seq<Event>, d: Drained, later: Drained, b: seq<byte>)
    requires |b| > 0 && later == if d.valid then After(d.events, Onward(d, b)) else d
    ensures var x := After(first, d);
            After(first, later) == if x.valid then After(x.events, Onward(x, b)) else x
  {
  }

  lemma DrainJoinsLater(x: seq<byte>, raw: seq<byte>, tail: seq<byte>, b: seq<byte>, endedCr: bool)
    requires |b| > 0 && x == raw + tail && Scan(x, 0, false) == Some(|raw|) && tail != []
    requires Joins(tail, b, raw[|raw| - 1] == CR)
    ensures Joins(x, b, endedCr)
  {
    ScanExtends(x, b, 0, false);
    assert x + b == raw + (tail + b);
    DrainIs(x, raw, tail, endedCr);
    DrainIs(x + b, raw, tail + b, endedCr);
    var cr := raw[|raw| - 1] == CR;
    JoinsAfter(ParseEvent(raw), Drain(tail, cr), Drain(tail + b, cr), b);
  }

  /** Draining in two parts is draining at once. */
  lemma {:induction false} DrainJoins(x: seq<byte>, b: seq<byte>, endedCr: bool)
    requires |b| > 0 && (x == [] ==> !endedCr)
    ensures Joins(x, b, endedCr)
    decreases |x|
  {
    var end := Scan(x, 0, false);
    if end.Some? {
      var raw, tail := x[..end.value], x[end.value..];
      assert x == raw + tail;
      if tail == [] {
        assert x == raw && [] + b == b;
        DrainJoinsAtEnd(x, b, endedCr);
      } else {
        DrainJoins(tail, b, raw[|raw| - 1] == CR);
        DrainJoinsLater(x, raw, tail, b, endedCr);
      }
    } else {
      AfterTwice([], [], Drain(x + b, endedCr));
    }
  }

  /** The flag a drain starts with is forgotten unless it ends with nothing. */
  lemma FlagForgotten(buf: seq<byte>, endedCr: bool)
    requires buf != []
    ensures Settle(Drain(buf, endedCr)) == Settle(Drain(buf, false))
        && Drain(buf, endedCr).events == Drain(buf, false).events
  {
  }

  lemma PushTwice(s: Splitter, a: seq<byte>, b: seq<byte>)
    requires a != [] && b != [] && Push(s, a).0.failure != Some(EventTooLarge)
    ensures var (first, events) := Push(s, a);
            var (second, more) := Push(first, b);
            Push(s, a + b) == (second, events + more)
  {
    if s.failure.None? {
      var x := s.buf + Trimmed(s, a);
      assert Trimmed(s, a + b) == Trimmed(s, a) + b;
      assert s.buf + Trimmed(s, a + b) == x + b;
      DrainJoins(x, b, false);
      PushAgain(Drain(x, false), b);
    } else {
      assert Push(s, a).1 + Push(s, b).1 == [];
    }
  }

  /** The second push drains on from where the first stopped. */
  lemma PushAgain(d: Drained, b: seq<byte>)
    requires b != [] && Settle(d).failure != Some(EventTooLarge)
    ensures var on := if d.valid then After(d.events, Onward(d, b)) else d;
            var (second, more) := Push(Settle(d), b);
            (Settle(on), on.events) == (second, d.events + more)
  {
    if d.valid {
      var s := Settle(d);
      assert s.buf + Trimmed(s, b) == if d.rest == [] && d.endedCr && b[0] == LF then b[1..] else d.rest + b;
      FlagForgotten(d.rest + b, d.endedCr);
    } else {
      assert d.events + [] == d.events;
    }
  }

  /** No packet but the last leaves too much buffered. */
  predicate Fits(s: Splitter, packets: seq<seq<byte>>)
    decreases |packets|
  {
    |packets| <= 1 || (Push(s, packets[0]).0.failure != Some(EventTooLarge)
        && Fits(Push(s, packets[0]).0, packets[1..]))
  }

  /** Packetisation independence for packets that are not empty: the events, and
      also the residual buffer, the swallow flag and the failure, are those of
      one push of the whole stream. */
  lemma {:induction false} PacketsDoNotMatter(s: Splitter, packets: seq<seq<byte>>)
    requires |packets| > 0 && Fits(s, packets) && forall p | p in packets :: p != []
    ensures FeedAll(s, packets) == Push(s, Concat(packets))
    decreases |packets|
  {
    var rest := packets[1..];
    assert packets == [packets[0]] + rest && packets[0] in packets;
    if rest == [] {
      assert packets[0] + [] == packets[0];
      assert Push(s, packets[0]).1 + [] == Push(s, packets[0]).1;
    } else {
      assert forall p | p in rest :: p in packets;
      assert rest[0] in rest;
      PacketsDoNotMatter(Push(s, packets[0]).0, rest);
      PushTwice(s, packets[0], Concat(rest));
    }
  }
}
