/** Any packets against the whole-stream line parser. */
module SseStream {
  import opened Results
  import opened Utf8
  import opened Sse
  import opened SsePackets
  import opened SseReference

  lemma IdleIsMid()
    ensures Mid(Idle(false), [])
  {
  }

  /** From between events, the bytes up to the first event's end. */
  lemma FirstEvent(buf: seq<byte>, endedCr: bool)
    requires buf != []
    ensures var p := Idle(endedCr);
            match Scan(buf, 0, false)
            case None => ReadAll(p, buf).1 == [] && Mid(ReadAll(p, buf).0, buf)
            case Some(end) => Blank(p, [], buf[..end])
  {
    IdleIsMid();
    assert buf[..0] == [] && buf[0..] == buf;
    ScanReads(Idle(false), buf, 0, false);
    IdleFlag(buf);
    if Scan(buf, 0, false).Some? {
      IdleFlag(buf[0..Scan(buf, 0, false).value]);
    }
  }

  /** A drain and the line parser: the same events, and the same place after
      them. */
  ghost predicate DrainAgrees(buf: seq<byte>, endedCr: bool) {
    var d := Drain(buf, endedCr);
    var (p, events) := ReadAll(Idle(endedCr), buf);
    && events == d.events
    && (if !d.valid then p.failed
        else if d.rest == [] then p == Idle(d.endedCr)
        else Mid(p, d.rest) && Scan(d.rest, 0, false).None?)
  }

  lemma {:induction false} DrainReads(buf: seq<byte>, endedCr: bool)
    ensures DrainAgrees(buf, endedCr)
    decreases |buf|
  {
    if buf != [] {
      FirstEvent(buf, endedCr);
      var end := Scan(buf, 0, false);
      if end.Some? {
        var raw, tail := buf[..end.value], buf[end.value..];
        assert buf == raw + tail && [] + raw == raw;
        ReadJoins(Idle(endedCr), raw, tail);
        DrainIs(buf, raw, tail, endedCr);
        if ValidUtf8(raw) {
          DrainReads(tail, raw[|raw| - 1] == CR);
        } else {
          FailedReadsNothing(ReadAll(Idle(endedCr), raw).0, tail);
        }
      }
    }
  }

  // ---------------------------------------------------------------------
  // One packet.

  /** The splitter and the line parser have read the same bytes. */
  predicate Agrees(s: Splitter, p: LineParser) {
    match s.failure
    case Some(error) => error == InvalidUtf8 && p.failed
    case None =>
      if s.buf == [] then p == Idle(p.afterCr) && (s.swallow ==> p.afterCr)
      else Mid(p, s.buf) && Scan(s.buf, 0, false).None? && !s.swallow
  }

  lemma MidIsUnique(p: LineParser, q: LineParser, text: seq<byte>)
    requires Mid(p, text) && Mid(q, text)
    ensures p == q
  {
  }

  /** What is buffered can be read again from between events. */
  lemma Reread(s: Splitter, p: LineParser, packet: seq<byte>)
    requires Agrees(s, p) && s.failure.None? && s.buf != []
    ensures ReadAll(p, packet) == ReadAll(Idle(false), s.buf + packet)
  {
    FirstEvent(s.buf, false);
    MidIsUnique(p, ReadAll(Idle(false), s.buf).0, s.buf);
    ReadJoins(Idle(false), s.buf, packet);
    assert [] + ReadAll(p, packet).1 == ReadAll(p, packet).1;
  }

  /** A swallowed LF says nothing, and neither does its absence. */
  lemma Swallowed(s: Splitter, p: LineParser, packet: seq<byte>)
    requires Agrees(s, p) && s.failure.None? && s.buf == [] && packet != []
    ensures ReadAll(p, packet) == ReadAll(Idle(false), Trimmed(s, packet))
  {
    IdleFlag(packet);
    if Trimmed(s, packet) != packet {
      assert packet == [LF] + packet[1..];
      ReadOne(p, LF, packet[1..]);
      assert [] + ReadAll(Idle(false), packet[1..]).1 == ReadAll(Idle(false), packet[1..]).1;
    }
  }

  lemma PushAgrees(s: Splitter, p: LineParser, packet: seq<byte>)
    requires Agrees(s, p)
    ensures Push(s, packet).1 == ReadAll(p, packet).1
    ensures Push(s, packet).0.failure != Some(EventTooLarge) ==> Agrees(Push(s, packet).0, ReadAll(p, packet).0)
  {
    if s.failure.Some? {
      FailedReadsNothing(p, packet);
    } else {
      var buf := s.buf + Trimmed(s, packet);
      DrainReads(buf, false);
      if s.buf != [] {
        Reread(s, p, packet);
      } else if packet != [] {
        assert [] + Trimmed(s, packet) == Trimmed(s, packet);
        Swallowed(s, p, packet);
      }
    }
  }

  // ---------------------------------------------------------------------
  // A stream.

  /** What the line parser reads in a whole stream. */
  function WholeStream(bytes: seq<byte>): seq<Event> {
    ReadAll(Idle(false), bytes).1
  }

  lemma {:induction false} TooLargeSaysNothing(s: Splitter, packets: seq<seq<byte>>)
    requires s.failure.Some?
    ensures FeedAll(s, packets) == (s, [])
    decreases |packets|
  {
    if |packets| != 0 {
      TooLargeSaysNothing(s, packets[1..]);
      assert Push(s, packets[0]).1 + [] == [];
    }
  }

  lemma {:induction false} FeedAgrees(s: Splitter, p: LineParser, packets: seq<seq<byte>>)
    requires Agrees(s, p)
    ensures var (last, events) := FeedAll(s, packets);
            var whole := ReadAll(p, Concat(packets));
            && events <= whole.1
            && (last.failure != Some(EventTooLarge) ==> events == whole.1 && Agrees(last, whole.0))
    decreases |packets|
  {
    if |packets| != 0 {
      var rest := packets[1..];
      var (next, events) := Push(s, packets[0]);
      PushAgrees(s, p, packets[0]);
      ReadJoins(p, packets[0], Concat(rest));
      if next.failure == Some(EventTooLarge) {
        TooLargeSaysNothing(next, rest);
        assert events + [] == events;
      } else {
        FeedAgrees(next, ReadAll(p, packets[0]).0, rest);
      }
    }
  }

  /** Packetisation independence. However a stream is cut, empty packets
      included, the splitter's events are the start of those a line-by-line parse
      of the whole stream gives, and all of them unless an event outgrew the cap;
      and what one push of the whole stream gives is exactly them. */
  lemma StreamIndependence(packets: seq<seq<byte>>)
    ensures var (last, events) := FeedAll(EMPTY, packets);
            && events <= WholeStream(Concat(packets))
            && (last.failure != Some(EventTooLarge) ==> events == WholeStream(Concat(packets)))
    ensures Push(EMPTY, Concat(packets)).1 == WholeStream(Concat(packets))
  {
    FeedAgrees(EMPTY, Idle(false), packets);
    PushAgrees(EMPTY, Idle(false), Concat(packets));
  }

  /** Where an empty packet does show: after an event ended by CR, the LF of its
      pair is swallowed only if it comes in the very next packet, so an empty
      packet between leaves the LF buffered, and `is_mid_event` true. */
  lemma EmptyPacketUnswallows()
    ensures var swallowing := Push(EMPTY, [CR, CR]).0;
            && Push(swallowing, [LF]).0.buf == []
            && Push(Push(swallowing, []).0, [LF]).0.buf == [LF]
  {
    var buf := [CR, CR];
    assert Scan(buf, 1, true) == Some(2) && Scan(buf, 0, false) == Some(2);
    assert buf[1..] == [CR] && ValidUtf8([CR]) && ValidUtf8(buf);
    DrainIs(buf, buf, [], false);
    assert Push(EMPTY, buf).0 == Splitter([], true, None) by {
      assert EMPTY.buf + Trimmed(EMPTY, buf) == buf;
    }
    LoneLf();
  }

  lemma LoneLf()
    ensures Push(Splitter([], true, None), [LF]).0 == EMPTY
    ensures Push(Splitter([], true, None), []).0 == EMPTY
    ensures Push(EMPTY, [LF]).0 == Splitter([LF], false, None)
  {
  }
}
