/**
Incremental Server-Sent Events framing (`sse.rs`). A string is its UTF-8 bytes:
every character the parser looks at is ASCII.
*/
module Sse {
  import opened Results
  import opened Utf8

  const LF: byte := 10
  const CR: byte := 13
  const COLON: byte := 58
  const SPACE: byte := 32
  const EVENT: seq<byte> := [101, 118, 101, 110, 116]
  const DATA: seq<byte> := [100, 97, 116, 97]

  const MAX_EVENT_BYTES := 1024 * 1024

  datatype Event = Event(name: Option<seq<byte>>, data: seq<byte>)

  datatype FramingError = EventTooLarge | InvalidUtf8

  /** A splitter's state. */
  datatype Splitter = Splitter(buf: seq<byte>, swallow: bool, failure: Option<FramingError>)

  const EMPTY := Splitter([], false, None)

  predicate IsBreak(b: byte) {
    b == LF || b == CR
  }

  // ---------------------------------------------------------------------
  // Event boundaries.

  /** The length of the line terminator at `i`; 0 when there is none. */
  function BreakLength(buf: seq<byte>, i: nat): (n: nat)
    requires i < |buf|
    ensures i + n <= |buf|
  {
    if buf[i] == LF then 1
    else if buf[i] == CR then if i + 1 < |buf| && buf[i + 1] == LF then 2 else 1
    else 0
  }

  /** One past the first blank line at or after `i`, where `prev` says whether a
      terminator ends right before `i`. A final CR that is not already a blank
      line may be half of a CRLF, so nothing ends there yet. */
  function Scan(buf: seq<byte>, i: nat, prev: bool): (end: Option<nat>)
    requires i <= |buf|
    ensures end.Some? ==> i < end.value <= |buf|
    decreases |buf| - i
  {
    if i == |buf| then None
    else
      var n := BreakLength(buf, i);
      if n == 0 then Scan(buf, i + 1, false)
      else if prev then Some(i + n)
      else if buf[i] == CR && i + 1 == |buf| then None
      else Scan(buf, i + n, true)
  }

  method FindEventEnd(buf: seq<byte>) returns (end: Option<nat>)
    ensures end == Scan(buf, 0, false)
  {
    var i, prevWasTerminator := 0, false;
    while i < |buf|
      invariant 0 <= i <= |buf|
      invariant Scan(buf, 0, false) == Scan(buf, i, prevWasTerminator)
    {
      var termLen := 0;
      if buf[i] == LF {
        termLen := 1;
      } else if buf[i] == CR {
        if i + 1 >= |buf| {
          return if prevWasTerminator then Some(i + 1) else None;
        }
        termLen := if buf[i + 1] == LF then 2 else 1;
      }
      if termLen == 0 {
        prevWasTerminator := false;
        i := i + 1;
      } else {
        i := i + termLen;
        if prevWasTerminator {
          return Some(i);
        }
        prevWasTerminator := true;
      }
    }
    return None;
  }

  // ---------------------------------------------------------------------
  // Fields.

  /** The pieces between terminator bytes; a CRLF pair leaves an empty one. */
  function Lines(text: seq<byte>): (lines: seq<seq<byte>>)
    ensures |lines| > 0
  {
    if |text| == 0 then [[]]
    else
      var before, b := Lines(text[..|text| - 1]), text[|text| - 1];
      if IsBreak(b) then before + [[]]
      else before[..|before| - 1] + [before[|before| - 1] + [b]]
  }

  /** The fields read so far. */
  datatype Fields = Fields(name: Option<seq<byte>>, data: seq<seq<byte>>)

  const NOTHING := Fields(None, [])

  function ColonAt(line: seq<byte>): (k: nat)
    ensures k <= |line|
    ensures k < |line| ==> line[k] == COLON
    ensures forall j | 0 <= j < k :: line[j] != COLON
  {
    if |line| == 0 || line[0] == COLON then 0 else 1 + ColonAt(line[1..])
  }

  function FieldName(line: seq<byte>): seq<byte> {
    line[..ColonAt(line)]
  }

  function FieldValue(line: seq<byte>): seq<byte> {
    var k := ColonAt(line);
    if k == |line| then []
    else if k + 1 < |line| && line[k + 1] == SPACE then line[k + 2..]
    else line[k + 1..]
  }

  function TakeLine(f: Fields, line: seq<byte>): Fields {
    if line == [] || line[0] == COLON then f
    else if FieldName(line) == EVENT then f.(name := Some(FieldValue(line)))
    else if FieldName(line) == DATA then f.(data := f.data + [FieldValue(line)])
    else f
  }

  function TakeLines(lines: seq<seq<byte>>): Fields {
    if |lines| == 0 then NOTHING else TakeLine(TakeLines(lines[..|lines| - 1]), lines[|lines| - 1])
  }

  function Join(data: seq<seq<byte>>): seq<byte> {
    if |data| == 0 then []
    else if |data| == 1 then data[0]
    else Join(data[..|data| - 1]) + [LF] + data[|data| - 1]
  }

  /** An event is dispatched only when it has at least one `data` line. */
  function Dispatch(f: Fields): seq<Event> {
    if f.data == [] then [] else [Event(f.name, Join(f.data))]
  }

  function ParseEvent(text: seq<byte>): seq<Event> {
    Dispatch(TakeLines(Lines(text)))
  }

  /** The loop over lines, one byte at a time. */
  method Parse(text: seq<byte>) returns (events: seq<Event>)
    ensures events == ParseEvent(text)
  {
    var name: Option<seq<byte>>, data: seq<seq<byte>>, line: seq<byte> := None, [], [];
    for i := 0 to |text|
      invariant line == Lines(text[..i])[|Lines(text[..i])| - 1]
      invariant Fields(name, data) == TakeLines(Lines(text[..i])[..|Lines(text[..i])| - 1])
    {
      assert text[..i + 1][..|text[..i + 1]| - 1] == text[..i];
      ghost var before := Lines(text[..i]);
      assert before == before[..|before| - 1] + [line];
      if IsBreak(text[i]) {
        assert (before + [[]])[..|before|] == before;
        name, data := ReadLine(name, data, line);
        line := [];
      } else {
        line := line + [text[i]];
      }
    }
    assert text[..|text|] == text;
    name, data := ReadLine(name, data, line);
    return if data == [] then [] else [Event(name, Join(data))];
  }

  method ReadLine(name: Option<seq<byte>>, data: seq<seq<byte>>, line: seq<byte>)
    returns (name': Option<seq<byte>>, data': seq<seq<byte>>)
    ensures Fields(name', data') == TakeLine(Fields(name, data), line)
  {
    name', data' := name, data;
    if line == [] || line[0] == COLON {
      return;
    }
    if FieldName(line) == EVENT {
      name' := Some(FieldValue(line));
    } else if FieldName(line) == DATA {
      data' := data + [FieldValue(line)];
    }
  }

  // ---------------------------------------------------------------------
  // Packets.

  /** What draining the complete events of a buffer yields. */
  datatype Drained = Drained(events: seq<Event>, rest: seq<byte>, endedCr: bool, valid: bool)

  function Drain(buf: seq<byte>, endedCr: bool): Drained
    decreases |buf|
  {
    match Scan(buf, 0, false)
    case None => Drained([], buf, endedCr, true)
    case Some(end) =>
      if !ValidUtf8(buf[..end]) then Drained([], [], false, false)
      else
        var later := Drain(buf[end..], buf[end - 1] == CR);
        later.(events := ParseEvent(buf[..end]) + later.events)
  }

  /** What is left of a packet once a swallowed LF is gone. */
  function Trimmed(s: Splitter, packet: seq<byte>): seq<byte> {
    if s.swallow && s.buf == [] && |packet| > 0 && packet[0] == LF then packet[1..] else packet
  }

  /** A drain that follows `events`. */
  function After(events: seq<Event>, d: Drained): Drained {
    d.(events := events + d.events)
  }

  lemma DrainOne(events: seq<Event>, buf: seq<byte>, endedCr: bool)
    requires Scan(buf, 0, false).Some?
    ensures var end := Scan(buf, 0, false).value;
            After(events, Drain(buf, endedCr)) ==
            if ValidUtf8(buf[..end])
            then After(events + ParseEvent(buf[..end]), Drain(buf[end..], buf[end - 1] == CR))
            else Drained(events, [], false, false)
  {
    var end := Scan(buf, 0, false).value;
    var first, later := ParseEvent(buf[..end]), Drain(buf[end..], buf[end - 1] == CR).events;
    assert events + (first + later) == (events + first) + later;
    assert events + [] == events;
  }

  lemma DrainNone(events: seq<Event>, buf: seq<byte>, endedCr: bool)
    requires Scan(buf, 0, false).None?
    ensures After(events, Drain(buf, endedCr)) == Drained(events, buf, endedCr, true)
  {
  }

  function Settle(d: Drained): Splitter {
    if !d.valid then Splitter([], false, Some(InvalidUtf8))
    else if |d.rest| > MAX_EVENT_BYTES then Splitter([], false, Some(EventTooLarge))
    else Splitter(d.rest, d.endedCr && d.rest == [], None)
  }

  function Push(s: Splitter, packet: seq<byte>): (Splitter, seq<Event>) {
    if s.failure.Some? then (s, [])
    else
      var d := Drain(s.buf + Trimmed(s, packet), false);
      (Settle(d), d.events)
  }

  class EventSplitter {
    var buf: seq<byte>
    var swallowLeadingLf: bool
    var failure: Option<FramingError>

    constructor ()
      ensures State() == EMPTY
    {
      buf, swallowLeadingLf, failure := [], false, None;
    }

    function State(): Splitter
      reads this
    {
      Splitter(buf, swallowLeadingLf, failure)
    }

    /** Feeds one packet; returns the events it completed. */
    method Feed(bytes: seq<byte>) returns (events: seq<Event>)
      modifies this
      ensures (State(), events) == Push(old(State()), bytes)
    {
      if failure.Some? {
        return [];
      }
      var packet := bytes;
      var swallow := swallowLeadingLf;
      swallowLeadingLf := false;
      if swallow && buf == [] && |packet| > 0 && packet[0] == LF {
        packet := packet[1..];
      }
      buf := buf + packet;
      var lastEventEndedCr;
      events, lastEventEndedCr := TakeEvents();
      if failure.Some? {
        return;
      }
      swallowLeadingLf := lastEventEndedCr && buf == [];
      if |buf| > MAX_EVENT_BYTES {
        Fail(EventTooLarge);
      }
    }

    /** Takes the complete events off the front of the buffer. */
    method TakeEvents() returns (events: seq<Event>, lastEventEndedCr: bool)
      requires failure.None? && !swallowLeadingLf
      modifies this
      ensures var d := Drain(old(buf), false);
              && events == d.events
              && State() == (if d.valid then Splitter(d.rest, false, None) else Splitter([], false, Some(InvalidUtf8)))
              && (d.valid ==> lastEventEndedCr == d.endedCr)
    {
      events, lastEventEndedCr := [], false;
      var end := FindEventEnd(buf);
      while end.Some?
        invariant end == Scan(buf, 0, false)
        invariant failure.None? && !swallowLeadingLf
        invariant Drain(old(buf), false) == After(events, Drain(buf, lastEventEndedCr))
        decreases |buf|
      {
        DrainOne(events, buf, lastEventEndedCr);
        lastEventEndedCr := buf[end.value - 1] == CR;
        var parsed := TakeEvent(end.value);
        if failure.Some? {
          return;
        }
        events := events + parsed;
        end := FindEventEnd(buf);
      }
      DrainNone(events, buf, lastEventEndedCr);
    }

    /** Takes one event of `end` bytes, or fails when they are not UTF-8. */
    method TakeEvent(end: nat) returns (parsed: seq<Event>)
      requires failure.None? && !swallowLeadingLf && end <= |buf|
      modifies this
      ensures if ValidUtf8(old(buf)[..end])
              then State() == Splitter(old(buf)[end..], false, None) && parsed == ParseEvent(old(buf)[..end])
              else State() == Splitter([], false, Some(InvalidUtf8))
    {
      var raw := buf[..end];
      buf := buf[end..];
      if !ValidUtf8(raw) {
        Fail(InvalidUtf8);
        return [];
      }
      parsed := Parse(raw);
    }

    method Fail(error: FramingError)
      modifies this
      ensures State() == Splitter([], false, Some(error))
    {
      failure, buf, swallowLeadingLf := Some(error), [], false;
    }

    /** True while the bytes seen so far end inside an unterminated event. */
    predicate IsMidEvent()
      reads this
    {
      buf != []
    }
  }
}
