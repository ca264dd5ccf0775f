/**
What an event is, written out: a block of lines is rendered from its fields, and parsing the rendering gives back the
event those fields make. Every block of lines is the rendering of some fields.
*/
module SseRendering {
  import opened Results
  import opened Utf8
  import opened Sse
  import opened SseReference

  /** A line of an event. In `Field` the colon may be followed by one space that is not
      part of the value; `Bare` has no colon. */
  datatype Written =
    | Empty
    | Comment(text: seq<byte>)
    | Bare(name: seq<byte>)
    | Field(name: seq<byte>, value: seq<byte>, spaced: bool)

  /** The bytes of an ASCII string. */
  function Ascii(s: string): seq<byte>
    requires forall i | 0 <= i < |s| :: s[i] < 128 as char
  {
    seq(|s|, i requires 0 <= i < |s| => s[i] as int as byte)
  }

  predicate OneLine(text: seq<byte>) {
    forall i | 0 <= i < |text| :: text[i] != 10 && text[i] != 13
  }

  predicate WellFormed(l: Written) {
    match l
    case Empty => true
    case Comment(text) => OneLine(text)
    case Bare(name) => name != [] && OneLine(name) && 58 !in name
    case Field(name, value, spaced) =>
      && name != [] && OneLine(name) && 58 !in name && OneLine(value)
      && (!spaced ==> value == [] || value[0] != 32)
  }

  /** A line without its terminator: the name, a colon (58), a space (32), the value. */
  function Line(l: Written): seq<byte> {
    match l
    case Empty => []
    case Comment(text) => [58] + text
    case Bare(name) => name
    case Field(name, value, spaced) => name + (if spaced then [58, 32] else [58]) + value
  }

  function NameIn(l: Written): Option<seq<byte>> {
    if l.Bare? || l.Field? then Some(l.name) else None
  }

  function ValueIn(l: Written): seq<byte> {
    if l.Field? then l.value else []
  }

  /** The values of the fields of this name, in order. */
  function Values(lines: seq<Written>, name: seq<byte>): seq<seq<byte>> {
    if |lines| == 0 then []
    else (if NameIn(lines[0]) == Some(name) then [ValueIn(lines[0])] else []) + Values(lines[1..], name)
  }

  /** The pieces with a line feed (10) between each two. */
  function Joined(pieces: seq<seq<byte>>): seq<byte> {
    if |pieces| == 0 then [] else if |pieces| == 1 then pieces[0] else pieces[0] + [10] + Joined(pieces[1..])
  }

  /** The event these lines make: its name is the last `event` value, its data all the
      `data` values joined; without `data` there is none. */
  function Meaning(lines: seq<Written>): seq<Event> {
    var names, data := Values(lines, Ascii("event")), Values(lines, Ascii("data"));
    if data == [] then []
    else [Event(if names == [] then None else Some(names[|names| - 1]), Joined(data))]
  }

  // ---------------------------------------------------------------------
  // One line.

  lemma {:induction false} ColonFound(name: seq<byte>, rest: seq<byte>)
    requires 58 !in name
    ensures ColonAt(name + [58] + rest) == |name|
    ensures ColonAt(name) == |name|
  {
    if |name| == 0 {
      assert name + [58] + rest == [58] + rest;
    } else {
      assert (name + [58] + rest)[1..] == name[1..] + [58] + rest;
      assert name[0] in name && forall b | b in name[1..] :: b in name;
      ColonFound(name[1..], rest);
    }
  }

  lemma Literals()
    ensures EVENT == Ascii("event") && DATA == Ascii("data")
  {
  }

  /** The name and value of a field as they are read. */
  lemma FieldSplits(l: Written)
    requires WellFormed(l) && l.Field?
    ensures Line(l) != [] && Line(l)[0] != COLON
    ensures FieldName(Line(l)) == l.name && FieldValue(Line(l)) == l.value
  {
    var k, rest := |l.name|, (if l.spaced then [32] else []) + l.value;
    assert Line(l) == l.name + [58] + rest;
    ColonFound(l.name, rest);
    assert l.name[0] in l.name && Line(l)[0] == l.name[0];
    assert Line(l)[..k] == l.name && Line(l)[k + 1..] == rest;
    if l.spaced {
      assert Line(l)[k + 2..] == l.value && Line(l)[k + 1] == 32;
    } else {
      assert rest == l.value;
      assert k + 1 < |Line(l)| ==> Line(l)[k + 1] == l.value[0];
    }
  }

  lemma BareSplits(l: Written)
    requires WellFormed(l) && l.Bare?
    ensures l.name[0] != COLON && FieldName(l.name) == l.name && FieldValue(l.name) == []
  {
    ColonFound(l.name, []);
    assert l.name[0] in l.name && l.name[..|l.name|] == l.name;
  }

  /** What taking a line in does, by what is written on it. */
  lemma TakeWritten(f: Fields, l: Written)
    requires WellFormed(l)
    ensures TakeLine(f, Line(l)) ==
            if NameIn(l) == Some(Ascii("event")) then f.(name := Some(ValueIn(l)))
            else if NameIn(l) == Some(Ascii("data")) then f.(data := f.data + [ValueIn(l)])
            else f
  {
    Literals();
    Different();
    if l.Bare? {
      BareSplits(l);
    } else if l.Field? {
      FieldSplits(l);
    }
  }

  // ---------------------------------------------------------------------
  // A block of lines.

  datatype Ending = Lf | Cr | CrLf

  function EndingBytes(e: Ending): seq<byte> {
    match e
    case Lf => [10]
    case Cr => [13]
    case CrLf => [13, 10]
  }

  /** Each line with its ending. */
  function Render(lines: seq<(Written, Ending)>): seq<byte> {
    if |lines| == 0 then []
    else Render(lines[..|lines| - 1]) + Line(lines[|lines| - 1].0) + EndingBytes(lines[|lines| - 1].1)
  }

  function Contents(lines: seq<(Written, Ending)>): (contents: seq<Written>)
    ensures |contents| == |lines| && forall i | 0 <= i < |lines| :: contents[i] == lines[i].0
  {
    seq(|lines|, i requires 0 <= i < |lines| => lines[i].0)
  }

  predicate AllWellFormed(lines: seq<(Written, Ending)>) {
    forall i | 0 <= i < |lines| :: WellFormed(lines[i].0)
  }

  lemma WrittenIsOneLine(l: Written)
    requires WellFormed(l)
    ensures OneLine(Line(l))
  {
  }

  /** Text without breaks goes on with the last line. */
  lemma {:induction false} LinesGoOn(text: seq<byte>, more: seq<byte>)
    requires OneLine(more)
    ensures var before := Lines(text); Lines(text + more) == before[..|before| - 1] + [before[|before| - 1] + more]
  {
    var before := Lines(text);
    if |more| == 0 {
      assert text + more == text && before[|before| - 1] + more == before[|before| - 1];
    } else {
      var most, b := more[..|more| - 1], more[|more| - 1];
      assert (text + more)[..|text + more| - 1] == text + most && more == most + [b];
      LinesGoOn(text, most);
      var so := before[..|before| - 1] + [before[|before| - 1] + most];
      assert so[..|so| - 1] == before[..|before| - 1];
      assert before[|before| - 1] + most + [b] == before[|before| - 1] + more;
    }
  }

  lemma LineEnds(text: seq<byte>, b: byte)
    requires b == 10 || b == 13
    ensures Lines(text + [b]) == Lines(text) + [[]]
  {
    assert (text + [b])[..|text|] == text;
  }

  lemma TakesLast(lines: seq<seq<byte>>, last: seq<byte>)
    ensures TakeLines(lines + [last]) == TakeLine(TakeLines(lines), last)
  {
    assert (lines + [last])[..|lines|] == lines;
  }

  /** A line on an empty one is taken in; a break then takes in nothing. */
  lemma LineTaken(text: seq<byte>, l: Written)
    requires WellFormed(l) && Lines(text)[|Lines(text)| - 1] == []
    ensures TakeLines(Lines(text + Line(l))) == TakeLine(TakeLines(Lines(text)), Line(l))
  {
    var before := Lines(text);
    var whole := before[..|before| - 1];
    WrittenIsOneLine(l);
    LinesGoOn(text, Line(l));
    assert before == whole + [[]] && [] + Line(l) == Line(l);
    TakesLast(whole, []);
    TakesLast(whole, Line(l));
  }

  lemma BreakTaken(text: seq<byte>, b: byte)
    requires b == 10 || b == 13
    ensures var after := Lines(text + [b]); after[|after| - 1] == [] && TakeLines(after) == TakeLines(Lines(text))
  {
    LineEnds(text, b);
    TakesLast(Lines(text), []);
  }

  lemma EndingTaken(text: seq<byte>, e: Ending)
    ensures var after := Lines(text + EndingBytes(e));
            after[|after| - 1] == [] && TakeLines(after) == TakeLines(Lines(text))
  {
    BreakTaken(text, EndingBytes(e)[0]);
    if e.CrLf? {
      BreakTaken(text + [13], 10);
      assert text + EndingBytes(e) == text + [13] + [10];
    }
  }

  /** One more line, with any ending, is one more line taken in. */
  lemma OneMoreLine(text: seq<byte>, l: Written, e: Ending)
    requires WellFormed(l) && Lines(text)[|Lines(text)| - 1] == []
    ensures var after := Lines(text + Line(l) + EndingBytes(e));
            && after[|after| - 1] == []
            && TakeLines(after) == TakeLine(TakeLines(Lines(text)), Line(l))
  {
    LineTaken(text, l);
    EndingTaken(text + Line(l), e);
  }

  /** The fields taken in from some lines, by what is written on them. */
  function Taken(lines: seq<Written>): Fields {
    var names := Values(lines, Ascii("event"));
    Fields(if names == [] then None else Some(names[|names| - 1]), Values(lines, Ascii("data")))
  }

  lemma {:induction false} ValuesAppend(lines: seq<Written>, l: Written, name: seq<byte>)
    ensures Values(lines + [l], name) == Values(lines, name) + if NameIn(l) == Some(name) then [ValueIn(l)] else []
  {
    if |lines| == 0 {
      assert lines + [l] == [l] && [l][1..] == [];
    } else {
      assert (lines + [l])[1..] == lines[1..] + [l];
      ValuesAppend(lines[1..], l, name);
    }
  }

  lemma TakenOneMore(lines: seq<Written>, l: Written)
    requires WellFormed(l)
    ensures TakeLine(Taken(lines), Line(l)) == Taken(lines + [l])
  {
    TakeWritten(Taken(lines), l);
    ValuesAppend(lines, l, Ascii("event"));
    ValuesAppend(lines, l, Ascii("data"));
    Different();
  }

  lemma RenderOne(before: seq<(Written, Ending)>, l: Written, e: Ending)
    ensures Render(before + [(l, e)]) == Render(before) + Line(l) + EndingBytes(e)
    ensures Contents(before + [(l, e)]) == Contents(before) + [l]
  {
    assert (before + [(l, e)])[..|before|] == before;
  }

  lemma {:induction false} RenderTakes(lines: seq<(Written, Ending)>)
    requires AllWellFormed(lines)
    ensures var read := Lines(Render(lines)); read[|read| - 1] == [] && TakeLines(read) == Taken(Contents(lines))
  {
    if |lines| == 0 {
      var one: seq<seq<byte>> := [[]];
      assert Lines([]) == one && one[..0] == [] && TakeLines(one) == NOTHING;
    } else {
      var before := lines[..|lines| - 1];
      var (l, e) := lines[|lines| - 1];
      assert lines == before + [(l, e)];
      RenderTakes(before);
      OneMoreLine(Render(before), l, e);
      RenderOne(before, l, e);
      TakenOneMore(Contents(before), l);
    }
  }

  lemma Different()
    ensures Ascii("event") != Ascii("data")
  {
    assert |Ascii("event")| != |Ascii("data")|;
  }

  lemma {:induction false} JoinIsJoined(pieces: seq<seq<byte>>)
    ensures Join(pieces) == Joined(pieces)
  {
    if |pieces| > 1 {
      JoinIsJoined(pieces[..|pieces| - 1]);
      JoinedLast(pieces[..|pieces| - 1], pieces[|pieces| - 1]);
      assert pieces == pieces[..|pieces| - 1] + [pieces[|pieces| - 1]];
    }
  }

  lemma {:induction false} JoinedLast(pieces: seq<seq<byte>>, last: seq<byte>)
    requires |pieces| > 0
    ensures Joined(pieces + [last]) == Joined(pieces) + [10] + last
  {
    if |pieces| == 1 {
      assert (pieces + [last])[1..] == [last];
    } else {
      assert (pieces + [last])[1..] == pieces[1..] + [last];
      JoinedLast(pieces[1..], last);
      var first, rest := pieces[0], Joined(pieces[1..]);
      assert first + [10] + (rest + [10] + last) == first + [10] + rest + [10] + last;
    }
  }

  /** An event is what its fields say: parsing the lines written gives the event they
      make, whatever ends them. Comments, empty lines and other fields change nothing. */
  lemma RenderedIsParsed(lines: seq<(Written, Ending)>)
    requires AllWellFormed(lines)
    ensures ParseEvent(Render(lines)) == Meaning(Contents(lines))
  {
    RenderTakes(lines);
    JoinIsJoined(Values(Contents(lines), Ascii("data")));
  }

  // ---------------------------------------------------------------------
  // Every block is written.

  /** Each line of bytes is written in exactly one of the four ways. */
  function Reading(line: seq<byte>): (l: Written)
    requires OneLine(line)
    ensures WellFormed(l) && Line(l) == line
  {
    if line == [] then Empty
    else if line[0] == 58 then Comment(line[1..])
    else
      var k := ColonAt(line);
      if k == |line| then Bare(line)
      else if k + 1 < |line| && line[k + 1] == 32 then
        assert line == line[..k] + [58, 32] + line[k + 2..];
        Field(line[..k], line[k + 2..], true)
      else
        assert line == line[..k] + [58] + line[k + 1..];
        Field(line[..k], line[k + 1..], false)
  }

  lemma LastIsOneLine(text: seq<byte>)
    ensures OneLine(Last(text))
    decreases |text|
  {
    if |text| != 0 {
      LastIsOneLine(text[..|text| - 1]);
      assert Lines(text)[|Lines(text)| - 1] == Last(text);
    }
  }

  lemma BodyParts(body: seq<byte>) returns (head: seq<byte>, line: seq<byte>)
    ensures line == Last(body) && body == head + line
    ensures head == [] || IsBreak(head[|head| - 1])
  {
    LastIsSuffix(body);
    line := Last(body);
    head := body[..|body| - |line|];
  }

  /** The last line of a block, and what comes before it. */
  lemma LastLine(text: seq<byte>) returns (head: seq<byte>, line: seq<byte>)
    requires text != [] && IsBreak(text[|text| - 1])
    ensures text == head + line + [text[|text| - 1]] && OneLine(line)
    ensures head == [] || IsBreak(head[|head| - 1])
  {
    var body, b := text[..|text| - 1], text[|text| - 1];
    LastIsOneLine(body);
    head, line := BodyParts(body);
    assert text == body + [b];
  }

  /** And so is each block of bytes that ends with a line's end, so that the theorem
      above says what every event is. */
  lemma EveryBlockIsWritten(text: seq<byte>) returns (lines: seq<(Written, Ending)>)
    requires text == [] || IsBreak(text[|text| - 1])
    ensures AllWellFormed(lines) && Render(lines) == text
    decreases |text|
  {
    lines := [];
    if text != [] {
      var head, line := LastLine(text);
      var before := EveryBlockIsWritten(head);
      var e := if text[|text| - 1] == LF then Ending.Lf else Ending.Cr;
      RenderOne(before, Reading(line), e);
      lines := before + [(Reading(line), e)];
      assert EndingBytes(e) == [text[|text| - 1]];
    }
  }
}
