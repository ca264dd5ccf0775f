/**
Watching a relayed stream for the response id and the final usage
(`responses.rs`). How an event's bytes read as text and as JSON is a parameter.
*/
module Observer {
  import opened Results
  import opened Utf8
  import opened Json
  import opened Sse
  import opened SsePackets
  import opened SseReference
  import SseStream

  datatype Decoder = Decoder(json: seq<byte> -> Option<Json>, text: seq<byte> -> string)

  datatype Usage = Usage(input: int, output: int)

  datatype Summary = Summary(
    id: string, status: string, model: Option<string>, tier: Option<string>, usage: Option<Usage>)

  function UsageOf(obj: Json): Option<Usage> {
    var usage := Member(obj, "usage");
    if usage.None? then None
    else
      var input, output := Member(usage.value, "input_tokens"), Member(usage.value, "output_tokens");
      if input.Some? && output.Some? && AsI64(input.value).Some? && AsI64(output.value).Some?
      then Some(Usage(AsI64(input.value).value, AsI64(output.value).value)) else None
  }

  function FromObject(obj: Json): Option<Summary> {
    var id, status := AsText(Member(obj, "id")), AsText(Member(obj, "status"));
    if id.None? || status.None? then None
    else
      Some(Summary(id.value, status.value, AsText(Member(obj, "model")), AsText(Member(obj, "service_tier")),
                   UsageOf(obj)))
  }

  predicate IsTerminal(s: Summary) {
    s.status in {"completed", "incomplete", "failed", "cancelled"}
  }

  datatype Observation =
    | ResponseId(id: string)
    | Terminal(summary: Summary)
    | StreamError(code: Option<string>, message: Option<string>)

  datatype ObserveFailure =
    | Framing(error: FramingError)
    | MalformedLifecycleEvent
    | ConflictingResponseIds
    | ConflictingTerminals

  const LIFECYCLE := {
    "response.created", "response.queued", "response.in_progress", "response.completed",
    "response.incomplete", "response.failed", "response.cancelled"}

  /** What the observer knows of the response. */
  datatype Known = Known(responseId: Option<string>, terminal: Option<Summary>, failure: Option<ObserveFailure>)

  const UNKNOWN := Known(None, None, None)

  function NameOf(d: Decoder, e: Event): string {
    if e.name.Some? then d.text(e.name.value)
    else
      var value := d.json(e.data);
      var kind := if value.Some? then AsText(Member(value.value, "type")) else None;
      if kind.Some? then kind.value else ""
  }

  function Failed(k: Known, failure: ObserveFailure): (Known, seq<Observation>) {
    (k.(failure := Some(failure)), [])
  }

  /** A summary from a lifecycle event. */
  function Learn(k: Known, s: Summary): (Known, seq<Observation>) {
    if k.responseId.Some? && k.responseId.value != s.id then Failed(k, ConflictingResponseIds)
    else
      var named := k.(responseId := Some(s.id));
      var first := if k.responseId.None? then [ResponseId(s.id)] else [];
      if !IsTerminal(s) then (named, first)
      else if k.terminal.None? then (named.(terminal := Some(s)), first + [Terminal(s)])
      else if k.terminal.value != s then (named.(failure := Some(ConflictingTerminals)), first)
      else (named, first)
  }

  function Observe(d: Decoder, k: Known, e: Event): (Known, seq<Observation>) {
    var name, value := NameOf(d, e), d.json(e.data);
    if name == "error" then
      var obj := if value.Some? then value.value else Null;
      (k, [StreamError(AsText(Member(obj, "code")), AsText(Member(obj, "message")))])
    else if name !in LIFECYCLE then (k, [])
    else if value.None? then Failed(k, MalformedLifecycleEvent)
    else
      var kind := AsText(Member(value.value, "type"));
      var response := Member(value.value, "response");
      if kind.Some? && kind.value != name then Failed(k, MalformedLifecycleEvent)
      else if response.None? || FromObject(response.value).None? then Failed(k, MalformedLifecycleEvent)
      else Learn(k, FromObject(response.value).value)
  }

  /** What one event does; a failed observer learns nothing more. */
  type Reaction = (Known, Event) -> (Known, seq<Observation>)

  function Reacting(d: Decoder): Reaction {
    (k: Known, e: Event) => if k.failure.Some? then (k, []) else Observe(d, k, e)
  }

  function React(f: Reaction, k: Known, events: seq<Event>): (Known, seq<Observation>)
    decreases |events|
  {
    if |events| == 0 then (k, [])
    else
      var (next, out) := f(k, events[0]);
      var (last, more) := React(f, next, events[1..]);
      (last, out + more)
  }

  /** Events in order. */
  function ObserveAll(d: Decoder, k: Known, events: seq<Event>): (Known, seq<Observation>) {
    React(Reacting(d), k, events)
  }

  lemma {:induction false} FailedReactsNot(d: Decoder, k: Known, events: seq<Event>)
    requires k.failure.Some?
    ensures React(Reacting(d), k, events) == (k, [])
    decreases |events|
  {
    if |events| != 0 {
      FailedReactsNot(d, k, events[1..]);
      assert Reacting(d)(k, events[0]).1 + [] == [];
    }
  }

  function PushBytes(d: Decoder, s: Splitter, k: Known, bytes: seq<byte>): (Splitter, Known, seq<Observation>) {
    if k.failure.Some? then (s, k, [])
    else
      var (next, events) := Push(s, bytes);
      var (last, out) := ObserveAll(d, k, events);
      (next, if last.failure.None?
          && next.failure.Some? then last.(failure := Some(Framing(next.failure.value))) else last, out)
  }

  class StreamObserver {
    const decoder: Decoder
    const splitter: EventSplitter
    var known: Known

    constructor (d: Decoder)
      ensures known == UNKNOWN && splitter.State() == EMPTY && decoder == d && fresh(splitter)
    {
      decoder := d;
      splitter := new EventSplitter();
      known := UNKNOWN;
    }

    /** Feeds a copy of relayed bytes. */
    method Feed(bytes: seq<byte>) returns (observations: seq<Observation>)
      modifies this, splitter
      ensures (splitter.State(), known, observations) == PushBytes(decoder, old(splitter.State()), old(known), bytes)
    {
      if known.failure.Some? {
        return [];
      }
      var events := splitter.Feed(bytes);
      observations := TakeIn(events);
      if known.failure.None? && splitter.failure.Some? {
        known := known.(failure := Some(Framing(splitter.failure.value)));
      }
    }

    method TakeIn(events: seq<Event>) returns (observations: seq<Observation>)
      requires known.failure.None?
      modifies this
      ensures (known, observations) == ObserveAll(decoder, old(known), events)
    {
      observations := [];
      ghost var f := Reacting(decoder);
      ghost var (last, all) := React(f, known, events);
      assert events[0..] == events && observations + all == all;
      for i := 0 to |events|
        invariant known.failure.None?
        invariant (last, all) == (React(f, known, events[i..]).0, observations + React(f, known, events[i..]).1)
      {
        var (next, out) := Observe(decoder, known, events[i]);
        ReactFirst(f, known, events, i);
        assert f(known, events[i]) == (next, out);
        Associates(observations, out, React(f, next, events[i + 1..]).1);
        known, observations := next, observations + out;
        if known.failure.Some? {
          FailedReactsNot(decoder, known, events[i + 1..]);
          assert observations + [] == observations;
          return;
        }
      }
      assert observations + [] == observations;
    }
  }

  lemma ReactFirst(f: Reaction, k: Known, events: seq<Event>, i: nat)
    requires i < |events|
    ensures var (next, out) := f(k, events[i]);
            React(f, k, events[i..]) == (React(f, next, events[i + 1..]).0, out + React(f, next, events[i + 1..]).1)
  {
  }

  lemma Associates(x: seq<Observation>, y: seq<Observation>, z: seq<Observation>)
    ensures x + (y + z) == (x + y) + z
  {
  }

  // ---------------------------------------------------------------------
  // What is ever observed.

  predicate OnlyErrors(out: seq<Observation>, lo: nat, hi: nat)
    requires lo <= hi <= |out|
  {
    forall i | lo <= i < hi :: out[i].StreamError?
  }

  /** At most one response id and one terminal, in that order and agreeing, and
      exactly those the observer knows. */
  predicate Orderly(out: seq<Observation>, k: Known) {
    match k.responseId
    case None => k.terminal.None? && OnlyErrors(out, 0, |out|)
    case Some(id) =>
      exists i | 0 <= i < |out| ::
        && out[i] == ResponseId(id)
        && OnlyErrors(out, 0, i)
        && TailOrderly(out, i + 1, id, k.terminal)
  }

  predicate TailOrderly(out: seq<Observation>, lo: nat, id: string, terminal: Option<Summary>)
    requires lo <= |out|
  {
    match terminal
    case None => OnlyErrors(out, lo, |out|)
    case Some(s) =>
      exists j | lo <= j < |out| ::
        && out[j] == Terminal(s) && s.id == id && IsTerminal(s)
        && OnlyErrors(out, lo, j) && OnlyErrors(out, j + 1, |out|)
  }

  lemma TailGrows(out: seq<Observation>, lo: nat, id: string, terminal: Option<Summary>, more: seq<Observation>)
    requires lo <= |out| && TailOrderly(out, lo, id, terminal) && OnlyErrors(more, 0, |more|)
    ensures TailOrderly(out + more, lo, id, terminal)
  {
    var all := out + more;
    if terminal.Some? {
      var j :| lo <= j < |out| && out[j] == Terminal(terminal.value) && OnlyErrors(out, lo, j)
          && OnlyErrors(out, j + 1, |out|);
      assert all[j] == out[j];
      assert OnlyErrors(all, lo, j) && OnlyErrors(all, j + 1, |all|);
    }
  }

  lemma TailEnds(out: seq<Observation>, lo: nat, s: Summary)
    requires lo <= |out| && OnlyErrors(out, lo, |out|) && IsTerminal(s)
    ensures TailOrderly(out + [Terminal(s)], lo, s.id, Some(s))
  {
    var all := out + [Terminal(s)];
    assert all[|out|] == Terminal(s) && OnlyErrors(all, lo, |out|) && OnlyErrors(all, |out| + 1, |all|);
  }

  lemma ObserveIsOrderly(d: Decoder, out: seq<Observation>, k: Known, e: Event)
    requires Orderly(out, k)
    ensures Orderly(out + Observe(d, k, e).1, Observe(d, k, e).0)
  {
    var (next, more) := Observe(d, k, e);
    if next.responseId == k.responseId && next.terminal == k.terminal {
      SameKnown(out, k, next, more);
    } else {
      var s := FromObject(Member(d.json(e.data).value, "response").value).value;
      LearnIsOrderly(out, k, s);
    }
  }

  lemma SameKnown(out: seq<Observation>, k: Known, next: Known, more: seq<Observation>)
    requires Orderly(out, k) && OnlyErrors(more, 0, |more|)
    requires next.responseId == k.responseId && next.terminal == k.terminal
    ensures Orderly(out + more, next)
  {
    if k.responseId.Some? {
      var i :| 0 <= i < |out| && out[i] == ResponseId(k.responseId.value) && OnlyErrors(out, 0, i)
        && TailOrderly(out, i + 1, k.responseId.value, k.terminal);
      TailGrows(out, i + 1, k.responseId.value, k.terminal, more);
      assert (out + more)[i] == out[i] && OnlyErrors(out + more, 0, i);
    }
  }

  lemma LearnIsOrderly(out: seq<Observation>, k: Known, s: Summary)
    requires Orderly(out, k)
    ensures Orderly(out + Learn(k, s).1, Learn(k, s).0)
  {
    var (next, more) := Learn(k, s);
    if next.responseId == k.responseId && next.terminal == k.terminal {
      SameKnown(out, k, next, more);
    } else if k.responseId.None? {
      var one := out + [ResponseId(s.id)];
      assert one[|out|] == ResponseId(s.id) && OnlyErrors(one, 0, |out|) && OnlyErrors(one, |out| + 1, |one|);
      if IsTerminal(s) {
        TailEnds(one, |out| + 1, s);
        assert out + more == one + [Terminal(s)];
        assert (out + more)[|out|] == ResponseId(s.id) && OnlyErrors(out + more, 0, |out|);
      } else {
        assert out + more == one;
        assert TailOrderly(one, |out| + 1, s.id, None);
      }
    } else {
      var i :| 0 <= i < |out| && out[i] == ResponseId(s.id) && OnlyErrors(out, 0, i)
          && TailOrderly(out, i + 1, s.id, None);
      TailEnds(out, i + 1, s);
      assert more == [Terminal(s)];
      assert (out + more)[i] == out[i] && OnlyErrors(out + more, 0, i);
    }
  }

  ghost predicate KeepsOrder(f: Reaction) {
    forall out, k, e | Orderly(out, k) :: Orderly(out + f(k, e).1, f(k, e).0)
  }

  lemma ReactingKeepsOrder(d: Decoder)
    ensures KeepsOrder(Reacting(d))
  {
    forall out, k, e | Orderly(out, k) ensures Orderly(out + Reacting(d)(k, e).1, Reacting(d)(k, e).0) {
      if k.failure.Some? {
        assert out + [] == out;
      } else {
        ObserveIsOrderly(d, out, k, e);
      }
    }
  }

  lemma {:induction false} ReactIsOrderly(f: Reaction, out: seq<Observation>, k: Known, events: seq<Event>)
    requires KeepsOrder(f) && Orderly(out, k)
    ensures Orderly(out + React(f, k, events).1, React(f, k, events).0)
    decreases |events|
  {
    if |events| == 0 {
      assert out + [] == out;
    } else {
      var (next, first) := f(k, events[0]);
      ReactIsOrderly(f, out + first, next, events[1..]);
      Associates(out, first, React(f, next, events[1..]).1);
    }
  }

  // ---------------------------------------------------------------------
  // However the stream is cut.

  function FeedPackets(d: Decoder, s: Splitter, k: Known, packets: seq<seq<byte>>): (Known, seq<Observation>)
    decreases |packets|
  {
    if |packets| == 0 then (k, [])
    else
      var (next, known, out) := PushBytes(d, s, k, packets[0]);
      var (last, more) := FeedPackets(d, next, known, packets[1..]);
      (last, out + more)
  }

  lemma {:induction false} ReactJoins(f: Reaction, k: Known, x: seq<Event>, y: seq<Event>)
    ensures var (next, out) := React(f, k, x);
            var (last, more) := React(f, next, y);
            React(f, k, x + y) == (last, out + more)
    decreases |x|
  {
    if |x| == 0 {
      assert x + y == y && [] + React(f, k, y).1 == React(f, k, y).1;
    } else {
      assert (x + y)[0] == x[0] && (x + y)[1..] == x[1..] + y;
      var (next, out) := f(k, x[0]);
      ReactJoins(f, next, x[1..], y);
      var (mid, more) := React(f, next, x[1..]);
      Associates(out, more, React(f, mid, y).1);
    }
  }

  lemma {:induction false} FailedObservesNothing(d: Decoder, s: Splitter, k: Known, packets: seq<seq<byte>>)
    requires k.failure.Some?
    ensures FeedPackets(d, s, k, packets) == (k, [])
    decreases |packets|
  {
    if |packets| != 0 {
      FailedObservesNothing(d, s, k, packets[1..]);
      assert PushBytes(d, s, k, packets[0]).2 + [] == [];
    }
  }

  /** Observing packet by packet is observing the splitter's events in one go. */
  lemma {:induction false} PacketsObserved(d: Decoder, s: Splitter, k: Known, packets: seq<seq<byte>>)
    requires k.failure.None?
    ensures FeedPackets(d, s, k, packets).1 == ObserveAll(d, k, FeedAll(s, packets).1).1
    ensures var events := ObserveAll(d, k, FeedAll(s, packets).1).0;
            var last := FeedPackets(d, s, k, packets).0;
            last == events || (events.failure.None? && last == events.(failure := last.failure))
    decreases |packets|
  {
    if |packets| != 0 {
      var (next, events) := Push(s, packets[0]);
      var (seen, out) := ObserveAll(d, k, events);
      ReactJoins(Reacting(d), k, events, FeedAll(next, packets[1..]).1);
      if seen.failure.Some? {
        FailedReactsNot(d, seen, FeedAll(next, packets[1..]).1);
        FailedObservesNothing(d, next, seen, packets[1..]);
      } else if next.failure.Some? {
        SseStream.TooLargeSaysNothing(next, packets[1..]);
        FailedObservesNothing(d, next, PushBytes(d, s, k, packets[0]).1, packets[1..]);
        assert out + [] == out;
      } else {
        PacketsObserved(d, next, seen, packets[1..]);
      }
    }
  }

  /** Observer soundness, over any stream, any decoding and any packets: at most
      one response id and at most one terminal are emitted, the terminal after
      the id and carrying it; nothing follows a failure; and what is emitted is the
      start of what the whole stream shows, all of it unless an event outgrew the
      cap, however the stream was cut. */
  lemma ObserverSound(d: Decoder, packets: seq<seq<byte>>, more: seq<byte>)
    ensures var (k, out) := FeedPackets(d, EMPTY, UNKNOWN, packets);
            && Orderly(out, k)
            && (k.failure.Some? ==> forall s :: PushBytes(d, s, k, more) == (s, k, []))
            && out <= ObserveAll(d, UNKNOWN, SseStream.WholeStream(Concat(packets))).1
            && (FeedAll(EMPTY, packets).0.failure != Some(EventTooLarge) ==>
                  out == ObserveAll(d, UNKNOWN, SseStream.WholeStream(Concat(packets))).1)
  {
    PacketsObserved(d, EMPTY, UNKNOWN, packets);
    ReactingKeepsOrder(d);
    ReactIsOrderly(Reacting(d), [], UNKNOWN, FeedAll(EMPTY, packets).1);
    SseStream.StreamIndependence(packets);
    var (k, out) := FeedPackets(d, EMPTY, UNKNOWN, packets);
    assert [] + out == out;
    PrefixObserved(d, FeedAll(EMPTY, packets).1, SseStream.WholeStream(Concat(packets)));
    OrderlyIgnoresFailure(out, ObserveAll(d, UNKNOWN, FeedAll(EMPTY, packets).1).0, k);
  }

  lemma PrefixObserved(d: Decoder, some: seq<Event>, all: seq<Event>)
    requires some <= all
    ensures ObserveAll(d, UNKNOWN, some).1 <= ObserveAll(d, UNKNOWN, all).1
  {
    assert all == some + all[|some|..];
    ReactJoins(Reacting(d), UNKNOWN, some, all[|some|..]);
  }

  lemma OrderlyIgnoresFailure(out: seq<Observation>, k: Known, other: Known)
    requires Orderly(out, k) && other == k.(failure := other.failure)
    ensures Orderly(out, other)
  {
  }
}
