/**
What the retrieval sweep can do (`retrieval.rs`): every dispatch it lists can be closed, an unknown id only by writing
it off, and retrieval asks for the response id its supervisor saw.
*/
module Sweep {
  import opened Results
  import opened ReservationState
  import opened Tables
  import opened Trust
  import opened Transactions
  import opened LedgerInvariant
  import opened Runs
  import opened RowEffects
  import opened GroupCalls
  import opened ResponseIds
  import opened Supervision
  import opened Resolution
  import opened Interleaving
  import ExactlyOnce

  /** What a sweep lists is the head of a group as it is now. */
  lemma {:induction false} ListedAt(rows: seq<Row>, at: nat, part: seq<Row>, q: Snapshot)
    requires at <= |rows| && part == rows[at..] && q in OpenDispatches(part)
    requires forall i | 0 <= i < |rows| :: rows[i].id == i + 1
    ensures Head(rows, q.id) && q == Snapshot(q.id, rows[q.id - 1].state, rows[q.id - 1].responseId)
    ensures q.state == DispatchedWithId || q.state == DispatchedIdUnknown
    decreases |part|
  {
    assert part[0] == rows[at];
    if !IsOpen(part[0]) || q != Snapshot(part[0].root, part[0].state, part[0].responseId) {
      ListedAt(rows, at + 1, part[1..], q);
    }
  }

  lemma ListedIs(w: World, q: Snapshot)
    requires Sane(w) && q in OpenDispatches(w.db.rows)
    ensures Head(w.db.rows, q.id) && q == Snapshot(q.id, w.db.rows[q.id - 1].state, w.db.rows[q.id - 1].responseId)
    ensures q.state == DispatchedWithId || q.state == DispatchedIdUnknown
  {
    forall i | 0 <= i < |w.db.rows| ensures w.db.rows[i].id == i + 1 {
      assert Placed(w.db.rows, i, w.db.meta.currentEpoch);
    }
    ListedAt(w.db.rows, 0, w.db.rows, q);
  }

  /** Writing the group off closes it, charged its liability in every row, unless one
      of its counters cannot take that. */
  predicate WritesOffOrFull(w: World, id: int)
    requires Head(w.db.rows, id)
  {
    var liability := w.db.rows[id - 1].liability;
    if Overfull(w.db, id, liability) then Overflows(w, GiveUp(id))
    else Succeeds(w, GiveUp(id)) && Finishes(w, GiveUp(id), id, ConsumedUnrecoverable, None, liability)
  }

  /** The same for settling it, with what is then due. */
  predicate SettlesOrFull(w: World, id: int, response: Completed, rev: int)
    requires Head(w.db.rows, id)
  {
    var due, good := Due(w.db.rows[id - 1], response, rev), Chargeable(w.db.rows[id - 1], response, rev);
    var c := SettleWith(id, response, rev);
    && (Overfull(w.db, id, due) ==> Overflows(w, c))
    && (!Overfull(w.db, id, due) ==>
          && Succeeds(w, c)
          && Finishes(w, c, id, if good then Settled else ConsumedUnrecoverable, if good then Some(due) else None, due))
  }

  lemma WriteOffOpen(w: World, id: int)
    requires Sane(w) && Head(w.db.rows, id)
    requires w.db.rows[id - 1].state == DispatchedWithId || w.db.rows[id - 1].state == DispatchedIdUnknown
    ensures WritesOffOrFull(w, id) == true
  {
    GiveUpExactly(w, id);
  }

  lemma SettleOpen(w: World, id: int, response: Completed, rev: int)
    requires Sane(w) && Head(w.db.rows, id)
    ensures w.db.rows[id - 1].state == DispatchedIdUnknown ==>
              Refuses(w, SettleWith(id, response, rev), id, Settled) == true
    ensures w.db.rows[id - 1].state == DispatchedWithId ==> SettlesOrFull(w, id, response, rev) == true
  {
    SettleExactly(w, id, response, rev);
  }

  /** How a listed dispatch can be closed. */
  predicate CanBeClosed(w: World, q: Snapshot, response: Completed, rev: int)
    requires Head(w.db.rows, q.id)
  {
    && WritesOffOrFull(w, q.id)
    && (q.state == DispatchedIdUnknown ==> Refuses(w, SettleWith(q.id, response, rev), q.id, Settled))
    && (q.state == DispatchedWithId ==> SettlesOrFull(w, q.id, response, rev))
  }

  lemma ListedCloses(w: World, q: Snapshot, response: Completed, rev: int)
    requires Sane(w) && q in OpenDispatches(w.db.rows)
    ensures Head(w.db.rows, q.id) && q.state == w.db.rows[q.id - 1].state
    ensures q.state == DispatchedWithId || q.state == DispatchedIdUnknown
    ensures CanBeClosed(w, q, response, rev)
  {
    ListedIs(w, q);
    WriteOffOpen(w, q.id);
    SettleOpen(w, q.id, response, rev);
  }

  /** Closing a listed dispatch. In every run of the whole system: writing it off
      succeeds, whether its id is known or not, unless one of its counters cannot take
      its liability, and leaves it charged exactly that in every row. Settling it
      succeeds likewise when its id is known, and is always refused when it is not. */
  lemma ListedCanBeClosed(es: seq<Event>, q: Snapshot, response: Completed, rev: int)
    requires q in OpenDispatches(Play(START, es).world.db.rows)
    ensures var w := Play(START, es).world;
            && Head(w.db.rows, q.id) && q.state == w.db.rows[q.id - 1].state
            && (q.state == DispatchedWithId || q.state == DispatchedIdUnknown)
            && CanBeClosed(w, q, response, rev) == true
  {
    StartOk();
    PlayOk(START, es);
    ListedCloses(Play(START, es).world, q, response, rev);
  }

  /** Neither stops the sweep: however long ago it read its list, its calls fail only
      because a counter is full or because the group has been resolved in between. */
  lemma SweepCallsSucceed(es: seq<Event>, e: Event)
    requires ByActor(Play(START, es), e) && BySweep(e) && !CallSucceeds(Play(START, es), e)
    ensures var s := Play(START, es);
            && s.queue != []
            && (ExactlyOnce.Closed(s.world.db.rows, s.queue[0].id) || Overflows(s.world, CallOf(s, e).value))
  {
    StartOk();
    PlayOk(START, es);
    SweepFails(Play(START, es), e);
  }

  lemma SweepFails(s: System, e: Event)
    requires Sane(s.world) && QueueOk(s.world.db.rows, s.queue)
    requires Enabled(s, e) && BySweep(e) && !CallSucceeds(s, e)
    ensures s.queue != [] && CallOf(s, e).Some?
    ensures ExactlyOnce.Closed(s.world.db.rows, s.queue[0].id) || Overflows(s.world, CallOf(s, e).value)
  {
    SweepKnows(s, e);
    if e.WritesOff? {
      GiveUpExactly(s.world, s.queue[0].id);
    } else {
      SettleExactly(s.world, s.queue[0].id, e.response, e.rev);
    }
  }

  /** What a sweep starts with: exactly the groups sent and not resolved, each as it is. */
  lemma ListsExactly(es: seq<Event>, q: Snapshot)
    ensures var rows := Play(START, es).world.db.rows;
            q in OpenDispatches(rows) <==>
            && Head(rows, q.id) && rows[q.id - 1].state in {DispatchedWithId, DispatchedIdUnknown}
            && q == Snapshot(q.id, rows[q.id - 1].state, rows[q.id - 1].responseId)
  {
    StartOk();
    PlayOk(START, es);
    var w := Play(START, es).world;
    if q in OpenDispatches(w.db.rows) {
      ListedIs(w, q);
    } else if Head(w.db.rows, q.id) && w.db.rows[q.id - 1].state in {DispatchedWithId, DispatchedIdUnknown} {
      assert Placed(w.db.rows, q.id - 1, w.db.meta.currentEpoch);
      ExactlyOnce.OpenListed(w.db.rows, q.id - 1);
    }
  }

  /** Why a write-off by the sweep was made: the id was never known, or upstream does not know it. */
  function SweepCause(q: Snapshot): Cause {
    if q.state == DispatchedIdUnknown then NoResponseId else NotFoundUpstream
  }

  /** Between its calls: a sweep starts when the last one is done, passes over what is not
      due, and ends at a storage failure; nothing else touches its list, but for a crash. */
  lemma SweepWaits(s: System, e: Event)
    requires Enabled(s, e) && !e.WritesOff? && !e.Retrieves?
    ensures var t := Step(s, e);
            if e.Sweeps? then s.queue == [] && t.queue == OpenDispatches(s.world.db.rows)
            else if e.Crashes? || e.SweepBreaks? then t.queue == []
            else if e.Skips? then s.queue == [s.queue[0]] + t.queue && t.world == s.world && t.evidence == s.evidence
            else t.queue == s.queue
  {
  }

  lemma HandlesIf(s: System, e: Event)
    requires QueueOk(s.world.db.rows, s.queue) && Enabled(s, e) && (e.WritesOff? || e.Retrieves?)
    ensures if !CallSucceeds(s, e) then Step(s, e).queue == [] && Step(s, e).evidence == s.evidence
            else
              && s.queue == [s.queue[0]] + Step(s, e).queue
              && Step(s, e).evidence == s.evidence + [(s.queue[0].id,
                   if e.WritesOff? then GivenUp(SweepCause(s.queue[0])) else Reported(e.response, e.rev))]
  {
  }

  /** What a sweep handles is gone from its list, and is closed on the evidence it had; a call
      that does nothing ends the sweep. */
  lemma SweepHandles(es: seq<Event>, e: Event)
    requires Enabled(Play(START, es), e) && (e.WritesOff? || e.Retrieves?)
    ensures var s := Play(START, es);
            var t := Step(s, e);
            if ExactlyOnce.Closed(s.world.db.rows, s.queue[0].id) || t.world == s.world
            then t.queue == [] && t.evidence == s.evidence
            else
              && s.queue == [s.queue[0]] + t.queue
              && t.evidence == s.evidence + [(s.queue[0].id,
                   if e.WritesOff? then GivenUp(SweepCause(s.queue[0])) else Reported(e.response, e.rev))]
  {
    StartOk();
    PlayOk(START, es);
    SweepCallEnds(Play(START, es), e);
    HandlesIf(Play(START, es), e);
  }

  lemma {:induction false} OpenAscends(rows: seq<Row>, at: nat, part: seq<Row>)
    requires at <= |rows| && part == rows[at..]
    requires forall i | 0 <= i < |rows| :: rows[i].id == i + 1
    ensures forall q | q in OpenDispatches(part) :: q.id > at
    ensures forall j, k | 0 <= j < k < |OpenDispatches(part)| :: OpenDispatches(part)[j].id < OpenDispatches(part)[k].id
    decreases |part|
  {
    if |part| != 0 {
      assert part[0] == rows[at];
      OpenAscends(rows, at + 1, part[1..]);
      assert forall q | q in OpenDispatches(part[1..]) :: q.id > at + 1;
    }
  }

  /** And it lists each group once, by its number. */
  lemma ListAscends(es: seq<Event>)
    ensures var list := OpenDispatches(Play(START, es).world.db.rows);
            forall j, k | 0 <= j < k < |list| :: list[j].id < list[k].id
  {
    StartOk();
    PlayOk(START, es);
    var w := Play(START, es).world;
    forall i | 0 <= i < |w.db.rows| ensures w.db.rows[i].id == i + 1 {
      assert Placed(w.db.rows, i, w.db.meta.currentEpoch);
    }
    OpenAscends(w.db.rows, 0, w.db.rows);
  }

  lemma SweepCallEnds(s: System, e: Event)
    requires Sane(s.world) && QueueOk(s.world.db.rows, s.queue) && Enabled(s, e) && (e.WritesOff? || e.Retrieves?)
    ensures CallSucceeds(s, e) <==>
              !ExactlyOnce.Closed(s.world.db.rows, s.queue[0].id) && Step(s, e).world != s.world
  {
    SweepKnows(s, e);
    if e.WritesOff? {
      GiveUpExactly(s.world, s.queue[0].id);
    } else {
      SettleExactly(s.world, s.queue[0].id, e.response, e.rev);
    }
  }

  // ---------------------------------------------------------------------
  // The id that retrieval asks for.

  /** The ids that supervisors saw and attached, by group. */
  function Seen(s: System, names: map<int, string>, e: Event): map<int, string> {
    if e.Names? && Enabled(s, e) && CallSucceeds(s, e) then names[e.id := e.name] else names
  }

  function SeenIn(s: System, names: map<int, string>, es: seq<Event>): map<int, string>
    decreases |es|
  {
    if |es| == 0 then names else SeenIn(Step(s, es[0]), Seen(s, names, es[0]), es[1..])
  }

  lemma NamesCall(s: System, names: map<int, string>, e: Event)
    requires SupervisorsOk(s.world.db.rows, s.supervisors, s.world.hist.begun, s.sent) && Enabled(s, e) && e.Names?
    ensures CallOf(s, e) == Some(Attach(e.id, e.name))
    ensures Seen(s, names, e) == Naming(s.world, names, Attach(e.id, e.name))
  {
    OwnerKnows(s, e);
  }

  lemma OtherCall(s: System, e: Event)
    requires Enabled(s, e) && !e.Names? && CallOf(s, e).Some?
    ensures !CallOf(s, e).value.Attach?
  {
  }

  lemma SeenIsGiven(s: System, names: map<int, string>, e: Event)
    requires SystemOk(s) && Enabled(s, e) && CallOf(s, e).Some?
    ensures Seen(s, names, e) == Naming(s.world, names, CallOf(s, e).value)
  {
    if e.Names? {
      NamesCall(s, names, e);
    } else {
      OtherCall(s, e);
    }
  }

  lemma CallSteps(s: System, e: Event)
    requires Enabled(s, e)
    ensures Step(s, e).world == if CallOf(s, e).Some? then Do(s.world, CallOf(s, e).value) else s.world
  {
  }

  lemma StepSeen(s: System, names: map<int, string>, e: Event)
    requires SystemOk(s) && Named(s.world.db.rows, names) && OfGroups(names, s.world.db.rows)
    ensures Named(Step(s, e).world.db.rows, Seen(s, names, e)) == true
    ensures OfGroups(Seen(s, names, e), Step(s, e).world.db.rows) == true
  {
    if Enabled(s, e) {
      CallSteps(s, e);
    }
    if Enabled(s, e) && CallOf(s, e).Some? {
      SeenIsGiven(s, names, e);
      StepNames(s.world, names, CallOf(s, e).value);
    }
  }

  lemma {:induction false} PlaySeen(s: System, names: map<int, string>, es: seq<Event>)
    requires SystemOk(s) && Named(s.world.db.rows, names) && OfGroups(names, s.world.db.rows)
    ensures Named(Play(s, es).world.db.rows, SeenIn(s, names, es)) == true
    decreases |es|
  {
    if |es| != 0 {
      StepSeen(s, names, es[0]);
      assert SystemOk(Step(s, es[0])) by {
        SystemStep(s, es[0]);
      }
      PlaySeen(Step(s, es[0]), Seen(s, names, es[0]), es[1..]);
    }
  }

  /** What the id of a listed dispatch is. */
  predicate AsksRightly(q: Snapshot, names: map<int, string>) {
    if q.state == DispatchedWithId then q.id in names && q.response == Some(names[q.id])
    else q.response.None? && q.id !in names
  }

  lemma ListedAsks(w: World, names: map<int, string>, q: Snapshot)
    requires Sane(w) && Named(w.db.rows, names) && Head(w.db.rows, q.id)
    requires || StillAs(q, w.db.rows[q.id - 1])
             || q == Snapshot(q.id, w.db.rows[q.id - 1].state, w.db.rows[q.id - 1].responseId)
    requires q.state == w.db.rows[q.id - 1].state && (q.state == DispatchedWithId || q.state == DispatchedIdUnknown)
    ensures AsksRightly(q, names)
  {
    assert Placed(w.db.rows, q.id - 1, w.db.meta.currentEpoch);
  }

  lemma ListAsks(w: World, names: map<int, string>)
    requires Sane(w) && Named(w.db.rows, names)
    ensures forall q | q in OpenDispatches(w.db.rows) :: AsksRightly(q, names)
  {
    forall q | q in OpenDispatches(w.db.rows) ensures AsksRightly(q, names) {
      ListedIs(w, q);
      ListedAsks(w, names, q);
    }
  }

  /** A dispatch the sweep has still to handle, and that is still as it was read. */
  predicate Pending(rows: seq<Row>, q: Snapshot) {
    Head(rows, q.id) && rows[q.id - 1].state == q.state
  }

  lemma QueueAsks(w: World, names: map<int, string>, queue: seq<Snapshot>)
    requires Sane(w) && Named(w.db.rows, names) && QueueOk(w.db.rows, queue)
    ensures forall q | q in queue && Pending(w.db.rows, q) :: AsksRightly(q, names)
  {
    forall q | q in queue && Pending(w.db.rows, q) ensures AsksRightly(q, names) {
      var k :| 0 <= k < |queue| && queue[k] == q;
      assert StillAs(queue[k], w.db.rows[queue[k].id - 1]);
      ListedAsks(w, names, q);
    }
  }

  /** In every run, retrieval asks upstream for the response id that the request's own
      supervisor read from its stream. */
  lemma RetrievalAsksForTheIdSeen(es: seq<Event>)
    ensures var s, names := Play(START, es), SeenIn(START, map[], es);
            && (forall q | q in OpenDispatches(s.world.db.rows) :: AsksRightly(q, names))
            && (forall q | q in s.queue && Pending(s.world.db.rows, q) :: AsksRightly(q, names))
  {
    var s, names := Play(START, es), SeenIn(START, map[], es);
    StartOk();
    PlayOk(START, es);
    PlaySeen(START, map[], es);
    ListAsks(s.world, names);
    QueueAsks(s.world, names, s.queue);
  }
}
