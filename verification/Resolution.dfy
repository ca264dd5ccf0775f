/**
What exactly-once resolution means for the rows, the evidence and the actors,
and how rows move under one ledger call.
*/
module Resolution {
  import opened Results
  import opened ReservationState
  import opened Tables
  import opened Trust
  import opened Transactions
  import opened LedgerInvariant
  import opened GroupTransitions
  import opened Recovery
  import opened Runs
  import opened WriteAhead
  import opened Accounts
  import opened RowEffects
  import opened Supervision

  // ---------------------------------------------------------------------
  // The invariant.

  /** `id` names the group that starts at row `id`. */
  predicate Head(rows: seq<Row>, id: int) {
    1 <= id <= |rows| && rows[id - 1].root == id
  }

  /** The row is as this evidence leaves it. */
  predicate Matches(r: Row, e: Evidence) {
    match e
    case Reported(response, rev) =>
      var usage := Validate(r, response, rev);
      if usage.Success? then r.state.Settled? && r.settled == Some(usage.value) else r.state.ConsumedUnrecoverable?
    case GivenUp(_) => r.state.ConsumedUnrecoverable?
    case RefusedWith(status) => r.state.RejectedBeforeProcessing? && RefusedUnprocessed(status)
  }

  predicate EntryOk(rows: seq<Row>, entry: (int, Evidence)) {
    Head(rows, entry.0) && Matches(rows[entry.0 - 1], entry.1)
  }

  predicate Resolves(evidence: seq<(int, Evidence)>, id: int) {
    exists k | 0 <= k < |evidence| :: evidence[k].0 == id
  }

  /** Evidence is recorded once per group, agrees with the group's rows, and is
      there for every group that was dispatched and is no longer active. */
  predicate EvidenceOk(rows: seq<Row>, evidence: seq<(int, Evidence)>) {
    && (forall k | 0 <= k < |evidence| :: EntryOk(rows, evidence[k]))
    && (forall j, k | 0 <= j < k < |evidence| :: evidence[j].0 != evidence[k].0)
    && (forall i | 0 <= i < |rows| && rows[i].root == i + 1 && Final(rows[i].state) && !rows[i].state.ReleasedUnsent? ::
          Resolves(evidence, i + 1))
  }

  /** What a supervisor in this phase knows of its group. */
  predicate AtPhase(r: Row, id: int, p: Phase, begun: set<int>, sent: set<int>) {
    match p
    case Permitted => r.state.Reserved? && id !in sent
    case Unsending => r.state.Reserved? && id !in sent
    case Sending => r.state.Dispatching? && id in begun && id !in sent
    case Awaiting => r.state.Dispatching? && id in sent
    case Holding => r.state.Dispatching? && id in sent
    case Rejecting(status) => r.state.Dispatching? && id in sent && RefusedUnprocessed(status)
    case Relaying(name, settled, _) =>
      && id in sent
      && (if settled then Final(r.state)
          else if name.None? then r.state.Dispatching?
          else r.state.DispatchedWithId? || Final(r.state))
    case Ended => !r.state.Reserved? && !r.state.Dispatching?
    case LedgerFailed => true
  }

  predicate SupervisorsOk(rows: seq<Row>, supervisors: map<int, Supervisor>, begun: set<int>, sent: set<int>) {
    forall id | id in supervisors ::
      Head(rows, id) && AtPhase(rows[id - 1], id, supervisors[id].phase, begun, sent)
  }

  /** A swept group had been sent, however stale the sweep. */
  predicate Swept(s: State) {
    !s.Reserved? && !s.Dispatching? && !s.ReleasedUnsent?
  }

  /** What was read of an open dispatch still holds, unless it has been resolved; the
      response id holds in any case. */
  predicate StillAs(q: Snapshot, r: Row) {
    && (q.state.DispatchedWithId? || q.state.DispatchedIdUnknown?)
    && Swept(r.state) && (r.state == q.state || Final(r.state))
    && r.responseId == q.response
  }

  /** A swept row only ever moves to a final state, with its response id. */
  predicate KeepsSwept(r: Row, later: Row) {
    Swept(r.state) ==>
      Swept(later.state) && (later.state == r.state || Final(later.state)) && later.responseId == r.responseId
  }

  predicate QueueOk(rows: seq<Row>, queue: seq<Snapshot>) {
    forall k | 0 <= k < |queue| :: Head(rows, queue[k].id) && StillAs(queue[k], rows[queue[k].id - 1])
  }

  /** What the actors hold about the rows. */
  predicate ActorsOk(s: System) {
    && s.sent <= s.world.hist.begun
    && EvidenceOk(s.world.db.rows, s.evidence)
    && SupervisorsOk(s.world.db.rows, s.supervisors, s.world.hist.begun, s.sent)
    && QueueOk(s.world.db.rows, s.queue)
  }

  predicate SystemOk(s: System) {
    Protocol(s.world) && Recorded(s.world) && ActorsOk(s)
  }

  // ---------------------------------------------------------------------
  // Steps that move no group.

  /** Rows may be added: reservations, and copies of groups already there. */
  predicate Grown(rows: seq<Row>, later: seq<Row>) {
    && |rows| <= |later|
    && (forall i | 0 <= i < |rows| :: later[i] == rows[i])
    && (forall i | |rows| <= i < |later| :: later[i].root <= |rows| || later[i].state.Reserved?)
  }

  // ---------------------------------------------------------------------
  // Steps that move one group.

  /** Group `id` is updated by `p`, and no other row. */
  predicate HeadMoved(rows: seq<Row>, later: seq<Row>, id: int, p: Patch) {
    && Head(rows, id) && |later| == |rows|
    && forall i | 0 <= i < |rows| :: later[i] == if rows[i].root == id then Patched(rows[i], p) else rows[i]
  }

  /** A move that resolves nothing adds no evidence. */
  lemma MoveUnresolved(rows: seq<Row>, later: seq<Row>, id: int, p: Patch, evidence: seq<(int, Evidence)>)
    requires HeadMoved(rows, later, id, p) && EvidenceOk(rows, evidence) && IsActive(rows[id - 1].state)
    requires IsActive(later[id - 1].state) || later[id - 1].state.ReleasedUnsent?
    ensures EvidenceOk(later, evidence)
  {
  }

  /** An active group has no evidence, and moving it leaves the others'. */
  lemma OthersEntry(rows: seq<Row>, later: seq<Row>, id: int, p: Patch, entry: (int, Evidence))
    requires HeadMoved(rows, later, id, p) && EntryOk(rows, entry) && IsActive(rows[id - 1].state)
    ensures entry.0 != id && EntryOk(later, entry)
  {
  }

  /** A move that resolves an active group adds its evidence, the first. */
  lemma MoveResolved(rows: seq<Row>, later: seq<Row>, id: int, p: Patch, evidence: seq<(int, Evidence)>, e: Evidence)
    requires HeadMoved(rows, later, id, p) && EvidenceOk(rows, evidence) && IsActive(rows[id - 1].state)
    requires Matches(later[id - 1], e)
    ensures EvidenceOk(later, evidence + [(id, e)])
  {
    var more := evidence + [(id, e)];
    forall k | 0 <= k < |evidence| ensures more[k].0 != id && EntryOk(later, more[k]) {
      OthersEntry(rows, later, id, p, evidence[k]);
    }
    assert more[|evidence|] == (id, e) && EntryOk(later, (id, e));
    forall i | 0 <= i < |later| && later[i].root == i + 1 && Final(later[i].state) && !later[i].state.ReleasedUnsent?
      ensures Resolves(more, i + 1)
    {
      if i + 1 != id {
        assert Resolves(evidence, i + 1);
        var k :| 0 <= k < |evidence| && evidence[k].0 == i + 1;
        assert more[k].0 == i + 1;
      }
    }
  }

  lemma MoveKeepsQueue(rows: seq<Row>, later: seq<Row>, id: int, p: Patch, queue: seq<Snapshot>)
    requires HeadMoved(rows, later, id, p) && QueueOk(rows, queue)
    requires KeepsSwept(rows[id - 1], later[id - 1])
    ensures QueueOk(later, queue)
  {
  }

  /** The other supervisors' groups are not touched. */
  lemma MoveKeepsSupervisors(rows: seq<Row>, later: seq<Row>, id: int, p: Patch, before: System, after: System)
    requires HeadMoved(rows, later, id, p)
    requires SupervisorsOk(rows, before.supervisors, before.world.hist.begun, before.sent)
    requires before.world.hist.begun <= after.world.hist.begun
    requires forall j | j != id :: j in after.sent <==> j in before.sent
    requires forall j | j in after.supervisors && j != id ::
               j in before.supervisors && after.supervisors[j].phase == before.supervisors[j].phase
    requires id in after.supervisors ==>
        AtPhase(later[id - 1], id, after.supervisors[id].phase, after.world.hist.begun, after.sent)
    ensures SupervisorsOk(later, after.supervisors, after.world.hist.begun, after.sent)
  {
  }

  // ---------------------------------------------------------------------
  // The ledger's part of a step.

  lemma BegunGrows(w: World, c: Command)
    requires Protocol(w)
    ensures Protocol(Do(w, c)) && w.hist.begun <= Do(w, c).hist.begun
  {
    StepProtocol(w, c);
  }

  lemma CommittedIsBegun(w: World, c: Command)
    requires Sane(w) && c.Begin? && Succeeds(w, c) && Head(w.db.rows, c.id)
    ensures c.id in Do(w, c).hist.begun
  {
    MarkExactly(w.db, c.id);
  }

  lemma ElsewhereGrows(w: World, c: Command)
    requires Sane(w) && (FromElsewhere(c) || c.Admit?)
    ensures Grown(w.db.rows, Do(w, c).db.rows)
  {
    EveryEffect(w, c);
    var rows, later := w.db.rows, Do(w, c).db.rows;
    forall i | 0 <= i < |rows| ensures later[i] == rows[i] {
      assert later[i] == RowAfter(w, c, rows[i]);
    }
    forall i | |rows| <= i < |later| ensures later[i].root <= |rows| || later[i].state.Reserved? {
      assert Appended(rows, c, i, later[i]);
      if c.RollTo? {
        var j :| 0 <= j < |rows| && IsActive(rows[j].state)
            && later[i] == rows[j].(id := later[i].id, epoch := later[i].epoch, settled := None);
        assert Placed(rows, j, w.db.meta.currentEpoch);
      }
    }
  }

  /** A call an actor makes on its group. */
  predicate OnGroup(c: Command) {
    c.Begin? || c.Attach? || c.LoseId? || c.SettleWith? || c.GiveUp?
    || (c.ReleaseAs? && (c.t.ReleaseUnsent? || c.t.RejectBeforeProcessing?))
  }

  function Needs(c: Command): Transition
    requires OnGroup(c)
  {
    if c.Begin? then BeginDispatch else Asked(c)
  }

  /** What an actor's call does to its group when it succeeds. */
  function Moves(w: World, c: Command): Patch
    requires OnGroup(c) && Head(w.db.rows, c.id)
  {
    match c
    case Begin(_, _) => Relabel(Dispatching, None)
    case Attach(_, name) => Relabel(DispatchedWithId, Some(name))
    case LoseId(_) => Relabel(DispatchedIdUnknown, None)
    case SettleWith(id, response, rev) => SettlePatch(w.db.rows[id - 1], response, rev)
    case GiveUp(_) => Finish(ConsumedUnrecoverable, None)
    case ReleaseAs(_, t) => Finish(Target(t), None)
  }

  lemma CallMoves(w: World, c: Command)
    requires Sane(w) && OnGroup(c) && Head(w.db.rows, c.id) && Succeeds(w, c)
    ensures Admits(w.db.rows, c.id, Needs(c))
    ensures HeadMoved(w.db.rows, Do(w, c).db.rows, c.id, Moves(w, c))
  {
    if c.Begin? {
      BeginMoved(w, c);
    } else {
      OtherCallMoves(w, c);
    }
  }

  lemma CallAdmitted(w: World, c: Command)
    requires Sane(w) && OnGroup(c) && !c.Begin? && Head(w.db.rows, c.id) && Succeeds(w, c)
    ensures Admits(w.db.rows, c.id, Needs(c)) == true
  {
    GroupSucceeds(w, c);
  }

  lemma CommandIs(w: World, c: Command)
    requires OnGroup(c) && !c.Begin? && Head(w.db.rows, c.id) && Succeeds(w, c) && Admits(w.db.rows, c.id, Needs(c))
    ensures GroupCommand(w, c) == Some((c.id, Moves(w, c)))
  {
  }

  lemma MovedHead(rows: seq<Row>, later: seq<Row>, id: int, p: Patch)
    requires Moved(rows, later, id, p) && Head(rows, id)
    ensures HeadMoved(rows, later, id, p)
  {
  }

  lemma OtherCallMoves(w: World, c: Command)
    requires Sane(w) && OnGroup(c) && !c.Begin? && Head(w.db.rows, c.id) && Succeeds(w, c)
    ensures Admits(w.db.rows, c.id, Needs(c)) == true
    ensures HeadMoved(w.db.rows, Do(w, c).db.rows, c.id, Moves(w, c)) == true
  {
    CallAdmitted(w, c);
    CommandIs(w, c);
    GroupMoved(w, c);
    MovedHead(w.db.rows, Do(w, c).db.rows, c.id, Moves(w, c));
  }

  lemma FailedCallMovesNothing(w: World, c: Command)
    requires Sane(w) && OnGroup(c) && !Succeeds(w, c)
    ensures Do(w, c).db == w.db
  {
  }
}
