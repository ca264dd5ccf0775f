/**
Supervisors, the retrieval worker, rollover and crashes, interleaved
(`dispatch.rs`, `retrieval.rs`). One step is one ledger call or one event from
upstream or the client; any actor may step at any time.
*/
module Supervision {
  import opened Results
  import opened ReservationState
  import opened Tables
  import opened Trust
  import opened Transactions
  import opened LedgerInvariant
  import opened GroupTransitions
  import opened DailyRollover
  import opened Recovery
  import opened Runs
  import opened WriteAhead
  import opened Accounts
  import opened RowEffects

  // ---------------------------------------------------------------------
  // What an HTTP status means for the reservation (`status_policy.rs`).

  datatype Decision = SettleIt | ReleaseRejected | HoldAsUnknown

  function Decide(status: int): Decision {
    if 200 <= status <= 299 then SettleIt
    else if RefusedUnprocessed(status) then ReleaseRejected
    else HoldAsUnknown
  }

  /** The statuses that prove processing never started. */
  predicate RefusedUnprocessed(status: int) {
    status in {400, 401, 402, 403, 404, 422, 429}
  }

  // ---------------------------------------------------------------------
  // State.

  /** Where a supervisor is in `supervise` and `relay`; the last two are its
      dispositions. */
  datatype Phase =
    | Permitted
    | Unsending
    | Sending
    | Awaiting
    | Rejecting(status: int)
    | Holding
    | Relaying(name: Option<string>, settled: bool, listening: bool)
    | Ended
    | LedgerFailed

  datatype Supervisor = Supervisor(phase: Phase, background: bool, rev: int)

  datatype Cause = UsageUnobserved | NoResponseId | NotFoundUpstream

  /** What resolved a group that had been dispatched. */
  datatype Evidence =
    | Reported(response: Completed, rev: int)
    | GivenUp(cause: Cause)
    | RefusedWith(status: int)

  /** One open dispatch as a sweep read it; `response` is the id retrieval asks for. */
  datatype Snapshot = Snapshot(id: int, state: State, response: Option<string>)

  /** `sent` are the groups whose request was handed to upstream; `evidence` is
      what resolved which group, in order. Neither is known to any actor. */
  datatype System = System(
    world: World,
    supervisors: map<int, Supervisor>,
    queue: seq<Snapshot>,
    sent: set<int>,
    evidence: seq<(int, Evidence)>)

  const START := System(INITIAL, map[], [], {}, [])

  /** `Breaks` and `SweepBreaks` are ledger calls that fail for a reason of the
      storage or the process, not of the ledger's state, and commit nothing. */
  datatype Event =
    | Environment(c: Command)
    | Crashes
    | Grants(request: Request, now: int, background: bool, rev: int)
    | HeldBack(id: int)
    | Begins(id: int, io: Durability)
    | Unsends(id: int)
    | Sends(id: int)
    | Fails(id: int)
    | Answers(id: int, status: int, delivered: bool)
    | Rejects(id: int)
    | Holds(id: int)
    | Names(id: int, name: string)
    | Completes(id: int, response: Completed)
    | Disconnects(id: int)
    | Abandons(id: int)
    | Ends(id: int)
    | Sweeps
    | Skips
    | WritesOff
    | Retrieves(response: Completed, rev: int)
    | Breaks(id: int)
    | SweepBreaks

  // ---------------------------------------------------------------------
  // Steps.

  /** Ledger calls that neither a supervisor, nor retrieval, nor admission, nor
      startup makes. */
  predicate FromElsewhere(c: Command) {
    c.CleanClose? || c.RollTo? || c.Adopt? || c.Verify? || c.Withdraw? || c.SetLatch? || c.Unlatch?
  }

  function PhaseOf(s: System, id: int): Phase {
    if id in s.supervisors then s.supervisors[id].phase else Ended
  }

  predicate Unheard(p: Phase) {
    p.Relaying? && !p.settled && !p.listening
  }

  /** The supervisor has a ledger call to make now, or may have. */
  predicate Calling(p: Phase) {
    p.Unsending? || p.Rejecting? || p.Holding? || p.Relaying?
  }

  predicate Enabled(s: System, e: Event) {
    match e
    case Environment(c) => FromElsewhere(c)
    case Crashes => true
    case Grants(_, _, _, _) => true
    case HeldBack(id) => PhaseOf(s, id).Permitted?
    case Begins(id, _) => PhaseOf(s, id).Permitted?
    case Unsends(id) => PhaseOf(s, id).Unsending?
    case Sends(id) => PhaseOf(s, id).Sending?
    case Fails(id) => PhaseOf(s, id).Awaiting?
    case Answers(id, _, _) => PhaseOf(s, id).Awaiting?
    case Rejects(id) => PhaseOf(s, id).Rejecting?
    case Holds(id) => PhaseOf(s, id).Holding?
    case Names(id, _) => PhaseOf(s, id).Relaying?
    case Completes(id, _) => PhaseOf(s, id).Relaying? && !PhaseOf(s, id).settled
    case Disconnects(id) => PhaseOf(s, id).Relaying?
    case Abandons(id) => Unheard(PhaseOf(s, id))
    case Ends(id) => PhaseOf(s, id).Relaying?
    case Sweeps => s.queue == []
    case Skips => s.queue != []
    case WritesOff => s.queue != []
    case Retrieves(_, _) => s.queue != [] && s.queue[0].state.DispatchedWithId?
    case Breaks(id) => Calling(PhaseOf(s, id))
    case SweepBreaks => true
  }

  /** A synchronous response whose usage can no longer be observed is written
      off by its own supervisor. */
  predicate WritesOffNow(s: System, e: Event) {
    && (e.Abandons? || e.Ends?)
    && e.id in s.supervisors && !s.supervisors[e.id].background
    && s.supervisors[e.id].phase.Relaying? && !s.supervisors[e.id].phase.settled
  }

  /** The ledger call a step makes. */
  function CallOf(s: System, e: Event): Option<Command>
    requires Enabled(s, e)
  {
    match e
    case Environment(c) => Some(c)
    case Crashes => Some(Command.Open)
    case Grants(request, now, _, _) => Some(Admit(request, now))
    case Begins(id, io) => Some(Begin(id, io))
    case Unsends(id) => Some(ReleaseAs(id, ReleaseUnsent))
    case Rejects(id) => Some(ReleaseAs(id, RejectBeforeProcessing))
    case Holds(id) => Some(LoseId(id))
    case Names(id, name) => Some(Attach(id, name))
    case Completes(id, response) => Some(SettleWith(id, response, s.supervisors[id].rev))
    case Abandons(id) => if WritesOffNow(s, e) then Some(GiveUp(id)) else None
    case Ends(id) => if WritesOffNow(s, e) then Some(GiveUp(id)) else None
    case WritesOff => Some(GiveUp(s.queue[0].id))
    case Retrieves(response, rev) => Some(SettleWith(s.queue[0].id, response, rev))
    case _ => None
  }

  /** The evidence a call rests on. */
  function EvidenceOf(s: System, e: Event): Option<(int, Evidence)>
    requires Enabled(s, e)
  {
    match e
    case Rejects(id) => Some((id, RefusedWith(s.supervisors[id].phase.status)))
    case Completes(id, response) => Some((id, Reported(response, s.supervisors[id].rev)))
    case Abandons(id) => if WritesOffNow(s, e) then Some((id, GivenUp(UsageUnobserved))) else None
    case Ends(id) => if WritesOffNow(s, e) then Some((id, GivenUp(UsageUnobserved))) else None
    case WritesOff =>
      Some((s.queue[0].id, GivenUp(if s.queue[0].state.DispatchedWithId? then NotFoundUpstream else NoResponseId)))
    case Retrieves(response, rev) => Some((s.queue[0].id, Reported(response, rev)))
    case _ => None
  }

  /** After the relay stops without a settlement. */
  function Unsettled(p: Phase): Phase
    requires p.Relaying?
  {
    if p.settled || p.name.Some? then Ended else Holding
  }

  function EndedIf(ok: bool): Phase {
    if ok then Ended else LedgerFailed
  }

  /** The stepping supervisor's next phase, given whether its call succeeded. */
  function PhaseAfter(s: System, e: Event, ok: bool): Option<(int, Phase)>
    requires Enabled(s, e)
  {
    match e
    case HeldBack(id) => Some((id, Unsending))
    case Begins(id, _) => Some((id, if ok then Sending else Unsending))
    case Unsends(id) => Some((id, EndedIf(ok)))
    case Sends(id) => Some((id, Awaiting))
    case Fails(id) => Some((id, Holding))
    case Answers(id, status, delivered) =>
      Some((id, match Decide(status)
                case SettleIt => Relaying(None, false, delivered)
                case ReleaseRejected => Rejecting(status)
                case HoldAsUnknown => Holding))
    case Rejects(id) => Some((id, EndedIf(ok)))
    case Holds(id) => Some((id, EndedIf(ok)))
    case Names(id, name) => Some((id, if ok then s.supervisors[id].phase.(name := Some(name)) else LedgerFailed))
    case Completes(id, _) => Some((id, if ok then s.supervisors[id].phase.(settled := true) else LedgerFailed))
    case Disconnects(id) => Some((id, s.supervisors[id].phase.(listening := false)))
    case Abandons(id) => Some((id, if WritesOffNow(s, e) then EndedIf(ok) else Unsettled(s.supervisors[id].phase)))
    case Ends(id) => Some((id, if WritesOffNow(s, e) then EndedIf(ok) else Unsettled(s.supervisors[id].phase)))
    case Breaks(id) => Some((id, LedgerFailed))
    case _ => None
  }

  predicate IsOpen(r: Row) {
    r.id == r.root && (r.state.DispatchedWithId? || r.state.DispatchedIdUnknown?)
  }

  /** `open_dispatches`: heads of groups sent and not resolved. */
  function OpenDispatches(rows: seq<Row>): seq<Snapshot> {
    if |rows| == 0 then []
    else
      (if IsOpen(rows[0]) then [Snapshot(rows[0].root, rows[0].state, rows[0].responseId)] else [])
      + OpenDispatches(rows[1..])
  }

  /** A sweep handles its snapshot in order; a failing call ends it. */
  function QueueAfter(s: System, e: Event, ok: bool): seq<Snapshot>
    requires Enabled(s, e)
  {
    match e
    case Crashes => []
    case Sweeps => OpenDispatches(s.world.db.rows)
    case Skips => s.queue[1..]
    case SweepBreaks => []
    case WritesOff => if ok then s.queue[1..] else []
    case Retrieves(_, _) => if ok then s.queue[1..] else []
    case _ => s.queue
  }

  function SupervisorsAfter(s: System, e: Event, ok: bool): map<int, Supervisor>
    requires Enabled(s, e)
  {
    if e.Crashes? then map[]
    else if e.Grants? then
      var r := Transactions.Reserve(s.world.db, e.request, e.now);
      if s.world.trust.Trusted? && r.Success? && r.value.1.Admitted?
      then s.supervisors[r.value.1.id := Supervisor(Permitted, e.background, e.rev)]
      else s.supervisors
    else
      match PhaseAfter(s, e, ok)
      case None => s.supervisors
      case Some((id, p)) =>
        if id in s.supervisors then s.supervisors[id := s.supervisors[id].(phase := p)] else s.supervisors
  }

  predicate CallSucceeds(s: System, e: Event)
    requires Enabled(s, e)
  {
    CallOf(s, e).Some? ==> Succeeds(s.world, CallOf(s, e).value)
  }

  function WorldAfter(s: System, e: Event): World
    requires Enabled(s, e)
  {
    if CallOf(s, e).Some? then Do(s.world, CallOf(s, e).value) else s.world
  }

  function Step(s: System, e: Event): System {
    if !Enabled(s, e) then s
    else
      var ok := CallSucceeds(s, e);
      System(WorldAfter(s, e),
             SupervisorsAfter(s, e, ok),
             QueueAfter(s, e, ok),
             if e.Sends? then s.sent + {e.id} else s.sent,
             if ok && EvidenceOf(s, e).Some? then s.evidence + [EvidenceOf(s, e).value] else s.evidence)
  }

  function Play(s: System, es: seq<Event>): System
    decreases |es|
  {
    if |es| == 0 then s else Play(Step(s, es[0]), es[1..])
  }
}
