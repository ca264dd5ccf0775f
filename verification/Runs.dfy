/**
Runs of the ledger: any sequence of ledger calls, crashes and restarts, over the
durable pair of ledger tables and external record.
*/
module Runs {
  import opened Results
  import opened ReservationState
  import opened Tables
  import opened Trust
  import opened Transactions
  import opened LedgerInvariant
  import opened GroupTransitions
  import opened AdmissionRule
  import opened DailyRollover
  import opened Recovery

  /** Facts about the run that no table records: the groups whose dispatch
      committed, the epochs opened, what was debited from each safety input
      since it was last verified, and what adoption added to each counter. */
  datatype History = History(begun: set<int>, epochs: seq<int>, spent: map<string, int>, adopted: map<Key, int>)

  /** `db` and `ext` are durable; `trust` is the running process's verdict. */
  datatype World = World(db: Tables, ext: External, trust: Verdict, hist: History)

  const INITIAL := World(FRESH, Absent, Unknown(Uninitialized), History({}, [], map[], map[]))

  /** One ledger call. `Open` is a crash or exit of the running process, in
      whatever state it left the durable pair, followed by a restart. */
  datatype Command =
    | Open
    | CleanClose
    | Admit(request: Request, now: int)
    | Begin(id: int, io: Durability)
    | Attach(id: int, name: string)
    | LoseId(id: int)
    | SettleWith(id: int, response: Completed, rev: int)
    | GiveUp(id: int)
    | ReleaseAs(id: int, t: Transition)
    | RollTo(epoch: int, grants: seq<(string, nat)>)
    | Adopt(adoptions: seq<Adoption>, io: Durability)
    | Verify(key: string, now: int, ttl: int, budget: nat)
    | Withdraw(key: string)
    | SetLatch(scope: string, text: string)
    | Unlatch(scope: string)

  function Committed(db: Tables, r: Result<Tables, LedgerError>): Tables {
    if r.Success? then r.value else db
  }

  function Restart(w: World): World {
    var a := Assess(w.db.meta, w.ext, w.db.rows);
    w.(db := Committed(w.db, Normalize(w.db, a, w.ext)), trust := a.verdict)
  }

  function Admitting(w: World, request: Request, now: int): World {
    if !w.trust.Trusted? then w
    else
      var r := Transactions.Reserve(w.db, request, now);
      if r.Failure? || r.value.1.Refused? then w
      else w.(db := r.value.0,
              hist := w.hist.(spent := map k | k in w.hist.spent ::
                w.hist.spent[k] + if k in request.required then request.liability else 0))
  }

  function Beginning(w: World, id: int, io: Durability): World {
    var mark := DispatchMark(w.db, id);
    if mark.Failure? || io.NotWritten? then w
    else
      var written := w.(ext := Present(mark.value));
      var r := CommitDispatch(w.db, id, mark.value);
      if io.WrittenNotCommitted? || r.Failure? then written
      else written.(db := r.value, hist := w.hist.(begun := w.hist.begun + {mark.value.last}))
  }

  function AdoptedSoFar(h: History, key: Key): int {
    if key in h.adopted then h.adopted[key] else 0
  }

  function Adopting(w: World, adoptions: seq<Adoption>, io: Durability): World {
    var anchor := Anchor(w.db.meta, w.ext);
    if anchor.Failure? || io.NotWritten? then w
    else
      var written := w.(ext := Present(anchor.value));
      var r := CommitAdoption(w.db, adoptions, anchor.value);
      if io.WrittenNotCommitted? || r.Failure? then written
      else
        written.(db := r.value, trust := Trusted,
                 hist := w.hist.(adopted := map key | key in w.db.pools && key in r.value.pools ::
                   AdoptedSoFar(w.hist, key) + r.value.pools[key].consumed - w.db.pools[key].consumed))
  }

  function Rolling(w: World, epoch: int, grants: seq<(string, nat)>): World {
    var r := Transactions.Rollover(w.db, epoch, grants);
    if r.Failure? || r.value.1.AlreadyCurrent? then w
    else w.(db := r.value.0, hist := w.hist.(epochs := w.hist.epochs + [epoch]))
  }

  function Verifying(w: World, key: string, now: int, ttl: int, budget: nat): World {
    var r := Revalidate(w.db, key, now, ttl, budget);
    if r.Failure? then w else w.(db := r.value, hist := w.hist.(spent := w.hist.spent[key := 0]))
  }

  function Do(w: World, c: Command): World {
    match c
    case Open => Restart(w)
    case CleanClose => w.(db := w.db.(meta := w.db.meta.(clean := true)))
    case Admit(request, now) => Admitting(w, request, now)
    case Begin(id, io) => Beginning(w, id, io)
    case Attach(id, response) => w.(db := Committed(w.db, RelabelGroup(w.db, id, AttachResponseId, Some(response))))
    case LoseId(id) => w.(db := Committed(w.db, RelabelGroup(w.db, id, MarkIdUnknown, None)))
    case SettleWith(id, response, rev) =>
      var r := SettleGroup(w.db, id, response, rev);
      if r.Success? then w.(db := r.value.0) else w
    case GiveUp(id) => w.(db := Committed(w.db, Transactions.WriteOff(w.db, id)))
    case ReleaseAs(id, t) =>
      if t.ReleaseUnsent? || t.RejectBeforeProcessing? then w.(db := Committed(w.db, Transactions.Release(w.db, id, t)))
      else w
    case RollTo(epoch, grants) => Rolling(w, epoch, grants)
    case Adopt(adoptions, io) => Adopting(w, adoptions, io)
    case Verify(key, now, ttl, budget) => Verifying(w, key, now, ttl, budget)
    case Withdraw(key) => w.(db := Invalidate(w.db, key))
    case SetLatch(scope, text) => w.(db := WithLatch(w.db, scope, Manual(text)))
    case Unlatch(scope) => w.(db := ClearLatches(w.db, scope))
  }

  function Run(w: World, cs: seq<Command>): World
    decreases |cs|
  {
    if |cs| == 0 then w else Run(Do(w, cs[0]), cs[1..])
  }

  // ---------------------------------------------------------------------
  // Every reachable ledger is valid.

  predicate Sane(w: World) {
    Valid(w.db) && Sensible(w.ext)
  }

  /** Commands that move one whole group, and the update each applies. */
  function GroupCommand(w: World, c: Command): Option<(int, Patch)> {
    match c
    case Attach(id, response) =>
      if Admits(w.db.rows, id, AttachResponseId) then Some((id, Relabel(DispatchedWithId, Some(response)))) else None
    case LoseId(id) =>
      if Admits(w.db.rows, id, MarkIdUnknown) then Some((id, Relabel(DispatchedIdUnknown, None))) else None
    case SettleWith(id, response, rev) =>
      if !Admits(w.db.rows, id, Settle) || SettleGroup(w.db, id, response, rev).Failure? then None
      else
        Some((id, SettlePatch(w.db.rows[id - 1], response, rev)))
    case GiveUp(id) =>
      if !Admits(w.db.rows, id, Unrecoverable) || Transactions.WriteOff(w.db, id).Failure? then None
      else Some((id, Finish(ConsumedUnrecoverable, None)))
    case ReleaseAs(id, t) =>
      if (t.ReleaseUnsent? || t.RejectBeforeProcessing?) && Admits(w.db.rows, id, t)
      then Some((id, Finish(Target(t), None))) else None
    case _ => None
  }

  predicate IsGroupCommand(c: Command) {
    c.Attach? || c.LoseId? || c.SettleWith? || c.GiveUp? || c.ReleaseAs?
  }

  /** A group command moves exactly its group, or changes nothing at all. */
  ghost predicate GroupMove(w: World, c: Command) {
    var after := Do(w, c);
    && after == w.(db := after.db)
    && match GroupCommand(w, c)
       case None => after == w
       case Some((id, p)) => Sound(w.db, after.db, id, p) && after.db.meta == w.db.meta
  }

  lemma RelabelStep(w: World, c: Command)
    requires Sane(w) && (c.Attach? || c.LoseId?)
    ensures GroupMove(w, c)
  {
    if c.Attach? {
      RelabelSound(w.db, c.id, AttachResponseId, Some(c.name));
    } else {
      RelabelSound(w.db, c.id, MarkIdUnknown, None);
    }
  }

  lemma SettleStep(w: World, c: Command)
    requires Sane(w) && c.SettleWith?
    ensures GroupMove(w, c)
  {
    SettleSound(w.db, c.id, c.response, c.rev);
  }

  lemma FinishStep(w: World, c: Command)
    requires Sane(w) && (c.GiveUp? || c.ReleaseAs?)
    ensures GroupMove(w, c)
  {
    if c.GiveUp? {
      WriteOffSound(w.db, c.id);
    } else if c.t.ReleaseUnsent? || c.t.RejectBeforeProcessing? {
      ReleaseSound(w.db, c.id, c.t);
    }
  }

  lemma GroupStep(w: World, c: Command)
    requires Sane(w) && IsGroupCommand(c)
    ensures GroupMove(w, c)
  {
    if c.Attach? || c.LoseId? {
      RelabelStep(w, c);
    } else if c.SettleWith? {
      SettleStep(w, c);
    } else {
      FinishStep(w, c);
    }
  }

  /** The parts of a group move that later proofs use, predicates kept whole. */
  lemma GroupKeeps(w: World, c: Command)
    requires Sane(w) && IsGroupCommand(c)
    ensures Do(w, c) == w.(db := Do(w, c).db)
    ensures GroupCommand(w, c).None? ==> Do(w, c) == w
    ensures GroupCommand(w, c).Some? ==>
              && Moved(w.db.rows, Do(w, c).db.rows, GroupCommand(w, c).value.0, GroupCommand(w, c).value.1) == true
              && Follows(w.db.rows, w.db.pools, Do(w, c).db.rows, Do(w, c).db.pools) == true
              && Do(w, c).db.meta == w.db.meta && Do(w, c).db.safety == w.db.safety
  {
    GroupStep(w, c);
  }

  // ---------------------------------------------------------------------
  // The money bound over runs.

  /** The rollovers a caller may make: each new grant covers what it carries. */
  ghost predicate Covered(w: World, c: Command) {
    c.RollTo? && c.epoch > w.db.meta.currentEpoch ==> Covers(w.db, c.grants)
  }

  ghost predicate StepKept(w: World, c: Command) {
    && Sane(Do(w, c))
    && (Bounded(w.db) && Covered(w, c) ==> Bounded(Do(w, c).db))
  }

  lemma RestartKept(w: World)
    requires Sane(w)
    ensures StepKept(w, Open)
    ensures Restarts(w.db, Assess(w.db.meta, w.ext, w.db.rows), w.ext, Do(w, Open).db)
    ensures Kept(w.db, Do(w, Open).db)
  {
    NormalizeSound(w.db, Assess(w.db.meta, w.ext, w.db.rows), w.ext);
  }

  lemma BeginKept(w: World, c: Command)
    requires Sane(w) && c.Begin?
    ensures StepKept(w, c)
  {
    var mark := DispatchMark(w.db, c.id);
    if mark.Success? {
      DispatchKept(w.db, c.id, mark.value);
      KeptStep(w, c, CommitDispatch(w.db, c.id, mark.value).value);
    }
  }

  /** A step to tables the books are kept in, or none. */
  lemma KeptStep(w: World, c: Command, after: Tables)
    requires Sane(w) && Kept(w.db, after)
    requires (Do(w, c).db == after || Do(w, c).db == w.db) && Sensible(Do(w, c).ext)
    ensures StepKept(w, c)
  {
  }

  lemma AdoptKept(w: World, c: Command)
    requires Sane(w) && c.Adopt?
    ensures StepKept(w, c)
  {
    if Anchor(w.db.meta, w.ext).Success? {
      AdoptionSound(w.db, c.adoptions, Anchor(w.db.meta, w.ext).value);
    }
  }

  lemma RollKept(w: World, c: Command)
    requires Sane(w) && c.RollTo?
    ensures StepKept(w, c)
  {
    if c.epoch > w.db.meta.currentEpoch {
      RolloverSound(w.db, c.epoch, c.grants);
      if Transactions.Rollover(w.db, c.epoch, c.grants).Success? && Bounded(w.db) {
        RolloverBound(w.db, c.epoch, c.grants);
      }
    }
  }

  /** Every command leaves a valid ledger valid, and a bounded one bounded. */
  lemma StepKeeps(w: World, c: Command)
    requires Sane(w)
    ensures StepKept(w, c)
  {
    if IsGroupCommand(c) {
      GroupStep(w, c);
    } else if c.Open? {
      RestartKept(w);
    } else if c.Admit? {
      ReserveSound(w.db, c.request, c.now);
    } else if c.Begin? {
      BeginKept(w, c);
    } else if c.Adopt? {
      AdoptKept(w, c);
    } else if c.RollTo? {
      RollKept(w, c);
    } else {
      OtherKept(w, c);
    }
  }

  lemma OtherKept(w: World, c: Command)
    requires Sane(w) && (c.CleanClose? || c.Verify? || c.Withdraw? || c.SetLatch? || c.Unlatch?)
    ensures StepKept(w, c)
    ensures Do(w, c).db.rows == w.db.rows && Do(w, c).db.pools == w.db.pools
  {
  }

  ghost predicate AllCovered(w: World, cs: seq<Command>)
    decreases |cs|
  {
    |cs| == 0 || (Covered(w, cs[0]) && AllCovered(Do(w, cs[0]), cs[1..]))
  }

  lemma {:induction false} RunKeeps(w: World, cs: seq<Command>)
    requires Sane(w)
    ensures Sane(Run(w, cs))
    ensures Bounded(w.db) && AllCovered(w, cs) ==> Bounded(Run(w, cs).db)
    decreases |cs|
  {
    if |cs| != 0 {
      StepKeeps(w, cs[0]);
      RunKeeps(Do(w, cs[0]), cs[1..]);
    }
  }

  lemma InitialSane()
    ensures Sane(INITIAL) && Bounded(INITIAL.db)
  {
  }

  /** The exposure theorem: from a fresh ledger, through any calls, crashes and
      restarts in which rollovers are granted enough for what they carry, the
      charges of every pool and epoch, capped at each row's liability, fit its
      grant. */
  lemma ExposureNeverExceedsGrant(cs: seq<Command>)
    requires AllCovered(INITIAL, cs)
    ensures var db := Run(INITIAL, cs).db;
            forall key | key in db.pools :: Total(db.rows, key, Exposed) <= db.pools[key].granted
  {
    InitialSane();
    RunKeeps(INITIAL, cs);
  }

  predicate AllHolding(w: World, cs: seq<Command>)
    decreases |cs|
  {
    |cs| == 0 || ((cs[0].RollTo? ==> GrantsHold(w.db, cs[0].grants)) && AllHolding(Do(w, cs[0]), cs[1..]))
  }

  /** The bound in the form a caller can keep: no rollover grants a pool less
      than it has in the epoch being left. */
  lemma {:induction false} HoldingGrantsKeepExposure(w: World, cs: seq<Command>)
    requires Sane(w) && Bounded(w.db) && AllHolding(w, cs)
    ensures Bounded(Run(w, cs).db)
    decreases |cs|
  {
    if |cs| != 0 {
      StepKeeps(w, cs[0]);
      if cs[0].RollTo? {
        HoldingGrantsCover(w.db, cs[0].grants);
      }
      HoldingGrantsKeepExposure(Do(w, cs[0]), cs[1..]);
    }
  }

  // ---------------------------------------------------------------------
  // What can fail.

  /** The error a command returns, if any. */
  function Outcome(w: World, c: Command): Option<LedgerError> {
    match c
    case Admit(request, now) => if w.trust.Trusted? then ErrorOf(Transactions.Reserve(w.db, request, now)) else None
    case Begin(id, _) => 
      var mark := DispatchMark(w.db, id);
      if mark.Success? then ErrorOf(CommitDispatch(w.db, id, mark.value)) else Some(mark.error)
    case Attach(id, name) => ErrorOf(RelabelGroup(w.db, id, AttachResponseId, Some(name)))
    case LoseId(id) => ErrorOf(RelabelGroup(w.db, id, MarkIdUnknown, None))
    case SettleWith(id, response, rev) => ErrorOf(SettleGroup(w.db, id, response, rev))
    case GiveUp(id) => ErrorOf(Transactions.WriteOff(w.db, id))
    case ReleaseAs(id, t) =>
      if t.ReleaseUnsent? || t.RejectBeforeProcessing? then ErrorOf(Transactions.Release(w.db, id, t)) else None
    case RollTo(epoch, grants) => ErrorOf(Transactions.Rollover(w.db, epoch, grants))
    case Adopt(adoptions, _) =>
      var anchor := Anchor(w.db.meta, w.ext);
      if anchor.Success? then ErrorOf(CommitAdoption(w.db, adoptions, anchor.value)) else Some(anchor.error)
    case Verify(key, now, ttl, budget) => ErrorOf(Revalidate(w.db, key, now, ttl, budget))
    case Open => ErrorOf(Normalize(w.db, Assess(w.db.meta, w.ext, w.db.rows), w.ext))
    case _ => None
  }

  function ErrorOf<T>(r: Result<T, LedgerError>): Option<LedgerError> {
    if r.Failure? then Some(r.error) else None
  }

  /** The caller's part in an integrity error: a rollover without a grant for a
      pool that has active reservations, or adoption for an epoch not open. */
  predicate CallerLeftOut(w: World, c: Command, v: Violation) {
    || (v.MissingGrant? && c.RollTo?
        && exists r | r in w.db.rows :: IsActive(r.state) && forall g | g in c.grants :: g.0 != r.pool)
    || (v.NotOpen? && c.Adopt? && exists a | a in c.adoptions :: (a.pool, a.epoch) !in w.db.pools)
  }

  /** No valid ledger ever reports that its books are wrong. */
  lemma OnlyCallersFail(w: World, c: Command)
    requires Sane(w)
    ensures Outcome(w, c).Some? && Outcome(w, c).value.Integrity? ==> CallerLeftOut(w, c, Outcome(w, c).value.violation)
    ensures c.Open? ==> Outcome(w, c).None?
  {
    if IsGroupCommand(c) {
      GroupErrors(w, c);
    } else if c.Admit? {
      ReserveSound(w.db, c.request, c.now);
    } else if c.RollTo? {
      if c.epoch > w.db.meta.currentEpoch {
        RolloverSound(w.db, c.epoch, c.grants);
      }
    } else if c.Open? {
      NormalizeSound(w.db, Assess(w.db.meta, w.ext, w.db.rows), w.ext);
    } else {
      DurableErrors(w, c);
    }
  }

  /** A group command fails by overflow or because the caller asked for a group
      that is not there or not in a state for it. */
  lemma GroupErrors(w: World, c: Command)
    requires Sane(w) && IsGroupCommand(c)
    ensures Outcome(w, c).Some? ==> !Outcome(w, c).value.Integrity?
  {
    match c {
      case Attach(id, name) => RelabelSound(w.db, id, AttachResponseId, Some(name));
      case LoseId(id) => RelabelSound(w.db, id, MarkIdUnknown, None);
      case SettleWith(id, response, rev) => SettleSound(w.db, id, response, rev);
      case GiveUp(id) => WriteOffSound(w.db, id);
      case ReleaseAs(id, t) =>
        if t.ReleaseUnsent? || t.RejectBeforeProcessing? {
          ReleaseSound(w.db, id, t);
        }
    }
  }

  lemma DurableErrors(w: World, c: Command)
    requires Sane(w) && !IsGroupCommand(c) && !c.Admit? && !c.RollTo? && !c.Open?
    ensures Outcome(w, c).Some? && Outcome(w, c).value.Integrity? ==> CallerLeftOut(w, c, Outcome(w, c).value.violation)
  {
    if c.Begin? {
      MarkExactly(w.db, c.id);
      if DispatchMark(w.db, c.id).Success? {
        DispatchParts(w.db, c.id, DispatchMark(w.db, c.id).value);
      }
    } else if c.Adopt? && Anchor(w.db.meta, w.ext).Success? {
      AdoptionSound(w.db, c.adoptions, Anchor(w.db.meta, w.ext).value);
    }
  }

  /** Over every run: internal integrity errors are unreachable, opening never
      fails, and the integrity check always passes. */
  lemma BooksNeverFail(cs: seq<Command>, c: Command)
    ensures var w := Run(INITIAL, cs);
            && Consistent(w.db)
            && (forall r | r in w.db.rows :: Shape(r))
            && (c.Open? ==> Outcome(w, c).None?)
            && (Outcome(w, c).Some? && Outcome(w, c).value.Integrity? ==>
                  CallerLeftOut(w, c, Outcome(w, c).value.violation))
  {
    InitialSane();
    RunKeeps(INITIAL, cs);
    ValidIsConsistent(Run(INITIAL, cs).db);
    ShapeAll(Run(INITIAL, cs).db.rows, Run(INITIAL, cs).db.meta.currentEpoch);
    OnlyCallersFail(Run(INITIAL, cs), c);
  }
}
