/**
Group transitions keep the books: each one leaves a valid ledger valid, never
raises what is exposed in any epoch, and fails only for the caller's reasons.
*/
module GroupTransitions {
  import opened Results
  import opened ReservationState
  import opened Tables
  import opened Trust
  import opened Transactions
  import opened LedgerInvariant

  lemma {:induction false} UpdateWeighs(rows: seq<Row>, sel: Selector, p: Patch, key: Key, m: Measure)
    requires forall r | r in rows && Selects(sel, r) :: Weight(Patched(r, p), m) <= Weight(r, m)
    ensures Total(Update(rows, sel, p), key, m) <= Total(rows, key, m)
    ensures (forall r | r in rows && Selects(sel, r) :: Weight(Patched(r, p), m) == Weight(r, m)) ==>
              Total(Update(rows, sel, p), key, m) == Total(rows, key, m)
  {
    if |rows| != 0 {
      UpdateFirst(rows, sel, p);
      var first := if Selects(sel, rows[0]) then Patched(rows[0], p) else rows[0];
      assert rows[0] in rows;
      assert ([first] + Update(rows[1..], sel, p))[1..] == Update(rows[1..], sel, p);
      assert forall r | r in rows[1..] :: r in rows;
      UpdateWeighs(rows[1..], sel, p, key, m);
    }
  }

  /** No lawful update raises exposure, and a relabelling changes no measure. */
  lemma LawfulWeighs(rows: seq<Row>, sel: Selector, p: Patch, current: int, key: Key)
    requires RowsOk(rows, current) && Lawful(sel.from, p)
    ensures Total(Update(rows, sel, p), key, Exposed) <= Total(rows, key, Exposed)
    ensures p.Relabel? ==> forall m :: Total(Update(rows, sel, p), key, m) == Total(rows, key, m)
  {
    ShapeAll(rows, current);
    UpdateWeighs(rows, sel, p, key, Exposed);
    if p.Relabel? {
      UpdateWeighs(rows, sel, p, key, Held);
      UpdateWeighs(rows, sel, p, key, Charged);
      forall m ensures Total(Update(rows, sel, p), key, m) == Total(rows, key, m) {
        match m case Held => case Charged => case Exposed =>
      }
    }
  }

  lemma RelabelKeeps(db: Tables, sel: Selector, p: Patch)
    requires Valid(db) && Lawful(sel.from, p) && p.Relabel?
    ensures Kept(db, db.(rows := Update(db.rows, sel, p)))
  {
    UpdateKeepsRows(db.rows, sel, p, db.meta.currentEpoch);
    forall key, m ensures Total(Update(db.rows, sel, p), key, m) == Total(db.rows, key, m) {
      LawfulWeighs(db.rows, sel, p, db.meta.currentEpoch, key);
    }
  }

  lemma ReadyPools(rows: seq<Row>, pools: map<Key, Counters>, rows': seq<Row>, pools': map<Key, Counters>, current: int)
    requires PoolsOk(rows, pools, current) && Ready(rows', pools') && Follows(rows, pools, rows', pools')
    ensures PoolsOk(rows', pools', current)
  {
  }

  lemma PoolsReady(rows: seq<Row>, pools: map<Key, Counters>, current: int)
    requires RowsOk(rows, current) && PoolsOk(rows, pools, current)
    ensures Ready(rows, pools)
  {
    forall i | 0 <= i < |rows| ensures Shape(rows[i]) {
      assert Placed(rows, i, current);
    }
  }

  /** Taking selected rows out of the active states, with their counters. */
  lemma FinishKeeps(db: Tables, sel: Selector, p: Patch, charge: int)
    requires Valid(db) && Lawful(sel.from, p) && p.Finish? && 0 <= charge
    requires forall r | r in db.rows && Selects(sel, r) :: charge == Weight(Patched(r, p), Charged)
    ensures var pools := ReleaseRows(db.pools, Selected(db.rows, sel), charge);
            match pools
            case Failure(error) => error == Overflow && charge > 0
            case Success(pools) => Kept(db, db.(rows := Update(db.rows, sel, p), pools := pools))
  {
    var after, current := Update(db.rows, sel, p), db.meta.currentEpoch;
    var pools := ReleaseRows(db.pools, Selected(db.rows, sel), charge);
    FinishBooks(db.rows, db.pools, sel, p, charge, current);
    if pools.Success? {
      ReadyPools(db.rows, db.pools, after, pools.value, current);
      UpdateKeepsRows(db.rows, sel, p, current);
      forall key ensures Total(after, key, Exposed) <= Total(db.rows, key, Exposed) {
        LawfulWeighs(db.rows, sel, p, current, key);
      }
    }
  }

  lemma FinishBooks(rows: seq<Row>, pools: map<Key, Counters>, sel: Selector, p: Patch, charge: int, current: int)
    requires RowsOk(rows, current) && PoolsOk(rows, pools, current)
    requires Lawful(sel.from, p) && p.Finish? && 0 <= charge
    requires forall r | r in rows && Selects(sel, r) :: charge == Weight(Patched(r, p), Charged)
    ensures ReleasedOk(rows, pools, Update(rows, sel, p), charge, ReleaseRows(pools, Selected(rows, sel), charge))
  {
    PoolsReady(rows, pools, current);
    assert [] + rows == rows && [] + Update(rows, sel, p) == Update(rows, sel, p);
    ReleaseKeepsCounters([], rows, pools, sel, p, charge);
  }

  /** The errors a transition of group `id` can return. */
  predicate CallersFault(rows: seq<Row>, id: int, t: Transition, error: LedgerError) {
    if 1 <= id <= |rows|
    then error == IllegalTransition(rows[id - 1].root, rows[id - 1].state, Target(t))
        && !AllowedFrom(t, rows[id - 1].state)
    else error == NotFound(id)
  }

  /** The group of `id` exists and its state admits the transition. */
  predicate Admits(rows: seq<Row>, id: int, t: Transition) {
    1 <= id <= |rows| && AllowedFrom(t, rows[id - 1].state)
  }

  lemma EligibleExactly(rows: seq<Row>, id: int, t: Transition, current: int)
    requires RowsOk(rows, current)
    ensures var group := Eligible(rows, id, t);
            && (group.Success? <==> Admits(rows, id, t))
            && (group.Failure? ==> CallersFault(rows, id, t, group.error))
            && (group.Success? ==>
                  && group.value[0] in rows
                  && group.value[0] == rows[id - 1].(id := group.value[0].id, epoch := group.value[0].epoch)
                  && group.value == Selected(rows, Selector(Some(rows[id - 1].root), rows[id - 1].state)))
  {
    GroupLoads(rows, id, current);
    if 1 <= id <= |rows| {
      var head := LoadGroup(rows, id).value[0];
      var i :| 0 <= i < |rows| && rows[i] == head;
      SameGroup(rows, i, id - 1, current);
    }
  }

  /** Row `id` and every row of its group are updated by `p`, and no other. */
  predicate Moved(before: seq<Row>, after: seq<Row>, id: int, p: Patch) {
    && 1 <= id <= |before| && |after| == |before|
    && forall i | 0 <= i < |before| ::
         after[i] == if before[i].root == before[id - 1].root then Patched(before[i], p) else before[i]
  }

  lemma GroupMoves(rows: seq<Row>, id: int, p: Patch, current: int)
    requires RowsOk(rows, current) && 1 <= id <= |rows|
    ensures Moved(rows, Update(rows, Selector(Some(rows[id - 1].root), rows[id - 1].state), p), id, p)
  {
    forall i | 0 <= i < |rows| && rows[i].root == rows[id - 1].root ensures rows[i].state == rows[id - 1].state {
      SameGroup(rows, i, id - 1, current);
    }
  }

  /** What every group transition promises a valid ledger: the whole group
      moves and nothing else does, and the books and the money bound are kept. */
  ghost predicate Sound(db: Tables, after: Tables, id: int, p: Patch) {
    && Moved(db.rows, after.rows, id, p)
    && Kept(db, after)
    && after.safety == db.safety
    && after.meta.currentEpoch == db.meta.currentEpoch
  }

  lemma FinishGroupSound(db: Tables, id: int, t: Transition, p: Patch, charge: int)
    requires Valid(db) && Admits(db.rows, id, t) && p.Finish? && 0 <= charge
    requires Lawful(db.rows[id - 1].state, p)
    requires charge == Weight(Patched(db.rows[id - 1], p), Charged)
    ensures Eligible(db.rows, id, t).Success?
    ensures var head := Eligible(db.rows, id, t).value[0];
            head == db.rows[id - 1].(id := head.id, epoch := head.epoch)
    ensures match FinishGroup(db, Eligible(db.rows, id, t).value, p.target, charge, p.settled)
            case Failure(error) => error == Overflow && charge > 0
            case Success(after) => Sound(db, after, id, p) && after.meta == db.meta && after.latches == db.latches
  {
    EligibleExactly(db.rows, id, t, db.meta.currentEpoch);
    var sel := Selector(Some(db.rows[id - 1].root), db.rows[id - 1].state);
    forall r | r in db.rows && Selects(sel, r) ensures charge == Weight(Patched(r, p), Charged) {
      var i :| 0 <= i < |db.rows| && db.rows[i] == r;
      SameGroup(db.rows, i, id - 1, db.meta.currentEpoch);
    }
    FinishKeeps(db, sel, p, charge);
    GroupMoves(db.rows, id, p, db.meta.currentEpoch);
  }

  lemma RelabelSound(db: Tables, id: int, t: Transition, response: Option<string>)
    requires Valid(db)
    requires t.AttachResponseId? || t.MarkIdUnknown? || t.BeginDispatch?
    requires t.AttachResponseId? <==> response.Some?
    ensures match RelabelGroup(db, id, t, response)
            case Failure(error) => CallersFault(db.rows, id, t, error)
            case Success(after) =>
              && Admits(db.rows, id, t)
              && Sound(db, after, id, Relabel(Target(t), response))
              && after == db.(rows := after.rows)
  {
    EligibleExactly(db.rows, id, t, db.meta.currentEpoch);
    if Eligible(db.rows, id, t).Success? {
      var sel := Selector(Some(db.rows[id - 1].root), db.rows[id - 1].state);
      RelabelKeeps(db, sel, Relabel(Target(t), response));
      GroupMoves(db.rows, id, Relabel(Target(t), response), db.meta.currentEpoch);
    }
  }

  /** A write-off turns the full liability into consumption, once, in every
      epoch the group spans; releases charge nothing and cannot overflow. */
  lemma WriteOffSound(db: Tables, id: int)
    requires Valid(db)
    ensures match WriteOff(db, id)
            case Failure(error) => error == Overflow || CallersFault(db.rows, id, Unrecoverable, error)
            case Success(after) =>
              && Admits(db.rows, id, Unrecoverable)
              && Sound(db, after, id, Finish(ConsumedUnrecoverable, None))
              && after.meta == db.meta && after.latches == db.latches
  {
    EligibleExactly(db.rows, id, Unrecoverable, db.meta.currentEpoch);
    if Eligible(db.rows, id, Unrecoverable).Success? {
      assert Placed(db.rows, id - 1, db.meta.currentEpoch);
      FinishGroupSound(db, id, Unrecoverable, Finish(ConsumedUnrecoverable, None), db.rows[id - 1].liability);
    }
  }

  lemma ReleaseSound(db: Tables, id: int, t: Transition)
    requires Valid(db) && (t.ReleaseUnsent? || t.RejectBeforeProcessing?)
    ensures match Release(db, id, t)
            case Failure(error) => CallersFault(db.rows, id, t, error)
            case Success(after) =>
              && Admits(db.rows, id, t)
              && Sound(db, after, id, Finish(Target(t), None))
              && after.meta == db.meta && after.latches == db.latches
  {
    EligibleExactly(db.rows, id, t, db.meta.currentEpoch);
    if Eligible(db.rows, id, t).Success? {
      FinishGroupSound(db, id, t, Finish(Target(t), None), 0);
    }
  }

  /** The update settling applies: charge valid usage, write off the rest. */
  function SettlePatch(head: Row, response: Completed, rev: int): Patch {
    var usage := Validate(head, response, rev);
    if usage.Success? then Finish(Settled, Some(usage.value)) else Finish(ConsumedUnrecoverable, None)
  }

  /** The latch settling sets, if any. */
  function SettleLatch(head: Row, response: Completed, rev: int): seq<Latch> {
    match Validate(head, response, rev)
    case Failure(defect) => [Latch(head.pool, InvalidUsage(defect), false)]
    case Success(actual) => if actual > head.liability then [Latch("model:" + head.model, Overrun, false)] else []
  }

  function SettleAnswer(head: Row, response: Completed, rev: int): Settlement {
    match Validate(head, response, rev)
    case Failure(defect) => WrittenOff(defect)
    case Success(actual) => SettledFor(actual, actual > head.liability)
  }

  /** What settling does: one patch to the whole group, and its latch. */
  ghost predicate SettledSound(db: Tables, id: int, response: Completed, rev: int, after: Tables, outcome: Settlement) {
    && Admits(db.rows, id, Settle)
    && outcome == SettleAnswer(db.rows[id - 1], response, rev)
    && Sound(db, after, id, SettlePatch(db.rows[id - 1], response, rev))
    && after.meta == db.meta
    && after.latches == db.latches + SettleLatch(db.rows[id - 1], response, rev)
  }

  /** Settling is finishing the group with its patch, then latching. */
  lemma SettleUnfolds(db: Tables, id: int, response: Completed, rev: int)
    requires Eligible(db.rows, id, Settle).Success?
    ensures var group := Eligible(db.rows, id, Settle).value;
            var p := SettlePatch(group[0], response, rev);
            var charge := if p.settled.Some? then p.settled.value else group[0].liability;
            var done := FinishGroup(db, group, p.target, charge, p.settled);
            match SettleGroup(db, id, response, rev)
            case Failure(error) => done == Failure(error)
            case Success((after, outcome)) =>
              && done.Success?
              && outcome == SettleAnswer(group[0], response, rev)
              && after == done.value.(latches := after.latches)
              && after.latches == done.value.latches + SettleLatch(group[0], response, rev)
  {
  }

  lemma SettleSound(db: Tables, id: int, response: Completed, rev: int)
    requires Valid(db)
    ensures match SettleGroup(db, id, response, rev)
            case Failure(error) => error == Overflow || CallersFault(db.rows, id, Settle, error)
            case Success((after, outcome)) => SettledSound(db, id, response, rev, after, outcome)
  {
    EligibleExactly(db.rows, id, Settle, db.meta.currentEpoch);
    if Admits(db.rows, id, Settle) {
      assert Placed(db.rows, id - 1, db.meta.currentEpoch);
      SettleAdmitted(db, id, response, rev);
    }
  }

  lemma SettleAdmitted(db: Tables, id: int, response: Completed, rev: int)
    requires Valid(db) && Admits(db.rows, id, Settle) && Shape(db.rows[id - 1])
    ensures match SettleGroup(db, id, response, rev)
            case Failure(error) => error == Overflow
            case Success((after, outcome)) => SettledSound(db, id, response, rev, after, outcome)
  {
    var head := db.rows[id - 1];
    var p := SettlePatch(head, response, rev);
    FinishGroupSound(db, id, Settle, p, if p.settled.Some? then p.settled.value else head.liability);
    SettleUnfolds(db, id, response, rev);
  }

  /** The response has this defect. */
  predicate Genuine(defect: UsageDefect, head: Row, response: Completed, rev: int) {
    match defect
    case Missing => response.usage.None?
    case Negative => response.usage.Some? && (response.usage.value.input < 0 || response.usage.value.output < 0)
    case Overflowed => response.usage.Some? && response.usage.value.input + response.usage.value.output > I64_MAX
    case ModelMismatch => response.model != head.model
    case ServiceTierMismatch => response.tier != head.tier
    case AccountingRevisionMismatch => rev != head.rev
  }

  /** The defects in the order they are looked for. */
  function Rank(defect: UsageDefect): nat {
    match defect
    case Missing => 0
    case Negative => 1
    case ModelMismatch => 2
    case ServiceTierMismatch => 3
    case AccountingRevisionMismatch => 4
    case Overflowed => 5
  }

  /** What a settlement means: usage that fails validation is written off and latches the
      pool, naming the first defect it has; valid usage is charged as reported, and
      latches the model exactly when it exceeds the liability. */
  lemma SettlementMeans(db: Tables, id: int, response: Completed, rev: int, after: Tables, outcome: Settlement)
    requires SettledSound(db, id, response, rev, after, outcome)
    ensures var head := db.rows[id - 1];
            match outcome
            case WrittenOff(defect) =>
              && Genuine(defect, head, response, rev)
              && (forall other | Genuine(other, head, response, rev) :: Rank(defect) <= Rank(other))
              && after.rows[id - 1] == head.(state := ConsumedUnrecoverable, settled := None)
              && after.latches == db.latches + [Latch(head.pool, InvalidUsage(defect), false)]
              && LatchRefusal(after.latches, head.pool, head.model).Some?
            case SettledFor(actual, overrun) =>
              && (forall defect :: !Genuine(defect, head, response, rev))
              && actual == response.usage.value.input + response.usage.value.output
              && after.rows[id - 1] == head.(state := Settled, settled := Some(actual))
              && (overrun <==> actual > head.liability)
              && (overrun ==> after.latches == db.latches + [Latch("model:" + head.model, Overrun, false)])
              && (overrun ==> LatchRefusal(after.latches, head.pool, head.model).Some?)
              && (!overrun ==> after.latches == db.latches)
  {
    var head := db.rows[id - 1];
    var latch := SettleLatch(head, response, rev);
    if |latch| == 1 {
      LatchHolds(db.latches, latch[0], head.pool, head.model);
    }
  }

  /** An uncleared latch refuses, wherever it stands in the table. */
  lemma {:induction false} LatchHolds(latches: seq<Latch>, l: Latch, pool: string, model: string)
    requires LatchApplies(l, pool, model)
    ensures LatchRefusal(latches + [l], pool, model).Some?
  {
    if |latches| != 0 {
      assert (latches + [l])[1..] == latches[1..] + [l];
      LatchHolds(latches[1..], l, pool, model);
    }
  }

  /** The mark a dispatch writes: one generation on, and the cumulative
      liability raised by the group's. */
  lemma MarkExactly(db: Tables, id: int)
    requires Valid(db)
    ensures match DispatchMark(db, id)
            case Failure(error) => error == Overflow || CallersFault(db.rows, id, BeginDispatch, error)
            case Success(mark) =>
              && Admits(db.rows, id, BeginDispatch)
              && mark == HighWaterMark(db.meta.generation + 1, db.meta.cumulative + db.rows[id - 1].liability,
                  db.rows[id - 1].root)
              && mark.cumulative >= db.meta.cumulative
  {
    EligibleExactly(db.rows, id, BeginDispatch, db.meta.currentEpoch);
    if 1 <= id <= |db.rows| {
      assert Placed(db.rows, id - 1, db.meta.currentEpoch);
    }
  }

  lemma AdvancedStaysSound(db: Tables, after: Tables, id: int, p: Patch, generation: nat, cumulative: nat)
    requires Sound(db, after, id, p)
    ensures Sound(db, after.(meta := after.meta.(generation := generation, cumulative := cumulative)), id, p)
  {
  }

  /** Once its mark is durable a dispatch always commits, and the ledger's
      generation and cumulative liability are then the mark's. */
  lemma DispatchSound(db: Tables, id: int, mark: HighWaterMark)
    requires Valid(db) && DispatchMark(db, id) == Success(mark)
    ensures match CommitDispatch(db, id, mark)
            case Failure(_) => false
            case Success(after) =>
              && Sound(db, after, id, Relabel(Dispatching, None))
              && after == db.(rows := after.rows, meta := db.meta.(generation := mark.generation,
                  cumulative := mark.cumulative))
  {
    MarkExactly(db, id);
    RelabelSound(db, id, BeginDispatch, None);
    var moved := RelabelGroup(db, id, BeginDispatch, None);
    if moved.Success? {
      AdvancedStaysSound(db, moved.value, id, Relabel(Dispatching, None), mark.generation, mark.cumulative);
    }
  }

  /** The parts of a marked dispatch that later proofs use, predicates kept whole. */
  lemma DispatchParts(db: Tables, id: int, mark: HighWaterMark)
    requires Valid(db) && DispatchMark(db, id) == Success(mark)
    ensures Admits(db.rows, id, BeginDispatch)
    ensures mark == HighWaterMark(db.meta.generation + 1, mark.cumulative, db.rows[id - 1].root)
    ensures mark.cumulative >= db.meta.cumulative
    ensures CommitDispatch(db, id, mark).Success?
    ensures var after := CommitDispatch(db, id, mark).value;
            && after == db.(rows := after.rows, meta := db.meta.(generation := mark.generation,
                cumulative := mark.cumulative))
            && Moved(db.rows, after.rows, id, Relabel(Dispatching, None)) == true
            && Follows(db.rows, db.pools, after.rows, after.pools) == true
  {
    MarkExactly(db, id);
    DispatchSound(db, id, mark);
  }

  lemma DispatchKept(db: Tables, id: int, mark: HighWaterMark)
    requires Valid(db) && DispatchMark(db, id) == Success(mark)
    ensures 0 <= mark.generation && 0 <= mark.cumulative
    ensures CommitDispatch(db, id, mark).Success? && Kept(db, CommitDispatch(db, id, mark).value) == true
  {
    MarkExactly(db, id);
    DispatchSound(db, id, mark);
  }
}
