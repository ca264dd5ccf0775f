/**
What each ledger transaction does to the tables: the committed tables and the
answer, or an error that commits nothing (`ledger.rs`, `transitions.rs`,
`rollover.rs`). The methods of class `Ledger` are proved against these.
*/
module Transactions {
  import opened Results
  import opened ReservationState
  import opened Tables
  import opened Trust

  datatype Violation =
    | NoPoolRow
    | NegativeCounter
    | GroupDisagrees
    | RowCount
    | MissingGrant
    | NotOpen
    | SplitGroups
    | ReservedMismatch

  datatype LedgerError =
    | Overflow
    | NotFound(id: int)
    | IllegalTransition(root: int, from: State, to: State)
    | Integrity(violation: Violation)
    | Constraint
    | Io

  /** How an external write and the commit after it went. A write can fail
      after the record has already been replaced. */
  datatype Durability = Durable | NotWritten | WrittenNotCommitted

  // ---------------------------------------------------------------------
  // Statements.

  /** The WHERE clause of an UPDATE of reservation rows. */
  datatype Selector = Selector(root: Option<int>, from: State)

  predicate Selects(sel: Selector, r: Row) {
    (sel.root.Some? ==> sel.root.value == r.root) && r.state == sel.from
  }

  /** The SET clause. `Relabel` keeps a known response id when given none. */
  datatype Patch = Finish(target: State, settled: Option<int>) | Relabel(target: State, response: Option<string>)

  function Patched(r: Row, p: Patch): Row {
    match p
    case Finish(target, settled) => r.(state := target, settled := settled)
    case Relabel(target, response) =>
      r.(state := target, responseId := if response.Some? then response else r.responseId)
  }

  function Update(rows: seq<Row>, sel: Selector, p: Patch): (updated: seq<Row>)
    ensures |updated| == |rows|
    ensures forall i | 0 <= i < |rows| ::
      updated[i] == if Selects(sel, rows[i]) then Patched(rows[i], p) else rows[i]
  {
    seq(|rows|, i requires 0 <= i < |rows| => if Selects(sel, rows[i]) then Patched(rows[i], p) else rows[i])
  }

  function Selected(rows: seq<Row>, sel: Selector): seq<Row> {
    if |rows| == 0 then []
    else (if Selects(sel, rows[0]) then [rows[0]] else []) + Selected(rows[1..], sel)
  }

  function GroupOf(rows: seq<Row>, root: int): seq<Row> {
    if |rows| == 0 then []
    else (if rows[0].root == root then [rows[0]] else []) + GroupOf(rows[1..], root)
  }

  /** `COALESCE(MAX(id), 0) + 1`. */
  function NextId(rows: seq<Row>): int {
    MaxId(rows) + 1
  }

  function MaxId(rows: seq<Row>): int {
    if |rows| == 0 then 0
    else
      var rest := MaxId(rows[1..]);
      if rows[0].id > rest || |rows| == 1 then rows[0].id else rest
  }

  predicate InEpoch(rows: seq<Row>, root: int, epoch: int) {
    exists i | 0 <= i < |rows| :: rows[i].root == root && rows[i].epoch == epoch
  }

  /** Applies counter deltas with checked arithmetic; never clamps. */
  function AdjustPool(pools: map<Key, Counters>, key: Key, reservedDelta: int, consumedDelta: int)
    : Result<map<Key, Counters>, LedgerError>
  {
    if key !in pools then Failure(Integrity(NoPoolRow))
    else
      var c := pools[key];
      var reserved, consumed := c.reserved + reservedDelta, c.consumed + consumedDelta;
      if !InI64(reserved) || !InI64(consumed) then Failure(Overflow)
      else if reserved < 0 || consumed < 0 then Failure(Integrity(NegativeCounter))
      else Success(pools[key := c.(reserved := reserved, consumed := consumed)])
  }

  /** Takes each row's liability out of `reserved` and adds `charge` to
      `consumed`, in that row's own epoch. */
  function ReleaseRows(pools: map<Key, Counters>, rows: seq<Row>, charge: int)
    : Result<map<Key, Counters>, LedgerError>
  {
    if |rows| == 0 then Success(pools)
    else
      var next :- AdjustPool(pools, (rows[0].pool, rows[0].epoch), -rows[0].liability, charge);
      ReleaseRows(next, rows[1..], charge)
  }

  /** Every row of the group containing `id`, which must agree. */
  function LoadGroup(rows: seq<Row>, id: int): Result<seq<Row>, LedgerError> {
    var row := Lookup(rows, id);
    if row.None? then Failure(NotFound(id))
    else
      var group := GroupOf(rows, row.value.root);
      if |group| == 0 then Failure(NotFound(id))
      else if exists r | r in group :: r.state != group[0].state || r.liability != group[0].liability then
        Failure(Integrity(GroupDisagrees))
      else Success(group)
  }

  /** A group whose state admits the transition; never empty. */
  function Eligible(rows: seq<Row>, id: int, t: Transition): (group: Result<seq<Row>, LedgerError>)
    ensures group.Success? ==> |group.value| > 0
  {
    var group :- LoadGroup(rows, id);
    if AllowedFrom(t, group[0].state) then Success(group)
    else Failure(IllegalTransition(group[0].root, group[0].state, Target(t)))
  }

  // ---------------------------------------------------------------------
  // Group transitions.

  function FinishGroup(db: Tables, group: seq<Row>, target: State, charge: int, settled: Option<int>)
    : Result<Tables, LedgerError>
    requires |group| > 0
  {
    var pools :- ReleaseRows(db.pools, group, charge);
    var sel := Selector(Some(group[0].root), group[0].state);
    if |Selected(db.rows, sel)| != |group| then Failure(Integrity(RowCount))
    else Success(db.(pools := pools, rows := Update(db.rows, sel, Finish(target, settled))))
  }

  function RelabelGroup(db: Tables, id: int, t: Transition, response: Option<string>): Result<Tables, LedgerError> {
    var group :- Eligible(db.rows, id, t);
    var sel := Selector(Some(group[0].root), group[0].state);
    if |Selected(db.rows, sel)| != |group| then Failure(Integrity(RowCount))
    else Success(db.(rows := Update(db.rows, sel, Relabel(Target(t), response))))
  }

  function WriteOff(db: Tables, id: int): Result<Tables, LedgerError> {
    var group :- Eligible(db.rows, id, Unrecoverable);
    FinishGroup(db, group, ConsumedUnrecoverable, group[0].liability, None)
  }

  /** `ReleaseUnsent` and `RejectBeforeProcessing` charge nothing. */
  function Release(db: Tables, id: int, t: Transition): Result<Tables, LedgerError>
    requires t.ReleaseUnsent? || t.RejectBeforeProcessing?
  {
    var group :- Eligible(db.rows, id, t);
    FinishGroup(db, group, Target(t), 0, None)
  }

  datatype Usage = Usage(input: int, output: int)

  datatype Completed = Completed(usage: Option<Usage>, model: string, tier: string)

  datatype Settlement = SettledFor(actual: int, overrun: bool) | WrittenOff(defect: UsageDefect)

  function Validate(head: Row, response: Completed, rev: int): Result<int, UsageDefect> {
    if response.usage.None? then Failure(Missing)
    else
      var u := response.usage.value;
      if u.input < 0 || u.output < 0 then Failure(Negative)
      else if response.model != head.model then Failure(ModelMismatch)
      else if response.tier != head.tier then Failure(ServiceTierMismatch)
      else if rev != head.rev then Failure(AccountingRevisionMismatch)
      else if u.input + u.output > I64_MAX then Failure(Overflowed)
      else Success(u.input + u.output)
  }

  function WithLatch(db: Tables, scope: string, reason: LatchReason): Tables {
    db.(latches := db.latches + [Latch(scope, reason, false)])
  }

  function SettleGroup(db: Tables, id: int, response: Completed, rev: int)
    : Result<(Tables, Settlement), LedgerError>
  {
    var group :- Eligible(db.rows, id, Settle);
    var head := group[0];
    match Validate(head, response, rev)
    case Failure(defect) =>
      var next :- FinishGroup(db, group, ConsumedUnrecoverable, head.liability, None);
      Success((WithLatch(next, head.pool, InvalidUsage(defect)), WrittenOff(defect)))
    case Success(actual) =>
      var next :- FinishGroup(db, group, Settled, actual, Some(actual));
      var overrun := actual > head.liability;
      Success((if overrun then WithLatch(next, "model:" + head.model, Overrun) else next, SettledFor(actual, overrun)))
  }

  /** The mark `begin_dispatch` writes before it commits. */
  function NextMark(meta: Meta, head: Row): Result<HighWaterMark, LedgerError> {
    if !InI64(meta.generation + 1) || !InI64(meta.cumulative + head.liability) then Failure(Overflow)
    else Success(HighWaterMark(meta.generation + 1, meta.cumulative + head.liability, head.root))
  }

  /** The mark for dispatching `id`, when its group may begin. */
  function DispatchMark(db: Tables, id: int): Result<HighWaterMark, LedgerError> {
    var group :- Eligible(db.rows, id, BeginDispatch);
    NextMark(db.meta, group[0])
  }

  /** The ledger half of `begin_dispatch`, once the mark is durable. */
  function CommitDispatch(db: Tables, id: int, mark: HighWaterMark): Result<Tables, LedgerError> {
    var relabelled :- RelabelGroup(db, id, BeginDispatch, None);
    Success(relabelled.(meta := db.meta.(generation := mark.generation, cumulative := mark.cumulative)))
  }

  // ---------------------------------------------------------------------
  // Admission.

  datatype Request = Request(
    pool: string,
    liability: nat,
    digest: string,
    model: string,
    tier: string,
    rev: int,
    required: seq<string>)

  datatype Refusal =
    | Untrusted(verdict: Verdict)
    | Latched(scope: string, reason: LatchReason)
    | SafetyInputMissing(key: string)
    | SafetyInputExpired(key: string)
    | SafetyBudgetExhausted(key: string, remaining: int)
    | PoolNotOpen(pool: string, epoch: int)
    | InsufficientQuota(remaining: int, liability: int)

  datatype Admission = Admitted(id: int) | Refused(refusal: Refusal)

  predicate Before(a: string, b: string) {
    |b| > 0 && (|a| == 0 || a[0] < b[0] || (a[0] == b[0] && Before(a[1..], b[1..])))
  }

  function InsertKey(key: string, keys: seq<string>): seq<string> {
    if |keys| == 0 then [key]
    else if key == keys[0] then keys
    else if Before(key, keys[0]) then [key] + keys
    else [keys[0]] + InsertKey(key, keys[1..])
  }

  /** `sort` then `dedup`. */
  function SortDedup(keys: seq<string>): seq<string> {
    if |keys| == 0 then [] else InsertKey(keys[0], SortDedup(keys[1..]))
  }

  predicate LatchApplies(l: Latch, pool: string, model: string) {
    !l.cleared && (l.scope == "global" || l.scope == pool || l.scope == "model:" + model)
  }

  function LatchRefusal(latches: seq<Latch>, pool: string, model: string): Option<Refusal> {
    if |latches| == 0 then None
    else if LatchApplies(latches[0], pool, model) then Some(Latched(latches[0].scope, latches[0].reason))
    else LatchRefusal(latches[1..], pool, model)
  }

  function SafetyRefusal(safety: map<string, SafetyInput>, keys: seq<string>, liability: int, now: int)
    : Result<Option<Refusal>, LedgerError>
  {
    if |keys| == 0 then Success(None)
    else if keys[0] !in safety then Success(Some(SafetyInputMissing(keys[0])))
    else
      var s := safety[keys[0]];
      if !InI64(s.verifiedAt + s.ttl) then Failure(Overflow)
      else if now >= s.verifiedAt + s.ttl || now < s.verifiedAt then Success(Some(SafetyInputExpired(keys[0])))
      else if s.budgetRemaining < liability then
        Success(Some(SafetyBudgetExhausted(keys[0], s.budgetRemaining)))
      else SafetyRefusal(safety, keys[1..], liability, now)
  }

  function Debit(safety: map<string, SafetyInput>, keys: seq<string>, liability: int): map<string, SafetyInput> {
    if |keys| == 0 then safety
    else
      var next := if keys[0] in safety
        then safety[keys[0] := safety[keys[0]].(budgetRemaining := safety[keys[0]].budgetRemaining - liability)]
        else safety;
      Debit(next, keys[1..], liability)
  }

  function NewRow(rows: seq<Row>, epoch: int, request: Request, now: int): Row {
    var id := NextId(rows);
    Row(id, id, request.pool, epoch, Reserved, request.liability, None, None,
        request.digest, request.model, request.tier, request.rev, now)
  }

  /** The admission decision and its debits, for a trusted ledger. */
  function Reserve(db: Tables, request: Request, now: int): Result<(Tables, Admission), LedgerError> {
    if request.liability > I64_MAX then Failure(Overflow)
    else
      var keys := SortDedup(request.required);
      var latch := LatchRefusal(db.latches, request.pool, request.model);
      if latch.Some? then Success((db, Refused(latch.value)))
      else
        var unsafe :- SafetyRefusal(db.safety, keys, request.liability, now);
        var key := (request.pool, db.meta.currentEpoch);
        if unsafe.Some? then Success((db, Refused(unsafe.value)))
        else if key !in db.pools then Success((db, Refused(PoolNotOpen(key.0, key.1))))
        else
          var c := db.pools[key];
          var remaining := c.granted - c.consumed - c.reserved;
          if !InI64(c.granted - c.consumed) || !InI64(remaining) then Failure(Overflow)
          else if remaining < request.liability then
            Success((db, Refused(InsufficientQuota(remaining, request.liability))))
          else
            var pools :- AdjustPool(db.pools, key, request.liability, 0);
            var row := NewRow(db.rows, key.1, request, now);
            Success((db.(pools := pools,
                         safety := Debit(db.safety, keys, request.liability),
                         rows := db.rows + [row]),
                     Admitted(row.id)))
  }

  function Revalidate(db: Tables, key: string, now: int, ttl: int, budget: nat): Result<Tables, LedgerError> {
    if budget > I64_MAX then Failure(Overflow)
    else if ttl <= 0 then Failure(Constraint)
    else Success(db.(safety := db.safety[key := SafetyInput(now, ttl, budget, budget)]))
  }

  function Invalidate(db: Tables, key: string): Tables {
    db.(safety := db.safety - {key})
  }

  function ClearLatches(db: Tables, scope: string): Tables {
    db.(latches := seq(|db.latches|, i requires 0 <= i < |db.latches| =>
      if db.latches[i].scope == scope then db.latches[i].(cleared := true) else db.latches[i]))
  }

  // ---------------------------------------------------------------------
  // Rollover and adoption.

  function OpenPools(pools: map<Key, Counters>, epoch: int, grants: seq<(string, nat)>)
    : Result<map<Key, Counters>, LedgerError>
    decreases grants
  {
    if |grants| == 0 then Success(pools)
    else if grants[0].1 > I64_MAX then Failure(Overflow)
    else
      var key := (grants[0].0, epoch);
      OpenPools(if key in pools then pools else pools[key := Counters(grants[0].1, 0, 0)], epoch, grants[1..])
  }

  predicate Newest(rows: seq<Row>, r: Row) {
    forall i | 0 <= i < |rows| :: rows[i].root == r.root ==> rows[i].epoch <= r.epoch
  }

  predicate MustCarry(rows: seq<Row>, r: Row, epoch: int) {
    IsActive(r.state) && Newest(rows, r) && !InEpoch(rows, r.root, epoch)
  }

  /** The newest row of each active group not yet present in `epoch`. */
  function CarryList(rows: seq<Row>, table: seq<Row>, epoch: int): seq<Row> {
    if |rows| == 0 then []
    else (if MustCarry(table, rows[0], epoch) then [rows[0]] else []) + CarryList(rows[1..], table, epoch)
  }

  datatype Carried = Carried(rows: seq<Row>, pools: map<Key, Counters>, count: nat)

  /** Inserts one shadow row, unless the group already has one in `epoch`. */
  function CarryOne(so: Carried, r: Row, epoch: int): Result<Carried, LedgerError> {
    if (r.pool, epoch) !in so.pools then Failure(Integrity(MissingGrant))
    else if InEpoch(so.rows, r.root, epoch) then Success(so)
    else
      var pools :- AdjustPool(so.pools, (r.pool, epoch), r.liability, 0);
      Success(Carried(so.rows + [r.(id := NextId(so.rows), epoch := epoch, settled := None)], pools, so.count + 1))
  }

  function CarryAll(so: Carried, carry: seq<Row>, epoch: int): Result<Carried, LedgerError>
    decreases carry
  {
    if |carry| == 0 then Success(so)
    else
      var next :- CarryOne(so, carry[0], epoch);
      CarryAll(next, carry[1..], epoch)
  }

  datatype RolloverOutcome = AlreadyCurrent | Advanced(carried: nat)

  function Rollover(db: Tables, epoch: int, grants: seq<(string, nat)>)
    : Result<(Tables, RolloverOutcome), LedgerError>
  {
    if epoch <= db.meta.currentEpoch then Success((db, AlreadyCurrent))
    else
      var pools :- OpenPools(db.pools, epoch, grants);
      var done :- CarryAll(Carried(db.rows, pools, 0), CarryList(db.rows, db.rows, epoch), epoch);
      Success((db.(rows := done.rows, pools := done.pools, meta := db.meta.(currentEpoch := epoch)),
               Advanced(done.count)))
  }

  /** What usage reporting recovered for one pool and epoch. */
  datatype Adoption = Adoption(pool: string, epoch: int, consumed: nat)

  /** The mark adoption re-anchors on; an unreadable record counts as none. */
  function Anchor(meta: Meta, external: External): Result<HighWaterMark, LedgerError> {
    var seen := if external.Present? then external.mark else HighWaterMark(0, 0, 0);
    var generation := Max(meta.generation, seen.generation);
    if !InI64(generation + 1) then Failure(Overflow)
    else Success(HighWaterMark(generation + 1, Max(meta.cumulative, seen.cumulative), 0))
  }

  function Max(a: int, b: int): int {
    if a < b then b else a
  }

  function RaiseAll(pools: map<Key, Counters>, adoptions: seq<Adoption>): Result<map<Key, Counters>, LedgerError> {
    if |adoptions| == 0 then Success(pools)
    else if adoptions[0].consumed > I64_MAX then Failure(Overflow)
    else
      var key := (adoptions[0].pool, adoptions[0].epoch);
      if key !in pools then Failure(Integrity(NotOpen))
      else if adoptions[0].consumed > pools[key].consumed then
        var next :- AdjustPool(pools, key, 0, adoptions[0].consumed - pools[key].consumed);
        RaiseAll(next, adoptions[1..])
      else RaiseAll(pools, adoptions[1..])
  }

  /** The ledger half of adoption, once the anchor is durable. */
  function CommitAdoption(db: Tables, adoptions: seq<Adoption>, anchor: HighWaterMark): Result<Tables, LedgerError> {
    var pools :- RaiseAll(db.pools, adoptions);
    Success(db.(pools := pools,
                meta := db.meta.(generation := anchor.generation, cumulative := anchor.cumulative)))
  }

  // ---------------------------------------------------------------------
  // Startup.

  predicate GroupsAgree(rows: seq<Row>) {
    forall i, j | 0 <= i < |rows| && 0 <= j < |rows| && rows[i].root == rows[j].root ::
      rows[i].state == rows[j].state && rows[i].liability == rows[j].liability
  }

  predicate ReservedMatches(db: Tables) {
    forall key | key in db.pools :: db.pools[key].reserved == Total(db.rows, key, Held)
  }

  /** What `check_integrity` tests. */
  predicate Consistent(db: Tables) {
    GroupsAgree(db.rows) && ReservedMatches(db)
  }

  const IdUnknown := Relabel(DispatchedIdUnknown, None)

  /** The promotion half of normalisation. */
  function Promoted(db: Tables, a: Assessment, external: External): Tables {
    if a.promote.Some? && external.Present? then
      db.(rows := Update(db.rows, Selector(a.promote, Reserved), IdUnknown),
          meta := db.meta.(generation := external.mark.generation, cumulative := external.mark.cumulative))
    else db
  }

  /** Normalisation up to the rows that were never dispatched. */
  function Resolved(db: Tables, a: Assessment, external: External): Tables {
    var promoted := Promoted(db, a, external);
    promoted.(rows := Update(promoted.rows, Selector(None, Dispatching), IdUnknown),
              meta := promoted.meta.(clean := false))
  }

  function Normalize(db: Tables, a: Assessment, external: External): Result<Tables, LedgerError> {
    var resolved := Resolved(db, a, external);
    var unsent := Selector(None, Reserved);
    if Interpretable(a.verdict) then
      var pools :- ReleaseRows(resolved.pools, Selected(resolved.rows, unsent), 0);
      Success(resolved.(pools := pools, rows := Update(resolved.rows, unsent, Finish(ReleasedUnsent, None))))
    else
      Success(resolved.(rows := Update(resolved.rows, unsent, IdUnknown)))
  }
}
