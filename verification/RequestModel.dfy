/**
The simple request-list model of the ledger: a list of requests, each with the
epochs it spans, and the model's own grants, adopted amounts, budgets, latches and
position in the record. Its steps never look at the ledger's rows or counters.
*/
module RequestModel {
  import opened Results
  import opened ReservationState
  import opened Tables
  import opened Trust
  import opened Transactions
  import opened GroupTransitions
  import opened DailyRollover
  import opened Recovery
  import opened Runs
  import opened RowEffects
  import opened GhostModel
  import opened Capacity

  /** `owners` says whose each id is: the ledger gives out ids to requests and to
      the copies rollover makes of them. `latched` are the scopes with a latch that
      stands. */
  datatype Model = Model(
    requests: seq<Ghost>,
    owners: seq<int>,
    epoch: int,
    grants: map<Key, int>,
    adopted: map<Key, int>,
    safety: map<string, SafetyInput>,
    latched: set<string>,
    generation: int,
    cumulative: int,
    clean: bool,
    ext: External,
    trust: Verdict)

  const BLANK := Model([], [], 0, map[], map[], map[], {}, 0, 0, false, Absent, Unknown(Uninitialized))

  function Find(requests: seq<Ghost>, id: int): Option<Ghost> {
    if |requests| == 0 then None
    else if requests[0].id == id then Some(requests[0])
    else Find(requests[1..], id)
  }

  function Owner(m: Model, id: int): Option<Ghost> {
    if 1 <= id <= |m.owners| then Find(m.requests, m.owners[id - 1]) else None
  }

  function AdoptedAt(m: Model, key: Key): int {
    if key in m.adopted then m.adopted[key] else 0
  }

  function Consumed(m: Model, key: Key): int {
    AdoptedAt(m, key) + GhostTotal(m.requests, key, Charged)
  }

  /** Quota left. */
  function Headroom(m: Model, key: Key): int
    requires key in m.grants
  {
    m.grants[key] - Consumed(m, key) - GhostTotal(m.requests, key, Held)
  }

  // ---------------------------------------------------------------------
  // Admission.

  /** Why a request is not admitted. `TooLarge` is an error, not a refusal: some
      number involved leaves 64 bits. */
  datatype Kind =
    | Distrusted
    | LatchSet
    | InputMissing
    | InputExpired
    | BudgetShort
    | EpochClosed
    | QuotaShort
    | TooLarge

  /** The first required input, in order, that does not vouch for the request. */
  function ExpectedSafety(safety: map<string, SafetyInput>, keys: seq<string>, liability: int, now: int): Option<Kind> {
    if |keys| == 0 then None
    else if keys[0] !in safety then Some(InputMissing)
    else
      var s := safety[keys[0]];
      if !InI64(s.verifiedAt + s.ttl) then Some(TooLarge)
      else if !(s.verifiedAt <= now < s.verifiedAt + s.ttl) then Some(InputExpired)
      else if s.budgetRemaining < liability then Some(BudgetShort)
      else ExpectedSafety(safety, keys[1..], liability, now)
  }

  function ExpectedQuota(m: Model, pool: string, liability: int): Option<Kind> {
    var key := (pool, m.epoch);
    if key !in m.grants then Some(EpochClosed)
    else if Headroom(m, key) < -I64_MAX - 1 then Some(TooLarge)
    else if Headroom(m, key) < liability then Some(QuotaShort)
    else None
  }

  /** What the model expects admission to answer; `None` admits. */
  function Expected(m: Model, request: Request, now: int): Option<Kind> {
    if !m.trust.Trusted? then Some(Distrusted)
    else if request.liability > I64_MAX then Some(TooLarge)
    else if m.latched * {"global", request.pool, "model:" + request.model} != {} then Some(LatchSet)
    else
      var safety := ExpectedSafety(m.safety, SortDedup(request.required), request.liability, now);
      if safety.Some? then safety else ExpectedQuota(m, request.pool, request.liability)
  }

  function Debited(safety: map<string, SafetyInput>, required: seq<string>, liability: int): map<string, SafetyInput> {
    map k | k in safety ::
      safety[k].(budgetRemaining := safety[k].budgetRemaining - if k in required then liability else 0)
  }

  function NewGhost(m: Model, request: Request): Ghost {
    Ghost(|m.owners| + 1, request.pool, request.liability, [m.epoch], Reserved, None, request.model, request.tier,
          request.rev)
  }

  function ModelAdmit(m: Model, request: Request, now: int): Model {
    if Expected(m, request, now).Some? then m
    else
      m.(requests := m.requests + [NewGhost(m, request)],
         owners := m.owners + [|m.owners| + 1],
         safety := Debited(m.safety, request.required, request.liability))
  }

  // ---------------------------------------------------------------------
  // Commands on one request.

  function PatchFor(head: Row, c: Command): Patch
    requires IsGroupCommand(c)
  {
    match c
    case Attach(_, name) => Relabel(DispatchedWithId, Some(name))
    case LoseId(_) => Relabel(DispatchedIdUnknown, None)
    case SettleWith(_, response, rev) => SettlePatch(head, response, rev)
    case GiveUp(_) => Finish(ConsumedUnrecoverable, None)
    case ReleaseAs(_, t) => Finish(Target(t), None)
  }

  /** Charging the request keeps every epoch it spans in range. */
  predicate RoomFor(m: Model, g: Ghost, charge: int) {
    forall e | e in g.epochs :: Consumed(m, (g.pool, e)) + charge <= I64_MAX
  }

  /** The model lets the command through. */
  predicate GroupLegal(m: Model, c: Command)
    requires IsGroupCommand(c) && Proper(c)
  {
    var g := Owner(m, c.id);
    g.Some? && AllowedFrom(Asked(c), g.value.state) && RoomFor(m, g.value, ChargeOf(RowOf(g.value), c))
  }

  function Scopes(latches: seq<Latch>): set<string> {
    set l | l in latches && !l.cleared :: l.scope
  }

  function NewLatches(head: Row, c: Command): seq<Latch> {
    if c.SettleWith? then SettleLatch(head, c.response, c.rev) else []
  }

  function ModelGroup(m: Model, c: Command): Model
    requires IsGroupCommand(c)
  {
    if !Proper(c) || !GroupLegal(m, c) then m
    else
      var g := Owner(m, c.id).value;
      m.(requests := ChangedAll(m.requests, Move(g.id, PatchFor(RowOf(g), c))),
         latched := m.latched + Scopes(NewLatches(RowOf(g), c)))
  }

  // ---------------------------------------------------------------------
  // The two calls that write the record.

  predicate CanMark(m: Model, id: int) {
    var g := Owner(m, id);
    g.Some? && g.value.state.Reserved? && m.generation < I64_MAX && m.cumulative + g.value.liability <= I64_MAX
  }

  /** A dispatch moves the record on by itself, and the model with it unless the
      commit is lost. */
  function ModelBegin(m: Model, id: int, io: Durability): Model {
    if !CanMark(m, id) || io.NotWritten? then m
    else
      var g := Owner(m, id).value;
      var mark := HighWaterMark(m.generation + 1, m.cumulative + g.liability, g.id);
      var written := m.(ext := Present(mark));
      if io.WrittenNotCommitted? then written
      else
        written.(requests := ChangedAll(m.requests, Move(g.id, Relabel(Dispatching, None))),
                 generation := mark.generation, cumulative := mark.cumulative)
  }

  function MetaOf(m: Model): Meta {
    Meta(m.generation, m.cumulative, m.epoch, m.clean)
  }

  predicate CanAdopt(m: Model, adoptions: seq<Adoption>) {
    forall a | a in adoptions :: a.consumed <= I64_MAX && (a.pool, a.epoch) in m.grants
  }

  /** What is adopted is whatever the highest figure adds to the requests' charges. */
  function Raised(m: Model, adoptions: seq<Adoption>): map<Key, int> {
    map key | key in m.grants :: Highest(Consumed(m, key), adoptions, key) - GhostTotal(m.requests, key, Charged)
  }

  function ModelAdopt(m: Model, adoptions: seq<Adoption>, io: Durability): Model {
    var anchor := Anchor(MetaOf(m), m.ext);
    if anchor.Failure? || io.NotWritten? then m
    else
      var written := m.(ext := Present(anchor.value));
      if io.WrittenNotCommitted? || !CanAdopt(m, adoptions) then written
      else
        written.(adopted := Raised(m, adoptions), trust := Trusted,
                 generation := anchor.value.generation, cumulative := anchor.value.cumulative)
  }

  // ---------------------------------------------------------------------
  // Rollover and restart.

  /** The active requests, in order. */
  function ActiveIds(requests: seq<Ghost>): seq<int> {
    if |requests| == 0 then []
    else (if IsActive(requests[0].state) then [requests[0].id] else []) + ActiveIds(requests[1..])
  }

  predicate CanRoll(m: Model, grants: seq<(string, nat)>) {
    && (forall g | g in grants :: g.1 <= I64_MAX)
    && (forall k | 0 <= k < |m.requests| && IsActive(m.requests[k].state) :: GrantFor(grants, m.requests[k].pool).Some?)
  }

  function NewKeys(epoch: int, grants: seq<(string, nat)>): set<Key> {
    set g | g in grants :: (g.0, epoch)
  }

  /** The first grant listed for a pool counts. */
  function WithGrants(m: Model, epoch: int, grants: seq<(string, nat)>): map<Key, int> {
    map key | key in m.grants.Keys + NewKeys(epoch, grants) ::
      if key in m.grants then m.grants[key]
      else if GrantFor(grants, key.0).Some? then GrantFor(grants, key.0).value else 0
  }

  /** Each active request gains the epoch, under a new id. */
  function ModelRoll(m: Model, epoch: int, grants: seq<(string, nat)>): Model {
    if epoch <= m.epoch || !CanRoll(m, grants) then m
    else
      m.(requests := Rolled(m.requests, epoch),
         owners := m.owners + ActiveIds(m.requests),
         epoch := epoch,
         grants := WithGrants(m, epoch, grants),
         adopted := map key | key in m.grants.Keys + NewKeys(epoch, grants) :: AdoptedAt(m, key))
  }

  /** The model's own reading of the two records. */
  function ModelAssess(m: Model): Assessment {
    var named := if m.ext.Present? then Owner(m, m.ext.mark.last) else None;
    Assess(MetaOf(m), m.ext, if named.Some? then [RowOf(named.value).(id := m.ext.mark.last)] else [])
  }

  function ModelOpen(m: Model): Model {
    var a := ModelAssess(m);
    var promoted := a.promote.Some? && m.ext.Present?;
    m.(requests := ChangedAll(m.requests, Resume(a)),
       generation := if promoted then m.ext.mark.generation else m.generation,
       cumulative := if promoted then m.ext.mark.cumulative else m.cumulative,
       clean := false, trust := a.verdict)
  }

  // ---------------------------------------------------------------------
  // Runs of the model.

  function ModelDo(m: Model, c: Command): Model {
    match c
    case Open => ModelOpen(m)
    case CleanClose => m.(clean := true)
    case Admit(request, now) => ModelAdmit(m, request, now)
    case Begin(id, io) => ModelBegin(m, id, io)
    case RollTo(epoch, grants) => ModelRoll(m, epoch, grants)
    case Adopt(adoptions, io) => ModelAdopt(m, adoptions, io)
    case Verify(key, now, ttl, budget) =>
      if budget > I64_MAX || ttl <= 0 then m else m.(safety := m.safety[key := SafetyInput(now, ttl, budget, budget)])
    case Withdraw(key) => m.(safety := m.safety - {key})
    case SetLatch(scope, _) => m.(latched := m.latched + {scope})
    case Unlatch(scope) => m.(latched := m.latched - {scope})
    case _ => ModelGroup(m, c)
  }

  /** Whether the model expects the call to succeed. */
  predicate Accepts(m: Model, c: Command) {
    match c
    case Admit(request, now) => Expected(m, request, now) != Some(TooLarge)
    case Begin(id, io) => CanMark(m, id) && io.Durable?
    case RollTo(epoch, grants) => epoch <= m.epoch || CanRoll(m, grants)
    case Adopt(adoptions, io) => Anchor(MetaOf(m), m.ext).Success? && CanAdopt(m, adoptions) && io.Durable?
    case Verify(_, _, ttl, budget) => budget <= I64_MAX && ttl > 0
    case _ => IsGroupCommand(c) && Proper(c) ==> GroupLegal(m, c)
  }

  function ModelRun(m: Model, cs: seq<Command>): Model
    decreases |cs|
  {
    if |cs| == 0 then m else ModelRun(ModelDo(m, cs[0]), cs[1..])
  }
}
