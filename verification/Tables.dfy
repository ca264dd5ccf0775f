/**
The ledger's tables as values, and the sums over reservation rows that the
stored counters summarise (`schema.rs`, `ledger.rs`).
*/
module Tables {
  import opened Results
  import opened ReservationState

  const I64_MAX := 0x7fff_ffff_ffff_ffff

  predicate InI64(x: int) {
    -I64_MAX - 1 <= x <= I64_MAX
  }

  /** One row per (reservation group, epoch); `root` names the group. */
  datatype Row = Row(
    id: int,
    root: int,
    pool: string,
    epoch: int,
    state: State,
    liability: int,
    settled: Option<int>,
    responseId: Option<string>,
    digest: string,
    model: string,
    tier: string,
    rev: int,
    createdAt: int)

  /** The primary key of the counters table: a pool and an epoch. */
  type Key = (string, int)

  datatype Counters = Counters(granted: int, consumed: int, reserved: int)

  datatype Meta = Meta(generation: int, cumulative: int, currentEpoch: int, clean: bool)

  datatype SafetyInput = SafetyInput(verifiedAt: int, ttl: int, budgetInitial: int, budgetRemaining: int)

  datatype UsageDefect =
    | Missing
    | Negative
    | Overflowed
    | ModelMismatch
    | ServiceTierMismatch
    | AccountingRevisionMismatch

  datatype LatchReason = InvalidUsage(defect: UsageDefect) | Overrun | Manual(text: string)

  datatype Latch = Latch(scope: string, reason: LatchReason, cleared: bool)

  /** Everything one SQLite transaction can see. */
  datatype Tables = Tables(
    rows: seq<Row>,
    pools: map<Key, Counters>,
    meta: Meta,
    safety: map<string, SafetyInput>,
    latches: seq<Latch>)

  /** The external high-water mark: the generation and cumulative liability of
      the last dispatch attempt, and the group it named. */
  datatype HighWaterMark = HighWaterMark(generation: int, cumulative: int, last: int)

  /** The record outside the ledger's rollback domain. */
  datatype External = Absent | Unreadable | Present(mark: HighWaterMark)

  const FRESH := Tables([], map[], Meta(0, 0, 0, false), map[], [])

  // ---------------------------------------------------------------------
  // What a row contributes to the counters of its pool and epoch.

  /** `Held` is what `reserved` summarises and `Charged` what `consumed`
      does; `Exposed` is the row's charge capped at its liability, the amount
      that must fit the grant. */
  datatype Measure = Held | Charged | Exposed

  function Weight(r: Row, m: Measure): int {
    match m
    case Held => if IsActive(r.state) then r.liability else 0
    case Charged =>
      if r.state.ConsumedUnrecoverable? then r.liability
      else if r.state.Settled? && r.settled.Some? then r.settled.value
      else 0
    case Exposed =>
      if IsActive(r.state) || r.state.ConsumedUnrecoverable? then r.liability
      else if r.state.Settled? && r.settled.Some? then
        if r.settled.value < r.liability then r.settled.value else r.liability
      else 0
  }

  function Share(r: Row, key: Key, m: Measure): int {
    if (r.pool, r.epoch) == key then Weight(r, m) else 0
  }

  function Total(rows: seq<Row>, key: Key, m: Measure): int {
    if |rows| == 0 then 0 else Share(rows[0], key, m) + Total(rows[1..], key, m)
  }

  /** The schema's CHECK constraints on one row. */
  predicate Shape(r: Row) {
    && 0 <= r.liability <= I64_MAX
    && (r.settled.Some? ==> 0 <= r.settled.value <= I64_MAX)
    && (r.state.Settled? <==> r.settled.Some?)
    && (r.state.DispatchedWithId? ==> r.responseId.Some?)
    && (!r.state.DispatchedWithId? && !r.state.Settled? && !r.state.ConsumedUnrecoverable? ==> r.responseId.None?)
  }

  lemma {:induction false} TotalAppend(rows: seq<Row>, more: seq<Row>, key: Key, m: Measure)
    ensures Total(rows + more, key, m) == Total(rows, key, m) + Total(more, key, m)
  {
    if |rows| == 0 {
      assert rows + more == more;
    } else {
      assert (rows + more)[1..] == rows[1..] + more;
      TotalAppend(rows[1..], more, key, m);
    }
  }

  lemma {:induction false} TotalUpdate(rows: seq<Row>, i: nat, r: Row, key: Key, m: Measure)
    requires i < |rows|
    ensures Total(rows[i := r], key, m) == Total(rows, key, m) - Share(rows[i], key, m) + Share(r, key, m)
  {
    if i == 0 {
      assert rows[0 := r][1..] == rows[1..];
    } else {
      assert rows[i := r][1..] == rows[1..][i - 1 := r];
      TotalUpdate(rows[1..], i - 1, r, key, m);
    }
  }

  /** Weights are never negative, so a total bounds each of its shares. */
  lemma {:induction false} TotalBounds(rows: seq<Row>, key: Key, m: Measure)
    requires forall r | r in rows :: Shape(r)
    ensures 0 <= Total(rows, key, m)
    ensures forall i | 0 <= i < |rows| :: Share(rows[i], key, m) <= Total(rows, key, m)
  {
    if |rows| != 0 {
      TotalBounds(rows[1..], key, m);
      assert Shape(rows[0]);
      forall i | 0 <= i < |rows| ensures Share(rows[i], key, m) <= Total(rows, key, m) {
        if i > 0 {
          assert rows[i] == rows[1..][i - 1];
        }
      }
    }
  }

  /** Capping charges at the liability never counts more than the counters do. */
  lemma {:induction false} ExposedWithinCounted(rows: seq<Row>, key: Key)
    requires forall r | r in rows :: Shape(r)
    ensures Total(rows, key, Exposed) <= Total(rows, key, Held) + Total(rows, key, Charged)
  {
    if |rows| != 0 {
      ExposedWithinCounted(rows[1..], key);
      assert Shape(rows[0]);
    }
  }
}
