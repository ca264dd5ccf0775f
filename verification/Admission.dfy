/** Admission: when a reservation is granted, and what granting debits. */
module AdmissionRule {
  import opened Results
  import opened ReservationState
  import opened Tables
  import opened Trust
  import opened Transactions
  import opened LedgerInvariant

  // ---------------------------------------------------------------------
  // Required safety inputs.

  lemma BeforeOrders(a: string, b: string, c: string)
    ensures Before(a, b) ==> a != b
    ensures Before(a, b) && Before(b, c) ==> Before(a, c)
    ensures a == b || Before(a, b) || Before(b, a)
    decreases |a| + |b| + |c|
  {
    if |a| > 0 && |b| > 0 {
      if |c| > 0 {
        BeforeOrders(a[1..], b[1..], c[1..]);
      } else {
        BeforeOrders(a[1..], b[1..], c);
      }
      if a[0] == b[0] {
        assert a == [a[0]] + a[1..] && b == [b[0]] + b[1..];
      }
    }
  }

  /** The order of strings: at the first character in which they differ, or by where one ends. */
  predicate Precedes(a: string, b: string) {
    exists k | 0 <= k <= |a| && k < |b| :: a[..k] == b[..k] && (k == |a| || a[k] < b[k])
  }

  lemma SameStart(a: string, b: string)
    requires |a| > 0 && |b| > 0
    ensures forall k | 0 < k <= |a| && k <= |b| && a[..k] == b[..k] :: a[0] == b[0]
  {
    forall k | 0 < k <= |a| && k <= |b| && a[..k] == b[..k] ensures a[0] == b[0] {
      assert a[..k][0] == b[..k][0];
    }
  }

  lemma {:induction false} BeforeExactly(a: string, b: string)
    ensures Before(a, b) <==> Precedes(a, b)
    decreases |a|
  {
    if |a| > 0 && |b| > 0 && a[0] == b[0] {
      BeforeExactly(a[1..], b[1..]);
      if Precedes(a[1..], b[1..]) {
        var k :| 0 <= k <= |a| - 1 && k < |b| - 1 && a[1..][..k] == b[1..][..k]
          && (k == |a| - 1 || a[1..][k] < b[1..][k]);
        assert a[..k + 1] == [a[0]] + a[1..][..k] && b[..k + 1] == [b[0]] + b[1..][..k];
      }
      if Precedes(a, b) {
        var k :| 0 <= k <= |a| && k < |b| && a[..k] == b[..k] && (k == |a| || a[k] < b[k]);
        assert k > 0 && a[1..][..k - 1] == a[..k][1..] && b[1..][..k - 1] == b[..k][1..];
      }
    } else if |b| > 0 {
      assert a[..0] == b[..0];
      if |a| > 0 {
        SameStart(a, b);
      }
    }
  }

  predicate Ascending(keys: seq<string>) {
    forall i, j | 0 <= i < j < |keys| :: Before(keys[i], keys[j])
  }

  lemma {:induction false} InsertSorts(key: string, keys: seq<string>)
    requires Ascending(keys)
    ensures Ascending(InsertKey(key, keys))
    ensures forall k :: k in InsertKey(key, keys) <==> k == key || k in keys
  {
    if |keys| != 0 {
      assert keys == [keys[0]] + keys[1..];
      BeforeOrders(key, keys[0], key);
      forall i | 0 <= i < |keys| ensures Before(key, keys[0]) ==> Before(key, keys[i]) {
        BeforeOrders(key, keys[0], keys[i]);
      }
      var rest := InsertKey(key, keys[1..]);
      InsertSorts(key, keys[1..]);
      forall i | 0 <= i < |rest| ensures Before(keys[0], key) ==> Before(keys[0], rest[i]) {
        assert rest[i] in rest;
      }
    }
  }

  /** Sorting and removing duplicates keeps the same keys, each once. */
  lemma {:induction false} SortDedupSorts(keys: seq<string>)
    ensures Ascending(SortDedup(keys))
    ensures forall i, j | 0 <= i < j < |SortDedup(keys)| :: Precedes(SortDedup(keys)[i], SortDedup(keys)[j])
    ensures forall k :: k in SortDedup(keys) <==> k in keys
  {
    forall i, j | 0 <= i < j < |SortDedup(keys)| && Before(SortDedup(keys)[i], SortDedup(keys)[j])
      ensures Precedes(SortDedup(keys)[i], SortDedup(keys)[j])
    {
      BeforeExactly(SortDedup(keys)[i], SortDedup(keys)[j]);
    }
    if |keys| != 0 {
      SortDedupSorts(keys[1..]);
      InsertSorts(keys[0], SortDedup(keys[1..]));
      assert keys == [keys[0]] + keys[1..];
    }
  }

  /** The input is present, vouched for at `now`, and has budget left. */
  predicate Vouches(safety: map<string, SafetyInput>, key: string, liability: int, now: int) {
    && key in safety
    && safety[key].verifiedAt <= now < safety[key].verifiedAt + safety[key].ttl
    && liability <= safety[key].budgetRemaining
  }

  lemma {:induction false} SafetyExactly(safety: map<string, SafetyInput>, keys: seq<string>, liability: int, now: int)
    ensures SafetyRefusal(safety, keys, liability, now).Failure? ==>
              SafetyRefusal(safety, keys, liability, now).error == Overflow
    ensures SafetyRefusal(safety, keys, liability, now) == Success(None) ==>
              forall k | k in keys :: Vouches(safety, k, liability, now)
    ensures SafetyRefusal(safety, keys, liability, now).Success?
            && SafetyRefusal(safety, keys, liability, now).value.Some? ==>
              && (exists k | k in keys :: !Vouches(safety, k, liability, now))
              && !SafetyRefusal(safety, keys, liability, now).value.value.InsufficientQuota?
  {
    if |keys| != 0 {
      SafetyExactly(safety, keys[1..], liability, now);
      assert keys == [keys[0]] + keys[1..];
      assert keys[0] in keys;
      assert Vouches(safety, keys[0], liability, now) || !Vouches(safety, keys[0], liability, now);
    }
  }

  /** Each required budget is debited by the liability once, others not at all. */
  lemma {:induction false} DebitsOnce(safety: map<string, SafetyInput>, keys: seq<string>, liability: int)
    requires Ascending(keys) && forall k | k in keys :: k in safety
    ensures Debit(safety, keys, liability).Keys == safety.Keys
    ensures forall k | k in safety :: Debit(safety, keys, liability)[k] ==
              if k in keys then safety[k].(budgetRemaining := safety[k].budgetRemaining - liability) else safety[k]
  {
    if |keys| != 0 {
      var next := safety[keys[0] := safety[keys[0]].(budgetRemaining := safety[keys[0]].budgetRemaining - liability)];
      assert keys[0] in keys && keys == [keys[0]] + keys[1..];
      assert keys[0] !in keys[1..] by {
        forall i | 1 <= i < |keys| ensures keys[i] != keys[0] {
          BeforeOrders(keys[0], keys[i], keys[i]);
        }
      }
      DebitsOnce(next, keys[1..], liability);
    }
  }

  lemma {:induction false} LatchExactly(latches: seq<Latch>, pool: string, model: string)
    ensures LatchRefusal(latches, pool, model).Some? <==> exists l | l in latches :: LatchApplies(l, pool, model)
    ensures LatchRefusal(latches, pool, model).Some? ==> LatchRefusal(latches, pool, model).value.Latched?
  {
    if |latches| != 0 {
      LatchExactly(latches[1..], pool, model);
      assert latches == [latches[0]] + latches[1..];
    }
  }

  // ---------------------------------------------------------------------
  // The decision.

  lemma AppendPlaced(rows: seq<Row>, r: Row, current: int)
    requires RowsOk(rows, current) && r.id == |rows| + 1 && 1 <= r.root <= r.id && r.epoch <= current && Shape(r)
    requires r.root == r.id || r == rows[r.root - 1].(id := r.id, epoch := r.epoch)
    requires forall i | 0 <= i < |rows| && rows[i].root == r.root :: rows[i].epoch < r.epoch
    ensures RowsOk(rows + [r], current)
  {
    forall i | 0 <= i < |rows + [r]| ensures Placed(rows + [r], i, current) {
      if i < |rows| {
        assert Placed(rows, i, current);
      }
    }
  }

  /** Quota left in the pool's current epoch covers the liability. */
  predicate Fits(db: Tables, pool: string, liability: int) {
    var key := (pool, db.meta.currentEpoch);
    key in db.pools && db.pools[key].consumed + db.pools[key].reserved + liability <= db.pools[key].granted
  }

  /** The admission rule, as the design states it. */
  predicate MayAdmit(db: Tables, request: Request, now: int) {
    && (forall l | l in db.latches :: !LatchApplies(l, request.pool, request.model))
    && (forall k | k in request.required :: Vouches(db.safety, k, request.liability, now))
    && Fits(db, request.pool, request.liability)
  }

  predicate Opens(r: Row, id: int, request: Request, epoch: int) {
    && r.id == r.root == id
    && (r.pool, r.epoch, r.state, r.liability) == (request.pool, epoch, Reserved, request.liability)
    && (r.model, r.tier, r.rev, r.digest) == (request.model, request.tier, request.rev, request.digest)
    && r.settled.None? && r.responseId.None?
  }

  /** What admission does to the tables: one new row, its liability reserved
      and debited from each required input exactly once. */
  predicate Reserves(db: Tables, request: Request, after: Tables) {
    && |after.rows| == |db.rows| + 1
    && after.rows[..|db.rows|] == db.rows
    && Opens(after.rows[|db.rows|], |db.rows| + 1, request, db.meta.currentEpoch)
    && after.pools.Keys == db.pools.Keys
    && (forall key | key in db.pools ::
          && after.pools[key].granted == db.pools[key].granted
          && after.pools[key].consumed == db.pools[key].consumed
          && Adopted(after.rows, after.pools, key) == Adopted(db.rows, db.pools, key))
    && after.safety.Keys == db.safety.Keys
    && (forall k | k in db.safety :: after.safety[k] == db.safety[k].(budgetRemaining :=
          db.safety[k].budgetRemaining - if k in request.required then request.liability else 0))
    && after.meta == db.meta && after.latches == db.latches
  }

  lemma NewRowTotals(rows: seq<Row>, r: Row)
    ensures forall key, m :: Total(rows + [r], key, m) == Total(rows, key, m) + Share(r, key, m)
  {
    forall key, m ensures Total(rows + [r], key, m) == Total(rows, key, m) + Share(r, key, m) {
      TotalAppend(rows, [r], key, m);
      assert [r][1..] == [];
    }
  }

  lemma NewRowPlaced(rows: seq<Row>, r: Row, current: int)
    requires RowsOk(rows, current) && CarriedTo(rows, current) && r.id == r.root == |rows| + 1
        && r.epoch == current && Shape(r)
    ensures RowsOk(rows + [r], current) && CarriedTo(rows + [r], current)
  {
    forall i | 0 <= i < |rows| ensures rows[i].root != r.root {
      assert Placed(rows, i, current);
    }
    AppendPlaced(rows, r, current);
    var after := rows + [r];
    assert after[|rows|] == r;
    forall i | 0 <= i < |after| && IsActive(after[i].state) ensures InEpoch(after, after[i].root, current) {
      if i < |rows| {
        assert InEpoch(rows, rows[i].root, current);
        var j :| 0 <= j < |rows| && rows[j].root == rows[i].root && rows[j].epoch == current;
        assert after[j] == rows[j];
      }
    }
  }

  /** Holding a new row's liability keeps the books, and the money bound: what
      is exposed never exceeds what the counters hold. */
  lemma HoldKeeps(db: Tables, r: Row, pools: map<Key, Counters>)
    requires Valid(db) && r.id == r.root == |db.rows| + 1 && r.epoch == db.meta.currentEpoch && Shape(r)
        && r.state.Reserved?
    requires Fits(db, r.pool, r.liability)
    requires pools == db.pools[(r.pool, r.epoch) :=
                        db.pools[(r.pool, r.epoch)].(reserved := db.pools[(r.pool, r.epoch)].reserved + r.liability)]
    ensures Books(db.rows + [r], pools, db.meta.currentEpoch)
    ensures forall key | key in db.pools :: Adopted(db.rows + [r], pools, key) == Adopted(db.rows, db.pools, key)
    ensures Bounded(db) ==> Bounded(db.(rows := db.rows + [r], pools := pools))
  {
    var current, key := db.meta.currentEpoch, (r.pool, r.epoch);
    NewRowPlaced(db.rows, r, current);
    NewRowTotals(db.rows, r);
    assert PoolOk(db.rows, db.pools, key);
    ShapeAll(db.rows, current);
    ExposedWithinCounted(db.rows, key);
  }

  /** A trusted ledger admits exactly the requests the rule admits, changes
      nothing when it refuses, and can fail only by overflow. */
  lemma ReserveSound(db: Tables, request: Request, now: int)
    requires Valid(db)
    ensures match Reserve(db, request, now)
            case Failure(error) => error == Overflow
            case Success((after, Refused(_))) => after == db && !MayAdmit(db, request, now)
            case Success((after, Admitted(id))) =>
              && MayAdmit(db, request, now)
              && id == |db.rows| + 1
              && Reserves(db, request, after)
              && after.rows[|db.rows|].createdAt == now
              && Valid(after)
              && (Bounded(db) ==> Bounded(after))
  {
    var keys := SortDedup(request.required);
    SortDedupSorts(request.required);
    LatchExactly(db.latches, request.pool, request.model);
    SafetyExactly(db.safety, keys, request.liability, now);
    var outcome := Reserve(db, request, now);
    if outcome.Success? && outcome.value.1.Admitted? {
      AdmittedSound(db, request, now, outcome.value.0);
    } else if outcome.Success? && outcome.value.1.refusal.InsufficientQuota? {
      assert !Fits(db, request.pool, request.liability);
    } else if (request.pool, db.meta.currentEpoch) in db.pools {
      assert PoolOk(db.rows, db.pools, (request.pool, db.meta.currentEpoch));
    }
  }

  /** What a refusal says is so. */
  predicate Truthful(db: Tables, request: Request, now: int, refusal: Refusal) {
    var key := (request.pool, db.meta.currentEpoch);
    match refusal
    case Untrusted(_) => false
    case Latched(scope, reason) =>
      exists l | l in db.latches ::
          LatchApplies(l, request.pool, request.model) && l.scope == scope && l.reason == reason
    case SafetyInputMissing(k) => k in request.required && k !in db.safety
    case SafetyInputExpired(k) =>
      && k in request.required && k in db.safety
      && !(db.safety[k].verifiedAt <= now < db.safety[k].verifiedAt + db.safety[k].ttl)
    case SafetyBudgetExhausted(k, remaining) =>
      k in request.required && k in db.safety && remaining == db.safety[k].budgetRemaining < request.liability
    case PoolNotOpen(pool, epoch) => key == (pool, epoch) && key !in db.pools
    case InsufficientQuota(remaining, liability) =>
      && key in db.pools && liability == request.liability
      && remaining == db.pools[key].granted - db.pools[key].consumed - db.pools[key].reserved < liability
  }

  lemma {:induction false} LatchTruthful(latches: seq<Latch>, pool: string, model: string)
    requires LatchRefusal(latches, pool, model).Some?
    ensures exists l | l in latches ::
        LatchApplies(l, pool, model) && LatchRefusal(latches, pool, model).value == Latched(l.scope, l.reason)
  {
    assert latches == [latches[0]] + latches[1..];
    if LatchApplies(latches[0], pool, model) {
      assert latches[0] in latches;
    } else {
      LatchTruthful(latches[1..], pool, model);
    }
  }

  lemma {:induction false} SafetyTruthful(db: Tables, request: Request, keys: seq<string>, now: int)
    requires forall k | k in keys :: k in request.required
    ensures var r := SafetyRefusal(db.safety, keys, request.liability, now);
            r.Success? && r.value.Some? ==> Truthful(db, request, now, r.value.value)
  {
    if |keys| != 0 {
      assert keys == [keys[0]] + keys[1..] && keys[0] in keys;
      SafetyTruthful(db, request, keys[1..], now);
    }
  }

  /** A trusted ledger's refusal names a latch that applies, an input that is
      missing, expired or short, a pool that is not open, or the quota left. */
  lemma RefusalsAreTruthful(db: Tables, request: Request, now: int)
    requires Reserve(db, request, now).Success? && Reserve(db, request, now).value.1.Refused?
    ensures Truthful(db, request, now, Reserve(db, request, now).value.1.refusal)
  {
    SortDedupSorts(request.required);
    SafetyTruthful(db, request, SortDedup(request.required), now);
    if LatchRefusal(db.latches, request.pool, request.model).Some? {
      LatchTruthful(db.latches, request.pool, request.model);
    }
  }

  lemma AdmittedSound(db: Tables, request: Request, now: int, after: Tables)
    requires Valid(db) && Reserve(db, request, now).Success?
    requires Reserve(db, request, now).value.0 == after && Reserve(db, request, now).value.1.Admitted?
    ensures MayAdmit(db, request, now)
    ensures Reserve(db, request, now).value.1.id == |db.rows| + 1
    ensures Reserves(db, request, after)
    ensures after.rows[|db.rows|].createdAt == now
    ensures Valid(after)
    ensures Bounded(db) ==> Bounded(after)
  {
    var keys := SortDedup(request.required);
    SortDedupSorts(request.required);
    LatchExactly(db.latches, request.pool, request.model);
    SafetyExactly(db.safety, keys, request.liability, now);
    DebitsOnce(db.safety, keys, request.liability);
    NextIdIsFresh(db.rows, db.meta.currentEpoch);
    HoldKeeps(db, NewRow(db.rows, db.meta.currentEpoch, request, now), after.pools);
  }
}
