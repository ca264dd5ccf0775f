/** Daily rollover: every active liability is carried, once, into the new epoch. */
module DailyRollover {
  import opened Results
  import opened ReservationState
  import opened Tables
  import opened Trust
  import opened Transactions
  import opened LedgerInvariant
  import opened AdmissionRule

  /** The rows of active groups in the current epoch, in table order. */
  function Live(rows: seq<Row>, current: int): seq<Row> {
    if |rows| == 0 then []
    else (if IsActive(rows[0].state) && rows[0].epoch == current then [rows[0]] else []) + Live(rows[1..], current)
  }

  /** The copies rollover inserts, numbered from `base + 1`. */
  function Shadows(carry: seq<Row>, base: nat, epoch: int): (shadows: seq<Row>)
    ensures |shadows| == |carry|
    ensures forall i | 0 <= i < |carry| :: shadows[i] == carry[i].(id := base + i + 1, epoch := epoch, settled := None)
  {
    seq(|carry|, i requires 0 <= i < |carry| => carry[i].(id := base + i + 1, epoch := epoch, settled := None))
  }

  // ---------------------------------------------------------------------
  // What is carried.

  lemma MustCarryExactly(rows: seq<Row>, i: nat, current: int, epoch: int)
    requires RowsOk(rows, current) && CarriedTo(rows, current) && current < epoch && i < |rows|
    ensures MustCarry(rows, rows[i], epoch) <==> IsActive(rows[i].state) && rows[i].epoch == current
  {
    forall j | 0 <= j < |rows| ensures rows[j].epoch <= current {
      assert Placed(rows, j, current);
    }
    if IsActive(rows[i].state) {
      assert InEpoch(rows, rows[i].root, current);
    }
  }

  lemma {:induction false} CarryIsLive(part: seq<Row>, rows: seq<Row>, at: nat, current: int, epoch: int)
    requires RowsOk(rows, current) && CarriedTo(rows, current) && current < epoch
    requires at <= |rows| && part == rows[at..]
    ensures CarryList(part, rows, epoch) == Live(part, current)
    decreases |part|
  {
    if |part| != 0 {
      MustCarryExactly(rows, at, current, epoch);
      CarryIsLive(part[1..], rows, at + 1, current, epoch);
    }
  }

  lemma {:induction false} LiveMembers(rows: seq<Row>, current: int)
    ensures forall r :: r in Live(rows, current) <==> r in rows && IsActive(r.state) && r.epoch == current
  {
    if |rows| != 0 {
      LiveMembers(rows[1..], current);
      assert rows == [rows[0]] + rows[1..];
    }
  }

  predicate DistinctRoots(rows: seq<Row>) {
    forall i, j | 0 <= i < j < |rows| :: rows[i].root != rows[j].root
  }

  lemma {:induction false} LiveDistinct(rows: seq<Row>, current: int)
    requires EpochsAscend(rows)
    ensures DistinctRoots(Live(rows, current))
  {
    if |rows| != 0 {
      assert forall i | 0 <= i < |rows[1..]| :: rows[1..][i] == rows[i + 1];
      LiveDistinct(rows[1..], current);
      LiveMembers(rows[1..], current);
      var rest := Live(rows[1..], current);
      if IsActive(rows[0].state) && rows[0].epoch == current {
        forall j | 0 <= j < |rest| ensures rest[j].root != rows[0].root {
          assert rest[j] in rest;
          var i :| 0 <= i < |rows[1..]| && rows[1..][i] == rest[j];
          assert rows[i + 1] == rest[j];
        }
      }
    }
  }

  // ---------------------------------------------------------------------
  // Carrying.

  /** A row to copy: active, placed in the table, and not yet in `epoch`. */
  predicate Carryable(rows: seq<Row>, r: Row, epoch: int) {
    && IsActive(r.state)
    && r in rows
    && !InEpoch(rows, r.root, epoch)
  }

  /** Pool rows that rollover may touch: those of the new epoch, and only by
      raising `reserved`. */
  ghost predicate OnlyRaises(before: map<Key, Counters>, after: map<Key, Counters>, epoch: int) {
    && after.Keys == before.Keys
    && forall key | key in before ::
         && after[key].granted == before[key].granted
         && after[key].consumed == before[key].consumed
         && (key.1 != epoch ==> after[key] == before[key])
  }

  lemma CopyPlaced(rows: seq<Row>, r: Row, epoch: int)
    requires RowsOk(rows, epoch) && Carryable(rows, r, epoch)
    ensures NextId(rows) == |rows| + 1
    ensures RowsOk(rows + [r.(id := |rows| + 1, epoch := epoch, settled := None)], epoch)
  {
    NextIdIsFresh(rows, epoch);
    var i :| 0 <= i < |rows| && rows[i] == r;
    assert Placed(rows, i, epoch);
    forall j | 0 <= j < |rows| && rows[j].root == r.root ensures rows[j].epoch < epoch {
      assert Placed(rows, j, epoch);
    }
    AppendPlaced(rows, r.(id := |rows| + 1, epoch := epoch, settled := None), epoch);
  }

  lemma CarryOneOk(so: Carried, r: Row, epoch: int)
    requires RowsOk(so.rows, epoch) && Ready(so.rows, so.pools) && Carryable(so.rows, r, epoch)
    ensures match CarryOne(so, r, epoch)
            case Failure(error) => error == Overflow || (error == Integrity(MissingGrant)
                && (r.pool, epoch) !in so.pools)
            case Success(next) =>
              && next.rows == so.rows + [r.(id := |so.rows| + 1, epoch := epoch, settled := None)]
              && next.count == so.count + 1
              && (r.pool, epoch) in so.pools
              && RowsOk(next.rows, epoch)
              && Ready(next.rows, next.pools)
              && OnlyRaises(so.pools, next.pools, epoch)
  {
    CopyPlaced(so.rows, r, epoch);
    var copy := r.(id := |so.rows| + 1, epoch := epoch, settled := None);
    NewRowTotals(so.rows, copy);
    var i :| 0 <= i < |so.rows| && so.rows[i] == r;
    assert Placed(so.rows, i, epoch);
  }

  /** What carrying these rows promises. */
  ghost predicate CarryOk(so: Carried, carry: seq<Row>, epoch: int, result: Result<Carried, LedgerError>) {
    match result
    case Failure(error) =>
      error == Overflow || (error == Integrity(MissingGrant) && exists r | r in carry :: (r.pool, epoch) !in so.pools)
    case Success(done) =>
      && done.rows == so.rows + Shadows(carry, |so.rows|, epoch)
      && done.count == so.count + |carry|
      && (forall r | r in carry :: (r.pool, epoch) in so.pools)
      && RowsOk(done.rows, epoch)
      && Ready(done.rows, done.pools)
      && OnlyRaises(so.pools, done.pools, epoch)
  }

  predicate AllCarryable(rows: seq<Row>, carry: seq<Row>, epoch: int) {
    DistinctRoots(carry) && forall r | r in carry :: Carryable(rows, r, epoch)
  }

  lemma OthersStillCarryable(rows: seq<Row>, carry: seq<Row>, copy: Row, epoch: int)
    requires |carry| > 0 && AllCarryable(rows, carry, epoch) && copy.root == carry[0].root
    ensures AllCarryable(rows + [copy], carry[1..], epoch)
  {
    assert carry == [carry[0]] + carry[1..];
    forall r | r in carry[1..] ensures Carryable(rows + [copy], r, epoch) {
      assert r in carry && r.root != carry[0].root;
      StillCarryable(rows, copy, r, epoch);
    }
  }

  /** Carrying the first row and then the others. */
  lemma CarryThen(so: Carried, carry: seq<Row>, epoch: int, next: Carried, rest: Result<Carried, LedgerError>)
    requires |carry| > 0 && CarryOk(next, carry[1..], epoch, rest)
    requires next.rows == so.rows + [carry[0].(id := |so.rows| + 1, epoch := epoch, settled := None)]
    requires next.count == so.count + 1 && (carry[0].pool, epoch) in so.pools && OnlyRaises(so.pools, next.pools, epoch)
    ensures CarryOk(so, carry, epoch, rest)
  {
    assert carry == [carry[0]] + carry[1..];
    ShadowsShift(so.rows, carry, epoch);
    if rest.Failure? && rest.error != Overflow {
      var r :| r in carry[1..] && (r.pool, epoch) !in next.pools;
      assert r in carry;
    }
  }

  lemma {:induction false} CarryAllOk(so: Carried, carry: seq<Row>, epoch: int)
    requires RowsOk(so.rows, epoch) && Ready(so.rows, so.pools) && AllCarryable(so.rows, carry, epoch)
    ensures CarryOk(so, carry, epoch, CarryAll(so, carry, epoch))
    decreases carry
  {
    if |carry| == 0 {
      assert so.rows + Shadows(carry, |so.rows|, epoch) == so.rows;
    } else {
      assert carry[0] in carry;
      CarryOneOk(so, carry[0], epoch);
      var one := CarryOne(so, carry[0], epoch);
      if one.Success? {
        OthersStillCarryable(so.rows, carry, one.value.rows[|so.rows|], epoch);
        CarryAllOk(one.value, carry[1..], epoch);
        CarryThen(so, carry, epoch, one.value, CarryAll(one.value, carry[1..], epoch));
      }
    }
  }

  lemma StillCarryable(rows: seq<Row>, copy: Row, r: Row, epoch: int)
    requires Carryable(rows, r, epoch) && copy.root != r.root
    ensures Carryable(rows + [copy], r, epoch)
  {
  }

  lemma ShadowsShift(rows: seq<Row>, carry: seq<Row>, epoch: int)
    requires |carry| > 0
    ensures var copy := carry[0].(id := |rows| + 1, epoch := epoch, settled := None);
            (rows + [copy]) + Shadows(carry[1..], |rows| + 1, epoch) == rows + Shadows(carry, |rows|, epoch)
  {
  }

  // ---------------------------------------------------------------------
  // Totals across the boundary.

  lemma {:induction false} NothingYet(rows: seq<Row>, key: Key, m: Measure)
    requires forall r | r in rows :: r.epoch != key.1
    ensures Total(rows, key, m) == 0
  {
    if |rows| != 0 {
      assert rows[0] in rows;
      NothingYet(rows[1..], key, m);
    }
  }

  lemma {:induction false} LiveTotal(rows: seq<Row>, pool: string, current: int)
    ensures Total(Live(rows, current), (pool, current), Held) == Total(rows, (pool, current), Held)
  {
    if |rows| != 0 {
      LiveTotal(rows[1..], pool, current);
      var rest := Live(rows[1..], current);
      assert ([rows[0]] + rest)[1..] == rest && [] + rest == rest;
    }
  }

  lemma {:induction false} ShadowTotal(carry: seq<Row>, base: nat, pool: string, current: int, epoch: int)
    requires forall r | r in carry :: IsActive(r.state) && r.epoch == current
    ensures Total(Shadows(carry, base, epoch), (pool, epoch), Held) == Total(carry, (pool, current), Held)
    ensures Total(Shadows(carry, base, epoch), (pool, epoch), Exposed) == Total(carry, (pool, current), Held)
    ensures Total(Shadows(carry, base, epoch), (pool, epoch), Charged) == 0
    ensures forall key: Key, m | key.1 != epoch :: Total(Shadows(carry, base, epoch), key, m) == 0
    decreases carry
  {
    if |carry| != 0 {
      assert carry[0] in carry;
      assert Shadows(carry, base, epoch)[1..] == Shadows(carry[1..], base + 1, epoch);
      ShadowTotal(carry[1..], base + 1, pool, current, epoch);
    }
  }

  /** The grant a pool opens with: the first one listed for it. */
  function GrantFor(grants: seq<(string, nat)>, pool: string): Option<nat> {
    if |grants| == 0 then None
    else if grants[0].0 == pool then Some(grants[0].1)
    else GrantFor(grants[1..], pool)
  }

  lemma {:induction false} OpenPoolsExactly(pools: map<Key, Counters>, epoch: int, grants: seq<(string, nat)>)
    ensures match OpenPools(pools, epoch, grants)
            case Failure(error) => error == Overflow && exists g | g in grants :: g.1 > I64_MAX
            case Success(started) =>
              && (forall g | g in grants :: (g.0, epoch) in started)
              && (forall key | key in pools :: key in started && started[key] == pools[key])
              && (forall key | key in started && key !in pools ::
                    && key.1 == epoch
                    && GrantFor(grants, key.0).Some?
                    && started[key] == Counters(GrantFor(grants, key.0).value, 0, 0)
                    && Counted(started[key]))
    decreases grants
  {
    if |grants| != 0 {
      assert grants == [grants[0]] + grants[1..] && grants[0] in grants;
      if grants[0].1 <= I64_MAX {
        var key := (grants[0].0, epoch);
        OpenPoolsExactly(if key in pools then pools else pools[key := Counters(grants[0].1, 0, 0)], epoch, grants[1..]);
      }
    }
  }

  // ---------------------------------------------------------------------
  // The theorem.

  /** The liability that rollover carries for a pool. */
  function CarriedLiability(db: Tables, pool: string): int {
    Total(db.rows, (pool, db.meta.currentEpoch), Held)
  }

  /** Rollover started `epoch`: the old rows and pool rows are untouched, each
      active group has gained exactly one row, and each new pool row holds
      exactly the liability its pool carried. */
  predicate Advances(db: Tables, epoch: int, grants: seq<(string, nat)>, after: Tables) {
    && after.rows == db.rows + Shadows(Live(db.rows, db.meta.currentEpoch), |db.rows|, epoch)
    && (forall key | key in db.pools :: key in after.pools && after.pools[key] == db.pools[key])
    && (forall g | g in grants :: (g.0, epoch) in after.pools)
    && (forall key | key in after.pools && key !in db.pools ::
          && key.1 == epoch
          && GrantFor(grants, key.0) == Some(after.pools[key].granted)
          && after.pools[key].consumed == 0
          && after.pools[key].reserved == CarriedLiability(db, key.0))
    && (forall key | key in after.pools && key !in db.pools ::
          Total(after.rows, key, Exposed) == CarriedLiability(db, key.0) && Adopted(after.rows, after.pools, key) == 0)
    && (forall key, m | key in db.pools :: Total(after.rows, key, m) == Total(db.rows, key, m))
    && after.meta == db.meta.(currentEpoch := epoch)
    && after.safety == db.safety && after.latches == db.latches
  }

  lemma NewEpochTotals(db: Tables, epoch: int, key: Key)
    requires Valid(db) && db.meta.currentEpoch < epoch
    ensures var live := Live(db.rows, db.meta.currentEpoch);
            var after := db.rows + Shadows(live, |db.rows|, epoch);
            && (key.1 == epoch ==>
                  && Total(after, key, Held) == CarriedLiability(db, key.0)
                  && Total(after, key, Exposed) == CarriedLiability(db, key.0)
                  && Total(after, key, Charged) == 0)
            && (key.1 != epoch ==> forall m :: Total(after, key, m) == Total(db.rows, key, m))
  {
    var current := db.meta.currentEpoch;
    var live := Live(db.rows, current);
    LiveMembers(db.rows, current);
    LiveTotal(db.rows, key.0, current);
    ShadowTotal(live, |db.rows|, key.0, current, epoch);
    forall r | r in db.rows ensures r.epoch != epoch {
      var i :| 0 <= i < |db.rows| && db.rows[i] == r;
      assert Placed(db.rows, i, current);
    }
    forall m ensures Total(db.rows + Shadows(live, |db.rows|, epoch), key, m) ==
                     Total(db.rows, key, m) + Total(Shadows(live, |db.rows|, epoch), key, m) {
      TotalAppend(db.rows, Shadows(live, |db.rows|, epoch), key, m);
    }
    if key.1 == epoch {
      forall m ensures Total(db.rows, key, m) == 0 {
        NothingYet(db.rows, key, m);
      }
    }
  }

  lemma OpenedReady(db: Tables, epoch: int, grants: seq<(string, nat)>, started: map<Key, Counters>)
    requires Valid(db) && db.meta.currentEpoch < epoch && OpenPools(db.pools, epoch, grants) == Success(started)
    ensures RowsOk(db.rows, epoch) && Ready(db.rows, started)
    ensures forall r | r in Live(db.rows, db.meta.currentEpoch) :: Carryable(db.rows, r, epoch)
  {
    var current := db.meta.currentEpoch;
    OpenPoolsExactly(db.pools, epoch, grants);
    forall i | 0 <= i < |db.rows| ensures Placed(db.rows, i, epoch) && db.rows[i].epoch < epoch {
      assert Placed(db.rows, i, current);
    }
    forall key | key in started ensures Counted(started[key]) && started[key].reserved == Total(db.rows, key, Held) {
      if key in db.pools {
        assert PoolOk(db.rows, db.pools, key);
      } else {
        forall r | r in db.rows ensures r.epoch != epoch {
          var i :| 0 <= i < |db.rows| && db.rows[i] == r;
        }
        NothingYet(db.rows, key, Held);
      }
    }
    LiveMembers(db.rows, current);
  }

  /** Every active group of the old epoch is present in the new one. */
  lemma ShadowsReach(db: Tables, epoch: int, after: seq<Row>)
    requires Valid(db) && db.meta.currentEpoch < epoch
    requires after == db.rows + Shadows(Live(db.rows, db.meta.currentEpoch), |db.rows|, epoch)
    requires RowsOk(after, epoch)
    ensures CarriedTo(after, epoch)
  {
    var current := db.meta.currentEpoch;
    var live := Live(db.rows, current);
    LiveMembers(db.rows, current);
    forall i | 0 <= i < |after| && IsActive(after[i].state) ensures InEpoch(after, after[i].root, epoch) {
      if i < |db.rows| {
        assert InEpoch(db.rows, db.rows[i].root, current);
        var j :| 0 <= j < |db.rows| && db.rows[j].root == db.rows[i].root && db.rows[j].epoch == current;
        SameGroup(db.rows, i, j, current);
        assert db.rows[j] in live;
        var k :| 0 <= k < |live| && live[k] == db.rows[j];
        assert after[|db.rows| + k].root == after[i].root && after[|db.rows| + k].epoch == epoch;
      }
    }
  }

  lemma RolloverSound(db: Tables, epoch: int, grants: seq<(string, nat)>)
    requires Valid(db) && db.meta.currentEpoch < epoch
    ensures match Rollover(db, epoch, grants)
            case Failure(error) =>
              || error == Overflow
              || (error == Integrity(MissingGrant)
                  && exists r | r in db.rows :: IsActive(r.state) && forall g | g in grants :: g.0 != r.pool)
            case Success((after, outcome)) =>
              && outcome == Advanced(|Live(db.rows, db.meta.currentEpoch)|)
              && Advances(db, epoch, grants, after)
              && Valid(after)
  {
    var current := db.meta.currentEpoch;
    var live := Live(db.rows, current);
    OpenPoolsExactly(db.pools, epoch, grants);
    assert db.rows == db.rows[0..];
    CarryIsLive(db.rows, db.rows, 0, current, epoch);
    LiveMembers(db.rows, current);
    LiveDistinct(db.rows, current);
    var started := OpenPools(db.pools, epoch, grants);
    if started.Success? {
      OpenedReady(db, epoch, grants, started.value);
      CarryAllOk(Carried(db.rows, started.value, 0), live, epoch);
      var done := CarryAll(Carried(db.rows, started.value, 0), live, epoch);
      if done.Success? {
        RolledOver(db, epoch, grants, started.value, done.value);
      } else if done.error != Overflow {
        var r :| r in live && (r.pool, epoch) !in started.value;
        assert r in db.rows && IsActive(r.state) && forall g | g in grants :: g.0 != r.pool;
      }
    }
  }

  lemma RolledOver(db: Tables, epoch: int, grants: seq<(string, nat)>, started: map<Key, Counters>, done: Carried)
    requires Valid(db) && db.meta.currentEpoch < epoch && OpenPools(db.pools, epoch, grants) == Success(started)
    requires done.rows == db.rows + Shadows(Live(db.rows, db.meta.currentEpoch), |db.rows|, epoch)
    requires RowsOk(done.rows, epoch) && Ready(done.rows, done.pools) && OnlyRaises(started, done.pools, epoch)
    ensures var after := db.(rows := done.rows, pools := done.pools, meta := db.meta.(currentEpoch := epoch));
            Advances(db, epoch, grants, after) && Valid(after)
  {
    OpenPoolsExactly(db.pools, epoch, grants);
    forall key | key in db.pools ensures key.1 < epoch && PoolOk(db.rows, db.pools, key) {
      assert PoolOk(db.rows, db.pools, key);
    }
    forall key: Key ensures
      && (key.1 == epoch ==>
            && Total(done.rows, key, Held) == CarriedLiability(db, key.0)
            && Total(done.rows, key, Exposed) == CarriedLiability(db, key.0)
            && Total(done.rows, key, Charged) == 0)
      && (key.1 != epoch ==> forall m :: Total(done.rows, key, m) == Total(db.rows, key, m))
    {
      NewEpochTotals(db, epoch, key);
    }
    ShadowsReach(db, epoch, done.rows);
  }

  /** Each pool's new grant covers the liability carried into it. */
  ghost predicate Covers(db: Tables, grants: seq<(string, nat)>) {
    forall pool | GrantFor(grants, pool).Some? :: CarriedLiability(db, pool) <= GrantFor(grants, pool).value
  }

  /** Exactly when rollover keeps the money bound. It never compares what it
      carries with the new grant, so the caller must: the bound survives if
      and only if each pool's new grant covers the liability carried into it. */
  lemma RolloverBound(db: Tables, epoch: int, grants: seq<(string, nat)>)
    requires Valid(db) && Bounded(db) && db.meta.currentEpoch < epoch
    requires Rollover(db, epoch, grants).Success?
    ensures var after := Rollover(db, epoch, grants).value.0;
            Bounded(after) <==> Covers(db, grants)
  {
    RolloverSound(db, epoch, grants);
    var after := Rollover(db, epoch, grants).value.0;
    forall key | key in db.pools ensures key.1 < epoch {
      assert PoolOk(db.rows, db.pools, key);
    }
    forall pool | GrantFor(grants, pool).Some?
      ensures (pool, epoch) in after.pools && after.pools[(pool, epoch)].granted == GrantFor(grants, pool).value
    {
      GrantListed(grants, pool);
    }
  }

  lemma {:induction false} GrantListed(grants: seq<(string, nat)>, pool: string)
    requires GrantFor(grants, pool).Some?
    ensures (pool, GrantFor(grants, pool).value) in grants
  {
    assert grants[0] in grants;
    if grants[0].0 != pool {
      GrantListed(grants[1..], pool);
    }
  }

  /** No pool that is open in the current epoch is granted less than it is
      there now. */
  predicate GrantsHold(db: Tables, grants: seq<(string, nat)>) {
    forall g | g in grants && (g.0, db.meta.currentEpoch) in db.pools ::
      g.1 >= db.pools[(g.0, db.meta.currentEpoch)].granted
  }

  lemma {:induction false} HeldWithinExposed(rows: seq<Row>, key: Key)
    requires forall r | r in rows :: Shape(r)
    ensures Total(rows, key, Held) <= Total(rows, key, Exposed)
    ensures Total(rows, key, Held) > 0 ==> exists r | r in rows :: (r.pool, r.epoch) == key
  {
    if |rows| != 0 {
      assert rows == [rows[0]] + rows[1..] && Shape(rows[0]);
      HeldWithinExposed(rows[1..], key);
    }
  }

  /** Grants that do not shrink cover whatever is carried. */
  lemma HoldingGrantsCover(db: Tables, grants: seq<(string, nat)>)
    requires Valid(db) && Bounded(db) && GrantsHold(db, grants)
    ensures Covers(db, grants)
  {
    forall pool | GrantFor(grants, pool).Some? ensures CarriedLiability(db, pool) <= GrantFor(grants, pool).value {
      CarriedFits(db, pool);
      GrantListed(grants, pool);
    }
  }

  /** What a pool carries fits its current grant; nothing is carried for a
      pool that is not open. */
  lemma CarriedFits(db: Tables, pool: string)
    requires Valid(db) && Bounded(db)
    ensures var key := (pool, db.meta.currentEpoch);
            CarriedLiability(db, pool) <= if key in db.pools then db.pools[key].granted else 0
  {
    var key := (pool, db.meta.currentEpoch);
    ShapeAll(db.rows, db.meta.currentEpoch);
    HeldWithinExposed(db.rows, key);
    if CarriedLiability(db, pool) > 0 {
      var r :| r in db.rows && (r.pool, r.epoch) == key;
      var i :| 0 <= i < |db.rows| && db.rows[i] == r;
    }
  }

  lemma OneRow(r: Row)
    ensures forall key, m :: Total([r], key, m) == Share(r, key, m)
  {
  }

  /** A shrunken grant does break the bound: a live liability of 2 carried
      into a day granted 1. */
  lemma ShrunkenGrantBreaksBound() returns (db: Tables, grants: seq<(string, nat)>)
    ensures Valid(db) && Bounded(db) && db.meta.currentEpoch == 1
    ensures Rollover(db, 2, grants).Success? && !Bounded(Rollover(db, 2, grants).value.0)
  {
    var r := Row(1, 1, "p", 1, Reserved, 2, None, None, "", "", "", 0, 0);
    db := Tables([r], map[("p", 1) := Counters(2, 0, 2)], Meta(0, 0, 1, false), map[], []);
    grants := [("p", 1)];
    OneRow(r);
    assert InEpoch(db.rows, 1, 1) by {
      assert db.rows[0].root == 1;
    }
    assert Books(db.rows, db.pools, 1);
    var started := db.pools[("p", 2) := Counters(1, 0, 0)];
    assert grants[1..] == [] && OpenPools(db.pools, 2, grants) == Success(started);
    assert db.rows[1..] == [] && MustCarry(db.rows, r, 2) && CarryList(db.rows, db.rows, 2) == [r];
    assert CarryOne(Carried(db.rows, started, 0), r, 2).Success?;
    assert [r][1..] == [] && CarryAll(Carried(db.rows, started, 0), [r], 2).Success?;
    RolloverBound(db, 2, grants);
    assert GrantFor(grants, "p") == Some(1) && CarriedLiability(db, "p") == 2;
  }
}
