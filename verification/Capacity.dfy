/** Exactly which ledger calls succeed: the cases in which a counter or the record would leave 64 bits. */
module Capacity {
  import opened Results
  import opened ReservationState
  import opened Tables
  import opened Trust
  import opened Transactions
  import opened LedgerInvariant
  import opened GroupTransitions
  import opened AdmissionRule
  import opened DailyRollover
  import opened Runs
  import opened RowEffects

  // ---------------------------------------------------------------------
  // Charging a group.

  predicate DistinctKeys(rows: seq<Row>) {
    forall i, j | 0 <= i < j < |rows| :: (rows[i].pool, rows[i].epoch) != (rows[j].pool, rows[j].epoch)
  }

  /** The row's counters hold its liability. */
  predicate Releasable(pools: map<Key, Counters>, r: Row) {
    var key := (r.pool, r.epoch);
    key in pools && Counted(pools[key]) && 0 <= r.liability <= pools[key].reserved
  }

  predicate HasRoom(pools: map<Key, Counters>, r: Row, charge: int) {
    var key := (r.pool, r.epoch);
    key in pools && pools[key].consumed + charge <= I64_MAX
  }

  /** Rows of different keys release independently, each when its consumption stays
      in range. */
  lemma {:induction false} ReleaseExactly(pools: map<Key, Counters>, rows: seq<Row>, charge: int)
    requires 0 <= charge && DistinctKeys(rows) && forall r | r in rows :: Releasable(pools, r)
    ensures ReleaseRows(pools, rows, charge).Success? <==> forall r | r in rows :: HasRoom(pools, r, charge)
  {
    if |rows| != 0 {
      var r := rows[0];
      assert rows == [r] + rows[1..] && r in rows && Releasable(pools, r);
      var next := AdjustPool(pools, (r.pool, r.epoch), -r.liability, charge);
      if next.Success? {
        forall i | 0 <= i < |rows[1..]| ensures
          && Releasable(next.value, rows[1..][i])
          && (HasRoom(next.value, rows[1..][i], charge) <==> HasRoom(pools, rows[1..][i], charge))
        {
          assert rows[1..][i] == rows[i + 1] && rows[i + 1] in rows && Releasable(pools, rows[i + 1]);
        }
        ReleaseExactly(next.value, rows[1..], charge);
      }
    }
  }

  lemma {:induction false} GroupAscends(rows: seq<Row>, root: int)
    requires EpochsAscend(rows)
    ensures DistinctKeys(GroupOf(rows, root))
  {
    if |rows| != 0 {
      assert forall i | 0 <= i < |rows[1..]| :: rows[1..][i] == rows[i + 1];
      GroupAscends(rows[1..], root);
      GroupMembers(rows[1..], root);
      var rest := GroupOf(rows[1..], root);
      if rows[0].root == root {
        forall j | 0 <= j < |rest| ensures rest[j].epoch != rows[0].epoch {
          assert rest[j] in rest;
          var i :| 0 <= i < |rows[1..]| && rows[1..][i] == rest[j];
          assert rows[i + 1] == rest[j];
        }
      }
    }
  }

  /** Every counter of the group of row `id` has room for the charge. */
  predicate GroupHasRoom(rows: seq<Row>, pools: map<Key, Counters>, id: int, charge: int) {
    && 1 <= id <= |rows|
    && forall i | 0 <= i < |rows| && rows[i].root == rows[id - 1].root :: HasRoom(pools, rows[i], charge)
  }

  lemma RowReleasable(rows: seq<Row>, pools: map<Key, Counters>, current: int, i: nat)
    requires RowsOk(rows, current) && PoolsOk(rows, pools, current) && i < |rows| && IsActive(rows[i].state)
    ensures Releasable(pools, rows[i])
  {
    var key := (rows[i].pool, rows[i].epoch);
    assert Placed(rows, i, current) && PoolOk(rows, pools, key);
    ShapeAll(rows, current);
    TotalBounds(rows, key, Held);
    assert Share(rows[i], key, Held) == rows[i].liability;
  }

  lemma GroupReleases(rows: seq<Row>, pools: map<Key, Counters>, current: int, id: int, charge: int)
    requires RowsOk(rows, current) && PoolsOk(rows, pools, current) && 0 <= charge
    requires 1 <= id <= |rows| && IsActive(rows[id - 1].state)
    ensures ReleaseRows(pools, GroupOf(rows, rows[id - 1].root), charge).Success? <==>
            GroupHasRoom(rows, pools, id, charge)
  {
    var group := GroupOf(rows, rows[id - 1].root);
    GroupMembers(rows, rows[id - 1].root);
    GroupAscends(rows, rows[id - 1].root);
    forall r | r in group ensures Releasable(pools, r) {
      var i :| 0 <= i < |rows| && rows[i] == r;
      SameGroup(rows, i, id - 1, current);
      RowReleasable(rows, pools, current, i);
    }
    ReleaseExactly(pools, group, charge);
    assert forall i | 0 <= i < |rows| && rows[i].root == rows[id - 1].root :: rows[i] in group;
  }

  lemma EligibleIsGroup(rows: seq<Row>, id: int, t: Transition, current: int)
    requires RowsOk(rows, current) && Admits(rows, id, t)
    ensures Eligible(rows, id, t) == Success(GroupOf(rows, rows[id - 1].root))
    ensures var group := GroupOf(rows, rows[id - 1].root);
            && |group| > 0 && group[0] == rows[id - 1].(id := group[0].id, epoch := group[0].epoch)
            && |Selected(rows, Selector(Some(group[0].root), group[0].state))| == |group|
  {
    EligibleExactly(rows, id, t, current);
    LookupRow(rows, id, current);
  }

  lemma FinishSucceeds(db: Tables, id: int, t: Transition, target: State, charge: int, settled: Option<int>)
    requires Valid(db) && Admits(db.rows, id, t) && IsActive(db.rows[id - 1].state) && 0 <= charge
    ensures Eligible(db.rows, id, t).Success?
    ensures FinishGroup(db, Eligible(db.rows, id, t).value, target, charge, settled).Success? <==>
            GroupHasRoom(db.rows, db.pools, id, charge)
  {
    EligibleIsGroup(db.rows, id, t, db.meta.currentEpoch);
    GroupReleases(db.rows, db.pools, db.meta.currentEpoch, id, charge);
  }

  // ---------------------------------------------------------------------
  // Group commands.

  /** What the command charges each row of the group, if it is let through. */
  function ChargeOf(head: Row, c: Command): int
    requires IsGroupCommand(c)
  {
    match c
    case SettleWith(_, response, rev) =>
      var p := SettlePatch(head, response, rev);
      if p.settled.Some? then p.settled.value else head.liability
    case GiveUp(_) => head.liability
    case _ => 0
  }

  /** A release names one of the two ways to release. */
  predicate Proper(c: Command) {
    c.ReleaseAs? ==> c.t.ReleaseUnsent? || c.t.RejectBeforeProcessing?
  }

  lemma ChargeInRange(head: Row, c: Command)
    requires IsGroupCommand(c) && Shape(head)
    ensures 0 <= ChargeOf(head, c) <= I64_MAX
  {
  }

  lemma NoChargeFits(rows: seq<Row>, pools: map<Key, Counters>, current: int, id: int)
    requires PoolsOk(rows, pools, current) && 1 <= id <= |rows|
    ensures GroupHasRoom(rows, pools, id, 0)
  {
    forall i | 0 <= i < |rows| ensures HasRoom(pools, rows[i], 0) {
      assert PoolOk(rows, pools, (rows[i].pool, rows[i].epoch));
    }
  }

  lemma SettleSucceeds(db: Tables, id: int, response: Completed, rev: int)
    requires Valid(db) && Admits(db.rows, id, Settle)
    ensures SettleGroup(db, id, response, rev).Success? <==>
            GroupHasRoom(db.rows, db.pools, id, ChargeOf(db.rows[id - 1], SettleWith(id, response, rev)))
  {
    var head := db.rows[id - 1];
    assert Placed(db.rows, id - 1, db.meta.currentEpoch);
    var p := SettlePatch(head, response, rev);
    var charge := ChargeOf(head, SettleWith(id, response, rev));
    ChargeInRange(head, SettleWith(id, response, rev));
    EligibleIsGroup(db.rows, id, Settle, db.meta.currentEpoch);
    FinishSucceeds(db, id, Settle, p.target, charge, p.settled);
    SettleUnfolds(db, id, response, rev);
  }

  lemma WriteOffSucceeds(db: Tables, id: int)
    requires Valid(db) && Admits(db.rows, id, Unrecoverable)
    ensures WriteOff(db, id).Success? <==> GroupHasRoom(db.rows, db.pools, id, db.rows[id - 1].liability)
  {
    var head := db.rows[id - 1];
    assert Placed(db.rows, id - 1, db.meta.currentEpoch);
    EligibleIsGroup(db.rows, id, Unrecoverable, db.meta.currentEpoch);
    FinishSucceeds(db, id, Unrecoverable, ConsumedUnrecoverable, head.liability, None);
  }

  lemma UnchargedSucceeds(w: World, c: Command)
    requires Sane(w) && (c.Attach? || c.LoseId? || c.ReleaseAs?) && Proper(c) && Admits(w.db.rows, c.id, Asked(c))
    ensures Succeeds(w, c) && GroupHasRoom(w.db.rows, w.db.pools, c.id, 0)
  {
    GroupSucceeds(w, c);
    NoChargeFits(w.db.rows, w.db.pools, w.db.meta.currentEpoch, c.id);
  }

  lemma SettleCommandSucceeds(w: World, c: Command)
    requires Sane(w) && c.SettleWith? && Admits(w.db.rows, c.id, Settle)
    ensures Succeeds(w, c) <==> GroupHasRoom(w.db.rows, w.db.pools, c.id, ChargeOf(w.db.rows[c.id - 1], c))
  {
    SettleSucceeds(w.db, c.id, c.response, c.rev);
  }

  lemma GiveUpSucceeds(w: World, c: Command)
    requires Sane(w) && c.GiveUp? && Admits(w.db.rows, c.id, Unrecoverable)
    ensures Succeeds(w, c) <==> GroupHasRoom(w.db.rows, w.db.pools, c.id, ChargeOf(w.db.rows[c.id - 1], c))
  {
    WriteOffSucceeds(w.db, c.id);
  }

  lemma OnlyAdmitted(w: World, c: Command)
    requires Sane(w) && IsGroupCommand(c) && Proper(c) && Succeeds(w, c)
    ensures Admits(w.db.rows, c.id, Asked(c))
  {
    GroupSucceeds(w, c);
  }

  /** A group command succeeds exactly when the group exists, its state admits the
      transition, and every counter it charges has room. */
  lemma GroupSucceedsExactly(w: World, c: Command)
    requires Sane(w) && IsGroupCommand(c) && Proper(c)
    ensures Succeeds(w, c) <==>
              && Admits(w.db.rows, c.id, Asked(c))
              && GroupHasRoom(w.db.rows, w.db.pools, c.id, ChargeOf(w.db.rows[c.id - 1], c))
  {
    if !Admits(w.db.rows, c.id, Asked(c)) {
      if Succeeds(w, c) {
        OnlyAdmitted(w, c);
      }
    } else if c.SettleWith? {
      SettleCommandSucceeds(w, c);
    } else if c.GiveUp? {
      GiveUpSucceeds(w, c);
    } else {
      UnchargedSucceeds(w, c);
    }
  }

  /** A dispatch gets its mark exactly when its group is waiting to be sent and the
      record has room for it. */
  lemma MarkSucceedsExactly(db: Tables, id: int)
    requires Valid(db)
    ensures DispatchMark(db, id).Success? <==>
              && Admits(db.rows, id, BeginDispatch)
              && db.meta.generation < I64_MAX
              && db.meta.cumulative + db.rows[id - 1].liability <= I64_MAX
  {
    EligibleExactly(db.rows, id, BeginDispatch, db.meta.currentEpoch);
    if 1 <= id <= |db.rows| {
      assert Placed(db.rows, id - 1, db.meta.currentEpoch);
    }
  }

  // ---------------------------------------------------------------------
  // Rollover.

  lemma {:induction false} OpenSucceeds(pools: map<Key, Counters>, epoch: int, grants: seq<(string, nat)>)
    ensures OpenPools(pools, epoch, grants).Success? <==> forall g | g in grants :: g.1 <= I64_MAX
    decreases grants
  {
    if |grants| != 0 {
      assert grants == [grants[0]] + grants[1..] && grants[0] in grants;
      if grants[0].1 <= I64_MAX {
        var key := (grants[0].0, epoch);
        OpenSucceeds(if key in pools then pools else pools[key := Counters(grants[0].1, 0, 0)], epoch, grants[1..]);
      }
    }
  }

  predicate CarriesInto(pools: map<Key, Counters>, r: Row, current: int, epoch: int) {
    && Shape(r) && IsActive(r.state) && r.epoch == current
    && (r.pool, epoch) in pools && Counted(pools[(r.pool, epoch)])
  }

  /** Every pool of the new epoch has room for what is still to be carried. */
  predicate RoomForCarry(pools: map<Key, Counters>, carry: seq<Row>, current: int, epoch: int) {
    && (forall r | r in carry :: CarriesInto(pools, r, current, epoch))
    && (forall key | key in pools && key.1 == epoch ::
          pools[key].reserved + Total(carry, (key.0, current), Held) <= I64_MAX)
  }

  lemma CarryOneSucceeds(so: Carried, carry: seq<Row>, current: int, epoch: int)
    requires |carry| > 0 && RoomForCarry(so.pools, carry, current, epoch)
    ensures var next := CarryOne(so, carry[0], epoch);
            next.Success? && RoomForCarry(next.value.pools, carry[1..], current, epoch)
  {
    var r := carry[0];
    assert carry == [r] + carry[1..] && r in carry && CarriesInto(so.pools, r, current, epoch);
    forall x | x in carry ensures Shape(x) {
      assert CarriesInto(so.pools, x, current, epoch);
    }
    forall x | x in carry[1..] ensures x in carry && CarriesInto(so.pools, x, current, epoch) {}
    forall x | x in carry[1..] ensures Shape(x) {
      assert x in carry;
    }
    TotalBounds(carry[1..], (r.pool, current), Held);
    var next := CarryOne(so, r, epoch);
    forall key | key in so.pools && key.1 == epoch ensures
      Total(carry, (key.0, current), Held) ==
      Share(r, (key.0, current), Held) + Total(carry[1..], (key.0, current), Held) {}
    assert next.Success?;
  }

  lemma {:induction false} CarrySucceeds(so: Carried, carry: seq<Row>, current: int, epoch: int)
    requires RoomForCarry(so.pools, carry, current, epoch)
    ensures CarryAll(so, carry, epoch).Success?
    decreases carry
  {
    if |carry| != 0 {
      CarryOneSucceeds(so, carry, current, epoch);
      CarrySucceeds(CarryOne(so, carry[0], epoch).value, carry[1..], current, epoch);
    }
  }

  lemma {:induction false} GrantForExactly(grants: seq<(string, nat)>, pool: string)
    ensures GrantFor(grants, pool).Some? <==> exists g | g in grants :: g.0 == pool
  {
    if |grants| != 0 {
      GrantForExactly(grants[1..], pool);
      assert grants == [grants[0]] + grants[1..] && grants[0] in grants;
    }
  }

  lemma CarriedInRange(db: Tables, pool: string)
    requires Valid(db)
    ensures CarriedLiability(db, pool) <= I64_MAX
  {
    var key := (pool, db.meta.currentEpoch);
    ShapeAll(db.rows, db.meta.currentEpoch);
    HeldWithinExposed(db.rows, key);
    if CarriedLiability(db, pool) > 0 {
      var r :| r in db.rows && (r.pool, r.epoch) == key;
      var i :| 0 <= i < |db.rows| && db.rows[i] == r;
      assert PoolOk(db.rows, db.pools, key);
    }
  }

  /** Grants in range, and one for every pool with an active request. */
  predicate Sufficient(rows: seq<Row>, grants: seq<(string, nat)>) {
    && (forall g | g in grants :: g.1 <= I64_MAX)
    && (forall i | 0 <= i < |rows| && IsActive(rows[i].state) :: GrantFor(grants, rows[i].pool).Some?)
  }

  lemma PoolsBefore(db: Tables)
    requires Valid(db)
    ensures forall key | key in db.pools :: key.1 <= db.meta.currentEpoch
  {
    forall key | key in db.pools ensures key.1 <= db.meta.currentEpoch {
      assert PoolOk(db.rows, db.pools, key);
    }
  }

  lemma OpenedRoom(db: Tables, epoch: int, grants: seq<(string, nat)>, started: map<Key, Counters>)
    requires Valid(db) && db.meta.currentEpoch < epoch && OpenPools(db.pools, epoch, grants) == Success(started)
    requires Sufficient(db.rows, grants)
    ensures RoomForCarry(started, Live(db.rows, db.meta.currentEpoch), db.meta.currentEpoch, epoch)
  {
    var current := db.meta.currentEpoch;
    var live := Live(db.rows, current);
    OpenPoolsExactly(db.pools, epoch, grants);
    LiveMembers(db.rows, current);
    ShapeAll(db.rows, current);
    OpenedReady(db, epoch, grants, started);
    forall r | r in live ensures CarriesInto(started, r, current, epoch) {
      var i :| 0 <= i < |db.rows| && db.rows[i] == r;
      assert GrantFor(grants, r.pool).Some?;
      GrantForExactly(grants, r.pool);
      var g :| g in grants && g.0 == r.pool;
      assert (g.0, epoch) in started;
    }
    PoolsBefore(db);
    forall key | key in started && key.1 == epoch
      ensures started[key].reserved + Total(live, (key.0, current), Held) <= I64_MAX
    {
      LiveTotal(db.rows, key.0, current);
      CarriedInRange(db, key.0);
    }
  }

  /** A rollover succeeds exactly when its grants are sufficient: it cannot overflow
      on what it carries. */
  lemma RollSucceedsExactly(db: Tables, epoch: int, grants: seq<(string, nat)>)
    requires Valid(db) && db.meta.currentEpoch < epoch
    ensures Rollover(db, epoch, grants).Success? <==> Sufficient(db.rows, grants)
  {
    var current := db.meta.currentEpoch;
    var live := Live(db.rows, current);
    OpenSucceeds(db.pools, epoch, grants);
    assert db.rows == db.rows[0..];
    CarryIsLive(db.rows, db.rows, 0, current, epoch);
    var started := OpenPools(db.pools, epoch, grants);
    if started.Success? {
      if Sufficient(db.rows, grants) {
        OpenedRoom(db, epoch, grants, started.value);
        CarrySucceeds(Carried(db.rows, started.value, 0), live, current, epoch);
      } else {
        UngrantedFails(db, epoch, grants, started.value);
      }
    }
  }

  lemma UngrantedFails(db: Tables, epoch: int, grants: seq<(string, nat)>, started: map<Key, Counters>)
    requires Valid(db) && db.meta.currentEpoch < epoch && OpenPools(db.pools, epoch, grants) == Success(started)
    requires !Sufficient(db.rows, grants) && forall g | g in grants :: g.1 <= I64_MAX
    ensures CarryAll(Carried(db.rows, started, 0), Live(db.rows, db.meta.currentEpoch), epoch).Failure?
  {
    var current := db.meta.currentEpoch;
    var i :| 0 <= i < |db.rows| && IsActive(db.rows[i].state) && GrantFor(grants, db.rows[i].pool).None?;
    assert InEpoch(db.rows, db.rows[i].root, current);
    var j :| 0 <= j < |db.rows| && db.rows[j].root == db.rows[i].root && db.rows[j].epoch == current;
    SameGroup(db.rows, j, i, current);
    LiveMembers(db.rows, current);
    assert db.rows[j] in Live(db.rows, current);
    var key := (db.rows[j].pool, epoch);
    OpenPoolsExactly(db.pools, epoch, grants);
    PoolsBefore(db);
    GrantForExactly(grants, db.rows[j].pool);
    assert key !in started;
    MissingStops(Carried(db.rows, started, 0), Live(db.rows, current), epoch, db.rows[j]);
  }

  lemma {:induction false} MissingStops(so: Carried, carry: seq<Row>, epoch: int, r: Row)
    requires r in carry && (r.pool, epoch) !in so.pools
    ensures CarryAll(so, carry, epoch).Failure?
    decreases carry
  {
    assert carry == [carry[0]] + carry[1..];
    var next := CarryOne(so, carry[0], epoch);
    if next.Success? && r != carry[0] {
      MissingStops(next.value, carry[1..], epoch, r);
    }
  }
}
