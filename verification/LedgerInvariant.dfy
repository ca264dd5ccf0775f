/**
What every ledger transaction keeps: the shape of the reservation rows, the
agreement of the counters with them, and the carry of active groups.
*/
module LedgerInvariant {
  import opened Results
  import opened ReservationState
  import opened Tables
  import opened Trust
  import opened Transactions

  /** Row `i` has its id, and copies its group's first row but for the epoch. */
  predicate Placed(rows: seq<Row>, i: nat, current: int)
    requires i < |rows|
  {
    && rows[i].id == i + 1
    && 1 <= rows[i].root <= i + 1
    && rows[i] == rows[rows[i].root - 1].(id := i + 1, epoch := rows[i].epoch)
    && rows[i].epoch <= current
    && Shape(rows[i])
  }

  predicate EpochsAscend(rows: seq<Row>) {
    forall i, j | 0 <= i < j < |rows| && rows[i].root == rows[j].root :: rows[i].epoch < rows[j].epoch
  }

  predicate RowsOk(rows: seq<Row>, current: int) {
    && (forall i | 0 <= i < |rows| :: Placed(rows, i, current))
    && EpochsAscend(rows)
  }

  /** Every active group is represented in the current epoch. */
  predicate CarriedTo(rows: seq<Row>, current: int) {
    forall i | 0 <= i < |rows| && IsActive(rows[i].state) :: InEpoch(rows, rows[i].root, current)
  }

  predicate Counted(c: Counters) {
    0 <= c.granted <= I64_MAX && 0 <= c.consumed <= I64_MAX && 0 <= c.reserved <= I64_MAX
  }

  /** Consumption on the books that no row accounts for: what was adopted. */
  function Adopted(rows: seq<Row>, pools: map<Key, Counters>, key: Key): int
    requires key in pools
  {
    pools[key].consumed - Total(rows, key, Charged)
  }

  predicate PoolOk(rows: seq<Row>, pools: map<Key, Counters>, key: Key)
    requires key in pools
  {
    && Counted(pools[key])
    && pools[key].reserved == Total(rows, key, Held)
    && 0 <= Adopted(rows, pools, key)
  }

  predicate PoolsOk(rows: seq<Row>, pools: map<Key, Counters>, current: int) {
    && (forall key | key in pools :: PoolOk(rows, pools, key) && key.1 <= current)
    && (forall i | 0 <= i < |rows| :: (rows[i].pool, rows[i].epoch) in pools)
  }

  predicate SafetyOk(safety: map<string, SafetyInput>) {
    forall k | k in safety :: 0 <= safety[k].budgetRemaining <= safety[k].budgetInitial <= I64_MAX && safety[k].ttl > 0
  }

  /** The reservation rows and the counters that summarise them. */
  predicate Books(rows: seq<Row>, pools: map<Key, Counters>, current: int) {
    RowsOk(rows, current) && CarriedTo(rows, current) && PoolsOk(rows, pools, current)
  }

  predicate Valid(db: Tables) {
    && Books(db.rows, db.pools, db.meta.currentEpoch)
    && SafetyOk(db.safety)
    && 0 <= db.meta.generation && 0 <= db.meta.cumulative
  }

  /** The money bound at one pool and epoch: charges capped at each row's
      liability fit the grant. */
  predicate Bounded(db: Tables) {
    forall key | key in db.pools :: Total(db.rows, key, Exposed) <= db.pools[key].granted
  }

  // ---------------------------------------------------------------------
  // Lookups in placed rows.

  lemma ShapeAll(rows: seq<Row>, current: int)
    requires RowsOk(rows, current)
    ensures forall r | r in rows :: Shape(r)
  {
    forall r | r in rows ensures Shape(r) {
      var i :| 0 <= i < |rows| && rows[i] == r;
      assert Placed(rows, i, current);
    }
  }

  lemma {:induction false} LookupAt(rows: seq<Row>, id: int, base: int)
    requires forall i | 0 <= i < |rows| :: rows[i].id == base + i + 1
    ensures Lookup(rows, id) == if base < id <= base + |rows| then Some(rows[id - base - 1]) else None
  {
    if |rows| != 0 {
      forall i | 0 <= i < |rows[1..]| ensures rows[1..][i].id == base + 1 + i + 1 {}
      LookupAt(rows[1..], id, base + 1);
    }
  }

  lemma LookupRow(rows: seq<Row>, id: int, current: int)
    requires RowsOk(rows, current)
    ensures Lookup(rows, id) == if 1 <= id <= |rows| then Some(rows[id - 1]) else None
  {
    forall i | 0 <= i < |rows| ensures rows[i].id == 0 + i + 1 {
      assert Placed(rows, i, current);
    }
    LookupAt(rows, id, 0);
  }

  lemma {:induction false} MaxIdAt(rows: seq<Row>, base: nat)
    requires forall i | 0 <= i < |rows| :: rows[i].id == base + i + 1
    ensures MaxId(rows) == if |rows| == 0 then 0 else base + |rows|
  {
    if |rows| != 0 {
      forall i | 0 <= i < |rows[1..]| ensures rows[1..][i].id == base + 1 + i + 1 {}
      MaxIdAt(rows[1..], base + 1);
    }
  }

  lemma NextIdIsFresh(rows: seq<Row>, current: int)
    requires RowsOk(rows, current)
    ensures NextId(rows) == |rows| + 1
  {
    forall i | 0 <= i < |rows| ensures rows[i].id == 0 + i + 1 {
      assert Placed(rows, i, current);
    }
    MaxIdAt(rows, 0);
  }

  lemma {:induction false} GroupMembers(rows: seq<Row>, root: int)
    ensures forall r :: r in GroupOf(rows, root) <==> r in rows && r.root == root
  {
    if |rows| != 0 {
      GroupMembers(rows[1..], root);
      assert rows == [rows[0]] + rows[1..];
    }
  }

  lemma SameGroup(rows: seq<Row>, i: nat, j: nat, current: int)
    requires RowsOk(rows, current) && i < |rows| && j < |rows| && rows[i].root == rows[j].root
    ensures rows[i] == rows[j].(id := i + 1, epoch := rows[i].epoch)
  {
    assert Placed(rows, i, current) && Placed(rows, j, current);
  }

  /** A valid ledger passes its own integrity check. */
  lemma ValidIsConsistent(db: Tables)
    requires Valid(db)
    ensures Consistent(db)
  {
    forall i, j | 0 <= i < |db.rows| && 0 <= j < |db.rows| && db.rows[i].root == db.rows[j].root
      ensures db.rows[i].state == db.rows[j].state && db.rows[i].liability == db.rows[j].liability
    {
      SameGroup(db.rows, i, j, db.meta.currentEpoch);
    }
    forall key | key in db.pools ensures db.pools[key].reserved == Total(db.rows, key, Held) {
      assert PoolOk(db.rows, db.pools, key);
    }
  }

  /** When a group's rows share one state, the rows of the group are exactly
      the rows an UPDATE guarded by that state selects. */
  lemma {:induction false} GroupIsSelected(rows: seq<Row>, root: int, from: State)
    requires forall r | r in rows && r.root == root :: r.state == from
    ensures GroupOf(rows, root) == Selected(rows, Selector(Some(root), from))
  {
    if |rows| != 0 {
      assert rows[0] in rows;
      GroupIsSelected(rows[1..], root, from);
    }
  }

  /** Loading a group never meets disagreement: it finds the group's first row
      and exactly the rows an UPDATE of that group will change, or no row. */
  lemma GroupLoads(rows: seq<Row>, id: int, current: int)
    requires RowsOk(rows, current)
    ensures LoadGroup(rows, id).Failure? <==> !(1 <= id <= |rows|)
    ensures LoadGroup(rows, id).Failure? ==> LoadGroup(rows, id).error == NotFound(id)
    ensures LoadGroup(rows, id).Success? ==>
              var group := LoadGroup(rows, id).value;
              && |group| > 0
              && group[0] in rows
              && group[0].root == rows[id - 1].root
              && group[0].state == rows[id - 1].state
              && group[0].liability == rows[id - 1].liability
              && group == Selected(rows, Selector(Some(group[0].root), group[0].state))
  {
    LookupRow(rows, id, current);
    if 1 <= id <= |rows| {
      var row := rows[id - 1];
      var group := GroupOf(rows, row.root);
      GroupMembers(rows, row.root);
      assert row in rows;
      assert row in group;
      forall r | r in rows && r.root == row.root
        ensures r.state == row.state && r.liability == row.liability
      {
        var i :| 0 <= i < |rows| && rows[i] == r;
        SameGroup(rows, i, id - 1, current);
      }
      assert group[0] in group;
      GroupIsSelected(rows, row.root, row.state);
    }
  }

  // ---------------------------------------------------------------------
  // Updating rows.

  /** The SET clauses the transitions use, each with the states it starts from. */
  predicate Lawful(from: State, p: Patch) {
    match p
    case Finish(target, settled) =>
      || (target.Settled? && settled.Some? && 0 <= settled.value <= I64_MAX && AllowedFrom(Settle, from))
      || (target.ConsumedUnrecoverable? && settled.None? && PossiblySent(from))
      || (target.ReleasedUnsent? && settled.None? && from.Reserved?)
      || (target.RejectedBeforeProcessing? && settled.None? && from.Dispatching?)
    case Relabel(target, response) =>
      || (target.Dispatching? && from.Reserved? && response.None?)
      || (target.DispatchedWithId? && from.Dispatching? && response.Some?)
      || (target.DispatchedIdUnknown? && (from.Reserved? || from.Dispatching?) && response.None?)
  }

  lemma LawfulKeepsShape(r: Row, p: Patch)
    requires Shape(r) && Lawful(r.state, p)
    ensures Shape(Patched(r, p)) && IsActive(r.state)
  {
  }

  lemma UpdateKeepsRows(rows: seq<Row>, sel: Selector, p: Patch, current: int)
    requires RowsOk(rows, current) && CarriedTo(rows, current) && Lawful(sel.from, p)
    ensures RowsOk(Update(rows, sel, p), current) && CarriedTo(Update(rows, sel, p), current)
  {
    var after := Update(rows, sel, p);
    forall i | 0 <= i < |rows| ensures Placed(after, i, current) {
      assert Placed(rows, i, current);
      var head := rows[i].root - 1;
      assert Placed(rows, head, current);
      assert Selects(sel, rows[i]) <==> Selects(sel, rows[head]);
      if Selects(sel, rows[i]) {
        LawfulKeepsShape(rows[i], p);
      }
    }
    forall i | 0 <= i < |after| && IsActive(after[i].state) ensures InEpoch(after, after[i].root, current) {
      assert IsActive(rows[i].state) by {
        if Selects(sel, rows[i]) {
          assert Placed(rows, i, current);
          LawfulKeepsShape(rows[i], p);
        }
      }
      assert InEpoch(rows, rows[i].root, current);
      var j :| 0 <= j < |rows| && rows[j].root == rows[i].root && rows[j].epoch == current;
      assert after[j].root == after[i].root && after[j].epoch == current;
    }
  }

  /** The counters match the rows, and every row has its pool row. */
  ghost predicate Ready(rows: seq<Row>, pools: map<Key, Counters>) {
    && (forall i | 0 <= i < |rows| :: Shape(rows[i]) && (rows[i].pool, rows[i].epoch) in pools)
    && (forall key | key in pools :: Counted(pools[key]) && pools[key].reserved == Total(rows, key, Held))
  }

  /** The same pool rows, with the same grants and the same adopted part. */
  ghost predicate Follows(rows: seq<Row>, pools: map<Key, Counters>, rows': seq<Row>, pools': map<Key, Counters>) {
    && pools'.Keys == pools.Keys
    && forall key | key in pools ::
         pools'[key].granted == pools[key].granted && Adopted(rows', pools', key) == Adopted(rows, pools, key)
  }

  /** The books stay valid, adopted consumption and grants are untouched, and
      the money bound is not lost. */
  ghost predicate Kept(db: Tables, after: Tables) {
    && Valid(after)
    && Follows(db.rows, db.pools, after.rows, after.pools)
    && (Bounded(db) ==> Bounded(after))
  }

  lemma KeptTwice(db: Tables, next: Tables, after: Tables)
    requires Kept(db, next) && Kept(next, after)
    ensures Kept(db, after)
  {
  }

  ghost predicate ReleasedOk(rows: seq<Row>, pools: map<Key, Counters>, rows': seq<Row>, charge: int,
                             result: Result<map<Key, Counters>, LedgerError>)
  {
    match result
    case Success(pools') => Ready(rows', pools') && Follows(rows, pools, rows', pools')
    case Failure(error) => error == Overflow && charge > 0
  }

  lemma ReleaseOne(rows: seq<Row>, pools: map<Key, Counters>, k: nat, r: Row, charge: int)
    requires Ready(rows, pools) && k < |rows| && 0 <= charge
    requires IsActive(rows[k].state) && !IsActive(r.state)
    requires Shape(r) && (r.pool, r.epoch, r.liability) == (rows[k].pool, rows[k].epoch, rows[k].liability)
    requires charge == Weight(r, Charged)
    ensures ReleasedOk(rows, pools, rows[k := r], charge,
                       AdjustPool(pools, (r.pool, r.epoch), -r.liability, charge))
  {
    var key := (r.pool, r.epoch);
    TotalBounds(rows, key, Held);
    assert Share(rows[k], key, Held) == r.liability;
    forall other, m ensures Total(rows[k := r], other, m)
        == Total(rows, other, m) - Share(rows[k], other, m) + Share(r, other, m) {
      TotalUpdate(rows, k, r, other, m);
    }
  }

  lemma Shifted(done: seq<Row>, rest: seq<Row>, r: Row, tail: seq<Row>)
    requires |rest| > 0
    ensures done + ([r] + tail) == (done + [r]) + tail
    ensures (done + rest)[|done| := r] == (done + [r]) + rest[1..]
  {
  }

  /** Releasing one row and then, on success, the others. */
  lemma ReleaseThen(rows: seq<Row>, pools: map<Key, Counters>, k: nat, r: Row, last: seq<Row>, charge: int,
                    others: Result<map<Key, Counters>, LedgerError>)
    requires Ready(rows, pools) && k < |rows| && 0 <= charge
    requires IsActive(rows[k].state) && !IsActive(r.state)
    requires Shape(r) && (r.pool, r.epoch, r.liability) == (rows[k].pool, rows[k].epoch, rows[k].liability)
    requires charge == Weight(r, Charged)
    requires var next := AdjustPool(pools, (r.pool, r.epoch), -r.liability, charge);
             next.Success? ==> Ready(rows[k := r], next.value) ==>
                 ReleasedOk(rows[k := r], next.value, last, charge, others)
    ensures var next := AdjustPool(pools, (r.pool, r.epoch), -r.liability, charge);
            ReleasedOk(rows, pools, last, charge, if next.Success? then others else next)
  {
    ReleaseOne(rows, pools, k, r, charge);
  }

  lemma UpdateFirst(rows: seq<Row>, sel: Selector, p: Patch)
    requires |rows| > 0
    ensures Update(rows, sel, p) ==
            [if Selects(sel, rows[0]) then Patched(rows[0], p) else rows[0]] + Update(rows[1..], sel, p)
  {
  }

  lemma ReleaseFirst(pools: map<Key, Counters>, r: Row, rows: seq<Row>, charge: int)
    ensures var next := AdjustPool(pools, (r.pool, r.epoch), -r.liability, charge);
            ReleaseRows(pools, [r] + rows, charge) ==
            if next.Success? then ReleaseRows(next.value, rows, charge) else next
  {
  }

  /** Taking liabilities out of the counters row by row, and then updating all
      those rows at once, leaves every counter equal to its rows. It fails only
      on overflow, and never when nothing is charged. */
  lemma {:induction false} ReleaseKeepsCounters(
    done: seq<Row>, rest: seq<Row>, pools: map<Key, Counters>, sel: Selector, p: Patch, charge: int)
    requires 0 <= charge && Lawful(sel.from, p) && !IsActive(p.target)
    requires forall r | r in rest && Selects(sel, r) :: charge == Weight(Patched(r, p), Charged)
    requires Ready(done + rest, pools)
    ensures ReleasedOk(done + rest, pools, done + Update(rest, sel, p), charge,
                       ReleaseRows(pools, Selected(rest, sel), charge))
    decreases |rest|
  {
    var all, last := done + rest, done + Update(rest, sel, p);
    var result := ReleaseRows(pools, Selected(rest, sel), charge);
    if |rest| == 0 {
      assert last == all;
    } else {
      var x, tail := rest[0], rest[1..];
      UpdateFirst(rest, sel, p);
      if Selects(sel, x) {
        var r := Patched(x, p);
        assert x == all[|done|];
        LawfulKeepsShape(x, p);
        ReleaseFirst(pools, x, Selected(tail, sel), charge);
        var next := AdjustPool(pools, (r.pool, r.epoch), -r.liability, charge);
        Shifted(done, rest, r, Update(tail, sel, p));
        if next.Success? && Ready(all[|done| := r], next.value) {
          ReleaseKeepsCounters(done + [r], tail, next.value, sel, p, charge);
        }
        var others := if next.Success? then ReleaseRows(next.value, Selected(tail, sel), charge) else next;
        ReleaseThen(all, pools, |done|, r, last, charge, others);
      } else {
        Shifted(done, rest, x, Update(tail, sel, p));
        assert all[|done| := x] == all;
        ReleaseKeepsCounters(done + [x], tail, pools, sel, p, charge);
        assert Selected(rest, sel) == Selected(tail, sel);
      }
    }
  }
}
