/**
A list of requests, each with the epochs it spans, and how the reservation rows
stand for it: what they add up to, and how they change.
*/
module GhostModel {
  import opened Results
  import opened ReservationState
  import opened Tables
  import opened Trust
  import opened Transactions
  import opened LedgerInvariant
  import opened GroupTransitions
  import opened AdmissionRule
  import opened DailyRollover
  import opened Recovery
  import opened Runs

  datatype Ghost = Ghost(
    id: int,
    pool: string,
    liability: int,
    epochs: seq<int>,
    state: State,
    settled: Option<int>,
    model: string,
    tier: string,
    rev: int)

  function GhostOf(r: Row): Ghost {
    Ghost(r.id, r.pool, r.liability, [r.epoch], r.state, r.settled, r.model, r.tier, r.rev)
  }

  function AddEpoch(g: Ghost, epoch: int): Ghost {
    g.(epochs := g.epochs + [epoch])
  }

  /** The request list the rows stand for. */
  function Abs(rows: seq<Row>): seq<Ghost> {
    if |rows| == 0 then []
    else
      var earlier, r := Abs(rows[..|rows| - 1]), rows[|rows| - 1];
      if r.root == r.id then earlier + [GhostOf(r)] else Extended(earlier, r.root, r.epoch)
  }

  function Extended(requests: seq<Ghost>, id: int, epoch: int): (more: seq<Ghost>)
    ensures |more| == |requests|
    ensures forall k | 0 <= k < |requests| ::
              more[k] == if requests[k].id == id then AddEpoch(requests[k], epoch) else requests[k]
  {
    seq(|requests|, k requires 0 <= k < |requests| =>
      if requests[k].id == id then AddEpoch(requests[k], epoch) else requests[k])
  }

  /** What a request adds to one pool and epoch. */
  function GhostShare(g: Ghost, key: Key, m: Measure): int {
    if g.pool == key.0 && key.1 in g.epochs then Weight(RowOf(g), m) else 0
  }

  function RowOf(g: Ghost): Row {
    Row(g.id, g.id, g.pool, 0, g.state, g.liability, g.settled, None, "", g.model, g.tier, g.rev, 0)
  }

  function GhostTotal(requests: seq<Ghost>, key: Key, m: Measure): int {
    if |requests| == 0 then 0 else GhostShare(requests[0], key, m) + GhostTotal(requests[1..], key, m)
  }

  // ---------------------------------------------------------------------
  // The abstraction reads the rows right.

  /** Request `k` is the group whose first row has its id, and spans exactly
      the epochs that group has rows in. */
  ghost predicate Reads(rows: seq<Row>, g: Ghost) {
    && 1 <= g.id <= |rows|
    && rows[g.id - 1].root == g.id
    && g.(epochs := [rows[g.id - 1].epoch]) == GhostOf(rows[g.id - 1])
    && forall e :: e in g.epochs <==> InEpoch(rows, g.id, e)
  }

  ghost predicate ReadsEach(rows: seq<Row>, requests: seq<Ghost>) {
    forall k | 0 <= k < |requests| :: Reads(rows, requests[k])
  }

  predicate IdsAscend(requests: seq<Ghost>) {
    forall j, k | 0 <= j < k < |requests| :: requests[j].id < requests[k].id
  }

  predicate Listed(requests: seq<Ghost>, id: int) {
    exists k | 0 <= k < |requests| :: requests[k].id == id
  }

  predicate NoneMissed(rows: seq<Row>, requests: seq<Ghost>) {
    forall i | 0 <= i < |rows| && rows[i].root == i + 1 :: Listed(requests, i + 1)
  }

  /** The request list has one request per group, in order of admission, each
      read off its group's rows. */
  ghost predicate ReadsAll(rows: seq<Row>, requests: seq<Ghost>) {
    ReadsEach(rows, requests) && IdsAscend(requests) && NoneMissed(rows, requests)
  }

  lemma PrefixOk(rows: seq<Row>, n: nat, current: int)
    requires RowsOk(rows, current) && n <= |rows|
    ensures RowsOk(rows[..n], current)
  {
    forall i | 0 <= i < n ensures Placed(rows[..n], i, current) {
      assert Placed(rows, i, current);
    }
  }

  lemma InEpochPrefix(rows: seq<Row>, n: nat, root: int, e: int)
    requires n + 1 == |rows|
    ensures InEpoch(rows, root, e) <==> InEpoch(rows[..n], root, e) || (rows[n].root == root && rows[n].epoch == e)
  {
  }

  lemma {:induction false} AbsReads(rows: seq<Row>, current: int)
    requires RowsOk(rows, current)
    ensures ReadsAll(rows, Abs(rows))
  {
    if |rows| != 0 {
      var n := |rows| - 1;
      PrefixOk(rows, n, current);
      AbsReads(rows[..n], current);
      assert Placed(rows, n, current);
      if rows[n].root == rows[n].id {
        FirstReads(rows, current);
        HeadRead(rows, Abs(rows[..n]), GhostOf(rows[n]));
      } else {
        ShadowRead(rows, Abs(rows[..n]));
      }
    }
  }

  /** A new group's first row adds a request at the end. */
  lemma HeadRead(rows: seq<Row>, earlier: seq<Ghost>, g: Ghost)
    requires |rows| > 0 && ReadsAll(rows[..|rows| - 1], earlier)
    requires g.id == |rows| && Reads(rows, g) && rows[|rows| - 1].root == g.id
    ensures ReadsAll(rows, earlier + [g])
  {
    var n, requests := |rows| - 1, earlier + [g];
    forall k | 0 <= k < |requests| ensures Reads(rows, requests[k]) {
      if k < |earlier| {
        assert Reads(rows[..n], earlier[k]);
        StillReads(rows, earlier[k], earlier[k]);
      }
    }
    forall k | 0 <= k < |earlier| ensures earlier[k].id < g.id {
      assert Reads(rows[..n], earlier[k]);
    }
    assert IdsAscend(requests);
    StillListed(rows, earlier, requests);
    assert requests[|earlier|].id == n + 1;
  }

  /** A carried row extends its group's request. */
  lemma ShadowRead(rows: seq<Row>, earlier: seq<Ghost>)
    requires |rows| > 0 && ReadsAll(rows[..|rows| - 1], earlier)
    requires rows[|rows| - 1].root != |rows|
    ensures ReadsAll(rows, Extended(earlier, rows[|rows| - 1].root, rows[|rows| - 1].epoch))
  {
  }

  /** Requests that keep their ids still account for the rows before the last. */
  lemma StillListed(rows: seq<Row>, earlier: seq<Ghost>, requests: seq<Ghost>)
    requires |rows| > 0 && NoneMissed(rows[..|rows| - 1], earlier) && |earlier| <= |requests|
    requires forall k | 0 <= k < |earlier| :: requests[k].id == earlier[k].id
    ensures forall i | 0 <= i < |rows| - 1 && rows[i].root == i + 1 :: Listed(requests, i + 1)
  {
  }

  lemma StillReads(rows: seq<Row>, g: Ghost, after: Ghost)
    requires |rows| > 0 && Reads(rows[..|rows| - 1], g)
    requires var r := rows[|rows| - 1]; after == if r.root == g.id then AddEpoch(g, r.epoch) else g
    ensures Reads(rows, after)
  {
    var n := |rows| - 1;
    assert rows[..n][g.id - 1] == rows[g.id - 1];
    forall e ensures e in after.epochs <==> InEpoch(rows, g.id, e) {
      InEpochPrefix(rows, n, g.id, e);
    }
  }

  lemma FirstReads(rows: seq<Row>, current: int)
    requires RowsOk(rows, current) && |rows| > 0 && rows[|rows| - 1].root == rows[|rows| - 1].id
    ensures Reads(rows, GhostOf(rows[|rows| - 1]))
  {
    var n := |rows| - 1;
    var r := rows[n];
    assert Placed(rows, n, current);
    forall e ensures e == r.epoch <==> InEpoch(rows, r.id, e) {
      forall i | 0 <= i < n ensures rows[..n][i].root != r.id {
        assert Placed(rows, i, current);
      }
      InEpochPrefix(rows, n, r.id, e);
    }
  }

  // ---------------------------------------------------------------------
  // The rows add up to what the requests do.

  lemma {:induction false} GhostTotalAppend(requests: seq<Ghost>, g: Ghost, key: Key, m: Measure)
    ensures GhostTotal(requests + [g], key, m) == GhostTotal(requests, key, m) + GhostShare(g, key, m)
  {
    if |requests| == 0 {
      assert requests + [g] == [g] && [g][1..] == [];
    } else {
      assert (requests + [g])[1..] == requests[1..] + [g];
      GhostTotalAppend(requests[1..], g, key, m);
    }
  }

  lemma {:induction false} GhostTotalUpdate(requests: seq<Ghost>, k: nat, g: Ghost, key: Key, m: Measure)
    requires k < |requests|
    ensures GhostTotal(requests[k := g], key, m) ==
            GhostTotal(requests, key, m) - GhostShare(requests[k], key, m) + GhostShare(g, key, m)
  {
    if k == 0 {
      assert requests[0 := g][1..] == requests[1..];
    } else {
      assert requests[k := g][1..] == requests[1..][k - 1 := g];
      GhostTotalUpdate(requests[1..], k - 1, g, key, m);
    }
  }

  /** Summing over rows and summing over requests agree, for every measure. */
  lemma {:induction false} TotalsAgree(rows: seq<Row>, current: int, key: Key, m: Measure)
    requires RowsOk(rows, current)
    ensures GhostTotal(Abs(rows), key, m) == Total(rows, key, m)
  {
    if |rows| != 0 {
      var n := |rows| - 1;
      PrefixOk(rows, n, current);
      TotalsAgree(rows[..n], current, key, m);
      LastCounts(rows, key, m);
      if rows[n].root == rows[n].id {
        GhostTotalAppend(Abs(rows[..n]), GhostOf(rows[n]), key, m);
      } else {
        AbsReads(rows[..n], current);
        ShadowCounts(rows, Abs(rows[..n]), current, key, m);
      }
    }
  }

  lemma LastCounts(rows: seq<Row>, key: Key, m: Measure)
    requires |rows| > 0
    ensures Total(rows, key, m) == Total(rows[..|rows| - 1], key, m) + Share(rows[|rows| - 1], key, m)
  {
    assert rows == rows[..|rows| - 1] + [rows[|rows| - 1]];
    NewRowTotals(rows[..|rows| - 1], rows[|rows| - 1]);
  }

  lemma ShadowCounts(rows: seq<Row>, earlier: seq<Ghost>, current: int, key: Key, m: Measure)
    requires RowsOk(rows, current) && |rows| > 0 && rows[|rows| - 1].root != rows[|rows| - 1].id
    requires ReadsAll(rows[..|rows| - 1], earlier)
    ensures var r := rows[|rows| - 1];
            GhostTotal(Extended(earlier, r.root, r.epoch), key, m) == GhostTotal(earlier, key, m) + Share(r, key, m)
  {
    var r := rows[|rows| - 1];
    var k := OwnerOf(rows, earlier, current);
    OneExtended(earlier, k, r.epoch);
    GhostTotalUpdate(earlier, k, AddEpoch(earlier[k], r.epoch), key, m);
    EpochCounts(earlier[k], r, key, m);
  }

  /** A carried row belongs to a request that did not span its epoch. */
  lemma OwnerOf(rows: seq<Row>, earlier: seq<Ghost>, current: int) returns (k: nat)
    requires RowsOk(rows, current) && |rows| > 0 && rows[|rows| - 1].root != rows[|rows| - 1].id
    requires ReadsAll(rows[..|rows| - 1], earlier)
    ensures var r := rows[|rows| - 1];
            && k < |earlier| && earlier[k].id == r.root && IdsAscend(earlier)
            && r.epoch !in earlier[k].epochs
            && GhostOf(r) == earlier[k].(id := r.id, epochs := [r.epoch])
  {
    var n := |rows| - 1;
    var before, r := rows[..n], rows[n];
    assert Placed(rows, n, current);
    assert before[r.root - 1] == rows[r.root - 1];
    assert Placed(rows, r.root - 1, current);
    assert Listed(earlier, r.root);
    k :| 0 <= k < |earlier| && earlier[k].id == r.root;
    assert Reads(before, earlier[k]);
    assert rows == before + [r];
    NotYetIn(before, r);
  }

  lemma OneExtended(requests: seq<Ghost>, k: nat, epoch: int)
    requires IdsAscend(requests) && k < |requests|
    ensures Extended(requests, requests[k].id, epoch) == requests[k := AddEpoch(requests[k], epoch)]
  {
  }

  lemma EpochCounts(g: Ghost, r: Row, key: Key, m: Measure)
    requires r.epoch !in g.epochs && GhostOf(r) == g.(id := r.id, epochs := [r.epoch])
    ensures GhostShare(AddEpoch(g, r.epoch), key, m) == GhostShare(g, key, m) + Share(r, key, m)
  {
  }

  lemma NotYetIn(before: seq<Row>, r: Row)
    requires EpochsAscend(before + [r])
    ensures !InEpoch(before, r.root, r.epoch)
  {
    var rows := before + [r];
    forall i | 0 <= i < |before| && before[i].root == r.root ensures before[i].epoch != r.epoch {
      assert rows[i] == before[i] && rows[|before|] == r;
    }
  }

  // ---------------------------------------------------------------------
  // How the list changes with the rows.

  function GhostPatched(g: Ghost, p: Patch): Ghost {
    match p
    case Finish(target, settled) => g.(state := target, settled := settled)
    case Relabel(target, _) => g.(state := target)
  }

  /** The changes that leave every request's epochs alone. */
  datatype Change = Move(id: int, patch: Patch) | Resume(assessment: Assessment)

  function Changed(g: Ghost, c: Change): Ghost {
    match c
    case Move(id, p) => if g.id == id then GhostPatched(g, p) else g
    case Resume(a) => g.(state := Restarted(RowOf(g), a))
  }

  function ChangedAll(requests: seq<Ghost>, c: Change): (changed: seq<Ghost>)
    ensures |changed| == |requests| && forall k | 0 <= k < |requests| :: changed[k] == Changed(requests[k], c)
  {
    seq(|requests|, k requires 0 <= k < |requests| => Changed(requests[k], c))
  }

  /** `later` changes each row as `c` changes the request it belongs to. */
  predicate RowsChange(rows: seq<Row>, later: seq<Row>, c: Change) {
    && |later| == |rows|
    && forall i | 0 <= i < |rows| ::
         && (later[i].id, later[i].root, later[i].epoch) == (rows[i].id, rows[i].root, rows[i].epoch)
         && (rows[i].root == rows[i].id ==> GhostOf(later[i]) == Changed(GhostOf(rows[i]), c))
  }

  lemma {:induction false} AbsChanges(rows: seq<Row>, later: seq<Row>, c: Change)
    requires RowsChange(rows, later, c)
    ensures Abs(later) == ChangedAll(Abs(rows), c)
  {
    if |rows| != 0 {
      AbsChanges(rows[..|rows| - 1], later[..|rows| - 1], c);
    }
  }

  lemma {:induction false} AbsShadows(rows: seq<Row>, live: seq<Row>, epoch: int)
    requires forall i | 0 <= i < |live| :: live[i].root <= |rows|
    ensures Abs(rows + Shadows(live, |rows|, epoch)) == ExtendedAll(Abs(rows), live, epoch)
    decreases live
  {
    if |live| == 0 {
      assert rows + Shadows(live, |rows|, epoch) == rows;
    } else {
      var copy := live[0].(id := |rows| + 1, epoch := epoch, settled := None);
      ShadowsShift(rows, live, epoch);
      assert (rows + [copy])[..|rows|] == rows;
      AbsShadows(rows + [copy], live[1..], epoch);
    }
  }

  function ExtendedAll(requests: seq<Ghost>, live: seq<Row>, epoch: int): (more: seq<Ghost>)
    ensures |more| == |requests|
    decreases live
  {
    if |live| == 0 then requests else ExtendedAll(Extended(requests, live[0].root, epoch), live[1..], epoch)
  }

  lemma {:induction false} ExtendsOnce(requests: seq<Ghost>, live: seq<Row>, epoch: int, k: nat)
    requires DistinctRoots(live) && k < |requests|
    ensures ExtendedAll(requests, live, epoch)[k] ==
            if exists r | r in live :: r.root == requests[k].id then AddEpoch(requests[k], epoch) else requests[k]
    decreases live
  {
    if |live| != 0 {
      assert live == [live[0]] + live[1..];
      ExtendsOnce(Extended(requests, live[0].root, epoch), live[1..], epoch, k);
    }
  }

  /** The active requests gain the new epoch; the others keep theirs. */
  function Rolled(requests: seq<Ghost>, epoch: int): seq<Ghost> {
    seq(|requests|, k requires 0 <= k < |requests| =>
      if IsActive(requests[k].state) then AddEpoch(requests[k], epoch) else requests[k])
  }

  lemma LiveRootsExist(rows: seq<Row>, current: int)
    requires RowsOk(rows, current)
    ensures forall i | 0 <= i < |Live(rows, current)| :: Live(rows, current)[i].root <= |rows|
  {
    var live := Live(rows, current);
    LiveMembers(rows, current);
    forall i | 0 <= i < |live| ensures live[i].root <= |rows| {
      assert live[i] in live;
      var j :| 0 <= j < |rows| && rows[j] == live[i];
      assert Placed(rows, j, current);
    }
  }

  lemma AbsRolls(db: Tables, epoch: int)
    requires Valid(db)
    ensures var live := Live(db.rows, db.meta.currentEpoch);
            Abs(db.rows + Shadows(live, |db.rows|, epoch)) == Rolled(Abs(db.rows), epoch)
  {
    var live := Live(db.rows, db.meta.currentEpoch);
    LiveRootsExist(db.rows, db.meta.currentEpoch);
    AbsShadows(db.rows, live, epoch);
    LiveDistinct(db.rows, db.meta.currentEpoch);
    AbsReads(db.rows, db.meta.currentEpoch);
    forall k: nat | k < |Abs(db.rows)|
      ensures ExtendedAll(Abs(db.rows), live, epoch)[k] == Rolled(Abs(db.rows), epoch)[k]
    {
      RollsOne(db, Abs(db.rows), live, epoch, k);
    }
  }

  lemma RollsOne(db: Tables, requests: seq<Ghost>, live: seq<Row>, epoch: int, k: nat)
    requires Valid(db) && live == Live(db.rows, db.meta.currentEpoch) && DistinctRoots(live)
    requires k < |requests| && Reads(db.rows, requests[k])
    ensures ExtendedAll(requests, live, epoch)[k] == Rolled(requests, epoch)[k]
  {
    ExtendsOnce(requests, live, epoch, k);
    LiveIffActive(db, requests[k]);
  }

  lemma ActiveIsLive(rows: seq<Row>, current: int, id: int)
    requires RowsOk(rows, current) && CarriedTo(rows, current)
    requires 1 <= id <= |rows| && rows[id - 1].root == id && IsActive(rows[id - 1].state)
    ensures exists r | r in Live(rows, current) :: r.root == id
  {
    LiveMembers(rows, current);
    assert InEpoch(rows, rows[id - 1].root, current);
    var j :| 0 <= j < |rows| && rows[j].root == id && rows[j].epoch == current;
    SameGroup(rows, j, id - 1, current);
    assert rows[j] in Live(rows, current);
  }

  lemma LiveIsActive(rows: seq<Row>, current: int, r: Row)
    requires RowsOk(rows, current) && r in Live(rows, current)
    ensures 1 <= r.root <= |rows| && rows[r.root - 1].root == r.root && IsActive(rows[r.root - 1].state)
  {
    LiveMembers(rows, current);
    var j :| 0 <= j < |rows| && rows[j] == r;
    assert Placed(rows, j, current);
  }

  lemma LiveIffActive(db: Tables, g: Ghost)
    requires Valid(db) && Reads(db.rows, g)
    ensures IsActive(g.state) <==> exists r | r in Live(db.rows, db.meta.currentEpoch) :: r.root == g.id
  {
    if IsActive(g.state) {
      ActiveIsLive(db.rows, db.meta.currentEpoch, g.id);
    }
    if r :| r in Live(db.rows, db.meta.currentEpoch) && r.root == g.id {
      LiveIsActive(db.rows, db.meta.currentEpoch, r);
    }
  }

  lemma MoveChanges(rows: seq<Row>, later: seq<Row>, id: int, p: Patch, current: int)
    requires RowsOk(rows, current) && Moved(rows, later, id, p)
    ensures RowsChange(rows, later, Move(rows[id - 1].root, p))
  {
  }
}
