/**
What the tables say about the past: budgets, adopted consumption and the epochs
each group spans are exactly what the run's history makes them.
*/
module Accounts {
  import opened Results
  import opened ReservationState
  import opened Tables
  import opened Trust
  import opened Transactions
  import opened LedgerInvariant
  import opened GroupTransitions
  import opened AdmissionRule
  import opened DailyRollover
  import opened Recovery
  import opened Runs

  /** Each budget is what it was verified with, less every liability reserved
      against it since. */
  predicate BudgetsSpent(safety: map<string, SafetyInput>, spent: map<string, int>) {
    forall k | k in safety :: k in spent && safety[k].budgetRemaining == safety[k].budgetInitial - spent[k]
  }

  /** Consumption is the rows' charges and what was adopted, nothing else. */
  predicate AdoptionsKept(db: Tables, h: History) {
    && (forall key | key in db.pools :: Adopted(db.rows, db.pools, key) == AdoptedSoFar(h, key))
    && (forall key | key in h.adopted :: key in db.pools)
  }

  predicate Climbs(epochs: seq<int>) {
    forall i, j | 0 <= i < j < |epochs| :: epochs[i] < epochs[j]
  }

  /** Epochs were opened in order, up to the current one, and every pool row is
      of one of them. */
  predicate Opened(db: Tables, epochs: seq<int>) {
    && Climbs(epochs)
    && (forall e | e in epochs :: e <= db.meta.currentEpoch)
    && (forall key | key in db.pools :: key.1 in epochs)
  }

  /** A group has a row in every epoch opened between its first row's and any
      other of its rows'. */
  predicate Spans(rows: seq<Row>, epochs: seq<int>) {
    forall i, e | 0 <= i < |rows| && e in epochs && 1 <= rows[i].root <= |rows|
      && rows[rows[i].root - 1].epoch <= e <= rows[i].epoch :: InEpoch(rows, rows[i].root, e)
  }

  predicate Recorded(w: World) {
    && Sane(w)
    && BudgetsSpent(w.db.safety, w.hist.spent)
    && AdoptionsKept(w.db, w.hist)
    && Opened(w.db, w.hist.epochs)
    && Spans(w.db.rows, w.hist.epochs)
  }

  // ---------------------------------------------------------------------
  // One step.

  predicate SamePlaces(rows: seq<Row>, later: seq<Row>) {
    && |later| == |rows|
    && forall i | 0 <= i < |rows| :: later[i].root == rows[i].root && later[i].epoch == rows[i].epoch
  }

  lemma SpansStay(rows: seq<Row>, later: seq<Row>, epochs: seq<int>)
    requires Spans(rows, epochs) && SamePlaces(rows, later)
    ensures Spans(later, epochs)
  {
  }

  /** Steps that move rows in place, keeping counters' adopted part. */
  lemma InPlace(w: World, after: World)
    requires Recorded(w) && Sane(after) && after.hist == w.hist
    requires SamePlaces(w.db.rows, after.db.rows) && after.db.safety == w.db.safety
    requires Follows(w.db.rows, w.db.pools, after.db.rows, after.db.pools)
    requires after.db.meta.currentEpoch == w.db.meta.currentEpoch
    ensures Recorded(after)
  {
    SpansStay(w.db.rows, after.db.rows, w.hist.epochs);
  }

  lemma MovedInPlace(rows: seq<Row>, later: seq<Row>, id: int, p: Patch)
    requires Moved(rows, later, id, p)
    ensures SamePlaces(rows, later)
  {
  }

  lemma FollowsItself(rows: seq<Row>, pools: map<Key, Counters>)
    ensures Follows(rows, pools, rows, pools) && SamePlaces(rows, rows)
  {
  }

  lemma GroupInPlace(w: World, c: Command)
    requires Sane(w) && IsGroupCommand(c)
    ensures var after := Do(w, c);
            && after.hist == w.hist && after.db.safety == w.db.safety
            && SamePlaces(w.db.rows, after.db.rows) == true
            && Follows(w.db.rows, w.db.pools, after.db.rows, after.db.pools) == true
            && after.db.meta.currentEpoch == w.db.meta.currentEpoch
  {
    GroupKeeps(w, c);
    var move := GroupCommand(w, c);
    if move.Some? {
      MovedInPlace(w.db.rows, Do(w, c).db.rows, move.value.0, move.value.1);
    } else {
      FollowsItself(w.db.rows, w.db.pools);
    }
  }

  lemma GroupRecorded(w: World, c: Command)
    requires Recorded(w) && IsGroupCommand(c)
    ensures Recorded(Do(w, c))
  {
    GroupInPlace(w, c);
    assert Sane(Do(w, c)) by {
      StepKeeps(w, c);
    }
    InPlace(w, Do(w, c));
  }

  lemma OpenRecorded(w: World)
    requires Recorded(w)
    ensures Recorded(Do(w, Open))
  {
    RestartKept(w);
    InPlace(w, Do(w, Open));
  }

  lemma DispatchInPlace(db: Tables, id: int, mark: HighWaterMark)
    requires Valid(db) && DispatchMark(db, id) == Success(mark)
    ensures CommitDispatch(db, id, mark).Success?
    ensures var after := CommitDispatch(db, id, mark).value;
            && after.safety == db.safety && after.meta.currentEpoch == db.meta.currentEpoch
            && SamePlaces(db.rows, after.rows) == true
            && Follows(db.rows, db.pools, after.rows, after.pools) == true
  {
    DispatchParts(db, id, mark);
    MovedInPlace(db.rows, CommitDispatch(db, id, mark).value.rows, id, Relabel(Dispatching, None));
  }

  lemma BeginInPlace(w: World, c: Command)
    requires Sane(w) && c.Begin?
    ensures var after := Do(w, c);
            && after.hist == w.hist.(begun := after.hist.begun) && after.db.safety == w.db.safety
            && SamePlaces(w.db.rows, after.db.rows) == true
            && Follows(w.db.rows, w.db.pools, after.db.rows, after.db.pools) == true
            && after.db.meta.currentEpoch == w.db.meta.currentEpoch
  {
    var mark := DispatchMark(w.db, c.id);
    FollowsItself(w.db.rows, w.db.pools);
    if mark.Success? {
      DispatchInPlace(w.db, c.id, mark.value);
    }
  }

  lemma BeginRecorded(w: World, c: Command)
    requires Recorded(w) && c.Begin?
    ensures Recorded(Do(w, c))
  {
    BeginInPlace(w, c);
    assert Sane(Do(w, c)) by {
      BeginKept(w, c);
    }
    InPlace(w, Do(w, c).(hist := w.hist));
  }

  lemma AdoptRecorded(w: World, c: Command)
    requires Recorded(w) && c.Adopt?
    ensures Recorded(Do(w, c))
  {
    AdoptKept(w, c);
    if Anchor(w.db.meta, w.ext).Success? {
      AdoptionSound(w.db, c.adoptions, Anchor(w.db.meta, w.ext).value);
    }
  }

  lemma SpansOneMore(rows: seq<Row>, r: Row, epochs: seq<int>)
    requires Spans(rows, epochs) && r.root == |rows| + 1
    requires forall i | 0 <= i < |rows| :: rows[i].root <= |rows|
    ensures Spans(rows + [r], epochs)
  {
    var after := rows + [r];
    forall i, e | 0 <= i < |after| && e in epochs && 1 <= after[i].root <= |after|
      && after[after[i].root - 1].epoch <= e <= after[i].epoch ensures InEpoch(after, after[i].root, e)
    {
      if i < |rows| {
        assert InEpoch(rows, rows[i].root, e);
        var j :| 0 <= j < |rows| && rows[j].root == rows[i].root && rows[j].epoch == e;
        assert after[j] == rows[j];
      } else {
        assert after[|rows|].epoch == e;
      }
    }
  }

  lemma AdmitRecorded(w: World, c: Command)
    requires Recorded(w) && c.Admit?
    ensures Recorded(Do(w, c))
  {
    var after := Do(w, c);
    if after != w {
      assert Reserves(w.db, c.request, after.db) && Valid(after.db) by {
        ReserveSound(w.db, c.request, c.now);
      }
      AdmitSpans(w, after.db, c.request);
      AdmitSpends(w, after, c.request);
    }
  }

  lemma AdmitSpends(w: World, after: World, request: Request)
    requires BudgetsSpent(w.db.safety, w.hist.spent) && Reserves(w.db, request, after.db)
    requires after.hist.spent == map k | k in w.hist.spent ::
               w.hist.spent[k] + if k in request.required then request.liability else 0
    ensures BudgetsSpent(after.db.safety, after.hist.spent)
  {
  }

  lemma AdmitSpans(w: World, after: Tables, request: Request)
    requires Recorded(w) && Reserves(w.db, request, after)
    ensures Spans(after.rows, w.hist.epochs)
  {
    var rows := w.db.rows;
    assert after.rows == rows + [after.rows[|rows|]];
    forall i | 0 <= i < |rows| ensures rows[i].root <= |rows| {
      assert Placed(rows, i, w.db.meta.currentEpoch);
    }
    SpansOneMore(rows, after.rows[|rows|], w.hist.epochs);
  }

  lemma {:induction false} LiveAt(rows: seq<Row>, current: int, k: nat) returns (j: nat)
    requires k < |Live(rows, current)|
    ensures j < |rows| && rows[j] == Live(rows, current)[k] && rows[j].epoch == current && IsActive(rows[j].state)
  {
    var r := Live(rows, current)[k];
    LiveMembers(rows, current);
    assert r in Live(rows, current);
    j :| 0 <= j < |rows| && rows[j] == r;
  }

  lemma RollSpans(rows: seq<Row>, epochs: seq<int>, current: int, epoch: int)
    requires RowsOk(rows, current) && Spans(rows, epochs) && current < epoch
    requires forall e | e in epochs :: e <= current
    ensures Spans(rows + Shadows(Live(rows, current), |rows|, epoch), epochs + [epoch])
  {
    var after := rows + Shadows(Live(rows, current), |rows|, epoch);
    forall i, e | 0 <= i < |after| && e in epochs + [epoch] && 1 <= after[i].root <= |after|
      && after[after[i].root - 1].epoch <= e <= after[i].epoch ensures InEpoch(after, after[i].root, e)
    {
      if e == after[i].epoch {
        assert after[i].root == after[i].root;
      } else {
        var j: nat := i;
        if i >= |rows| {
          j := LiveAt(rows, current, i - |rows|);
        }
        assert Placed(rows, j, current);
        assert e in epochs && after[rows[j].root - 1] == rows[rows[j].root - 1];
        StillIn(rows, after, j, e, epochs);
      }
    }
  }

  lemma StillIn(rows: seq<Row>, after: seq<Row>, j: nat, e: int, epochs: seq<int>)
    requires Spans(rows, epochs) && j < |rows| && e in epochs && 1 <= rows[j].root <= |rows|
    requires rows[rows[j].root - 1].epoch <= e <= rows[j].epoch
    requires |rows| <= |after| && rows == after[..|rows|]
    ensures InEpoch(after, rows[j].root, e)
  {
  }

  lemma RollRecorded(w: World, c: Command)
    requires Recorded(w) && c.RollTo?
    ensures Recorded(Do(w, c))
    ensures c.epoch <= w.db.meta.currentEpoch ==> Do(w, c) == w
  {
    if Do(w, c) != w {
      assert Advances(w.db, c.epoch, c.grants, Do(w, c).db) && Valid(Do(w, c).db) by {
        RolloverSound(w.db, c.epoch, c.grants);
      }
      RollSpans(w.db.rows, w.hist.epochs, w.db.meta.currentEpoch, c.epoch);
      RollAdoptions(w, c.epoch, c.grants, Do(w, c).db);
      RollOpened(w.db, c.epoch, c.grants, Do(w, c).db, w.hist.epochs);
    }
  }

  lemma RollOpened(db: Tables, epoch: int, grants: seq<(string, nat)>, after: Tables, epochs: seq<int>)
    requires Opened(db, epochs) && db.meta.currentEpoch < epoch && Advances(db, epoch, grants, after)
    ensures Opened(after, epochs + [epoch])
  {
    forall i | 0 <= i < |epochs| ensures epochs[i] < epoch {
      assert epochs[i] in epochs;
    }
    forall key | key in after.pools ensures key.1 in epochs + [epoch] {
      if key in db.pools {
        assert key.1 in epochs;
      }
    }
  }

  lemma RollAdoptions(w: World, epoch: int, grants: seq<(string, nat)>, after: Tables)
    requires AdoptionsKept(w.db, w.hist) && Advances(w.db, epoch, grants, after)
    ensures AdoptionsKept(after, w.hist)
  {
  }

  lemma StepRecorded(w: World, c: Command)
    requires Recorded(w)
    ensures Recorded(Do(w, c))
  {
    if IsGroupCommand(c) {
      GroupRecorded(w, c);
    } else if c.Open? {
      OpenRecorded(w);
    } else if c.Admit? {
      AdmitRecorded(w, c);
    } else if c.Begin? {
      BeginRecorded(w, c);
    } else if c.Adopt? {
      AdoptRecorded(w, c);
    } else if c.RollTo? {
      RollRecorded(w, c);
    } else {
      OtherKept(w, c);
    }
  }

  lemma {:induction false} RunRecorded(w: World, cs: seq<Command>)
    requires Recorded(w)
    ensures Recorded(Run(w, cs))
    decreases |cs|
  {
    if |cs| != 0 {
      StepRecorded(w, cs[0]);
      RunRecorded(Do(w, cs[0]), cs[1..]);
    }
  }

  // ---------------------------------------------------------------------
  // Over every run.

  /** The stored figures are what the history makes them: `reserved` the active
      liabilities, `consumed` the rows' charges plus what was adopted, and each
      budget its initial value less what was reserved since it was verified. */
  lemma FiguresFollowHistory(cs: seq<Command>)
    ensures var w := Run(INITIAL, cs);
            && (forall key | key in w.db.pools ::
                  && w.db.pools[key].reserved == Total(w.db.rows, key, Held)
                  && w.db.pools[key].consumed == Total(w.db.rows, key, Charged) + AdoptedSoFar(w.hist, key))
            && BudgetsSpent(w.db.safety, w.hist.spent)
  {
    RunRecorded(INITIAL, cs);
    var w := Run(INITIAL, cs);
    forall key | key in w.db.pools ensures w.db.pools[key].reserved == Total(w.db.rows, key, Held) {
      assert PoolOk(w.db.rows, w.db.pools, key);
    }
  }

  /** The rows of one group agree, and no two of them share an epoch. */
  predicate GroupSound(rows: seq<Row>, i: nat, j: nat)
    requires i < |rows| && j < |rows|
  {
    rows[i].root == rows[j].root ==>
      && rows[j] == rows[i].(id := rows[j].id, epoch := rows[j].epoch)
      && (rows[i].epoch == rows[j].epoch ==> i == j)
  }

  /** Row `i`'s group has a row in epoch `e` just when it had been admitted by
      then. */
  predicate InItsEpochs(rows: seq<Row>, i: nat, e: int)
    requires i < |rows|
  {
    && 1 <= rows[i].root <= |rows|
    && (InEpoch(rows, rows[i].root, e) <==> rows[rows[i].root - 1].epoch <= e)
  }

  /** Carry structure, in every reachable ledger: rows of a group differ in
      nothing but id and epoch, and an active group has a row in exactly those
      opened epochs that are not before its own, skipped days left out. */
  lemma CarryStructure(cs: seq<Command>)
    ensures var w := Run(INITIAL, cs);
            var rows, epochs := w.db.rows, w.hist.epochs;
            && Climbs(epochs)
            && (forall i: nat, j: nat | i < |rows| && j < |rows| :: GroupSound(rows, i, j))
            && (forall i: nat | i < |rows| :: rows[i].epoch in epochs)
            && (forall i: nat, e | i < |rows| && IsActive(rows[i].state) && e in epochs :: InItsEpochs(rows, i, e))
  {
    RunRecorded(INITIAL, cs);
    var w := Run(INITIAL, cs);
    forall i: nat | i < |w.db.rows| ensures w.db.rows[i].epoch in w.hist.epochs {
      assert (w.db.rows[i].pool, w.db.rows[i].epoch) in w.db.pools;
    }
    forall i: nat, j: nat | i < |w.db.rows| && j < |w.db.rows| ensures GroupSound(w.db.rows, i, j) {
      OneGroup(w.db.rows, i, j, w.db.meta.currentEpoch);
    }
    forall i: nat, e | i < |w.db.rows| && IsActive(w.db.rows[i].state) && e in w.hist.epochs
      ensures InItsEpochs(w.db.rows, i, e)
    {
      ActiveSpans(w.db.rows, w.hist.epochs, w.db.meta.currentEpoch, i, e);
    }
  }

  lemma OneGroup(rows: seq<Row>, i: nat, j: nat, current: int)
    requires RowsOk(rows, current) && i < |rows| && j < |rows|
    ensures GroupSound(rows, i, j)
  {
    if rows[i].root == rows[j].root {
      SameGroup(rows, j, i, current);
      assert i < j || j < i || i == j;
    }
  }

  lemma ActiveSpans(rows: seq<Row>, epochs: seq<int>, current: int, i: nat, e: int)
    requires RowsOk(rows, current) && CarriedTo(rows, current) && Spans(rows, epochs)
    requires i < |rows| && IsActive(rows[i].state) && e in epochs && e <= current
    ensures InItsEpochs(rows, i, e)
  {
    assert Placed(rows, i, current);
    var head := rows[i].root - 1;
    if rows[head].epoch <= e {
      assert InEpoch(rows, rows[i].root, current);
      var j :| 0 <= j < |rows| && rows[j].root == rows[i].root && rows[j].epoch == current;
      assert InEpoch(rows, rows[j].root, e);
    }
    if InEpoch(rows, rows[i].root, e) {
      var j :| 0 <= j < |rows| && rows[j].root == rows[i].root && rows[j].epoch == e;
      HeadIsFirst(rows, j, current);
    }
  }

  lemma HeadIsFirst(rows: seq<Row>, j: nat, current: int)
    requires RowsOk(rows, current) && j < |rows|
    ensures 1 <= rows[j].root <= j + 1 && rows[rows[j].root - 1].epoch <= rows[j].epoch
  {
    assert Placed(rows, j, current);
    var head := rows[j].root - 1;
    assert rows[head].root == rows[j].root;
    assert head < j ==> rows[head].epoch < rows[j].epoch;
  }
}
