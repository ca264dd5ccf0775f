/**
The two-record protocol: the external mark is written before the ledger
commits, so it never trails the ledger, and a ledger restored from an older
snapshot is either recognised or harmless.
*/
module WriteAhead {
  import opened Results
  import opened ReservationState
  import opened Tables
  import opened Trust
  import opened Transactions
  import opened LedgerInvariant
  import opened GroupTransitions
  import opened AdmissionRule
  import opened DailyRollover
  import opened Recovery
  import opened Runs

  predicate NoReserved(rows: seq<Row>) {
    forall i | 0 <= i < |rows| :: !rows[i].state.Reserved?
  }

  /** The external record is at or ahead of the ledger; before the first write
      the ledger has never advanced. */
  predicate Ahead(w: World) {
    match w.ext
    case Present(mark) =>
      mark.generation >= w.db.meta.generation && mark.cumulative >= w.db.meta.cumulative
    case Absent => w.db.meta.generation == 0 && w.db.meta.cumulative == 0
    case Unreadable => false
  }

  /** A distrusted ledger holds nothing that could be dispatched. */
  predicate Guarded(w: World) {
    if w.trust.Trusted? then w.ext.Present? else NoReserved(w.db.rows)
  }

  /** Groups whose dispatch committed exist, and are neither waiting to be sent
      nor released as unsent. */
  predicate BegunOk(begun: set<int>, rows: seq<Row>) {
    forall root | root in begun :: Begun(rows, root)
  }

  predicate Begun(rows: seq<Row>, root: int) {
    && 1 <= root <= |rows| && rows[root - 1].root == root
    && !rows[root - 1].state.Reserved? && !rows[root - 1].state.ReleasedUnsent?
  }

  predicate Protocol(w: World) {
    Sane(w) && Ahead(w) && Guarded(w) && BegunOk(w.hist.begun, w.db.rows)
  }

  // ---------------------------------------------------------------------
  // One step.

  /** Rows keep their group; none becomes RESERVED, and only RESERVED rows
      become RELEASED_UNSENT. */
  predicate RowsMove(rows: seq<Row>, later: seq<Row>) {
    && |rows| == |later|
    && forall i | 0 <= i < |rows| ::
         && later[i].root == rows[i].root
         && (later[i].state.Reserved? ==> rows[i].state.Reserved?)
         && (later[i].state.ReleasedUnsent? ==> rows[i].state.Reserved? || rows[i].state.ReleasedUnsent?)
  }

  lemma RowsMoveKeeps(begun: set<int>, rows: seq<Row>, later: seq<Row>)
    requires RowsMove(rows, later)
    ensures Grows(rows, later)
    ensures NoReserved(rows) ==> NoReserved(later)
    ensures BegunOk(begun, rows) ==> BegunOk(begun, later)
  {
  }

  lemma PatchMoves(rows: seq<Row>, later: seq<Row>, id: int, p: Patch, current: int)
    requires RowsOk(rows, current) && Moved(rows, later, id, p) && Lawful(rows[id - 1].state, p)
    ensures RowsMove(rows, later)
  {
    forall i | 0 <= i < |rows| && rows[i].root == rows[id - 1].root ensures rows[i].state == rows[id - 1].state {
      SameGroup(rows, i, id - 1, current);
    }
  }

  lemma LawfulCommand(w: World, c: Command)
    requires IsGroupCommand(c) && GroupCommand(w, c).Some?
    ensures var (id, p) := GroupCommand(w, c).value;
            1 <= id <= |w.db.rows| && Lawful(w.db.rows[id - 1].state, p)
  {
  }

  lemma GroupRows(w: World, c: Command)
    requires Sane(w) && IsGroupCommand(c)
    ensures Do(w, c) == w.(db := Do(w, c).db) && Do(w, c).db.meta == w.db.meta
    ensures RowsMove(w.db.rows, Do(w, c).db.rows)
  {
    GroupKeeps(w, c);
    if GroupCommand(w, c).Some? {
      LawfulCommand(w, c);
      var (id, p) := GroupCommand(w, c).value;
      PatchMoves(w.db.rows, Do(w, c).db.rows, id, p, w.db.meta.currentEpoch);
    }
  }

  lemma GroupProtocol(w: World, c: Command)
    requires Protocol(w) && IsGroupCommand(c)
    ensures Protocol(Do(w, c)) && Steady(w, Do(w, c))
  {
    StepKeeps(w, c);
    GroupRows(w, c);
    RowsMoveKeeps(w.hist.begun, w.db.rows, Do(w, c).db.rows);
  }

  /** The durable positions do not move, and rows only gain columns' worth. */
  predicate Steady(w: World, after: World) {
    && after.ext == w.ext && after.trust == w.trust && after.hist.begun == w.hist.begun
    && after.db.meta.generation == w.db.meta.generation && after.db.meta.cumulative == w.db.meta.cumulative
    && Grows(w.db.rows, after.db.rows)
  }

  /** Later tables extend earlier ones: rows keep their group. */
  predicate Grows(rows: seq<Row>, later: seq<Row>) {
    |rows| <= |later| && forall i | 0 <= i < |rows| :: later[i].root == rows[i].root
  }

  lemma RolledRows(rows: seq<Row>, current: int, epoch: int, begun: set<int>)
    ensures var later := rows + Shadows(Live(rows, current), |rows|, epoch);
            && Grows(rows, later)
            && (NoReserved(rows) ==> NoReserved(later))
            && (BegunOk(begun, rows) ==> BegunOk(begun, later))
  {
    var live := Live(rows, current);
    LiveMembers(rows, current);
    forall i | 0 <= i < |live| ensures live[i] in rows {
      assert live[i] in live;
    }
    if BegunOk(begun, rows) {
      forall root | root in begun ensures Begun(rows + Shadows(live, |rows|, epoch), root) {
        assert Begun(rows, root);
      }
    }
  }

  lemma RollProtocol(w: World, c: Command)
    requires Protocol(w) && c.RollTo?
    ensures Protocol(Do(w, c)) && Steady(w, Do(w, c))
  {
    if Do(w, c) != w {
      assert Advances(w.db, c.epoch, c.grants, Do(w, c).db) && Valid(Do(w, c).db) by {
        RolloverSound(w.db, c.epoch, c.grants);
      }
      RolledRows(w.db.rows, w.db.meta.currentEpoch, c.epoch, w.hist.begun);
    }
  }

  lemma AdmitProtocol(w: World, c: Command)
    requires Protocol(w) && c.Admit?
    ensures Protocol(Do(w, c)) && Steady(w, Do(w, c))
    ensures !w.trust.Trusted? ==> Do(w, c) == w
  {
    StepKeeps(w, c);
    ReserveSound(w.db, c.request, c.now);
    var after := Do(w, c);
    forall i | 0 <= i < |w.db.rows| ensures |after.db.rows| > i && after.db.rows[i] == w.db.rows[i] {
      if after != w {
        assert after.db.rows[..|w.db.rows|][i] == after.db.rows[i];
      }
    }
  }

  /** What a dispatch attempt leaves: nothing, the mark alone, or the mark and
      the ledger both one generation on. */
  predicate Dispatches(w: World, after: World) {
    || after == w
    || (w.trust.Trusted? && after.ext.Present?
        && after.ext.mark.generation == w.db.meta.generation + 1
        && after.ext.mark.cumulative >= w.db.meta.cumulative
        && after.trust == w.trust
        && (|| after == w.(ext := after.ext)
            || (&& after.db.meta.generation == after.ext.mark.generation
                && after.db.meta.cumulative == after.ext.mark.cumulative
                && after.hist.begun == w.hist.begun + {after.ext.mark.last}
                && Grows(w.db.rows, after.db.rows))))
  }

  lemma DispatchedRows(rows: seq<Row>, after: seq<Row>, id: int, current: int)
    requires RowsOk(rows, current) && Admits(rows, id, BeginDispatch)
        && Moved(rows, after, id, Relabel(Dispatching, None))
    ensures RowsMove(rows, after) && Begun(after, rows[id - 1].root) && !NoReserved(rows)
  {
    PatchMoves(rows, after, id, Relabel(Dispatching, None), current);
    assert Placed(rows, id - 1, current);
    assert Placed(rows, rows[id - 1].root - 1, current);
  }

  /** The three ends of a dispatch attempt: nothing, the mark alone, or both. */
  lemma BeginEnds(w: World, c: Command)
    requires Sane(w) && c.Begin?
    ensures var mark := DispatchMark(w.db, c.id);
            || Do(w, c) == w
            || (mark.Success? && Do(w, c) == w.(ext := Present(mark.value)))
            || (mark.Success? && CommitDispatch(w.db, c.id, mark.value).Success?
                && Do(w, c) == w.(ext := Present(mark.value), db := CommitDispatch(w.db, c.id, mark.value).value,
                                  hist := w.hist.(begun := w.hist.begun + {mark.value.last})))
  {
  }

  lemma BeginProtocol(w: World, c: Command)
    requires Protocol(w) && c.Begin?
    ensures Protocol(Do(w, c)) && Dispatches(w, Do(w, c))
  {
    BeginEnds(w, c);
    if Do(w, c) != w {
      var mark := DispatchMark(w.db, c.id).value;
      MarkedCommit(w, c.id, mark);
      MarkedWorlds(w, CommitDispatch(w.db, c.id, mark).value, mark);
    }
  }

  /** What the commit that follows a mark leaves. */
  lemma MarkedCommit(w: World, id: int, mark: HighWaterMark)
    requires Protocol(w) && DispatchMark(w.db, id) == Success(mark)
    ensures CommitDispatch(w.db, id, mark).Success? && !NoReserved(w.db.rows)
    ensures mark.generation == w.db.meta.generation + 1 && mark.cumulative >= w.db.meta.cumulative
    ensures var after := CommitDispatch(w.db, id, mark).value;
            && after.meta.generation == mark.generation && after.meta.cumulative == mark.cumulative
            && Valid(after) == true && Grows(w.db.rows, after.rows) == true
            && BegunOk(w.hist.begun, after.rows) == true && Begun(after.rows, mark.last) == true
  {
    DispatchParts(w.db, id, mark);
    var after := CommitDispatch(w.db, id, mark).value;
    DispatchedRows(w.db.rows, after.rows, id, w.db.meta.currentEpoch);
    RowsMoveKeeps(w.hist.begun, w.db.rows, after.rows);
    assert Valid(after) by {
      DispatchKept(w.db, id, mark);
    }
  }

  /** What the last two of them keep. */
  lemma MarkedWorlds(w: World, after: Tables, mark: HighWaterMark)
    requires Protocol(w) && Valid(after) && !NoReserved(w.db.rows)
    requires mark.generation == w.db.meta.generation + 1 && mark.cumulative >= w.db.meta.cumulative
    requires after.meta.generation == mark.generation && after.meta.cumulative == mark.cumulative
    requires Grows(w.db.rows, after.rows) && BegunOk(w.hist.begun, after.rows) && Begun(after.rows, mark.last)
    ensures var marked := w.(ext := Present(mark)); Protocol(marked) && Dispatches(w, marked)
    ensures var both := w.(ext := Present(mark), db := after, hist := w.hist.(begun := w.hist.begun + {mark.last}));
            Protocol(both) && Dispatches(w, both)
  {
  }

  /** What an adoption attempt leaves. */
  predicate Anchors(w: World, after: World) {
    || after == w
    || (&& after.ext.Present? && after.ext.mark.last == 0
        && after.ext.mark.generation
            == 1 + Max(w.db.meta.generation, if w.ext.Present? then w.ext.mark.generation else 0)
        && after.ext.mark.cumulative >= w.db.meta.cumulative
        && after.hist.begun == w.hist.begun
        && after.db.rows == w.db.rows
        && (|| after == w.(ext := after.ext)
            || (&& after.trust.Trusted?
                && after.db.meta.generation == after.ext.mark.generation
                && after.db.meta.cumulative == after.ext.mark.cumulative)))
  }

  lemma AdoptProtocol(w: World, c: Command)
    requires Protocol(w) && c.Adopt?
    ensures Protocol(Do(w, c)) && Anchors(w, Do(w, c))
  {
    StepKeeps(w, c);
    if Anchor(w.db.meta, w.ext).Success? {
      AdoptionSound(w.db, c.adoptions, Anchor(w.db.meta, w.ext).value);
    }
  }

  /** What a restart leaves: nothing waiting to be dispatched, and the ledger
      caught up by one generation exactly when a dispatch was promoted. */
  predicate Reopens(w: World, after: World) {
    var a := Assess(w.db.meta, w.ext, w.db.rows);
    && after.ext == w.ext && after.trust == a.verdict && after.hist == w.hist
    && NoReserved(after.db.rows) && Grows(w.db.rows, after.db.rows)
    && Restarts(w.db, a, w.ext, after.db)
    && (a.promote.Some? ==> w.ext.Present? && w.ext.mark.generation == w.db.meta.generation + 1)
  }

  lemma RestartRows(db: Tables, a: Assessment, external: External, after: Tables)
    requires Restarts(db, a, external, after)
    ensures RowsMove(db.rows, after.rows) && NoReserved(after.rows)
  {
  }

  lemma OpenProtocol(w: World)
    requires Protocol(w)
    ensures Protocol(Do(w, Open)) && Reopens(w, Do(w, Open))
  {
    RestartKept(w);
    RestartRows(w.db, Assess(w.db.meta, w.ext, w.db.rows), w.ext, Do(w, Open).db);
    RowsMoveKeeps(w.hist.begun, w.db.rows, Do(w, Open).db.rows);
    if w.ext.Present? && Assess(w.db.meta, w.ext, w.db.rows).promote.Some? {
      PromotionNamed(w.db, w.ext);
    }
  }

  lemma StepProtocol(w: World, c: Command)
    requires Protocol(w)
    ensures Protocol(Do(w, c))
    ensures c.Open? ==> Reopens(w, Do(w, c))
    ensures c.Begin? ==> Dispatches(w, Do(w, c))
    ensures c.Adopt? ==> Anchors(w, Do(w, c))
    ensures !c.Open? && !c.Begin? && !c.Adopt? ==> Steady(w, Do(w, c))
  {
    if IsGroupCommand(c) {
      GroupProtocol(w, c);
    } else if c.Open? {
      OpenProtocol(w);
    } else if c.Begin? {
      BeginProtocol(w, c);
    } else if c.Adopt? {
      AdoptProtocol(w, c);
    } else if c.Admit? {
      AdmitProtocol(w, c);
    } else if c.RollTo? {
      RollProtocol(w, c);
    } else {
      OtherKept(w, c);
    }
  }

  lemma {:induction false} RunProtocol(w: World, cs: seq<Command>)
    requires Protocol(w)
    ensures Protocol(Run(w, cs))
    decreases |cs|
  {
    if |cs| != 0 {
      StepProtocol(w, cs[0]);
      RunProtocol(Do(w, cs[0]), cs[1..]);
    }
  }

  // ---------------------------------------------------------------------
  // The write-ahead theorem.

  /** Whatever is called, wherever it crashes: once an external record exists
      it is at or ahead of the ledger in generation and in liability, failed
      attempts included; and a ledger that is not trusted has no row that could
      be dispatched, so neither admission nor dispatch does anything. */
  lemma ExternalNeverTrails(cs: seq<Command>, c: Command)
    ensures var w := Run(INITIAL, cs);
            && (w.ext.Present? ==>
                  && w.ext.mark.generation >= w.db.meta.generation
                  && w.ext.mark.cumulative >= w.db.meta.cumulative)
            && (w.ext.Absent? ==> w.db.meta.generation == 0)
            && (!w.trust.Trusted? ==>
                  && NoReserved(w.db.rows)
                  && (c.Begin? || c.Admit? ==> Do(w, c) == w))
  {
    InitialSane();
    RunProtocol(INITIAL, cs);
    var w := Run(INITIAL, cs);
    if c.Begin? {
      BeginProtocol(w, c);
    } else if c.Admit? {
      AdmitProtocol(w, c);
    }
  }

  /** The gap a trusted process can see. */
  predicate Tight(w: World) {
    w.trust.Trusted? && w.ext.Present? ==> w.ext.mark.generation <= w.db.meta.generation + 1
  }

  /** The call writes its external record and then commits nothing: the commit is
      lost, or an adoption in it cannot be made. */
  predicate Halfway(w: World, c: Command) {
    && c.Adopt? && Anchor(w.db.meta, w.ext).Success? && !c.io.NotWritten?
    && (c.io.WrittenNotCommitted? || exists a | a in c.adoptions :: !Adoptable(w.db.pools, a))
  }

  /** A trusted ledger the record is already ahead of, and an adoption that ends
      half way. */
  predicate Widens(w: World, c: Command) {
    && w.trust.Trusted? && Halfway(w, c)
    && w.ext.Present? && w.ext.mark.generation > w.db.meta.generation
  }

  lemma HalfwayWritesOnly(w: World, c: Command)
    requires Sane(w) && c.Adopt?
    ensures Halfway(w, c) ==> Do(w, c) == w.(ext := Present(Anchor(w.db.meta, w.ext).value))
    ensures !Halfway(w, c) ==> Do(w, c) == w || Do(w, c).trust.Trusted?
    ensures !Halfway(w, c) && Do(w, c) != w ==>
              Do(w, c).ext.Present? && Do(w, c).ext.mark.generation == Do(w, c).db.meta.generation
  {
    forall key | key in w.db.pools ensures Counted(w.db.pools[key]) {
      assert PoolOk(w.db.rows, w.db.pools, key);
    }
    RaiseAllSucceeds(w.db.pools, c.adoptions);
  }

  /** Exactly when adopting makes the gap too wide. */
  lemma FailedAdoptionGap(w: World, c: Command)
    requires Protocol(w) && Tight(w) && c.Adopt?
    ensures Tight(Do(w, c)) <==> !Widens(w, c)
  {
    HalfwayWritesOnly(w, c);
  }

  predicate NeverWidens(w: World, cs: seq<Command>)
    decreases |cs|
  {
    |cs| == 0 || (!Widens(w, cs[0]) && NeverWidens(Do(w, cs[0]), cs[1..]))
  }

  predicate AlwaysTight(w: World, cs: seq<Command>)
    decreases |cs|
  {
    Tight(w) && (|cs| == 0 || AlwaysTight(Do(w, cs[0]), cs[1..]))
  }

  lemma StepTight(w: World, c: Command)
    requires Protocol(w) && Tight(w)
    ensures Protocol(Do(w, c)) && (Tight(Do(w, c)) <==> !Widens(w, c))
  {
    StepProtocol(w, c);
    if c.Adopt? {
      FailedAdoptionGap(w, c);
    }
  }

  /** The gap a trusted process can see is at most one all along a run exactly when
      no adoption of a trusted ledger that is already behind ends half way. */
  lemma {:induction false} TrustedGapExactly(w: World, cs: seq<Command>)
    requires Protocol(w) && Tight(w)
    ensures AlwaysTight(w, cs) <==> NeverWidens(w, cs)
    decreases |cs|
  {
    if |cs| != 0 {
      StepTight(w, cs[0]);
      if !Widens(w, cs[0]) {
        TrustedGapExactly(Do(w, cs[0]), cs[1..]);
      } else {
        assert !AlwaysTight(Do(w, cs[0]), cs[1..]);
      }
    }
  }

  /** Adoption is for ledgers that are not trusted, as startup uses it. */
  predicate Disciplined(w: World, c: Command) {
    c.Adopt? ==> !w.trust.Trusted?
  }

  predicate AllDisciplined(w: World, cs: seq<Command>)
    decreases |cs|
  {
    |cs| == 0 || (Disciplined(w, cs[0]) && AllDisciplined(Do(w, cs[0]), cs[1..]))
  }

  /** Startup's use of adoption is always within the condition. */
  lemma {:induction false} TrustedGapAtMostOne(w: World, cs: seq<Command>)
    requires Protocol(w) && Tight(w) && AllDisciplined(w, cs)
    ensures Tight(Run(w, cs)) && AlwaysTight(w, cs)
    decreases |cs|
  {
    if |cs| != 0 {
      StepTight(w, cs[0]);
      TrustedGapAtMostOne(Do(w, cs[0]), cs[1..]);
    }
  }

  lemma AdoptNothing(w: World, io: Durability)
    requires w.db.pools == map[]
    ensures var anchor := Anchor(w.db.meta, w.ext);
            anchor.Success? && !io.NotWritten? ==>
              && Do(w, Adopt([], io)).ext == Present(anchor.value)
              && Do(w, Adopt([], io)).db.pools == map[]
              && Do(w, Adopt([], io)).trust == (if io.Durable? then Trusted else w.trust)
              && Do(w, Adopt([], io)).db.meta ==
                 if io.Durable?
                 then w.db.meta.(generation := anchor.value.generation, cumulative := anchor.value.cumulative)
                 else w.db.meta
  {
  }

  /** The condition is needed: an adoption of a new ledger, and two more that lose
      their commit, leave a trusted ledger two generations behind. */
  lemma GapOfTwo() returns (cs: seq<Command>, last: Command)
    ensures AlwaysTight(INITIAL, cs) && Widens(Run(INITIAL, cs), last)
    ensures var w := Do(Run(INITIAL, cs), last);
            w.trust.Trusted? && w.ext == Present(HighWaterMark(3, 0, 0)) && w.db.meta.generation == 1
  {
    var first := Adopt([], Durable);
    last := Adopt([], WrittenNotCommitted);
    cs := [first, last];
    assert cs[1..] == [last] && [last][1..] == [];
    AdoptNothing(INITIAL, Durable);
    AdoptNothing(Do(INITIAL, first), WrittenNotCommitted);
    AdoptNothing(Do(Do(INITIAL, first), last), WrittenNotCommitted);
    assert Run(INITIAL, cs) == Run(Do(INITIAL, first), [last]) == Do(Do(INITIAL, first), last);
    assert AlwaysTight(Do(INITIAL, first), [last]);
  }
}
