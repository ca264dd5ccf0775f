/**
Restoring the ledger from an older snapshot, with the external record intact.
*/
module Rollback {
  import opened Results
  import opened ReservationState
  import opened Tables
  import opened Trust
  import opened Transactions
  import opened LedgerInvariant
  import GroupTransitions
  import opened Recovery
  import opened Runs
  import opened WriteAhead

  /** What relates a snapshot to a later state of the same history. While the
      generations agree nothing more has been dispatched; one generation later,
      with the external record at that generation, at most the group the record
      names has. */
  predicate Since(s: World, w: World) {
    && Grows(s.db.rows, w.db.rows)
    && s.db.meta.generation <= w.db.meta.generation
    && (w.db.meta.generation == s.db.meta.generation ==> w.hist.begun == s.hist.begun)
    && (w.db.meta.generation == s.db.meta.generation + 1 && w.ext.Present?
        && w.ext.mark.generation == w.db.meta.generation ==>
          w.hist.begun <= s.hist.begun + {w.ext.mark.last})
  }

  lemma SinceStep(s: World, w: World, c: Command)
    requires Protocol(w) && Since(s, w)
    ensures Since(s, Do(w, c))
  {
    StepProtocol(w, c);
  }

  lemma {:induction false} SinceRun(s: World, w: World, cs: seq<Command>)
    requires Protocol(w) && Since(s, w)
    ensures Since(s, Run(w, cs))
    decreases |cs|
  {
    if |cs| != 0 {
      SinceStep(s, w, cs[0]);
      StepProtocol(w, cs[0]);
      SinceRun(s, Do(w, cs[0]), cs[1..]);
    }
  }

  /** The ledger of `s` put back under the external record of `w`, and opened. */
  function Restored(s: World, w: World): World {
    Do(w.(db := s.db), Open)
  }

  /** A group whose dispatch committed is still accounted as possibly sent, or
      resolved by evidence. */
  predicate Accounted(rows: seq<Row>, root: int) {
    && Begun(rows, root)
    && forall i | 0 <= i < |rows| && rows[i].root == root :: rows[i].state == rows[root - 1].state
  }

  lemma RestoredKeeps(s: World, w: World)
    requires Protocol(s) && Protocol(w)
    ensures RowsMove(s.db.rows, Restored(s, w).db.rows) == true
    ensures RowsOk(Restored(s, w).db.rows, Restored(s, w).db.meta.currentEpoch) == true
  {
    var r := w.(db := s.db);
    RestartKept(r);
    RestartRows(s.db, Assess(s.db.meta, w.ext, s.db.rows), w.ext, Restored(s, w).db);
  }

  lemma MovedBegun(rows: seq<Row>, later: seq<Row>, root: int)
    requires RowsMove(rows, later) && Begun(rows, root)
    ensures Begun(later, root)
  {
  }

  /** The one group sent since the snapshot is the one the record names, and
      opening promotes it. */
  lemma PromotedBegun(s: World, w: World)
    requires Protocol(s) && Protocol(w) && Assess(s.db.meta, w.ext, s.db.rows).promote.Some?
    ensures w.ext.Present? && 1 <= w.ext.mark.last <= |s.db.rows|
    ensures s.db.rows[w.ext.mark.last - 1].root == w.ext.mark.last ==> Begun(Restored(s, w).db.rows, w.ext.mark.last)
  {
    RestartKept(w.(db := s.db));
    PromotionNamed(s.db, w.ext);
  }

  lemma RestoredRow(s: World, w: World, root: int)
    requires Protocol(s) && Protocol(w) && Since(s, w) && root in w.hist.begun
    requires Interpretable(Restored(s, w).trust)
    ensures Begun(Restored(s, w).db.rows, root)
  {
    if root in s.hist.begun {
      RestoredKeeps(s, w);
      MovedBegun(s.db.rows, Restored(s, w).db.rows, root);
    } else {
      NamedSince(s, w, root);
      PromotedBegun(s, w);
    }
  }

  /** A group begun since an interpretable snapshot is the one the record names. */
  lemma NamedSince(s: World, w: World, root: int)
    requires Protocol(s) && Protocol(w) && Since(s, w) && root in w.hist.begun && root !in s.hist.begun
    requires Interpretable(Assess(s.db.meta, w.ext, s.db.rows).verdict)
    ensures Assess(s.db.meta, w.ext, s.db.rows).promote == Some(root)
    ensures w.ext.mark.last == root && 1 <= root <= |s.db.rows| && s.db.rows[root - 1].root == root
  {
    assert Begun(w.db.rows, root);
    if Assess(s.db.meta, w.ext, s.db.rows).promote.Some? {
      PromotionNamed(s.db, w.ext);
    }
  }

  /** What a restore must not lose. */
  predicate NothingLost(s: World, w: World, after: World) {
    && (forall root | root in w.hist.begun :: Accounted(after.db.rows, root))
    && (forall i | 0 <= i < |s.db.rows| && i < |after.db.rows| && s.db.rows[i].state.Reserved?
        && after.db.rows[i].state.ReleasedUnsent? ::
          s.db.rows[i].root !in w.hist.begun)
  }

  lemma OneState(rows: seq<Row>, current: int, root: int)
    requires RowsOk(rows, current) && Begun(rows, root)
    ensures Accounted(rows, root)
  {
    forall i | 0 <= i < |rows| && rows[i].root == root ensures rows[i].state == rows[root - 1].state {
      SameGroup(rows, i, root - 1, current);
    }
  }

  /** A released row is not of a group that is accounted for. */
  lemma ReleasedNotBegun(rows: seq<Row>, later: seq<Row>, i: nat, begun: set<int>)
    requires RowsMove(rows, later) && i < |rows| && later[i].state.ReleasedUnsent?
    requires forall root | root in begun :: Accounted(later, root)
    ensures rows[i].root !in begun
  {
  }

  lemma RestoreLosesNothing(s: World, w: World)
    requires Protocol(s) && Protocol(w) && Since(s, w)
    requires Interpretable(Restored(s, w).trust)
    ensures NothingLost(s, w, Restored(s, w))
  {
    var after := Restored(s, w).db;
    RestoredKeeps(s, w);
    forall root | root in w.hist.begun ensures Accounted(after.rows, root) {
      RestoredRow(s, w, root);
      OneState(after.rows, after.meta.currentEpoch, root);
    }
    forall i | 0 <= i < |s.db.rows| && after.rows[i].state.ReleasedUnsent? ensures s.db.rows[i].root !in w.hist.begun {
      ReleasedNotBegun(s.db.rows, after.rows, i, w.hist.begun);
    }
  }

  /** Rollback safety. Take any run, a snapshot of it, and any continuation;
      restore the snapshot and open it. If the verdict lets rows be interpreted,
      every group whose dispatch ever committed still stands, as one group,
      neither RESERVED nor RELEASED_UNSENT; and no group that opening releases
      was ever dispatched. */
  lemma RollbackSafety(before: seq<Command>, since: seq<Command>)
    ensures var s := Run(INITIAL, before);
            var w := Run(s, since);
            Interpretable(Restored(s, w).trust) ==> NothingLost(s, w, Restored(s, w))
  {
    var s := Run(INITIAL, before);
    InitialSane();
    RunProtocol(INITIAL, before);
    RunProtocol(s, since);
    SinceRun(s, s, since);
    if Interpretable(Restored(s, Run(s, since)).trust) {
      RestoreLosesNothing(s, Run(s, since));
    }
  }

  // ---------------------------------------------------------------------
  // Every other verdict.

  /** Distrusted, with nothing to dispatch, and bound to be distrusted again at
      every restart, however cleanly it shuts down. */
  predicate Stuck(w: World) {
    && !w.trust.Trusted?
    && NoReserved(w.db.rows)
    && forall clean :: !Interpretable(Assess(w.db.meta.(clean := clean), w.ext, w.db.rows).verdict)
  }

  lemma {:induction false} LookupIsRow(rows: seq<Row>, id: int)
    ensures Lookup(rows, id).Some? ==> Lookup(rows, id).value in rows && Lookup(rows, id).value.id == id
  {
    if |rows| != 0 {
      LookupIsRow(rows[1..], id);
      assert rows == [rows[0]] + rows[1..];
    }
  }

  /** With nothing RESERVED, only exact agreement with the external record is
      ever interpreted. */
  lemma NothingToPromote(meta: Meta, external: External, rows: seq<Row>)
    requires NoReserved(rows)
    ensures Interpretable(Assess(meta, external, rows).verdict) <==>
              && external.Present?
              && external.mark.generation == meta.generation
              && external.mark.cumulative == meta.cumulative
  {
    if external.Present? {
      LookupIsRow(rows, external.mark.last);
    }
  }

  lemma OpeningSticks(w: World)
    requires Sane(w) && !Interpretable(Do(w, Open).trust)
    ensures Stuck(Do(w, Open))
  {
    RestartKept(w);
    var after := Do(w, Open);
    RestartRows(w.db, Assess(w.db.meta, w.ext, w.db.rows), w.ext, after.db);
    forall clean ensures !Interpretable(Assess(after.db.meta.(clean := clean), after.ext, after.db.rows).verdict) {
      NothingToPromote(after.db.meta.(clean := clean), after.ext, after.db.rows);
      if w.ext.Present? {
        LookupIsRow(w.db.rows, w.ext.mark.last);
      }
    }
  }

  /** The position relative to the external record is what keeps it stuck. */
  lemma StuckExactly(w: World)
    requires !w.trust.Trusted? && NoReserved(w.db.rows)
    ensures Stuck(w) <==> !(&& w.ext.Present?
                            && w.ext.mark.generation == w.db.meta.generation
                            && w.ext.mark.cumulative == w.db.meta.cumulative)
  {
    forall clean ensures Interpretable(Assess(w.db.meta.(clean := clean), w.ext, w.db.rows).verdict) <==>
      (w.ext.Present? && w.ext.mark.generation == w.db.meta.generation && w.ext.mark.cumulative == w.db.meta.cumulative)
    {
      NothingToPromote(w.db.meta.(clean := clean), w.ext, w.db.rows);
    }
    assert w.db.meta == w.db.meta.(clean := w.db.meta.clean);
  }

  lemma StuckStep(w: World, c: Command)
    requires Sane(w) && Stuck(w) && !(c.Adopt? && Do(w, c).trust.Trusted?)
    ensures Sane(Do(w, c)) && Stuck(Do(w, c)) && Do(w, c).hist.begun == w.hist.begun
    ensures c.Admit? || c.Begin? ==> Do(w, c) == w
  {
    StepKeeps(w, c);
    StuckExactly(w);
    var after := Do(w, c);
    if IsGroupCommand(c) {
      GroupRows(w, c);
      StuckExactly(after);
    } else if c.Open? {
      RestartKept(w);
      assert w.db.meta == w.db.meta.(clean := w.db.meta.clean);
      OpeningSticks(w);
    } else if c.Begin? {
      if DispatchMark(w.db, c.id).Success? {
        GroupTransitions.DispatchParts(w.db, c.id, DispatchMark(w.db, c.id).value);
      }
    } else if c.RollTo? {
      StuckRolls(w, c);
      StuckExactly(after);
    } else {
      StuckExactly(after);
    }
  }

  lemma StuckRolls(w: World, c: Command)
    requires Sane(w) && NoReserved(w.db.rows) && c.RollTo?
    ensures NoReserved(Do(w, c).db.rows)
    ensures Do(w, c).db.meta.generation == w.db.meta.generation && Do(w, c).db.meta.cumulative == w.db.meta.cumulative
    ensures Do(w, c).ext == w.ext && Do(w, c).trust == w.trust && Do(w, c).hist.begun == w.hist.begun
  {
    if Do(w, c) != w {
      assert DailyRollover.Advances(w.db, c.epoch, c.grants, Do(w, c).db) by {
        DailyRollover.RolloverSound(w.db, c.epoch, c.grants);
      }
      RolledRows(w.db.rows, w.db.meta.currentEpoch, c.epoch, {});
    }
  }

  predicate NoAdoption(w: World, cs: seq<Command>)
    decreases |cs|
  {
    |cs| == 0 || (!(cs[0].Adopt? && Do(w, cs[0]).trust.Trusted?) && NoAdoption(Do(w, cs[0]), cs[1..]))
  }

  /** A ledger opened with any other verdict admits and dispatches nothing,
      through any calls, clean shutdowns and restarts, until consumption is
      adopted. */
  lemma {:induction false} NothingUntilAdoption(w: World, cs: seq<Command>)
    requires Sane(w) && Stuck(w) && NoAdoption(w, cs)
    ensures Sane(Run(w, cs)) && Stuck(Run(w, cs)) && Run(w, cs).hist.begun == w.hist.begun
    decreases |cs|
  {
    if |cs| != 0 {
      StuckStep(w, cs[0]);
      NothingUntilAdoption(Do(w, cs[0]), cs[1..]);
    }
  }

  /** The same for a restored snapshot: unless opening it finds the rows
      interpretable, nothing is ever admitted or sent again before adoption. */
  lemma RestoredAdmitsNothing(before: seq<Command>, since: seq<Command>, later: seq<Command>)
    ensures var s := Run(INITIAL, before);
            var w := Run(s, since);
            var reopened := Restored(s, w);
            !Interpretable(reopened.trust) && NoAdoption(reopened, later) ==>
              var end := Run(reopened, later);
              && !end.trust.Trusted? && NoReserved(end.db.rows) && end.hist.begun == w.hist.begun
  {
    var s := Run(INITIAL, before);
    var w := Run(s, since);
    InitialSane();
    RunKeeps(INITIAL, before);
    RunKeeps(s, since);
    var reopened := Restored(s, w);
    if !Interpretable(reopened.trust) && NoAdoption(reopened, later) {
      RestartKept(w.(db := s.db));
      OpeningSticks(w.(db := s.db));
      NothingUntilAdoption(reopened, later);
    }
  }

  /** An unclean shutdown is the one distrust that needs no adoption: marking
      the distrusted ledger clean and reopening it makes it trusted. */
  lemma UncleanClearsItself(w: World)
    requires Sane(w) && Do(w, Open).trust == Unknown(UncleanShutdown)
    ensures Do(Do(Do(w, Open), CleanClose), Open).trust == Trusted
  {
    RestartKept(w);
    var after := Do(w, Open);
    RestartRows(w.db, Assess(w.db.meta, w.ext, w.db.rows), w.ext, after.db);
    NothingToPromote(after.db.meta.(clean := true), after.ext, after.db.rows);
    if Assess(w.db.meta, w.ext, w.db.rows).promote.Some? {
      PromotionNamed(w.db, w.ext);
    }
  }
}
