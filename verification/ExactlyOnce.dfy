/**
Exactly-once resolution: whatever the interleaving, a group that was sent keeps
its liability reserved until one piece of evidence resolves it, and is then
charged once per epoch it spans and never changes again.
*/
module ExactlyOnce {
  import opened Results
  import opened ReservationState
  import opened Tables
  import opened Trust
  import opened Transactions
  import opened LedgerInvariant
  import opened GroupTransitions
  import opened Runs
  import opened WriteAhead
  import opened Accounts
  import opened RowEffects
  import opened Supervision
  import opened Resolution
  import opened Interleaving
  import Rollback

  /** What this evidence charges, in every epoch the group spans. */
  function ChargeFor(r: Row, e: Evidence): int {
    match e
    case Reported(response, rev) =>
      var usage := Validate(r, response, rev);
      if usage.Success? then usage.value else r.liability
    case GivenUp(_) => r.liability
    case RefusedWith(_) => 0
  }

  /** Unresolved: the liability is held, and nothing charged, by a row in every
      epoch opened since the group was admitted. */
  predicate HeldThroughout(w: World, id: int) {
    var rows := w.db.rows;
    && Head(rows, id)
    && (forall i | 0 <= i < |rows| && rows[i].root == id ::
          && PossiblySent(rows[i].state)
          && rows[i].liability == rows[id - 1].liability
          && Weight(rows[i], Held) == rows[i].liability
          && Weight(rows[i], Charged) == 0)
    && (forall e | e in w.hist.epochs && rows[id - 1].epoch <= e :: InEpoch(rows, id, e))
  }

  /** Resolved: nothing is held any longer, and each of the group's rows, one to
      an epoch, charges exactly what the evidence says. */
  predicate ChargedFor(rows: seq<Row>, id: int, e: Evidence) {
    && Head(rows, id)
    && (forall i | 0 <= i < |rows| && rows[i].root == id ::
          && Weight(rows[i], Held) == 0
          && Weight(rows[i], Charged) == ChargeFor(rows[id - 1], e))
    && (forall i, j | 0 <= i < j < |rows| && rows[i].root == id && rows[j].root == id :: rows[i].epoch != rows[j].epoch)
  }

  lemma HeldOk(w: World, id: int)
    requires Recorded(w) && Head(w.db.rows, id) && PossiblySent(w.db.rows[id - 1].state)
    ensures HeldThroughout(w, id)
  {
    HeldRows(w.db.rows, w.db.meta.currentEpoch, id);
    forall e | e in w.hist.epochs && w.db.rows[id - 1].epoch <= e ensures InEpoch(w.db.rows, id, e) {
      ActiveSpans(w.db.rows, w.hist.epochs, w.db.meta.currentEpoch, id - 1, e);
    }
  }

  lemma HeldRows(rows: seq<Row>, current: int, id: int)
    requires RowsOk(rows, current) && Head(rows, id) && PossiblySent(rows[id - 1].state)
    ensures forall i | 0 <= i < |rows| && rows[i].root == id ::
              && PossiblySent(rows[i].state)
              && rows[i].liability == rows[id - 1].liability
              && Weight(rows[i], Held) == rows[i].liability
              && Weight(rows[i], Charged) == 0
  {
    forall i: nat | i < |rows| && rows[i].root == id
      ensures rows[i].state == rows[id - 1].state && rows[i].liability == rows[id - 1].liability
    {
      SameGroup(rows, i, id - 1, current);
    }
  }

  lemma ChargedOk(rows: seq<Row>, current: int, id: int, e: Evidence)
    requires RowsOk(rows, current) && EntryOk(rows, (id, e))
    ensures ChargedFor(rows, id, e)
  {
    forall i: nat | i < |rows| && rows[i].root == id
      ensures Weight(rows[i], Held) == 0 && Weight(rows[i], Charged) == ChargeFor(rows[id - 1], e)
    {
      SameGroup(rows, i, id - 1, current);
    }
    forall i, j | 0 <= i < j < |rows| && rows[i].root == id
        && rows[j].root == id ensures rows[i].epoch != rows[j].epoch {
      assert rows[i].root == rows[j].root;
    }
  }

  /** Entry `k` is the one piece of evidence about group `id`. */
  predicate OnlyEvidence(evidence: seq<(int, Evidence)>, k: nat, id: int) {
    k < |evidence| && forall j | 0 <= j < |evidence| :: evidence[j].0 == id <==> j == k
  }

  /** Exactly-once resolution. In every run of supervisors, sweeps, admissions,
      rollovers, adoptions and crashes, a group whose request was handed to
      upstream is either held in full in every epoch it spans, or has exactly one
      piece of evidence and is charged by it exactly once in each. */
  lemma SentIsHeldOrChargedOnce(es: seq<Event>, id: int)
    requires id in Play(START, es).sent
    ensures var s := Play(START, es);
            if Resolves(s.evidence, id)
            then exists k: nat :: OnlyEvidence(s.evidence, k, id) && ChargedFor(s.world.db.rows, id, s.evidence[k].1)
            else HeldThroughout(s.world, id)
  {
    var s := Play(START, es);
    StartOk();
    PlayOk(START, es);
    assert Begun(s.world.db.rows, id);
    if Resolves(s.evidence, id) {
      ResolvedOnce(s.world.db.rows, s.world.db.meta.currentEpoch, s.evidence, id);
    } else {
      assert EvidenceOk(s.world.db.rows, s.evidence) && s.world.db.rows[id - 1].root == (id - 1) + 1;
      HeldOk(s.world, id);
    }
  }

  lemma ResolvedOnce(rows: seq<Row>, current: int, evidence: seq<(int, Evidence)>, id: int)
    requires RowsOk(rows, current) && EvidenceOk(rows, evidence) && Resolves(evidence, id)
    ensures exists k: nat :: OnlyEvidence(evidence, k, id) && ChargedFor(rows, id, evidence[k].1)
  {
    var k :| 0 <= k < |evidence| && evidence[k].0 == id;
    assert EntryOk(rows, evidence[k]) && evidence[k] == (id, evidence[k].1);
    ChargedOk(rows, current, id, evidence[k].1);
    forall j | 0 <= j < |evidence| ensures evidence[j].0 == id <==> j == k {
      assert j < k || k < j || j == k;
    }
    assert OnlyEvidence(evidence, k, id);
  }

  // ---------------------------------------------------------------------
  // Never again.

  /** A group that has left the active states, for any reason. */
  predicate Closed(rows: seq<Row>, id: int) {
    Head(rows, id) && Final(rows[id - 1].state)
  }

  lemma StepFreezes(s: System, e: Event, id: int)
    requires SystemOk(s) && Closed(s.world.db.rows, id)
    ensures Frozen(s.world.db.rows, Step(s, e).world.db.rows, id)
  {
    WorldStep(s, e);
    if Step(s, e).world != s.world {
      var c :| Step(s, e).world == Do(s.world, c);
      FinalIsFrozen(s.world, c, id);
    }
  }

  lemma FrozenTwice(rows: seq<Row>, next: seq<Row>, later: seq<Row>, id: int)
    requires Frozen(rows, next, id) && Frozen(next, later, id)
    ensures Frozen(rows, later, id)
  {
  }

  /** Whatever happens afterwards, crashes and rollovers included, the rows of a
      closed group stay as they are and it gains no others. */
  lemma {:induction false} NeverAgain(s: System, more: seq<Event>, id: int)
    requires SystemOk(s) && Closed(s.world.db.rows, id)
    ensures Frozen(s.world.db.rows, Play(s, more).world.db.rows, id)
    decreases |more|
  {
    if |more| != 0 {
      StepFreezes(s, more[0], id);
      assert SystemOk(Step(s, more[0])) by {
        SystemStep(s, more[0]);
      }
      NeverAgain(Step(s, more[0]), more[1..], id);
      FrozenTwice(s.world.db.rows, Step(s, more[0]).world.db.rows, Play(s, more).world.db.rows, id);
    }
  }

  lemma UnsentNow(s: System, id: int)
    requires SystemOk(s) && Head(s.world.db.rows, id) && s.world.db.rows[id - 1].state.ReleasedUnsent?
    ensures id !in s.sent
  {
    assert id in s.sent ==> Begun(s.world.db.rows, id);
  }

  /** In any run, once a group has been released as unsent, by a supervisor or
      by a restart, its request was never handed to upstream and never will be. */
  lemma ReleasedUnsentWasNeverSent(es: seq<Event>, more: seq<Event>, id: int)
    requires Head(Play(START, es).world.db.rows, id)
    requires Play(START, es).world.db.rows[id - 1].state.ReleasedUnsent?
    ensures id !in Play(Play(START, es), more).sent
  {
    var s := Play(START, es);
    StartOk();
    PlayOk(START, es);
    StaysUnsent(s, more, id);
  }

  lemma StaysUnsent(s: System, more: seq<Event>, id: int)
    requires SystemOk(s) && Head(s.world.db.rows, id) && s.world.db.rows[id - 1].state.ReleasedUnsent?
    ensures id !in Play(s, more).sent
  {
    PlayOk(s, more);
    NeverAgain(s, more, id);
    UnsentNow(Play(s, more), id);
  }

  /** And a group is charged, or released as refused, only with evidence. */
  lemma ClosedOnEvidence(es: seq<Event>, id: int)
    requires Closed(Play(START, es).world.db.rows, id)
    ensures var s := Play(START, es);
            s.world.db.rows[id - 1].state.ReleasedUnsent? || Resolves(s.evidence, id)
  {
    var s := Play(START, es);
    StartOk();
    PlayOk(START, es);
    assert EvidenceOk(s.world.db.rows, s.evidence) && s.world.db.rows[id - 1].root == (id - 1) + 1;
  }

  // ---------------------------------------------------------------------
  // What a supervisor's ledger calls can meet.

  lemma OwnCallAdmitted(s: System, e: Event)
    requires SupervisorsOk(s.world.db.rows, s.supervisors, s.world.hist.begun, s.sent)
    requires ByActor(s, e) && !BySweep(e)
    ensures var c := CallOf(s, e).value;
            && Head(s.world.db.rows, e.id) && c.id == e.id
            && (AllowedFrom(Needs(c), s.world.db.rows[e.id - 1].state)
                || (e.Names? && (s.supervisors[e.id].phase.name.Some? || s.supervisors[e.id].phase.settled))
                || ((e.Completes? || e.Abandons? || e.Ends?) && Closed(s.world.db.rows, e.id)))
  {
    OwnerKnows(s, e);
  }

  /** In any run, short of the storage itself failing (`Breaks`): releasing an unsent
      request, releasing a refused one and holding an unknown one never fail;
      attaching fails only for a second id; settling and writing off fail only on
      overflow, or because retrieval resolved the group first; and beginning fails
      only with the disk or on overflow. No race between actors loses a reservation. */
  lemma SupervisorCallsSucceed(es: seq<Event>, e: Event)
    requires ByActor(Play(START, es), e) && !BySweep(e) && !CallSucceeds(Play(START, es), e)
    ensures var s := Play(START, es);
            var outcome := Outcome(s.world, CallOf(s, e).value);
            || (e.Begins? && (!e.io.Durable? || outcome == Some(Overflow)))
            || (e.Names? && e.id in s.supervisors
                && (s.supervisors[e.id].phase.name.Some? || s.supervisors[e.id].phase.settled))
            || ((e.Completes? || e.Abandons? || e.Ends?)
                && (outcome == Some(Overflow) || Closed(s.world.db.rows, e.id)))
  {
    var s := Play(START, es);
    StartOk();
    PlayOk(START, es);
    FailedCallExplained(s, e);
  }

  lemma FailedCallExplained(s: System, e: Event)
    requires Sane(s.world) && ActorsOk(s) && ByActor(s, e) && !BySweep(e) && !CallSucceeds(s, e)
    ensures var outcome := Outcome(s.world, CallOf(s, e).value);
            || (e.Begins? && (!e.io.Durable? || outcome == Some(Overflow)))
            || (e.Names? && e.id in s.supervisors
                && (s.supervisors[e.id].phase.name.Some? || s.supervisors[e.id].phase.settled))
            || ((e.Completes? || e.Abandons? || e.Ends?)
                && (outcome == Some(Overflow) || Closed(s.world.db.rows, e.id)))
  {
    var c := CallOf(s, e).value;
    OwnCallAdmitted(s, e);
    OwnerKnows(s, e);
    if e.Begins? {
      BeginFails(s.world, c);
    } else if AllowedFrom(Needs(c), s.world.db.rows[e.id - 1].state) {
      GroupSucceeds(s.world, c);
    }
  }

  lemma BeginFails(w: World, c: Command)
    requires Sane(w) && c.Begin? && Admits(w.db.rows, c.id, BeginDispatch) && !Succeeds(w, c)
    ensures !c.io.Durable? || Outcome(w, c) == Some(Overflow)
  {
    MarkExactly(w.db, c.id);
    if DispatchMark(w.db, c.id).Success? {
      DispatchSound(w.db, c.id, DispatchMark(w.db, c.id).value);
    }
  }

  // ---------------------------------------------------------------------
  // Nothing is left behind.

  lemma {:induction false} OpenListed(rows: seq<Row>, k: nat)
    requires k < |rows| && IsOpen(rows[k])
    ensures Snapshot(rows[k].root, rows[k].state, rows[k].responseId) in OpenDispatches(rows)
  {
    if k > 0 {
      OpenListed(rows[1..], k - 1);
    }
  }

  /** A supervisor that ended without a ledger failure leaves its group closed, or
      among the open dispatches, where the next sweep finds it: never reserved with
      nobody to send it, nor mid-dispatch with nobody to finish it. */
  lemma EndedLeavesNothingBehind(es: seq<Event>, id: int)
    requires var s := Play(START, es); id in s.supervisors && s.supervisors[id].phase.Ended?
    ensures var rows := Play(START, es).world.db.rows;
            && Head(rows, id)
            && (Closed(rows, id) || Snapshot(id, rows[id - 1].state, rows[id - 1].responseId) in OpenDispatches(rows))
  {
    var s := Play(START, es);
    StartOk();
    PlayOk(START, es);
    EndedIsListed(s, id);
  }

  lemma EndedIsListed(s: System, id: int)
    requires ActorsOk(s) && RowsOk(s.world.db.rows, s.world.db.meta.currentEpoch)
    requires id in s.supervisors && s.supervisors[id].phase.Ended?
    ensures var rows := s.world.db.rows;
            && Head(rows, id)
            && (Closed(rows, id) || Snapshot(id, rows[id - 1].state, rows[id - 1].responseId) in OpenDispatches(rows))
  {
    var rows := s.world.db.rows;
    assert Head(rows, id);
    assert Placed(rows, id - 1, s.world.db.meta.currentEpoch);
    if !Closed(rows, id) {
      OpenListed(rows, id - 1);
    }
  }

  /** Whatever a failed call left half done, the next start picks up: every group is
      then closed, or among the open dispatches. */
  lemma RestartLeavesNothingBehind(es: seq<Event>, id: int)
    requires Head(Step(Play(START, es), Crashes).world.db.rows, id)
    ensures var rows := Step(Play(START, es), Crashes).world.db.rows;
            Closed(rows, id) || Snapshot(id, rows[id - 1].state, rows[id - 1].responseId) in OpenDispatches(rows)
  {
    var s := Play(START, es);
    StartOk();
    PlayOk(START, es);
    RestartListsAll(s.world, id);
  }

  lemma RestartListsAll(w: World, id: int)
    requires Sane(w) && Head(Do(w, Command.Open).db.rows, id)
    ensures var rows := Do(w, Command.Open).db.rows;
            Closed(rows, id) || Snapshot(id, rows[id - 1].state, rows[id - 1].responseId) in OpenDispatches(rows)
  {
    RestartKept(w);
    var rows := Do(w, Command.Open).db.rows;
    assert Placed(rows, id - 1, Do(w, Command.Open).db.meta.currentEpoch);
    if !Closed(rows, id) {
      assert !rows[id - 1].state.Reserved? && !rows[id - 1].state.Dispatching?;
      OpenListed(rows, id - 1);
    }
  }

  // ---------------------------------------------------------------------
  // What was sent survives a restore.

  lemma {:induction false} PlaySince(snapshot: World, s: System, es: seq<Event>)
    requires SystemOk(s) && Rollback.Since(snapshot, s.world)
    ensures Rollback.Since(snapshot, Play(s, es).world)
    decreases |es|
  {
    if |es| != 0 {
      var next := Step(s, es[0]);
      WorldStep(s, es[0]);
      if next.world != s.world {
        var c :| next.world == Do(s.world, c);
        Rollback.SinceStep(snapshot, s.world, c);
      }
      assert SystemOk(next) by {
        SystemStep(s, es[0]);
      }
      PlaySince(snapshot, next, es[1..]);
    }
  }

  /** Rollback safety in terms of what was sent. Take any run of the whole system,
      a snapshot of its ledger, and any continuation; restore the snapshot and open
      it. Under an interpretable verdict every request ever handed to upstream is
      still accounted for, and no group that opening releases was ever sent. */
  lemma SentSurvivesRestore(before: seq<Event>, since: seq<Event>)
    ensures var s := Play(START, before);
            var w := Play(s, since);
            var after := Rollback.Restored(s.world, w.world);
            Trust.Interpretable(after.trust) ==>
              && (forall id | id in w.sent :: Rollback.Accounted(after.db.rows, id))
              && (forall i | 0 <= i < |s.world.db.rows| && i < |after.db.rows|
                    && s.world.db.rows[i].state.Reserved? && after.db.rows[i].state.ReleasedUnsent? ::
                    s.world.db.rows[i].root !in w.sent)
  {
    var s := Play(START, before);
    var w := Play(s, since);
    StartOk();
    PlayOk(START, before);
    PlayOk(s, since);
    PlaySince(s.world, s, since);
    if Trust.Interpretable(Rollback.Restored(s.world, w.world).trust) {
      Rollback.RestoreLosesNothing(s.world, w.world);
    }
  }
}
